/**
 Motion-blur sub-frame scheduling: each frame exports the scene at the sample times of its
 shutter interval, skips times exported for an earlier frame, and drops what the shutter has
 left behind. Times are real numbers.
 */
module MotionBlur {
  import opened Wrappers

  /** The shutter of one frame: what calcParams computes. */
  datatype Shutter = Shutter(start: real, duration: real, samples: int) {
    function End(): real { start + duration }
    function Gaps(): int { Max(samples - 1, 1) }
    function Inc(): real { duration / Gaps() as real }
    function Sample(i: nat): real { start + i as real * Inc() }
  }

  function Clamp(t: real): real {
    if t >= 0.0 then t else 0.0
  }

  /** A time at which this shutter needs the scene. */
  ghost predicate Needs(s: Shutter, t: real) {
    exists i: nat :: i <= s.Gaps() && t == Clamp(s.Sample(i))
  }

  class MotionBlurParams {
    var geomSamples: int
    var duration: real
    var intervalCenter: real
    var start: real
    var end: real
    var frameInc: real

    function AsShutter(): Shutter
      reads this
    {
      Shutter(start, duration, geomSamples)
    }

    method CalcParams(currFrame: real)
      modifies this`start, this`end, this`frameInc
      ensures AsShutter() == ShutterAt(currFrame, duration, intervalCenter, geomSamples)
      ensures end == AsShutter().End() && frameInc == AsShutter().Inc()
      ensures (start + end) / 2.0 == currFrame + duration * intervalCenter && end - start == duration
      ensures geomSamples >= 2 ==> frameInc * (geomSamples - 1) as real == duration
      ensures geomSamples < 2 ==> frameInc == duration
    {
      start := currFrame - duration * (0.5 - intervalCenter);
      end := start + duration;
      frameInc := duration / Max(geomSamples - 1, 1) as real;
    }
  }

  function ShutterAt(frame: real, duration: real, center: real, samples: int): Shutter {
    Shutter(frame - duration * (0.5 - center), duration, samples)
  }

  // -------------------------------------------------------------- frame export

  /**
   Times marked as exported, times with a keyframe in the renderer, and all scene exports so
   far in order.
   */
  datatype State = State(exported: set<real>, keys: set<real>, log: seq<real>)

  /**
   How the renderer forgets: only when every frame goes to its own file, and then up to a
   time that it includes or not.
   */
  datatype Clearing = Clearing(perFrame: bool, inclusive: bool) {
    predicate Clears(t: real, toTime: real) {
      perFrame && (t < toTime || (inclusive && t == toTime))
    }
  }

  function Trim(s: State, c: Clearing, start: real): State {
    State((set t | t in s.exported && t >= start), (set t | t in s.keys && !c.Clears(t, start)), s.log)
  }

  function ExportAt(s: State, t: real): State {
    if t in s.exported then s else State(s.exported + {t}, s.keys + {t}, s.log + [t])
  }

  /** The first k samples of a shutter. */
  function ExportSamples(s: State, sh: Shutter, k: nat): State {
    if k == 0 then s else ExportAt(ExportSamples(s, sh, k - 1), Clamp(sh.Sample(k - 1)))
  }

  /** The number of sub-frames the loop visits: none when the duration is negative. */
  function Visits(sh: Shutter): nat {
    if sh.duration < 0.0 then 0 else sh.Gaps() + 1
  }

  /** Sub-frames visited when the operation is aborted after alive of them. */
  function Visited(sh: Shutter, alive: Option<nat>): nat
    requires sh.duration != 0.0 || alive.Some?
  {
    if alive.None? then Visits(sh)
    else if sh.duration == 0.0 then alive.value
    else Min(alive.value, Visits(sh))
  }

  function Exported(s: State, c: Clearing, sh: Shutter, alive: Option<nat>): State
    requires sh.duration != 0.0 || alive.Some?
  {
    ExportSamples(Trim(s, c, sh.start), sh, Visited(sh, alive))
  }

  /** The loop visits exactly the first Visits(sh) samples. */
  lemma GuardHoldsWhile(sh: Shutter, i: nat)
    requires sh.duration != 0.0 && i <= Visits(sh)
    ensures sh.Sample(i) <= sh.End() <==> i < Visits(sh)
  {
    var n := sh.Gaps();
    var inc := sh.Inc();
    assert sh.duration == inc * n as real;
    if sh.duration > 0.0 {
      assert inc > 0.0;
      if i <= n {
        assert (n - i) as real * inc >= 0.0;
      } else {
        assert (i - n) as real * inc > 0.0;
      }
    }
  }

  /** Without blur duration the sub-frame never advances: the loop would run until aborted. */
  lemma ZeroDurationNeverEnds(sh: Shutter, i: nat)
    requires sh.duration == 0.0
    ensures sh.Sample(i) <= sh.End() && sh.Sample(i) == sh.start
  {
    assert sh.Inc() == 0.0;
  }

  lemma NextSample(sh: Shutter, i: nat)
    ensures sh.Sample(i) + sh.Inc() == sh.Sample(i + 1)
  {
  }

  /** Where a set iterator stands next; the order is of no consequence. */
  method NextOf<T>(s: set<T>) returns (t: T)
    requires s != {}
    ensures t in s
  {
    t :| t in s;
  }

  class Exporter {
    var exportedFrames: set<real>
    var keyFrames: set<real>
    ghost var log: seq<real>
    const clearing: Clearing

    ghost function Now(): State
      reads this
    {
      State(exportedFrames, keyFrames, log)
    }

    constructor (clearing: Clearing)
      ensures Now() == State({}, {}, []) && this.clearing == clearing
    {
      this.clearing := clearing;
      exportedFrames, keyFrames, log := {}, {}, [];
    }

    /** None stands for the largest number, which asks to clear everything. */
    method ClearKeyFrames(toTime: Option<real>)
      modifies this`keyFrames
      ensures keyFrames == set t | t in old(keyFrames) && toTime.Some? && !clearing.Clears(t, toTime.value)
    {
      if toTime.Some? && !clearing.perFrame {
        return;
      }
      keyFrames := if toTime.None? then {} else set t | t in keyFrames && !clearing.Clears(t, toTime.value);
    }

    /** exportScene at the current time. */
    method ExportScene(t: real)
      modifies this`keyFrames, this`log
      ensures keyFrames == old(keyFrames) + {t} && log == old(log) + [t]
    {
      keyFrames := keyFrames + {t};
      log := log + [t];
    }

    method DropOldFrames(start: real)
      modifies this`exportedFrames
      ensures exportedFrames == set t | t in old(exportedFrames) && t >= start
    {
      var pending := exportedFrames;
      while pending != {}
        invariant pending <= exportedFrames <= old(exportedFrames)
        invariant forall t :: t in old(exportedFrames) ==> (t in exportedFrames <==> t in pending || t >= start)
        decreases pending
      {
        var t := NextOf(pending);
        pending := pending - {t};
        if t < start {
          exportedFrames := exportedFrames - {t};
        }
      }
    }

    /** The motion-blur branch of exportFrame. */
    method ExportFrame(sh: Shutter, alive: Option<nat>)
      requires sh.duration != 0.0 || alive.Some?
      modifies this
      ensures Now() == Exported(old(Now()), clearing, sh, alive)
    {
      ClearKeyFrames(Some(sh.start));
      DropOldFrames(sh.start);
      ghost var trimmed := Now();
      assert trimmed == Trim(old(Now()), clearing, sh.start);
      var subframe := sh.start;
      var i := 0;
      while !(alive.Some? && i >= alive.value) && subframe <= sh.End()
        invariant subframe == sh.Sample(i)
        invariant alive.Some? ==> i <= alive.value
        invariant sh.duration != 0.0 ==> i <= Visits(sh)
        invariant Now() == ExportSamples(trimmed, sh, i)
        decreases if sh.duration != 0.0 then Visits(sh) - i else alive.value - i
      {
        if sh.duration != 0.0 {
          GuardHoldsWhile(sh, i);
        }
        NextSample(sh, i);
        var mbFrame := Clamp(subframe);
        if mbFrame !in exportedFrames {
          exportedFrames := exportedFrames + {mbFrame};
          ExportScene(mbFrame);
        }
        subframe := subframe + sh.Inc();
        i := i + 1;
      }
      if sh.duration != 0.0 {
        GuardHoldsWhile(sh, i);
      } else {
        ZeroDurationNeverEnds(sh, i);
      }
    }
  }
}
