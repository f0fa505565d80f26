/** What holds over whole animations. */
module MotionBlurRuns {
  import opened Wrappers
  import opened MotionBlur

  /** The state after the frames, none of them aborted. */
  function Animate(c: Clearing, frames: seq<Shutter>): State
    requires forall i :: 0 <= i < |frames| ==> frames[i].duration > 0.0
  {
    if frames == [] then State({}, {}, [])
    else
      var n := |frames| - 1;
      Exported(Animate(c, frames[..n]), c, frames[n], None)
  }

  ghost predicate Forward(frames: seq<Shutter>) {
    && (forall i :: 0 <= i < |frames| ==> frames[i].duration > 0.0)
    && (forall i, j :: 0 <= i <= j < |frames| ==> frames[i].start <= frames[j].start)
  }

  predicate NoRepeats(log: seq<real>) {
    forall i, j :: 0 <= i < j < |log| ==> log[i] != log[j]
  }

  /**
   Between frames, for every shutter that starts at or after start: what was exported is either
   still marked or out of reach, and every mark was exported.
   */
  ghost predicate Inv(s: State, start: real) {
    && NoRepeats(s.log)
    && (forall t :: t in s.log ==> t in s.exported || t < start)
    && (forall t :: t in s.exported ==> t in s.log)
  }

  lemma InvTrims(s: State, c: Clearing, from: real, to: real)
    requires Inv(s, from) && from <= to
    ensures Inv(Trim(s, c, to), to)
  {
  }

  lemma InvExports(s: State, start: real, t: real)
    requires Inv(s, start) && start <= t
    ensures Inv(ExportAt(s, t), start)
    ensures t in ExportAt(s, t).exported && t in ExportAt(s, t).log
    ensures s.exported <= ExportAt(s, t).exported && s.keys <= ExportAt(s, t).keys
    ensures forall x :: x in ExportAt(s, t).log <==> x in s.log || x == t
  {
  }

  lemma SamplesAreAfterStart(sh: Shutter, i: nat)
    requires sh.duration > 0.0
    ensures sh.start <= Clamp(sh.Sample(i))
  {
    assert sh.Inc() > 0.0;
    assert i as real * sh.Inc() >= 0.0;
  }

  lemma {:induction false} SamplesKeepInv(s: State, sh: Shutter, k: nat)
    requires Inv(s, sh.start) && sh.duration > 0.0
    ensures Inv(ExportSamples(s, sh, k), sh.start)
    ensures s.exported <= ExportSamples(s, sh, k).exported && s.keys <= ExportSamples(s, sh, k).keys
    ensures forall i: nat :: i < k ==> Clamp(sh.Sample(i)) in ExportSamples(s, sh, k).exported
    ensures forall t :: t in ExportSamples(s, sh, k).log <==>
              t in s.log || exists i: nat :: i < k && t == Clamp(sh.Sample(i))
  {
    if k > 0 {
      SamplesKeepInv(s, sh, k - 1);
      SamplesAreAfterStart(sh, k - 1);
      InvExports(ExportSamples(s, sh, k - 1), sh.start, Clamp(sh.Sample(k - 1)));
      hide Inv, ExportAt;
    }
  }

  lemma {:induction false} AnimationKeepsInv(c: Clearing, frames: seq<Shutter>, start: real)
    requires Forward(frames) && forall i :: 0 <= i < |frames| ==> frames[i].start <= start
    ensures Inv(Animate(c, frames), start)
    ensures forall t :: t in Animate(c, frames).log <==> NeededBySome(frames, t)
  {
    if frames != [] {
      var n := |frames| - 1;
      var sh := frames[n];
      AnimationKeepsInv(c, frames[..n], sh.start);
      var s := Animate(c, frames[..n]);
      InvTrims(s, c, sh.start, sh.start);
      SamplesKeepInv(Trim(s, c, sh.start), sh, Visits(sh));
      forall t ensures t in Animate(c, frames).log <==> NeededBySome(frames, t) {
        NeededByLast(frames, t);
      }
    }
  }

  ghost predicate NeededBySome(frames: seq<Shutter>, t: real) {
    exists f :: 0 <= f < |frames| && Needs(frames[f], t)
  }

  lemma NeededByLast(frames: seq<Shutter>, t: real)
    requires frames != []
    ensures NeededBySome(frames, t) <==>
            NeededBySome(frames[..|frames| - 1], t) || Needs(frames[|frames| - 1], t)
  {
    var n := |frames| - 1;
    if NeededBySome(frames[..n], t) {
      var f :| 0 <= f < n && Needs(frames[..n][f], t);
      assert frames[f] == frames[..n][f];
    }
    if NeededBySome(frames, t) {
      var f :| 0 <= f < |frames| && Needs(frames[f], t);
      if f < n {
        assert frames[..n][f] == frames[f];
      }
    }
  }

  /**
   Over an animation whose shutters never step back, the scene is exported exactly once at
   every time some frame needs, and at no other time.
   */
  lemma ExportedExactlyOnce(c: Clearing, frames: seq<Shutter>, t: real)
    requires Forward(frames)
    ensures multiset(Animate(c, frames).log)[t] == if NeededBySome(frames, t) then 1 else 0
  {
    var start := if frames == [] then 0.0 else frames[|frames| - 1].start;
    AnimationKeepsInv(c, frames, start);
    CountOfDistinct(Animate(c, frames).log, t);
  }

  lemma {:induction false} CountOfDistinct(log: seq<real>, t: real)
    requires NoRepeats(log)
    ensures multiset(log)[t] == if t in log then 1 else 0
  {
    if log != [] {
      var n := |log| - 1;
      CountOfDistinct(log[..n], t);
      assert log == log[..n] + [log[n]];
    }
  }

  /** The renderer holds a keyframe for every sample of the shutter. */
  ghost predicate Retained(s: State, sh: Shutter) {
    forall i: nat :: i <= sh.Gaps() ==> Clamp(sh.Sample(i)) in s.keys
  }

  /**
   Clearing takes keyframes no further than the start of the last shutter: every mark beyond it,
   or every mark at all if clearing spares the start, has its keyframe.
   */
  ghost predicate Backed(s: State, c: Clearing, start: real) {
    && (forall t :: t in s.exported ==> t >= 0.0)
    && (forall t :: t in s.exported && (t > start || !(c.perFrame && c.inclusive)) ==> t in s.keys)
  }

  lemma {:induction false} SamplesKeepBacked(s: State, c: Clearing, sh: Shutter, start: real, k: nat)
    requires Backed(s, c, start)
    ensures Backed(ExportSamples(s, sh, k), c, start)
  {
    if k > 0 {
      SamplesKeepBacked(s, c, sh, start, k - 1);
    }
  }

  lemma {:induction false} AnimationKeepsBacked(c: Clearing, frames: seq<Shutter>, start: real)
    requires Forward(frames) && forall i :: 0 <= i < |frames| ==> frames[i].start <= start
    ensures Backed(Animate(c, frames), c, start)
  {
    if frames != [] {
      var n := |frames| - 1;
      var sh := frames[n];
      AnimationKeepsBacked(c, frames[..n], sh.start);
      var s := Animate(c, frames[..n]);
      assert Backed(Trim(s, c, sh.start), c, sh.start);
      SamplesKeepBacked(Trim(s, c, sh.start), c, sh, sh.start, Visits(sh));
    }
  }

  /** The times the samples need are marked or get a keyframe; a mark without one never gets it. */
  lemma {:induction false} SamplesGetKeys(s: State, sh: Shutter, k: nat)
    ensures forall t :: t in s.exported ==> (t in ExportSamples(s, sh, k).keys <==> t in s.keys)
    ensures s.exported <= ExportSamples(s, sh, k).exported && s.keys <= ExportSamples(s, sh, k).keys
    ensures forall i: nat :: i < k && Clamp(sh.Sample(i)) !in s.exported ==>
              Clamp(sh.Sample(i)) in ExportSamples(s, sh, k).keys
    ensures forall t :: t in ExportSamples(s, sh, k).exported && t !in s.exported ==>
              t in ExportSamples(s, sh, k).keys
  {
    if k > 0 {
      SamplesGetKeys(s, sh, k - 1);
    }
  }

  /**
   One frame in any state a run can reach: every sample has a keyframe after it exactly unless
   clearing takes the shutter's own start while that time is still marked as exported.
   */
  lemma RetainedUnlessStartIsCleared(s: State, c: Clearing, sh: Shutter, from: real)
    requires Backed(s, c, from) && from <= sh.start && sh.duration > 0.0
    ensures Retained(Exported(s, c, sh, None), sh) <==>
            !(c.perFrame && c.inclusive && sh.start in s.exported)
  {
    var trimmed := Trim(s, c, sh.start);
    SamplesGetKeys(trimmed, sh, Visits(sh));
    if c.perFrame && c.inclusive && sh.start in s.exported {
      assert Clamp(sh.Sample(0)) == sh.start && sh.start !in trimmed.keys;
    } else {
      forall i: nat | i <= sh.Gaps() ensures Clamp(sh.Sample(i)) in Exported(s, c, sh, None).keys {
        SamplesAreAfterStart(sh, i);
      }
    }
  }

  /**
   Over a whole animation, when its last frame is rendered every sample of its shutter has a
   keyframe, exactly unless clearing between frames takes a start that an earlier frame needed.
   */
  lemma EveryFrameIsRetained(c: Clearing, frames: seq<Shutter>)
    requires Forward(frames) && frames != []
    ensures var n := |frames| - 1;
            Retained(Animate(c, frames), frames[n]) <==>
            !(c.perFrame && c.inclusive && NeededBySome(frames[..n], frames[n].start))
  {
    var n := |frames| - 1;
    var sh := frames[n];
    AnimationKeepsBacked(c, frames[..n], sh.start);
    AnimationKeepsInv(c, frames[..n], sh.start);
    RetainedUnlessStartIsCleared(Animate(c, frames[..n]), c, sh, sh.start);
  }

  /** Two frames whose shutters meet: the second finds its start marked, but its keyframe cleared. */
  lemma MeetingShuttersLoseAKey()
    ensures var frames := [Shutter(1.0, 1.0, 2), Shutter(2.0, 1.0, 2)];
            Forward(frames) && !Retained(Animate(Clearing(true, true), frames), frames[1])
  {
    var frames := [Shutter(1.0, 1.0, 2), Shutter(2.0, 1.0, 2)];
    assert frames[0].Inc() == 1.0 && Clamp(frames[0].Sample(1)) == 2.0;
    assert Needs(frames[..1][0], 2.0);
    EveryFrameIsRetained(Clearing(true, true), frames);
  }

  // ------------------------------------------------------------- one frame in numbers

  /** An interval center of one half opens the shutter at the frame, of minus one half closes it there. */
  lemma ShutterAboutFrame(frame: real, duration: real, samples: int)
    ensures ShutterAt(frame, duration, 0.5, samples).start == frame
    ensures ShutterAt(frame, duration, -0.5, samples).End() == frame
  {
  }

  /** The samples run from the start of the shutter to its end, in equal steps: two of them at least. */
  lemma SamplesInNumbers(sh: Shutter, i: nat)
    requires sh.duration > 0.0
    ensures Visits(sh) == if sh.samples < 2 then 2 else sh.samples
    ensures sh.Sample(i) == sh.start + i as real * (sh.duration / (Visits(sh) - 1) as real)
    ensures sh.Sample(0) == sh.start && sh.Sample(Visits(sh) - 1) == sh.start + sh.duration
  {
  }

  /** A time before zero is exported as zero. */
  lemma ClampMeans(t: real)
    ensures t >= 0.0 ==> Clamp(t) == t
    ensures t < 0.0 ==> Clamp(t) == 0.0
  {
  }

  /** A first frame after time zero exports the scene at all its samples, in order. */
  lemma FirstFrameExports(c: Clearing, sh: Shutter)
    requires sh.duration > 0.0 && sh.start >= 0.0
    ensures var log := Exported(State({}, {}, []), c, sh, None).log;
            && |log| == (if sh.samples < 2 then 2 else sh.samples)
            && forall i :: 0 <= i < |log| ==> log[i] == sh.Sample(i)
  {
    FirstFrameIsSamples(c, sh);
    FirstSamples(sh, Visits(sh));
    SamplesInNumbers(sh, 0);
    hide *;
  }

  lemma FirstFrameIsSamples(c: Clearing, sh: Shutter)
    requires sh.duration > 0.0
    ensures Exported(State({}, {}, []), c, sh, None) == ExportSamples(State({}, {}, []), sh, Visits(sh))
  {
    assert Trim(State({}, {}, []), c, sh.start) == State({}, {}, []);
  }

  lemma {:induction false} FirstSamples(sh: Shutter, k: nat)
    requires sh.duration > 0.0 && sh.start >= 0.0
    ensures var log := ExportSamples(State({}, {}, []), sh, k).log;
            |log| == k && forall i :: 0 <= i < k ==> log[i] == sh.Sample(i)
    ensures forall t :: t in ExportSamples(State({}, {}, []), sh, k).exported ==> t < sh.Sample(k)
  {
    NextSample(sh, k);
    SamplesAreAfterStart(sh, k);
    if k > 0 {
      FirstSamples(sh, k - 1);
      NextSample(sh, k - 1);
      assert sh.Inc() > 0.0;
      assert (k - 1) as real * sh.Inc() >= 0.0;
    }
  }
}
