/** The cache frame of a simulation for a playback time: direct, clamped or looped. Times are real numbers. */
module PhxFrames {
  import opened Wrappers

  datatype AnimMode = DirectIndex | Standard | Loop | OtherMode

  const INT_MIN: int := -0x8000_0000
  /** Lengths up to this are taken for zero. */
  const EPSILON: real := 0.0001

  /** Conversion to int drops the fraction. */
  function Truncate(r: real): int {
    if r >= 0.0 then r.Floor else Ceil(r)
  }

  function Times(a: real, len: real): real { a * len }

  function Over(x: real, len: real): real
    requires 0.0 < len
  {
    x / len
  }

  /** The looped position: x itself inside [0, len], else moved there by whole lengths. */
  function Wrap(x: real, len: real): real
    requires 0.0 < len
  {
    if x < 0.0 then x - Times(Over(x, len).Floor as real, len)
    else if x > len then x - Times((Ceil(Over(x, len)) - 1) as real, len)
    else x
  }

  function ClampTo(x: real, len: real): real {
    if x < 0.0 then 0.0 else if x > len then len else x
  }

  /** The position before the read offset is added. */
  function Position(x: real, len: real, mode: AnimMode, loadNearest: bool): real
    requires mode == Standard || mode == Loop
  {
    if len <= EPSILON then x
    else if mode == Loop then Wrap(x, len)
    else if loadNearest || 0.0 <= x <= len then ClampTo(x, len)
    else INT_MIN as real
  }

  function Length(maxLength: int, playSpeed: real): real {
    maxLength as real * playSpeed
  }

  function Scaled(frame: real, playSpeed: real, playAt: int): real {
    playSpeed * (frame - playAt as real)
  }

  function CacheFrame(frame: real, maxLength: int, playSpeed: real, mode: AnimMode, t2f: real,
                      playAt: int, loadNearest: bool, readOffset: int): int {
    match mode
    case DirectIndex => Truncate(t2f)
    case OtherMode => Truncate(frame)
    case _ =>
      Truncate(Position(Scaled(frame, playSpeed, playAt), Length(maxLength, playSpeed), mode, loadNearest)
               + readOffset as real)
  }

  // ---------------------------------------------------------------- wrapping

  lemma TimesLaws(a: real, b: real, len: real)
    ensures Times(a + b, len) == Times(a, len) + Times(b, len)
    ensures Times(-a, len) == -Times(a, len)
    ensures Times(0.0, len) == 0.0 && Times(1.0, len) == len
  {
  }

  lemma TimesOrder(a: real, b: real, len: real)
    requires 0.0 < len
    ensures a < b <==> Times(a, len) < Times(b, len)
    ensures a <= b <==> Times(a, len) <= Times(b, len)
  {
    assert b * len - a * len == (b - a) * len;
    if a < b {
      assert (b - a) * len > 0.0;
    } else {
      assert (a - b) * len >= 0.0;
    }
    if b < a {
      assert (a - b) * len > 0.0;
    }
  }

  lemma TimesOver(x: real, len: real)
    requires 0.0 < len
    ensures Times(Over(x, len), len) == x
  {
  }

  lemma OverTimes(q: real, len: real)
    requires 0.0 < len
    ensures Over(Times(q, len), len) == q
  {
    TimesOver(Times(q, len), len);
    TimesOrder(q, Over(Times(q, len), len), len);
    TimesOrder(Over(Times(q, len), len), q, len);
  }

  lemma FloorBounds(x: real, len: real)
    requires 0.0 < len
    ensures Times(Over(x, len).Floor as real, len) <= x < Times(Over(x, len).Floor as real, len) + len
    ensures Times((Ceil(Over(x, len)) - 1) as real, len) < x <= Times((Ceil(Over(x, len)) - 1) as real, len) + len
  {
    hide Times, Over;
    var q := Over(x, len);
    var f, c := q.Floor as real, (Ceil(q) - 1) as real;
    TimesOver(x, len);
    TimesLaws(f, 1.0, len);
    TimesLaws(c, 1.0, len);
    TimesOrder(f, q, len);
    TimesOrder(q, f + 1.0, len);
    TimesOrder(c, q, len);
    TimesOrder(q, c + 1.0, len);
  }

  /** Wrapping stays in [0, len] and moves by a whole number of lengths. */
  lemma WrapMeans(x: real, len: real) returns (k: int)
    requires 0.0 < len
    ensures 0.0 <= Wrap(x, len) <= len
    ensures Wrap(x, len) == x - Times(k as real, len)
    ensures 0.0 <= x <= len ==> k == 0
  {
    hide Times, Over;
    FloorBounds(x, len);
    TimesLaws(0.0, 0.0, len);
    k := if x < 0.0 then Over(x, len).Floor else if x > len then Ceil(Over(x, len)) - 1 else 0;
  }

  /**
   Any position in [0, len] that differs from x by whole lengths is the wrapped one, except
   that the two ends of the interval stand for each other.
   */
  lemma WrapUnique(x: real, len: real, v: real, k: int)
    requires 0.0 < len && 0.0 <= v <= len && v == x + Times(k as real, len)
    ensures v == Wrap(x, len) || (v == 0.0 && Wrap(x, len) == len) || (v == len && Wrap(x, len) == 0.0)
  {
    hide Times, Over, Wrap;
    var j := WrapMeans(x, len);
    var d := k + j;
    TimesLaws(k as real, j as real, len);
    TimesLaws(1.0, 1.0, len);
    TimesLaws(2.0, 0.0, len);
    assert v - Wrap(x, len) == Times(d as real, len);
    TimesOrder(d as real, 2.0, len);
    TimesOrder(-2.0, d as real, len);
    assert d == -1 || d == 0 || d == 1;
  }

  /** Clamping gives the point of [0, len] closest to x. */
  lemma ClampIsClosest(x: real, len: real, y: real)
    requires 0.0 <= y <= len
    ensures 0.0 <= ClampTo(x, len) <= len
    ensures Distance(x, ClampTo(x, len)) <= Distance(x, y)
  {
  }

  function Distance(a: real, b: real): real {
    if a <= b then b - a else a - b
  }

  // --------------------------------------------------------------- the method

  method EvalCacheFrame(frame: real, maxLength: int, playSpeed: real, mode: AnimMode, t2f: real,
                        playAt: int, loadNearest: bool, readOffset: int)
    returns (r: int)
    ensures r == CacheFrame(frame, maxLength, playSpeed, mode, t2f, playAt, loadNearest, readOffset)
  {
    hide Length, Scaled, Wrap, Truncate;
    var fractionalLen := Length(maxLength, playSpeed);
    var f := frame;
    match mode {
      case DirectIndex =>
        f := t2f;
      case Standard =>
        f := Scaled(f, playSpeed, playAt);
        if fractionalLen > EPSILON {
          if f < 0.0 || f > fractionalLen {
            if loadNearest {
              f := ClampTo(f, fractionalLen);
            } else {
              f := INT_MIN as real;
            }
          }
        }
        f := f + readOffset as real;
      case Loop =>
        f := Scaled(f, playSpeed, playAt);
        if fractionalLen > EPSILON {
          f := WrapLoops(f, fractionalLen);
        }
        f := f + readOffset as real;
      case OtherMode =>
    }
    r := Truncate(f);
  }

  /** The two loops of the looping mode. */
  method WrapLoops(x: real, len: real) returns (f: real)
    requires EPSILON < len
    ensures f == Wrap(x, len)
  {
    hide Times, Over, Wrap;
    TimesLaws(0.0, 0.0, len);
    f := x;
    ghost var k := 0;
    while f < 0.0
      invariant f == x + Times(k as real, len)
      invariant k != 0 ==> x < 0.0 && f < len
      invariant k == 0 ==> f == x
      decreases Ceil(Over(-f, len))
    {
      UpDecreases(f, len);
      TimesLaws(k as real, 1.0, len);
      f := f + len;
      k := k + 1;
    }
    if x < 0.0 {
      WrapBelow(x, len, f, k);
    }
    ghost var j := 0;
    while f > len
      invariant x < 0.0 ==> f == Wrap(x, len) <= len
      invariant x >= 0.0 ==> f == x - Times(j as real, len)
      invariant j != 0 ==> x > len && f > 0.0
      invariant x >= 0.0 && j == 0 ==> f == x
      decreases Ceil(Over(f, len))
    {
      DownDecreases(f, len);
      TimesLaws(j as real, 1.0, len);
      f := f - len;
      j := j + 1;
    }
    if x > len {
      WrapAbove(x, len, f, j);
    } else if x >= 0.0 {
      var i := WrapMeans(x, len);
    }
  }

  lemma UpDecreases(f: real, len: real)
    requires f < 0.0 && 0.0 < len
    ensures 0 <= Ceil(Over(-(f + len), len)) < Ceil(Over(-f, len))
  {
    hide Times, Over;
    var q := Over(-f, len);
    TimesOver(-f, len);
    TimesLaws(q, -1.0, len);
    TimesLaws(1.0, 0.0, len);
    OverTimes(q - 1.0, len);
    TimesOrder(0.0, q, len);
    assert Over(-(f + len), len) == q - 1.0;
  }

  lemma DownDecreases(f: real, len: real)
    requires len < f && 0.0 < len
    ensures 0 <= Ceil(Over(f - len, len)) < Ceil(Over(f, len))
  {
    hide Times, Over;
    var q := Over(f, len);
    TimesOver(f, len);
    TimesLaws(q, -1.0, len);
    TimesLaws(1.0, 0.0, len);
    OverTimes(q - 1.0, len);
    TimesOrder(1.0, q, len);
    assert Over(f - len, len) == q - 1.0;
  }

  lemma WrapBelow(x: real, len: real, v: real, k: int)
    requires x < 0.0 && 0.0 < len && 0.0 <= v < len && v == x + Times(k as real, len)
    ensures v == Wrap(x, len) <= len
  {
    hide Times, Over;
    WrapUnique(x, len, v, k);
    FloorBounds(x, len);
  }

  lemma WrapAbove(x: real, len: real, v: real, j: int)
    requires len < x && 0.0 < len && 0.0 < v <= len && v == x - Times(j as real, len)
    ensures v == Wrap(x, len)
  {
    hide Times, Over;
    TimesLaws(j as real, 0.0, len);
    WrapUnique(x, len, v, -j);
    FloorBounds(x, len);
  }

  /** The fraction dropped is that towards zero. */
  lemma TruncateMeans(r: real)
    ensures r >= 0.0 ==> 0.0 <= r - Truncate(r) as real < 1.0
    ensures r <= 0.0 ==> 0.0 <= Truncate(r) as real - r < 1.0
  {
  }

  lemma LoopedPosition(x: real, len: real, loadNearest: bool) returns (position: real, k: int)
    requires len > EPSILON
    ensures 0.0 <= position <= len && position == x - Times(k as real, len)
    ensures 0.0 <= x <= len ==> k == 0
    ensures position == Position(x, len, Loop, loadNearest)
  {
    k := WrapMeans(x, len);
    position := Wrap(x, len);
  }

  lemma InNumbers(frame: real, maxLength: int, playSpeed: real, playAt: int, k: int)
    ensures Length(maxLength, playSpeed) == maxLength as real * playSpeed
    ensures Scaled(frame, playSpeed, playAt) == playSpeed * (frame - playAt as real)
    ensures Times(k as real, Length(maxLength, playSpeed)) == k as real * (maxLength as real * playSpeed)
  {
  }

  /** In looping mode the position lies in [0, length] and is the scaled time less whole lengths. */
  lemma LoopedFrameMeans(frame: real, maxLength: int, playSpeed: real, t2f: real, playAt: int, loadNearest: bool,
                         readOffset: int)
    returns (position: real, k: int)
    requires maxLength as real * playSpeed > 0.0001
    ensures 0.0 <= position <= maxLength as real * playSpeed
    ensures position == playSpeed * (frame - playAt as real) - k as real * (maxLength as real * playSpeed)
    ensures 0.0 <= playSpeed * (frame - playAt as real) <= maxLength as real * playSpeed ==> k == 0
    ensures CacheFrame(frame, maxLength, playSpeed, Loop, t2f, playAt, loadNearest, readOffset) ==
            Truncate(position + readOffset as real)
  {
    position, k := LoopedPosition(Scaled(frame, playSpeed, playAt), Length(maxLength, playSpeed), loadNearest);
    InNumbers(frame, maxLength, playSpeed, playAt, k);
    hide Position, Truncate, Times, Length, Scaled;
  }

  lemma StandardPosition(x: real, len: real, loadNearest: bool)
    requires len > EPSILON
    ensures var position := Position(x, len, Standard, loadNearest);
            && (0.0 <= x <= len ==> position == x)
            && (loadNearest ==> 0.0 <= position <= len
                                && forall y :: 0.0 <= y <= len ==> Distance(x, position) <= Distance(x, y))
            && (!loadNearest && !(0.0 <= x <= len) ==> position == INT_MIN as real)
  {
  }

  /**
   In standard mode the position is the scaled time while that lies in [0, length]. Outside it is
   the closest time inside, if the nearest frame is asked for, and else the least integer.
   */
  lemma StandardFrameMeans(frame: real, maxLength: int, playSpeed: real, t2f: real, playAt: int, loadNearest: bool,
                           readOffset: int)
    returns (position: real)
    requires maxLength as real * playSpeed > 0.0001
    ensures var x, len := playSpeed * (frame - playAt as real), maxLength as real * playSpeed;
            && (0.0 <= x <= len ==> position == x)
            && (loadNearest ==> 0.0 <= position <= len
                                && forall y :: 0.0 <= y <= len ==> Distance(x, position) <= Distance(x, y))
            && (!loadNearest && !(0.0 <= x <= len) ==> position == -2147483648.0)
    ensures CacheFrame(frame, maxLength, playSpeed, Standard, t2f, playAt, loadNearest, readOffset) ==
            Truncate(position + readOffset as real)
  {
    position := Position(Scaled(frame, playSpeed, playAt), Length(maxLength, playSpeed), Standard, loadNearest);
    StandardPosition(Scaled(frame, playSpeed, playAt), Length(maxLength, playSpeed), loadNearest);
    hide Position, Distance, Truncate;
  }

  /** Without a length the scaled time is taken as it is; the other modes do not scale or offset at all. */
  lemma PlainFrameMeans(frame: real, maxLength: int, playSpeed: real, t2f: real, playAt: int, loadNearest: bool,
                        readOffset: int)
    ensures maxLength as real * playSpeed <= 0.0001 ==> forall mode | mode == Standard || mode == Loop ::
              CacheFrame(frame, maxLength, playSpeed, mode, t2f, playAt, loadNearest, readOffset) ==
              Truncate(playSpeed * (frame - playAt as real) + readOffset as real)
    ensures CacheFrame(frame, maxLength, playSpeed, DirectIndex, t2f, playAt, loadNearest, readOffset) == Truncate(t2f)
    ensures CacheFrame(frame, maxLength, playSpeed, OtherMode, t2f, playAt, loadNearest, readOffset) == Truncate(frame)
  {
    hide Truncate;
  }
}
