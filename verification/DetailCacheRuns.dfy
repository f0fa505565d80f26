/** What the detail cache keeps over whole runs. */
module DetailCacheRuns {
  import opened Wrappers
  import opened DetailCaches

  datatype Op<+T> =
    | DoRegister(path: string, settings: T)
    | DoUnregister(path: string, settings: T)
    | DoGet(path: string, settings: T, frame: real)
    | DoEnable(on: bool)

  datatype State<H(==), D> = State(cache: Cache<H, D>, isOn: bool)

  function Step<T, H, D>(s: State<H, D>, op: Op<T>, hash: T -> H, build: (string, T, real) -> Handle<D>): State<H, D> {
    match op
    case DoRegister(p, t) => s.(cache := Register(s.cache, p, hash(t)))
    case DoUnregister(p, t) => s.(cache := Unregistered(s.cache, p, hash(t)))
    case DoGet(p, t, f) => s.(cache := AfterGet(s.cache, s.isOn, p, t, f, hash, build))
    case DoEnable(on) => s.(isOn := on)
  }

  function RunAll<T, H, D>(ops: seq<Op<T>>, hash: T -> H, build: (string, T, real) -> Handle<D>): State<H, D> {
    if ops == [] then State(map[], true)
    else Step(RunAll(ops[..|ops| - 1], hash, build), ops[|ops| - 1], hash, build)
  }

  // ------------------------------------------------------ agreement with the builder

  /** The builder tells apart only what the cache tells apart: path, settings hash and frame key. */
  ghost predicate Respects<T(!new), H, D>(hash: T -> H, build: (string, T, real) -> Handle<D>) {
    forall p: string, t: T, t': T, f: real, f': real ::
      p != "" && hash(t) == hash(t') && FrameKey(f) == FrameKey(f') ==> build(p, t, f) == build(p, t', f')
  }

  /** Every cached valid handle is what the builder gives for everything it stands for. */
  ghost predicate Truthful<T(!new), H, D>(c: Cache<H, D>, hash: T -> H, build: (string, T, real) -> Handle<D>) {
    forall p: string, t: T, f: real ::
      Cached(c, p, hash(t), FrameKey(f)).Some? ==> Cached(c, p, hash(t), FrameKey(f)) == build(p, t, f)
  }

  lemma StepKeepsTruthful<T(!new), H, D>(s: State<H, D>, op: Op<T>, hash: T -> H, build: (string, T, real) -> Handle<D>)
    requires Respects(hash, build) && Truthful(s.cache, hash, build)
    ensures Truthful(Step(s, op, hash, build).cache, hash, build)
  {
    var c := Step(s, op, hash, build).cache;
    forall p: string, t: T, f: real | Cached(c, p, hash(t), FrameKey(f)).Some?
      ensures Cached(c, p, hash(t), FrameKey(f)) == build(p, t, f)
    {
      if && op.DoGet? && c != s.cache && p == op.path
         && hash(t) == hash(op.settings) && FrameKey(f) == FrameKey(op.frame)
      {
        assert build(p, t, f) == build(op.path, op.settings, op.frame);
      } else {
        assert Cached(c, p, hash(t), FrameKey(f)) == Cached(s.cache, p, hash(t), FrameKey(f));
      }
    }
  }

  lemma {:induction false} RunIsTruthful<T(!new), H, D>(ops: seq<Op<T>>, hash: T -> H,
                                                        build: (string, T, real) -> Handle<D>)
    requires Respects(hash, build)
    ensures Truthful(RunAll(ops, hash, build).cache, hash, build)
  {
    if ops != [] {
      RunIsTruthful(ops[..|ops| - 1], hash, build);
      StepKeepsTruthful(RunAll(ops[..|ops| - 1], hash, build), ops[|ops| - 1], hash, build);
    }
  }

  /** After the run, asking for any detail gives what the builder would. */
  ghost predicate Transparent<T(!new), H, D>(ops: seq<Op<T>>, hash: T -> H, build: (string, T, real) -> Handle<D>) {
    var s := RunAll(ops, hash, build);
    forall p: string, t: T, f: real :: p != "" ==>
      Answer(s.cache, s.isOn, p, t, f, hash, build) == build(p, t, f)
  }

  /**
   The cache is invisible in every run exactly if the builder respects hash and frame key.
   */
  lemma TransparentIffRespects<T(!new), H, D>(hash: T -> H, build: (string, T, real) -> Handle<D>)
    ensures (forall ops: seq<Op<T>> :: Transparent(ops, hash, build)) <==> Respects(hash, build)
  {
    if Respects(hash, build) {
      forall ops: seq<Op<T>> ensures Transparent(ops, hash, build) {
        RunIsTruthful(ops, hash, build);
      }
    }
    if forall ops: seq<Op<T>> :: Transparent(ops, hash, build) {
      forall p: string, t: T, t': T, f: real, f': real
        | p != "" && hash(t) == hash(t') && FrameKey(f) == FrameKey(f')
        ensures build(p, t, f) == build(p, t', f')
      {
        OneGetDecides(p, t, t', f, f', hash, build);
        OneGetDecides(p, t', t, f', f, hash, build);
      }
    }
  }

  lemma OneGetDecides<T(!new), H, D>(p: string, t: T, t': T, f: real, f': real,
                                     hash: T -> H, build: (string, T, real) -> Handle<D>)
    requires p != "" && hash(t) == hash(t') && FrameKey(f) == FrameKey(f')
    requires Transparent([DoGet(p, t, f)], hash, build)
    ensures build(p, t, f).Some? ==> build(p, t', f') == build(p, t, f)
  {
    var ops := [DoGet(p, t, f)];
    assert ops[..0] == [];
    var s := RunAll(ops, hash, build);
    var start: State<H, D> := State(map[], true);
    assert RunAll(ops[..0], hash, build) == start;
    assert Cached(start.cache, p, hash(t), FrameKey(f)) == None;
    assert s == Step(start, ops[0], hash, build);
    assert s.cache == Store(map[], p, hash(t), FrameKey(f), build(p, t, f));
    assert Answer(s.cache, s.isOn, p, t', f', hash, build) == build(p, t', f');
  }

  // ------------------------------------------------------------ registrations

  /** Registrations of the pair not taken back. */
  function Outstanding<T, H(==)>(ops: seq<Op<T>>, hash: T -> H, path: string, h: H): int {
    if ops == [] then 0
    else
      var op := ops[|ops| - 1];
      Outstanding(ops[..|ops| - 1], hash, path, h)
      + (if op.DoRegister? && op.path == path && hash(op.settings) == h then 1 else 0)
      - (if op.DoUnregister? && op.path == path && hash(op.settings) == h then 1 else 0)
  }

  /** Every unregister takes back a registration that is outstanding. */
  ghost predicate Matched<T, H>(ops: seq<Op<T>>, hash: T -> H) {
    forall i :: 0 <= i < |ops| && ops[i].DoUnregister? ==>
      Outstanding(ops[..i], hash, ops[i].path, hash(ops[i].settings)) >= 1
  }

  function References<H, D>(c: Cache<H, D>, path: string, h: H): int {
    At(Under(c, path), h).references
  }

  lemma MatchedPrefix<T, H>(ops: seq<Op<T>>, n: nat, hash: T -> H)
    requires Matched(ops, hash) && n <= |ops|
    ensures Matched(ops[..n], hash)
  {
    hide Outstanding;
    forall i | 0 <= i < n && ops[..n][i].DoUnregister?
      ensures Outstanding(ops[..n][..i], hash, ops[..n][i].path, hash(ops[..n][i].settings)) >= 1
    {
      assert ops[..n][..i] == ops[..i];
    }
  }

  /** In a matched run every count equals the outstanding registrations of its pair. */
  lemma {:induction false} CountsAreOutstanding<T, H, D>(ops: seq<Op<T>>, hash: T -> H,
                                                         build: (string, T, real) -> Handle<D>, path: string, h: H)
    requires Matched(ops, hash) && path != ""
    ensures References(RunAll(ops, hash, build).cache, path, h) == Outstanding(ops, hash, path, h) >= 0
  {
    if ops != [] {
      var n := |ops| - 1;
      MatchedPrefix(ops, n, hash);
      assert ops[n].DoUnregister? ==> Outstanding(ops[..n], hash, ops[n].path, hash(ops[n].settings)) >= 1;
      hide Matched;
      CountsAreOutstanding(ops[..n], hash, build, path, h);
      StepCounts(RunAll(ops[..n], hash, build), ops[n], hash, build, path, h);
    }
  }

  /** What one step does to the count of a pair. */
  lemma StepCounts<T, H, D>(s: State<H, D>, op: Op<T>, hash: T -> H, build: (string, T, real) -> Handle<D>,
                            path: string, h: H)
    requires path != "" && References(s.cache, path, h) >= 0
    requires op.DoUnregister? && op.path == path && hash(op.settings) == h ==> References(s.cache, path, h) >= 1
    ensures References(Step(s, op, hash, build).cache, path, h) ==
            References(s.cache, path, h)
            + (if op.DoRegister? && op.path == path && hash(op.settings) == h then 1 else 0)
            - (if op.DoUnregister? && op.path == path && hash(op.settings) == h then 1 else 0)
  {
  }

  lemma NothingElse<H, D>(es: Elements<H, D>, h: H)
    ensures es - {h} == map[] <==> forall k :: k in es ==> k == h
  {
    assert es - {h} == map[] <==> (es - {h}).Keys == {};
    if forall k :: k in es ==> k == h {
      assert forall k :: k !in (es - {h}).Keys;
    }
    if es - {h} == map[] {
      forall k | k in es ensures k == h {
        assert k in es - {h} <==> k != h;
      }
    }
  }

  /**
   cleanResource fires for a path exactly when its last registered pair goes and no detail of
   another pair is left cached under it; then, in a matched run, nothing of the path is
   registered any more.
   */
  lemma CleanMeansUnregistered<T, H, D>(ops: seq<Op<T>>, path: string, settings: T, hash: T -> H,
                                        build: (string, T, real) -> Handle<D>)
    requires Matched(ops + [DoUnregister(path, settings)], hash) && path != ""
    ensures var c := RunAll(ops, hash, build).cache;
            && (Cleans(c, path, hash(settings)) <==>
                  && Outstanding(ops, hash, path, hash(settings)) == 1
                  && forall h :: h in Under(c, path) ==> h == hash(settings))
            && (Cleans(c, path, hash(settings)) ==>
                  forall h :: Outstanding(ops + [DoUnregister(path, settings)], hash, path, h) == 0)
  {
    var all := ops + [DoUnregister(path, settings)];
    var n := |ops|;
    assert all[..n] == ops;
    MatchedPrefix(all, n, hash);
    assert Outstanding(all[..n], hash, all[n].path, hash(all[n].settings)) >= 1;
    var c := RunAll(ops, hash, build).cache;
    CountsAreOutstanding(ops, hash, build, path, hash(settings));
    var es := Under(c, path);
    NothingElse(es, hash(settings));
    if Cleans(c, path, hash(settings)) {
      forall h ensures Outstanding(all, hash, path, h) == 0 {
        CountsAreOutstanding(ops, hash, build, path, h);
        if h != hash(settings) {
          assert h !in es;
        }
      }
    }
  }

  /**
   A pair that was only asked for keeps the resource: once the one registration of the path is
   taken back nothing of it is registered, but its resource is not cleaned.
   */
  lemma AskedPairKeepsResource<T, H, D>(path: string, a: T, b: T, frame: real, hash: T -> H,
                                        build: (string, T, real) -> Handle<D>)
    requires path != "" && hash(a) != hash(b)
    ensures var ops := [DoRegister(path, a), DoGet(path, b, frame)];
            && Matched(ops + [DoUnregister(path, a)], hash)
            && (forall h :: Outstanding(ops + [DoUnregister(path, a)], hash, path, h) == 0)
            && !Cleans(RunAll(ops, hash, build).cache, path, hash(a))
  {
    var ops := [DoRegister(path, a), DoGet(path, b, frame)];
    var all := ops + [DoUnregister(path, a)];
    assert ops[..1] == [ops[0]] && ops[..1][..0] == [];
    assert all[..2] == ops && ops[..2] == ops && all[..1] == ops[..1];
    forall h ensures Outstanding(ops, hash, path, h) == if h == hash(a) then 1 else 0 {
      assert Outstanding(ops[..1], hash, path, h) == if h == hash(a) then 1 else 0;
    }
    var start: State<H, D> := State(map[], true);
    assert RunAll(ops[..1][..0], hash, build) == start;
    var registered := RunAll(ops[..1], hash, build);
    assert registered == Step(start, ops[0], hash, build);
    assert registered.cache == Register(map[], path, hash(a)) && registered.isOn;
    assert Cached(registered.cache, path, hash(b), FrameKey(frame)) == None;
    var c := RunAll(ops, hash, build).cache;
    assert hash(b) in Under(c, path);
    NothingElse(Under(c, path), hash(a));
  }


  // ------------------------------------------------------ which details are shared

  /** A key stands for the frames of one millisecond, its end included; two frames share it if it is the same. */
  lemma FrameKeyMeans(frame: real, key: int)
    ensures FrameKey(frame) == key <==> (key - 1) as real < frame * 1000.0 <= key as real
  {
  }

  /** The operation takes back the last registration of the pair. */
  predicate TakesLast<T, H(==), D>(c: Cache<H, D>, op: Op<T>, hash: T -> H, path: string, h: H) {
    op.DoUnregister? && op.path == path && hash(op.settings) == h && References(c, path, h) <= 1
  }

  /**
   A detail once cached is answered, without building it anew, until the last registration of its
   pair is taken back; then it is gone.
   */
  lemma CachedUntilTakenBack<T, H, D>(s: State<H, D>, op: Op<T>, hash: T -> H, build: (string, T, real) -> Handle<D>,
                                      path: string, h: H, key: int)
    requires path != "" && Cached(s.cache, path, h, key).Some?
    ensures Cached(Step(s, op, hash, build).cache, path, h, key) ==
            if TakesLast(s.cache, op, hash, path, h) then None else Cached(s.cache, path, h, key)
  {
    match op
    case DoGet(p, t, f) =>
      if p == path && s.isOn && Cached(s.cache, p, hash(t), FrameKey(f)) == None {
        StoredAt(s.cache, path, hash(t), FrameKey(f), build(p, t, f), h, key);
      }
    case DoRegister(p, t) =>
      if p == path {
        RegisteredAt(s.cache, path, hash(t), h, key);
      }
    case DoUnregister(p, t) =>
      if p == path {
        UnregisteredAt(s.cache, path, hash(t), h, key);
      }
    case DoEnable(_) =>
  }

  /** The operation asks for the detail while the cache is on. */
  predicate Asks<T, H(==), D>(s: State<H, D>, op: Op<T>, hash: T -> H, path: string, h: H, key: int) {
    op.DoGet? && s.isOn && op.path == path && hash(op.settings) == h && FrameKey(op.frame) == key
  }

  /** A detail is cached by asking for it while the cache is on; nothing else adds one. */
  lemma CachedByAsking<T, H, D>(s: State<H, D>, op: Op<T>, hash: T -> H, build: (string, T, real) -> Handle<D>,
                                path: string, h: H, key: int)
    requires path != "" && Cached(s.cache, path, h, key) == None
    ensures Asks(s, op, hash, path, h, key) ==>
              Cached(Step(s, op, hash, build).cache, path, h, key) == build(op.path, op.settings, op.frame)
    ensures !Asks(s, op, hash, path, h, key) ==> Cached(Step(s, op, hash, build).cache, path, h, key) == None
  {
    match op
    case DoGet(p, t, f) =>
      if p == path && s.isOn && Cached(s.cache, p, hash(t), FrameKey(f)) == None {
        StoredAt(s.cache, path, hash(t), FrameKey(f), build(p, t, f), h, key);
      }
    case DoRegister(p, t) =>
      if p == path {
        RegisteredAt(s.cache, path, hash(t), h, key);
      }
    case DoUnregister(_, _) =>
    case DoEnable(_) =>
  }

  lemma StoredAt<H, D>(c: Cache<H, D>, path: string, h: H, key: int, d: Handle<D>, h': H, key': int)
    requires path != ""
    ensures Cached(Store(c, path, h, key, d), path, h', key') ==
            if h' == h && key' == key then d else Cached(c, path, h', key')
  {
    var es := Under(c, path);
    assert Under(Store(c, path, h, key, d), path) == es[h := At(es, h).(frames := At(es, h).frames[key := d])];
  }

  lemma RegisteredAt<H, D>(c: Cache<H, D>, path: string, h: H, h': H, key: int)
    requires path != ""
    ensures Cached(Register(c, path, h), path, h', key) == Cached(c, path, h', key)
  {
    var es := Under(c, path);
    assert Under(Register(c, path, h), path) == es[h := At(es, h).(references := At(es, h).references + 1)];
  }

  lemma UnregisteredAt<H, D>(c: Cache<H, D>, path: string, h: H, h': H, key: int)
    requires path != "" && Cached(c, path, h', key).Some?
    ensures Cached(Unregistered(c, path, h), path, h', key) ==
            if h' == h && References(c, path, h) <= 1 then None else Cached(c, path, h', key)
  {
    var es := Under(c, path);
    assert h' in es;
    NothingElse(es, h);
    if Cleans(c, path, h) {
      assert h' == h;
    } else {
      assert Under(Unregistered(c, path, h), path) == Released(es, h);
    }
  }
}
