/**
 The reference-counted detail cache: details by file path, settings hash and frame key, with
 a count of registrations for every pair of path and settings.
 */
module DetailCaches {
  import opened Wrappers

  /** A detail handle; None is an invalid one. */
  type Handle<D> = Option<D>

  datatype Element<D> = Element(references: int, frames: map<int, Handle<D>>)

  type Elements<H(==), D> = map<H, Element<D>>

  type Cache<H(==), D> = map<string, Elements<H, D>>

  function FrameKey(frame: real): int {
    Ceil(frame * 1000.0)
  }

  /** QMap operator[]: a missing entry reads as a new one. */
  function Under<H, D>(c: Cache<H, D>, path: string): Elements<H, D> {
    if path in c then c[path] else map[]
  }

  function At<H, D>(es: Elements<H, D>, h: H): Element<D> {
    if h in es then es[h] else Element(0, map[])
  }

  // ---------------------------------------------------------------- operations

  function Register<H, D>(c: Cache<H, D>, path: string, h: H): Cache<H, D> {
    if path == "" then c
    else
      var es := Under(c, path);
      c[path := es[h := At(es, h).(references := At(es, h).references + 1)]]
  }

  /** The elements of the path after a registration is taken back. */
  function Released<H, D>(es: Elements<H, D>, h: H): Elements<H, D> {
    var n := At(es, h).references - 1;
    if n < 1 then es - {h} else es[h := At(es, h).(references := n)]
  }

  /** Whether unregister cleans the resource of the path. */
  predicate Cleans<H, D>(c: Cache<H, D>, path: string, h: H) {
    path != "" && At(Under(c, path), h).references - 1 < 1 && Released(Under(c, path), h) == map[]
  }

  function Unregistered<H, D>(c: Cache<H, D>, path: string, h: H): Cache<H, D> {
    if path == "" then c
    else if Cleans(c, path, h) then c - {path}
    else c[path := Released(Under(c, path), h)]
  }

  function Cached<H, D>(c: Cache<H, D>, path: string, h: H, key: int): Handle<D> {
    if path != "" && path in c && h in c[path] && key in c[path][h].frames
    then c[path][h].frames[key] else None
  }

  function Store<H, D>(c: Cache<H, D>, path: string, h: H, key: int, d: Handle<D>): Cache<H, D> {
    var es := Under(c, path);
    c[path := es[h := At(es, h).(frames := At(es, h).frames[key := d])]]
  }

  class DetailCache<T, H(==), D(==)> {
    var isOn: bool
    var detailCache: Cache<H, D>
    const hash: T -> H
    const build: (string, T, real) -> Handle<D>
    /** The paths whose resource was cleaned, in order. */
    ghost var cleaned: seq<string>

    constructor (hash: T -> H, build: (string, T, real) -> Handle<D>)
      ensures isOn && detailCache == map[] && cleaned == [] && this.hash == hash && this.build == build
    {
      isOn, detailCache, cleaned := true, map[], [];
      this.hash, this.build := hash, build;
    }

    method EnableCache(state: bool)
      modifies this`isOn
      ensures isOn == state
    {
      isOn := state;
    }

    method RegisterInCache(path: string, settings: T)
      modifies this`detailCache
      ensures detailCache == Register(old(detailCache), path, hash(settings))
    {
      if path == "" {
        return;
      }
      var h := hash(settings);
      var elements := if path in detailCache then detailCache[path] else map[];
      var e := if h in elements then elements[h] else Element(0, map[]);
      detailCache := detailCache[path := elements[h := e.(references := e.references + 1)]];
    }

    method Unregister(path: string, settings: T)
      modifies this`detailCache, this`cleaned
      ensures detailCache == Unregistered(old(detailCache), path, hash(settings))
      ensures cleaned == old(cleaned) + (if Cleans(old(detailCache), path, hash(settings)) then [path] else [])
    {
      if path == "" {
        return;
      }
      var h := hash(settings);
      var tempVal := if path in detailCache then detailCache[path] else map[];
      if h !in tempVal {
        tempVal := tempVal[h := Element(0, map[])];
      }
      tempVal := tempVal[h := tempVal[h].(references := tempVal[h].references - 1)];
      if tempVal[h].references < 1 {
        tempVal := tempVal - {h};
        assert tempVal == old(Under(detailCache, path)) - {h};
        if tempVal == map[] {
          detailCache := detailCache - {path};
          cleaned := cleaned + [path];
          return;
        }
      }
      detailCache := detailCache[path := tempVal];
    }

    method GetCachedCached(path: string, settings: T, frame: real) returns (d: Handle<D>)
      ensures d == Cached(detailCache, path, hash(settings), FrameKey(frame))
    {
      if path == "" {
        return None;
      }
      if path !in detailCache {
        return None;
      }
      var cacheElements := detailCache[path];
      if hash(settings) !in cacheElements {
        return None;
      }
      var detailMap := cacheElements[hash(settings)].frames;
      if FrameKey(frame) !in detailMap {
        return None;
      }
      d := detailMap[FrameKey(frame)];
    }

    method GetDetail(path: string, settings: T, frame: real) returns (d: Handle<D>)
      modifies this`detailCache
      ensures d == Answer(old(detailCache), isOn, path, settings, frame, hash, build)
      ensures detailCache == AfterGet(old(detailCache), isOn, path, settings, frame, hash, build)
    {
      d := None;
      if path == "" {
        return;
      }
      if !isOn {
        d := build(path, settings, frame);
      } else {
        d := GetCachedCached(path, settings, frame);
        if d == None {
          d := build(path, settings, frame);
          var h := hash(settings);
          var elements := if path in detailCache then detailCache[path] else map[];
          var e := if h in elements then elements[h] else Element(0, map[]);
          detailCache := detailCache[path := elements[h := e.(frames := e.frames[FrameKey(frame) := d])]];
        }
      }
    }
  }

  /** What getDetail returns. */
  function Answer<T, H, D>(c: Cache<H, D>, isOn: bool, path: string, settings: T, frame: real,
                           hash: T -> H, build: (string, T, real) -> Handle<D>): Handle<D> {
    if path == "" then None
    else if isOn && Cached(c, path, hash(settings), FrameKey(frame)).Some?
    then Cached(c, path, hash(settings), FrameKey(frame))
    else build(path, settings, frame)
  }

  function AfterGet<T, H, D>(c: Cache<H, D>, isOn: bool, path: string, settings: T, frame: real,
                             hash: T -> H, build: (string, T, real) -> Handle<D>): Cache<H, D> {
    if path == "" || !isOn || Cached(c, path, hash(settings), FrameKey(frame)).Some? then c
    else Store(c, path, hash(settings), FrameKey(frame), build(path, settings, frame))
  }
}
