/** When incremental view export agrees with a fresh export, step by step and over sessions. */
module ViewRuns {
  import opened Wrappers
  import opened ViewParameters
  import opened ViewExport

  /** The plugin a fresh export leaves under a name. */
  function Expected(se: Session, q: Request, n: Name): Option<Plugin>
    requires ValidRequest(q)
  {
    var v := q.view;
    match n
    case NameRenderView => Some(RenderViewPlugin(se, v))
    case NameSettingsCamera => Some(SettingsCameraPlugin(v))
    case NameCameraDof => if v.mode == ModeNone && !v.renderView.ortho then Some(PluginCameraDof(v.dof)) else None
    case NameMotionBlur => if v.mode == ModeNone then Some(PluginMotionBlur(v.blur)) else None
    case NameStereoSettings =>
      if v.renderView.stereo.use && !se.gpu then Some(PluginStereoSettings(v.renderView.stereo, q.nodeStereo)) else None
    case NameCameraPhysical => if v.mode != ModeNone then Some(PhysicalPlugin(v)) else None
    case NameCameraDefault => if v.mode == ModeNone then Some(PluginCameraDefault(v.renderView.ortho)) else None
  }

  function Get(t: Table, n: Name): Option<Plugin> {
    if n in t then Some(t[n]) else None
  }

  function ExpectedCamera(q: Request): Name {
    if q.view.mode != ModeNone then NameCameraPhysical else NameCameraDefault
  }

  lemma FreshIsExpected(se: Session, q: Request)
    requires ValidRequest(q)
    ensures forall n :: Get(Fresh(se, q).table, n) == Expected(se, q, n)
    ensures Fresh(se, q).camera == Some(ExpectedCamera(q))
  {
    hide PhysicalPlugin, RenderViewPlugin, SettingsCameraPlugin;
    forall n ensures Get(Fresh(se, q).table, n) == Expected(se, q, n) {
      match n
      case NameRenderView =>
      case NameSettingsCamera =>
      case NameCameraDof =>
      case NameMotionBlur =>
      case NameStereoSettings =>
      case NameCameraPhysical =>
      case NameCameraDefault =>
    }
  }

  lemma SameTables(a: Table, b: Table)
    ensures a == b <==> forall n :: Get(a, n) == Get(b, n)
  {
    if forall n :: Get(a, n) == Get(b, n) {
      forall n ensures (n in a <==> n in b) && (n in a ==> a[n] == b[n]) {
        assert Get(a, n) == Get(b, n);
      }
      assert a == b;
    }
  }

  lemma AllDeleted(t: Table)
    ensures t - VIEW_NAMES == map[]
  {
    forall n: Name ensures n in VIEW_NAMES {
      match n
      case NameRenderView =>
      case NameSettingsCamera =>
      case NameCameraDof =>
      case NameMotionBlur =>
      case NameStereoSettings =>
      case NameCameraPhysical =>
      case NameCameraDefault =>
    }
  }

  // ------------------------------------------------------- one step, exactly

  /** The offset written into the camera plugin is the same for both image sizes. */
  predicate SameOffset(m: ViewParams, v: ViewParams) {
    v.physical.verticalOffset == 0.0 || m.size.w * v.size.h == v.size.w * m.size.h
  }

  /**
   The update without a reset leaves out nothing that changed. Without a physical camera in
   use its parameters must not change at all, and neither must the projection; with one, a
   change of the image's shape or of the target flag must come with another camera change.
   */
  predicate Covered(se: Session, m: Request, q: Request) {
    var a, b := m.view, q.view;
    && (if b.mode == ModeNone
        then SamePhysical(a.physical, b.physical) && a.renderView.ortho == b.renderView.ortho
        else SamePhysical(a.physical, b.physical) ==>
               a.physical.targeted == b.physical.targeted && SameOffset(a, b))
    && (b.renderView.stereo.use && !se.gpu ==>
          m.nodeStereo == q.nodeStereo
          && a.renderView.stereo.adjustResolution == b.renderView.stereo.adjustResolution)
  }

  lemma OffsetsAgree(m: ViewParams, v: ViewParams)
    requires 0 < m.size.w && 0 < m.size.h && 0 < v.size.w && 0 < v.size.h
    requires m.physical.verticalOffset == v.physical.verticalOffset
    requires m.renderView.stereo.use == v.renderView.stereo.use
    ensures VerticalOffset(m) == VerticalOffset(v) <==> SameOffset(m, v)
  {
    OffsetIsShare(m);
    OffsetIsShare(v);
    SharesAgree(m, v);
    hide *;
  }

  /** The vertical offset of one view, in image heights. */
  function Share(v: ViewParams): real
    requires 0 < v.size.w
  {
    v.physical.verticalOffset * (v.size.h as real / v.size.w as real)
  }

  lemma OffsetIsShare(v: ViewParams)
    requires 0 < v.size.w && 0 < v.size.h
    ensures VerticalOffset(v) == if v.renderView.stereo.use then Share(v) / 2.0 else Share(v)
  {
    InverseRatio(v.size.w as real, v.size.h as real);
  }

  lemma SharesAgree(m: ViewParams, v: ViewParams)
    requires 0 < m.size.w && 0 < m.size.h && 0 < v.size.w && 0 < v.size.h
    requires m.physical.verticalOffset == v.physical.verticalOffset
    ensures Share(m) == Share(v) <==> SameOffset(m, v)
  {
    Ratios(m.size.w as real, m.size.h as real, v.size.w as real, v.size.h as real, v.physical.verticalOffset);
    AsReals(m.size.w, v.size.h, v.size.w, m.size.h);
  }

  lemma AsReals(a: int, b: int, c: int, d: int)
    ensures a * b == c * d <==> a as real * b as real == c as real * d as real
  {
    assert (a * b) as real == a as real * b as real && (c * d) as real == c as real * d as real;
  }

  lemma InverseRatio(w: real, h: real)
    requires w > 0.0 && h > 0.0
    ensures w / h > 0.0 && 1.0 / (w / h) == h / w
  {
    assert (w / h) * (h / w) == 1.0;
  }

  lemma Ratios(w: real, h: real, w': real, h': real, x: real)
    requires w > 0.0 && h > 0.0 && w' > 0.0 && h' > 0.0
    ensures x * (h / w) == x * (h' / w') <==> x == 0.0 || w * h' == w' * h
  {
    var r, r' := h / w, h' / w';
    assert h == r * w && h' == r' * w';
    assert w * h' == r' * (w * w') && w' * h == r * (w * w');
    assert w * w' > 0.0;
    if x != 0.0 && x * r == x * r' {
      assert r == r';
    }
    if w * h' == w' * h {
      assert (r - r') * (w * w') == 0.0;
      assert r == r';
    }
  }

  /** The plugin the update without a reset leaves under a name. */
  function Patched(se: Session, m: Request, q: Request, n: Name): Option<Plugin>
    requires ValidRequest(m) && ValidRequest(q)
  {
    var camChanged := !SamePhysical(m.view.physical, q.view.physical);
    match n
    case NameCameraPhysical => if camChanged then Some(PhysicalPlugin(q.view)) else Expected(se, m, n)
    case NameRenderView =>
      if camChanged || !SameRenderView(m.view.renderView, q.view.renderView)
      then Some(RenderViewPlugin(se, q.view)) else Expected(se, m, n)
    case _ => Expected(se, m, n)
  }

  lemma SameStereoPart(se: Session, m: Request, q: Request)
    requires !NeedsReset(m.view, q.view)
    ensures RenderViewPlugin(se, m.view).stereo == RenderViewPlugin(se, q.view).stereo
    ensures SameRenderView(m.view.renderView, q.view.renderView) ==>
              RenderViewPlugin(se, m.view) == RenderViewPlugin(se, q.view)
  {
  }

  lemma PatchIsPatched(se: Session, m: Request, q: Request)
    requires ValidRequest(m) && ValidRequest(q) && !NeedsReset(m.view, q.view)
    ensures var p := Patch(se, Fresh(se, m), m.view, q);
            && (forall n :: Get(p.table, n) == Patched(se, m, q, n))
            && p.camera == if SamePhysical(m.view.physical, q.view.physical)
                           then Some(ExpectedCamera(m)) else Some(NameCameraPhysical)
  {
    FreshIsExpected(se, m);
    SameStereoPart(se, m, q);
    hide PhysicalPlugin, SettingsCameraPlugin, SamePhysical, SameRenderView, NeedsReset, Fresh;
    var s := Fresh(se, m);
    var p := Patch(se, s, m.view, q);
    assert Get(s.table, NameRenderView) == Expected(se, m, NameRenderView);
    forall n ensures Get(p.table, n) == Patched(se, m, q, n) {
      assert Get(s.table, n) == Expected(se, m, n);
    }
  }

  /** Names whose plugin neither camera nor projection decide. */
  lemma OtherPluginsAgree(se: Session, m: Request, q: Request)
    requires ValidRequest(m) && ValidRequest(q) && !NeedsReset(m.view, q.view)
    ensures Patched(se, m, q, NameRenderView) == Expected(se, q, NameRenderView)
    ensures Patched(se, m, q, NameSettingsCamera) == Expected(se, q, NameSettingsCamera)
    ensures Patched(se, m, q, NameMotionBlur) == Expected(se, q, NameMotionBlur)
    ensures Patched(se, m, q, NameStereoSettings) == Expected(se, q, NameStereoSettings) <==>
            (q.view.renderView.stereo.use && !se.gpu ==>
               m.nodeStereo == q.nodeStereo
               && m.view.renderView.stereo.adjustResolution == q.view.renderView.stereo.adjustResolution)
    ensures Patched(se, m, q, NameCameraDefault) == Expected(se, q, NameCameraDefault) <==>
            (q.view.mode == ModeNone ==> m.view.renderView.ortho == q.view.renderView.ortho)
    ensures (q.view.mode == ModeNone ==> m.view.renderView.ortho == q.view.renderView.ortho) ==>
            Patched(se, m, q, NameCameraDof) == Expected(se, q, NameCameraDof)
  {
    SameStereoPart(se, m, q);
  }

  lemma PhysicalPluginsAgree(a: ViewParams, b: ViewParams)
    requires 0 < a.size.w && 0 < a.size.h && 0 < b.size.w && 0 < b.size.h
    requires SamePhysical(a.physical, b.physical)
    ensures PhysicalPlugin(a) == PhysicalPlugin(b) <==>
            a.physical.targeted == b.physical.targeted && VerticalOffset(a) == VerticalOffset(b)
  {
    hide VerticalOffset, SamePhysical;
    SamePhysicalMeans(a.physical, b.physical);
  }

  lemma SameVerticalOffset(a: PhysicalCamera, b: PhysicalCamera)
    requires SamePhysical(a, b)
    ensures a.verticalOffset == b.verticalOffset
  {
  }

  lemma PhysicalPluginAgrees(se: Session, m: Request, q: Request)
    requires ValidRequest(m) && ValidRequest(q) && !NeedsReset(m.view, q.view)
    ensures Patched(se, m, q, NameCameraPhysical) == Expected(se, q, NameCameraPhysical) <==>
            if q.view.mode == ModeNone then SamePhysical(m.view.physical, q.view.physical)
            else SamePhysical(m.view.physical, q.view.physical) ==>
                   m.view.physical.targeted == q.view.physical.targeted && SameOffset(m.view, q.view)
  {
    hide PhysicalPlugin, SamePhysical, NeedsReset, SameOffset, VerticalOffset;
    ModeKept(m.view, q.view);
    if SamePhysical(m.view.physical, q.view.physical) {
      StereoUseKept(m.view, q.view);
      SameVerticalOffset(m.view.physical, q.view.physical);
      OffsetsAgree(m.view, q.view);
      PhysicalPluginsAgree(m.view, q.view);
    }
  }

  lemma StereoUseKept(m: ViewParams, v: ViewParams)
    requires !NeedsReset(m, v)
    ensures m.renderView.stereo.use == v.renderView.stereo.use
  {
  }

  /** Starting in agreement, an update without a reset keeps it exactly when it is covered. */
  lemma PatchAgreesIffCovered(se: Session, m: Request, q: Request)
    requires ValidRequest(m) && ValidRequest(q) && !NeedsReset(m.view, q.view)
    ensures Patch(se, Fresh(se, m), m.view, q) == Fresh(se, q) <==> Covered(se, m, q)
  {
    PatchIsPatched(se, m, q);
    FreshIsExpected(se, q);
    OtherPluginsAgree(se, m, q);
    PhysicalPluginAgrees(se, m, q);
    var p, f := Patch(se, Fresh(se, m), m.view, q), Fresh(se, q);
    SameTables(p.table, f.table);
    ModeKept(m.view, q.view);
    hide Patch, Fresh, Patched, Expected, SamePhysical, SameOffset, NeedsReset;
    if Covered(se, m, q) {
      forall n ensures Get(p.table, n) == Get(f.table, n) {
        assert Get(p.table, n) == Patched(se, m, q, n) && Get(f.table, n) == Expected(se, q, n);
        match n
        case NameRenderView =>
        case NameSettingsCamera =>
        case NameCameraDof =>
        case NameMotionBlur =>
        case NameStereoSettings =>
        case NameCameraPhysical =>
        case NameCameraDefault =>
      }
    }
    if p == f {
      assert Get(p.table, NameStereoSettings) == Get(f.table, NameStereoSettings);
      assert Get(p.table, NameCameraPhysical) == Get(f.table, NameCameraPhysical);
      assert Get(p.table, NameCameraDefault) == Get(f.table, NameCameraDefault);
    }
  }

  lemma ModeKept(m: ViewParams, v: ViewParams)
    requires !NeedsReset(m, v)
    ensures m.mode == v.mode
  {
  }

  // -------------------------------------------------------- whole sessions

  /** The renderer after a series of calls. */
  function RunAll(se: Session, qs: seq<Request>): Scene
    requires forall i :: 0 <= i < |qs| ==> ValidRequest(qs[i])
  {
    if qs == [] then Scene(map[], None)
    else
      var n := |qs| - 1;
      Exported(se, RunAll(se, qs[..n]), if n == 0 then None else Some(qs[n - 1].view), qs[n])
  }

  /** Each step rebuilds the view or is covered. */
  ghost predicate AllCovered(se: Session, qs: seq<Request>) {
    forall i :: 0 < i < |qs| ==> StepCovered(se, qs[i - 1], qs[i])
  }

  predicate StepCovered(se: Session, m: Request, q: Request) {
    se.animation || NeedsReset(m.view, q.view) || Covered(se, m, q)
  }

  lemma StepAgrees(se: Session, m: Request, q: Request)
    requires se.interactive && ValidRequest(m) && ValidRequest(q)
    ensures Exported(se, Fresh(se, m), Some(m.view), q) == Fresh(se, q) <==> StepCovered(se, m, q)
  {
    hide ExportAll, Patch, Covered, NeedsReset;
    AllDeleted(Fresh(se, m).table);
    ExportAllIgnoresCamera(se, map[], Fresh(se, m).camera, q);
    if !NeedsReset(m.view, q.view) {
      PatchAgreesIffCovered(se, m, q);
    }
  }

  lemma ExportAllIgnoresCamera(se: Session, t: Table, c: Option<Name>, q: Request)
    requires ValidRequest(q)
    ensures ExportAll(se, Scene(t, c), q) == ExportAll(se, Scene(t, None), q)
  {
  }

  /**
   In an interactive session, after any series of calls that are covered the view plugins and
   the active camera are those of a fresh export of the latest parameters.
   */
  lemma {:induction false} SessionAgrees(se: Session, qs: seq<Request>)
    requires se.interactive && qs != [] && forall i :: 0 <= i < |qs| ==> ValidRequest(qs[i])
    requires AllCovered(se, qs)
    ensures RunAll(se, qs) == Fresh(se, qs[|qs| - 1])
  {
    hide Fresh, StepCovered, Exported;
    var n := |qs| - 1;
    if n > 0 {
      SessionAgrees(se, qs[..n]);
      StepAgrees(se, qs[n - 1], qs[n]);
    } else {
      assert qs[..0] == [];
      FirstExportIsFresh(se, qs[0]);
    }
  }

  lemma FirstExportIsFresh(se: Session, q: Request)
    requires ValidRequest(q)
    ensures Exported(se, Scene(map[], None), None, q) == Fresh(se, q)
  {
  }

  /** The renderer shows a fresh export after every single call exactly when every step is covered. */
  lemma AlwaysAgreesIffCovered(se: Session, qs: seq<Request>)
    requires se.interactive && forall i :: 0 <= i < |qs| ==> ValidRequest(qs[i])
    ensures AllCovered(se, qs) <==> forall n :: 0 < n <= |qs| ==> RunAll(se, qs[..n]) == Fresh(se, qs[n - 1])
  {
    hide Fresh, StepCovered, Exported;
    if AllCovered(se, qs) {
      forall n | 0 < n <= |qs| ensures RunAll(se, qs[..n]) == Fresh(se, qs[n - 1]) {
        SessionAgrees(se, qs[..n]);
      }
    }
    if forall n :: 0 < n <= |qs| ==> RunAll(se, qs[..n]) == Fresh(se, qs[n - 1]) {
      forall i | 0 < i < |qs| ensures StepCovered(se, qs[i - 1], qs[i]) {
        assert qs[..i + 1][..i] == qs[..i];
        assert RunAll(se, qs[..i + 1]) == Fresh(se, qs[i]);
        assert RunAll(se, qs[..i]) == Fresh(se, qs[i - 1]);
        StepAgrees(se, qs[i - 1], qs[i]);
      }
    }
  }

  /**
   The usual session: image size, projection, target flag and the remaining stereo settings
   stay fixed, and the physical camera changes only while it is in use.
   */
  ghost predicate Usual(qs: seq<Request>) {
    forall i :: 0 < i < |qs| ==>
      var a, b := qs[i - 1].view, qs[i].view;
      && a.size == b.size
      && a.renderView.ortho == b.renderView.ortho
      && a.physical.targeted == b.physical.targeted
      && a.renderView.stereo.adjustResolution == b.renderView.stereo.adjustResolution
      && qs[i - 1].nodeStereo == qs[i].nodeStereo
      && (b.mode == ModeNone ==> SamePhysical(a.physical, b.physical))
  }

  lemma UsualSessionAgrees(se: Session, qs: seq<Request>)
    requires se.interactive && qs != [] && forall i :: 0 <= i < |qs| ==> ValidRequest(qs[i])
    requires Usual(qs)
    ensures RunAll(se, qs) == Fresh(se, qs[|qs| - 1])
  {
    SessionAgrees(se, qs);
  }

  /** Changing, say, the film width of a camera that is not in use makes that camera the active one. */
  lemma UnusedCameraChangeTakesOver(se: Session, q: Request, width: real)
    requires se.interactive && !se.animation && ValidRequest(q) && q.view.mode == ModeNone
    requires width != q.view.physical.filmWidth
    ensures var q' := q.(view := q.view.(physical := q.view.physical.(filmWidth := width)));
            && RunAll(se, [q, q']).camera == Some(NameCameraPhysical)
            && Fresh(se, q').camera == Some(NameCameraDefault)
  {
    var q' := q.(view := q.view.(physical := q.view.physical.(filmWidth := width)));
    assert [q, q'][..1] == [q] && [q][..0] == [];
    FreshIsExpected(se, q');
    assert RunAll(se, [q]) == Fresh(se, q);
    PatchIsPatched(se, q, q');
  }


  // ------------------------------------------------- attribute by attribute

  predicate ShowsRenderView(se: Session, r: RenderView, p: Plugin) {
    && p.PluginRenderView?
    && p.transform == r.tm
    && p.fov == r.fov
    && (p.clipping <==> r.useClipStart || r.useClipEnd)
    && p.clippingNear == r.clipStart
    && p.clippingFar == r.clipEnd
    && p.orthographic == r.ortho
    && p.orthographicWidth == r.orthoWidth
    && (se.interactive ==> p.useSceneOffset == Some(false))
    && (!se.interactive ==> p.useSceneOffset == None)
    && (r.stereo.use && se.gpu <==> p.stereo.Some?)
    && (p.stereo.Some? ==>
          && p.stereo.value.eyeDistance == r.stereo.eyeDistance
          && p.stereo.value.interocularMethod == r.stereo.interocularMethod
          && p.stereo.value.specifyFocus == r.stereo.specifyFocus
          && p.stereo.value.focusDistance == r.stereo.focusDistance
          && p.stereo.value.focusMethod == r.stereo.focusMethod
          && p.stereo.value.view == r.stereo.view)
  }

  predicate ShowsSettingsCamera(c: SettingsCamera, p: Plugin) {
    && p.PluginSettingsCamera?
    && p.kind == c.kind && p.height == c.height && p.dist == c.dist && p.cameraFov == -1.0
    && p.autoFit == c.autoFit && p.curve == c.curve
  }

  /**
   The exported camera has the parameters of the view's, the two that are not attributes left
   blank; its vertical offset is a share of the image's height instead of its width, and half of
   that when two eyes share the image.
   */
  predicate ShowsPhysical(v: ViewParams, p: Plugin) {
    && p.PluginCameraPhysical?
    && p.camera.(focalUnits := v.physical.focalUnits, targetDistance := v.physical.targetDistance,
                 verticalOffset := v.physical.verticalOffset) == v.physical
    && p.camera.focalUnits == 0 && p.camera.targetDistance == 0.0
    && p.camera.verticalOffset * v.size.w as real * (if v.renderView.stereo.use then 2.0 else 1.0)
       == v.physical.verticalOffset * v.size.h as real
  }

  /** The scene in terms of the request alone: which plugins there are, and with which attributes. */
  ghost predicate Shows(se: Session, q: Request, s: Scene) {
    var v := q.view;
    && NameRenderView in s.table && ShowsRenderView(se, v.renderView, s.table[NameRenderView])
    && NameSettingsCamera in s.table && ShowsSettingsCamera(v.camera, s.table[NameSettingsCamera])
    && (NameCameraPhysical in s.table <==> v.mode != ModeNone)
    && (NameCameraDefault in s.table <==> v.mode == ModeNone)
    && (NameMotionBlur in s.table <==> v.mode == ModeNone)
    && (NameCameraDof in s.table <==> v.mode == ModeNone && !v.renderView.ortho)
    && (NameStereoSettings in s.table <==> v.renderView.stereo.use && !se.gpu)
    && (v.mode != ModeNone ==> s.camera == Some(NameCameraPhysical) && ShowsPhysical(v, s.table[NameCameraPhysical]))
    && (v.mode == ModeNone ==>
          && s.camera == Some(NameCameraDefault)
          && s.table[NameCameraDefault] == PluginCameraDefault(v.renderView.ortho)
          && s.table[NameMotionBlur] == PluginMotionBlur(v.blur))
    && (NameCameraDof in s.table ==> s.table[NameCameraDof] == PluginCameraDof(v.dof))
    && (NameStereoSettings in s.table ==>
          s.table[NameStereoSettings] == PluginStereoSettings(v.renderView.stereo, q.nodeStereo))
  }

  lemma PhysicalPluginShows(v: ViewParams)
    requires 0 < v.size.w && 0 < v.size.h
    ensures ShowsPhysical(v, PhysicalPlugin(v))
  {
    OffsetIsShare(v);
    ShareOfWidth(v);
    hide VerticalOffset, Share;
  }

  lemma ShareOfWidth(v: ViewParams)
    requires 0 < v.size.w
    ensures Share(v) * v.size.w as real == v.physical.verticalOffset * v.size.h as real
  {
    var w, h, x := v.size.w as real, v.size.h as real, v.physical.verticalOffset;
    assert (h / w) * w == h;
    assert x * (h / w) * w == x * ((h / w) * w);
  }

  /** A first export shows the request. */
  lemma FreshShows(se: Session, q: Request)
    requires ValidRequest(q)
    ensures Shows(se, q, Fresh(se, q))
  {
    FreshIsExpected(se, q);
    if q.view.mode != ModeNone {
      PhysicalPluginShows(q.view);
    }
    var t := Fresh(se, q).table;
    hide Fresh, PhysicalPlugin, ShowsPhysical;
    assert Get(t, NameRenderView) == Expected(se, q, NameRenderView);
    assert Get(t, NameSettingsCamera) == Expected(se, q, NameSettingsCamera);
    assert Get(t, NameCameraPhysical) == Expected(se, q, NameCameraPhysical);
    assert Get(t, NameCameraDefault) == Expected(se, q, NameCameraDefault);
    assert Get(t, NameMotionBlur) == Expected(se, q, NameMotionBlur);
    assert Get(t, NameCameraDof) == Expected(se, q, NameCameraDof);
    assert Get(t, NameStereoSettings) == Expected(se, q, NameStereoSettings);
  }

  /** So does the renderer after any covered session: it shows the latest request. */
  lemma SessionShows(se: Session, qs: seq<Request>)
    requires se.interactive && qs != [] && forall i :: 0 <= i < |qs| ==> ValidRequest(qs[i])
    requires AllCovered(se, qs)
    ensures Shows(se, qs[|qs| - 1], RunAll(se, qs))
  {
    SessionAgrees(se, qs);
    FreshShows(se, qs[|qs| - 1]);
    hide Shows, Fresh, AllCovered;
  }
}
