/**
 Incremental export of the view: new parameters are compared with the stored ones, and the
 view plugins in the renderer are rebuilt, patched or left alone.
 */
module ViewExport {
  import opened Wrappers
  import opened ViewParameters
  import T = Transforms

  datatype Session = Session(interactive: bool, animation: bool, gpu: bool)

  /**
   One call's input: the parameters, and the stereo settings of the render node that the
   parameters do not carry (the stereo plugin is filled from the node itself).
   */
  datatype Request = Request(view: ViewParams, nodeStereo: string)

  predicate ValidRequest(q: Request) {
    0 < q.view.size.w && 0 < q.view.size.h
  }

  datatype Name =
    | NameRenderView | NameSettingsCamera | NameCameraDof | NameMotionBlur
    | NameStereoSettings | NameCameraPhysical | NameCameraDefault

  datatype StereoAttrs = StereoAttrs(
    eyeDistance: real, interocularMethod: int, specifyFocus: int, focusDistance: real, focusMethod: int, view: int)

  /** A plugin's attributes; an attribute an export did not write is None. */
  datatype Plugin =
    | PluginRenderView(
        transform: T.Transform, fov: real, clipping: bool, clippingNear: real, clippingFar: real,
        orthographic: bool, orthographicWidth: real, useSceneOffset: Option<bool>, stereo: Option<StereoAttrs>)
    | PluginSettingsCamera(kind: int, height: real, dist: real, cameraFov: real, autoFit: bool, curve: real)
    | PluginCameraDof(dof: SettingsCameraDof)
    | PluginMotionBlur(blur: SettingsMotionBlur)
    | PluginStereoSettings(settings: Stereo, node: string)
    // Of the camera's fields all but the focal units and the target distance are attributes.
    | PluginCameraPhysical(camera: PhysicalCamera)
    | PluginCameraDefault(defaultOrthographic: bool)

  type Table = map<Name, Plugin>

  // ---------------------------------------------------------- plugin attributes

  function StereoPart(s: Stereo): StereoAttrs {
    StereoAttrs(s.eyeDistance, s.interocularMethod, s.specifyFocus, s.focusDistance, s.focusMethod, s.view)
  }

  function RenderViewPlugin(se: Session, v: ViewParams): Plugin {
    var r := v.renderView;
    PluginRenderView(
      r.tm, r.fov, r.useClipStart || r.useClipEnd, r.clipStart, r.clipEnd, r.ortho, r.orthoWidth,
      if se.interactive then Some(false) else None,
      if r.stereo.use && se.gpu then Some(StereoPart(r.stereo)) else None)
  }

  /** The vertical offset in image heights, halved when two eyes share the image. */
  function VerticalOffset(v: ViewParams): real
    requires 0 < v.size.w && 0 < v.size.h
  {
    var aspect := v.size.w as real / v.size.h as real;
    var offset := v.physical.verticalOffset * (1.0 / aspect);
    if v.renderView.stereo.use then offset / 2.0 else offset
  }

  function PhysicalPlugin(v: ViewParams): Plugin
    requires 0 < v.size.w && 0 < v.size.h
  {
    PluginCameraPhysical(v.physical.(focalUnits := 0, targetDistance := 0.0, verticalOffset := VerticalOffset(v)))
  }

  function SettingsCameraPlugin(v: ViewParams): Plugin {
    PluginSettingsCamera(v.camera.kind, v.camera.height, v.camera.dist, -1.0, v.camera.autoFit, v.camera.curve)
  }

  /** exportPlugin on an existing plugin writes the given attributes over the old ones. */
  function Written(before: Option<Plugin>, p: Plugin): Plugin {
    if p.PluginRenderView? && before.Some? && before.value.PluginRenderView? then
      p.(useSceneOffset := if p.useSceneOffset.Some? then p.useSceneOffset else before.value.useSceneOffset,
         stereo := if p.stereo.Some? then p.stereo else before.value.stereo)
    else p
  }

  function Export(t: Table, n: Name, p: Plugin): Table {
    t[n := Written(if n in t then Some(t[n]) else None, p)]
  }

  // ------------------------------------------------------------------- export

  /** The renderer's view plugins and its active camera. */
  datatype Scene = Scene(table: Table, camera: Option<Name>)

  const VIEW_NAMES: set<Name> := {
    NameRenderView, NameSettingsCamera, NameCameraDof, NameMotionBlur,
    NameStereoSettings, NameCameraPhysical, NameCameraDefault
  }

  /** All view plugins, over what is in the table. */
  function ExportAll(se: Session, s: Scene, q: Request): Scene
    requires ValidRequest(q)
  {
    var v := q.view;
    var t := s.table;
    var cam :=
      if v.mode != ModeNone then
        Scene(Export(t, NameCameraPhysical, PhysicalPlugin(v)), Some(NameCameraPhysical))
      else
        var t1 := Export(t, NameMotionBlur, PluginMotionBlur(v.blur));
        var t2 := if !v.renderView.ortho then Export(t1, NameCameraDof, PluginCameraDof(v.dof)) else t1;
        Scene(Export(t2, NameCameraDefault, PluginCameraDefault(v.renderView.ortho)), Some(NameCameraDefault));
    var t3 := Export(cam.table, NameSettingsCamera, SettingsCameraPlugin(v));
    var t4 := if v.renderView.stereo.use && !se.gpu
              then Export(t3, NameStereoSettings, PluginStereoSettings(v.renderView.stereo, q.nodeStereo)) else t3;
    Scene(Export(t4, NameRenderView, RenderViewPlugin(se, v)), cam.camera)
  }

  /** What a first export of q into a new renderer leaves. */
  function Fresh(se: Session, q: Request): Scene
    requires ValidRequest(q)
  {
    ExportAll(se, Scene(map[], None), q)
  }

  /** The update without a reset. */
  function Patch(se: Session, s: Scene, before: ViewParams, q: Request): Scene
    requires ValidRequest(q)
  {
    var camChanged := !SamePhysical(before.physical, q.view.physical);
    var s1 :=
      if camChanged then
        Scene(Export(s.table - {NameCameraPhysical, NameRenderView}, NameCameraPhysical, PhysicalPlugin(q.view)),
              Some(NameCameraPhysical))
      else s;
    if camChanged || !SameRenderView(before.renderView, q.view.renderView)
    then s1.(table := Export(s1.table, NameRenderView, RenderViewPlugin(se, q.view)))
    else s1
  }

  /** exportView; stored is None before the first export. */
  function Exported(se: Session, s: Scene, stored: Option<ViewParams>, q: Request): Scene
    requires ValidRequest(q)
  {
    var reset := se.interactive && stored.Some? && NeedsReset(stored.value, q.view);
    if se.animation || stored.None? || reset then
      ExportAll(se, if se.interactive && stored.Some? then s.(table := s.table - VIEW_NAMES) else s, q)
    else if se.interactive then Patch(se, s, stored.value, q)
    else s
  }

  class ViewExporter {
    const session: Session
    var viewParams: ViewParams
    var firstExport: bool
    var table: Table
    var camera: Option<Name>
    var imageSize: Size

    function Now(): Scene
      reads this
    {
      Scene(table, camera)
    }

    function Stored(): Option<ViewParams>
      reads this
    {
      if firstExport then None else Some(viewParams)
    }

    constructor (session: Session, blank: ViewParams)
      requires blank.size == Size(0, 0)
      ensures Now() == Scene(map[], None) && Stored() == None && this.session == session
      ensures viewParams.size == imageSize
    {
      this.session := session;
      viewParams := blank;
      firstExport := true;
      table := map[];
      camera := None;
      imageSize := blank.size;
    }

    method ExportPlugin(n: Name, p: Plugin)
      modifies this`table
      ensures table == Export(old(table), n, p)
    {
      table := table[n := Written(if n in table then Some(table[n]) else None, p)];
    }

    method DeletePlugin(n: Name)
      modifies this`table
      ensures table == old(table) - {n}
    {
      table := table - {n};
    }

    method DeleteViewPlugins()
      modifies this`table
      ensures table == old(table) - VIEW_NAMES
    {
      DeletePlugin(NameRenderView);
      DeletePlugin(NameSettingsCamera);
      DeletePlugin(NameCameraDof);
      DeletePlugin(NameMotionBlur);
      assert table == old(table) - {NameRenderView, NameSettingsCamera, NameCameraDof, NameMotionBlur};
      DeletePlugin(NameStereoSettings);
      DeletePlugin(NameCameraPhysical);
      DeletePlugin(NameCameraDefault);
    }

    method ExportViewPlugins(q: Request)
      requires ValidRequest(q)
      modifies this`table, this`camera
      ensures Now() == ExportAll(session, old(Now()), q)
    {
      var v := q.view;
      if v.mode != ModeNone {
        ExportPlugin(NameCameraPhysical, PhysicalPlugin(v));
        camera := Some(NameCameraPhysical);
      } else {
        ExportPlugin(NameMotionBlur, PluginMotionBlur(v.blur));
        if !v.renderView.ortho {
          ExportPlugin(NameCameraDof, PluginCameraDof(v.dof));
        }
        ExportPlugin(NameCameraDefault, PluginCameraDefault(v.renderView.ortho));
        camera := Some(NameCameraDefault);
      }
      ExportPlugin(NameSettingsCamera, SettingsCameraPlugin(v));
      if v.renderView.stereo.use && !session.gpu {
        ExportPlugin(NameStereoSettings, PluginStereoSettings(v.renderView.stereo, q.nodeStereo));
      }
      ExportPlugin(NameRenderView, RenderViewPlugin(session, v));
    }

    method ExportView(q: Request)
      requires ValidRequest(q)
      modifies this
      ensures Now() == Exported(session, old(Now()), old(Stored()), q)
      ensures Stored() == Some(q.view)
      ensures old(viewParams.size == imageSize) ==> imageSize == viewParams.size
    {
      hide SamePhysical, SameRenderView, NeedsReset, Export, ExportAll, PhysicalPlugin, RenderViewPlugin;
      var needRtReExport := session.interactive && NeedsReset(viewParams, q.view);
      var needReExport := session.animation || firstExport || needRtReExport;
      if needReExport {
        if session.interactive && !firstExport {
          DeleteViewPlugins();
        }
        ExportViewPlugins(q);
      } else if session.interactive {
        var physCamChanged := !SamePhysical(viewParams.physical, q.view.physical);
        if physCamChanged {
          DeletePlugin(NameCameraPhysical);
          DeletePlugin(NameRenderView);
          assert table == old(table) - {NameCameraPhysical, NameRenderView};
          ExportPlugin(NameCameraPhysical, PhysicalPlugin(q.view));
          camera := Some(NameCameraPhysical);
        }
        if physCamChanged || !SameRenderView(viewParams.renderView, q.view.renderView) {
          ExportPlugin(NameRenderView, RenderViewPlugin(session, q.view));
        }
      }
      if viewParams.size.w != q.view.size.w || viewParams.size.h != q.view.size.h {
        imageSize := q.view.size;
      }
      viewParams := q.view;
      firstExport := false;
    }
  }
}
