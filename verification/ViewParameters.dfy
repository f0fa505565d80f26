/** View parameters and the tests that compare them. Floating-point fields are real numbers. */
module ViewParameters {
  import T = Transforms

  datatype Mode = ModeNone | ModeUser | ModeAuto

  datatype Size = Size(w: int, h: int)

  datatype Color = Color(r: real, g: real, b: real)

  datatype PhysicalCamera = PhysicalCamera(
    focalUnits: int,
    kind: int,
    filmWidth: real,
    focalLength: real,
    zoomFactor: real,
    distortion: real,
    distortionType: int,
    fNumber: real,
    lensShift: real,
    shutterSpeed: real,
    shutterAngle: real,
    shutterOffset: real,
    latency: real,
    iso: real,
    specifyFocus: bool,
    focusDistance: real,
    targeted: bool,
    targetDistance: real,
    dofDisplayThreshold: real,
    exposure: bool,
    whiteBalance: Color,
    vignetting: real,
    bladesEnable: bool,
    bladesNum: int,
    bladesRotation: real,
    centerBias: real,
    anisotropy: real,
    useDof: bool,
    useMoblur: bool,
    subdivs: int,
    dontAffectSettings: bool,
    lensFile: string,
    specifyFov: bool,
    fov: real,
    horizontalShift: real,
    horizontalOffset: real,
    verticalOffset: real,
    distortionTex: string,
    bmpapertureEnable: bool,
    bmpapertureResolution: int,
    bmpapertureTex: string,
    opticalVignetting: real,
    bmpapertureAffectsExposure: bool,
    enableThinLensEquation: bool)

  datatype Stereo = Stereo(
    use: bool,
    eyeDistance: real,
    interocularMethod: int,
    specifyFocus: int,
    focusDistance: real,
    focusMethod: int,
    view: int,
    adjustResolution: bool)

  datatype RenderView = RenderView(
    fovRopOverride: bool,
    fov: real,
    tm: T.Transform,
    ortho: bool,
    orthoWidth: real,
    useClipStart: bool,
    clipStart: real,
    useClipEnd: bool,
    clipEnd: real,
    stereo: Stereo)

  datatype SettingsCamera = SettingsCamera(
    kind: int, height: real, dist: real, fov: real, autoFit: bool, curve: real)

  datatype SettingsCameraDof = SettingsCameraDof(
    on: bool, aperture: real, centerBias: real, focalDist: real, sidesOn: bool,
    sidesNum: int, rotation: real, anisotropy: real, subdivs: int)

  datatype SettingsMotionBlur = SettingsMotionBlur(
    on: bool, geomSamples: int, lowSamples: int, duration: real, subdivs: int, bias: real,
    shutterEfficiency: real, intervalCenter: real, cameraMotionBlur: bool, samplingType: int)

  datatype ViewParams = ViewParams(
    size: Size,
    renderView: RenderView,
    mode: Mode,
    physical: PhysicalCamera,
    camera: SettingsCamera,
    dof: SettingsCameraDof,
    blur: SettingsMotionBlur)

  // ------------------------------------------------- the program's equality tests

  predicate SameStereo(a: Stereo, b: Stereo) {
    && a.use == b.use
    && a.eyeDistance == b.eyeDistance
    && a.interocularMethod == b.interocularMethod
    && a.specifyFocus == b.specifyFocus
    && a.focusDistance == b.focusDistance
    && a.focusMethod == b.focusMethod
    && a.view == b.view
  }

  predicate SamePhysical(a: PhysicalCamera, b: PhysicalCamera) {
    && a.focalUnits == b.focalUnits
    && a.kind == b.kind
    && a.filmWidth == b.filmWidth
    && a.focalLength == b.focalLength
    && a.zoomFactor == b.zoomFactor
    && a.distortion == b.distortion
    && a.distortionType == b.distortionType
    && a.fNumber == b.fNumber
    && a.lensShift == b.lensShift
    && a.shutterSpeed == b.shutterSpeed
    && a.shutterAngle == b.shutterAngle
    && a.shutterOffset == b.shutterOffset
    && a.latency == b.latency
    && a.iso == b.iso
    && a.specifyFocus == b.specifyFocus
    && a.focusDistance == b.focusDistance
    && a.dofDisplayThreshold == b.dofDisplayThreshold
    && a.exposure == b.exposure
    && a.whiteBalance.r == b.whiteBalance.r
    && a.whiteBalance.g == b.whiteBalance.g
    && a.whiteBalance.b == b.whiteBalance.b
    && a.vignetting == b.vignetting
    && a.bladesEnable == b.bladesEnable
    && a.bladesNum == b.bladesNum
    && a.bladesRotation == b.bladesRotation
    && a.centerBias == b.centerBias
    && a.anisotropy == b.anisotropy
    && a.useDof == b.useDof
    && a.useMoblur == b.useMoblur
    && a.subdivs == b.subdivs
    && a.dontAffectSettings == b.dontAffectSettings
    && a.lensFile == b.lensFile
    && a.specifyFov == b.specifyFov
    && a.fov == b.fov
    && a.horizontalShift == b.horizontalShift
    && a.horizontalOffset == b.horizontalOffset
    && a.verticalOffset == b.verticalOffset
    && a.distortionTex == b.distortionTex
    && a.bmpapertureEnable == b.bmpapertureEnable
    && a.bmpapertureResolution == b.bmpapertureResolution
    && a.bmpapertureTex == b.bmpapertureTex
    && a.opticalVignetting == b.opticalVignetting
    && a.bmpapertureAffectsExposure == b.bmpapertureAffectsExposure
    && a.enableThinLensEquation == b.enableThinLensEquation
  }

  /** The camera test looks at every field but the two that are never set. */
  lemma SamePhysicalMeans(a: PhysicalCamera, b: PhysicalCamera)
    ensures SamePhysical(a, b) <==>
            a.(targeted := b.targeted, targetDistance := b.targetDistance) == b
  {
  }

  predicate SameRenderView(a: RenderView, b: RenderView) {
    && a.fovRopOverride == b.fovRopOverride
    && a.fov == b.fov
    && a.ortho == b.ortho
    && a.orthoWidth == b.orthoWidth
    && a.useClipStart == b.useClipStart
    && a.clipStart == b.clipStart
    && a.useClipEnd == b.useClipEnd
    && a.clipEnd == b.clipEnd
    && a.tm == b.tm
  }

  predicate SameSettingsCamera(a: SettingsCamera, b: SettingsCamera) {
    && a.kind == b.kind
    && a.height == b.height
    && a.dist == b.dist
    && a.autoFit == b.autoFit
    && a.curve == b.curve
  }

  predicate SameDof(a: SettingsCameraDof, b: SettingsCameraDof) {
    && a.on == b.on
    && a.aperture == b.aperture
    && a.centerBias == b.centerBias
    && a.focalDist == b.focalDist
    && a.sidesOn == b.sidesOn
    && a.sidesNum == b.sidesNum
    && a.rotation == b.rotation
    && a.anisotropy == b.anisotropy
    && a.subdivs == b.subdivs
  }

  predicate SameBlur(a: SettingsMotionBlur, b: SettingsMotionBlur) {
    && a.on == b.on
    && a.geomSamples == b.geomSamples
    && a.lowSamples == b.lowSamples
    && a.duration == b.duration
    && a.subdivs == b.subdivs
    && a.bias == b.bias
    && a.shutterEfficiency == b.shutterEfficiency
    && a.intervalCenter == b.intervalCenter
    && a.cameraMotionBlur == b.cameraMotionBlur
    && a.samplingType == b.samplingType
  }

  predicate RenderViewNeedsReset(a: RenderView, b: RenderView) {
    if a.stereo.use != b.stereo.use then true
    else if b.stereo.use then !SameStereo(a.stereo, b.stereo)
    else false
  }

  predicate NeedsReset(a: ViewParams, b: ViewParams) {
    || a.mode != b.mode
    || !SameSettingsCamera(a.camera, b.camera)
    || !SameDof(a.dof, b.dof)
    || !SameBlur(a.blur, b.blur)
    || RenderViewNeedsReset(a.renderView, b.renderView)
  }

  /** The view test looks at everything but the stereo parameters. */
  lemma SameRenderViewMeans(a: RenderView, b: RenderView)
    ensures SameRenderView(a, b) <==> a.(stereo := b.stereo) == b
  {
  }

  /**
   The view is rebuilt exactly when the camera mode, a setting other than the camera's own field of
   view, or the use of stereo changes, or another stereo parameter while stereo is used.
   */
  lemma NeedsResetMeans(a: ViewParams, b: ViewParams)
    ensures NeedsReset(a, b) <==>
            || a.mode != b.mode
            || a.camera.(fov := b.camera.fov) != b.camera
            || a.dof != b.dof
            || a.blur != b.blur
            || a.renderView.stereo.use != b.renderView.stereo.use
            || (b.renderView.stereo.use
                && a.renderView.stereo.(adjustResolution := b.renderView.stereo.adjustResolution)
                   != b.renderView.stereo)
  {
  }
}
