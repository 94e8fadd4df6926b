/** The engine objects the material exporter builds (hsGMaterial, plLayer, plLayerAnimation,
    plMipmap, plDynamicTextMap, plDynamicEnvMap, plDynamicCamMap), as records. Flag words are
    sets of named flags; OR-ing a flag in is set union. */
module Plasma {
  import opened Wrappers
  import opened Blender

  /** The hsGMatState blend flags this exporter sets. */
  datatype BlendFlag =
    | BlendAlpha
    | BlendMult
    | BlendAddColorTimesAlpha
    | BlendAlphaMult
    | BlendAlphaAdd
    | BlendNoTexColor
    | BlendInvertAlpha
    | BlendAlphaTestHigh

  /** The members of hsGMatState::kBlendMask among the flags above: the mutually exclusive
      blend modes. kBlendAlphaMult, kBlendAlphaAdd and the modifier flags are not in it. */
  const BlendMask: set<BlendFlag> := {BlendAlpha, BlendMult, BlendAddColorTimesAlpha}

  datatype ClampFlag = ClampTexture

  datatype ZFlag = ZNoZWrite

  datatype MiscFlag =
    | MiscBindNext
    | MiscRestartPassHere
    | MiscCam2Screen
    | MiscPerspProjection
    | MiscUseRefractionXform

  datatype ShadeFlag = ShadeNoFog | ShadeReallyNoFog | ShadeEnvironMap

  datatype CompFlag = CompNeedsBlendChannel

  datatype GMatState = GMatState(
    blendFlags: set<BlendFlag>,
    clampFlags: set<ClampFlag>,
    zFlags: set<ZFlag>,
    miscFlags: set<MiscFlag>,
    shadeFlags: set<ShadeFlag>)

  const EmptyState := GMatState({}, {}, {}, {}, {})

  /** A reference to an object held by the registry: the arena it lives in and its index. */
  datatype Key = LayerKey(layer: nat) | MipmapKey(mipmap: nat) | TextMapKey(textMap: nat) | EnvMapKey(envMap: nat)

  datatype UVWSrc = UVWChannel(channel: nat) | UVWPosition | UVWReflect

  datatype Transform = Identity | TranslateScale(translate: Vec3, scale: Vec3)

  /** plAnimTimeConvert, with times kept as frame numbers. */
  datatype TimeConvert = TimeConvert(begin: int, end: int, stopped: bool, loop: bool, loopBegin: int, loopEnd: int)

  const DefaultTimeConvert := TimeConvert(0, 0, false, false, 0, 0)

  /** A controller built by the animation converter; opaque to this exporter. */
  type Ctrl = nat

  /** A plLayer, or a plLayerAnimation wrapping the layer `underLay`. */
  datatype LayerKind =
    | PlainLayer
    | LayerAnimation(underLay: nat, opacityCtl: Option<Ctrl>, transformCtl: Option<Ctrl>, timeConvert: TimeConvert)

  /** A plLayerInterface. `opacity` is a percentage (the source stores it divided by 100). */
  datatype Layer = Layer(
    name: string,
    page: nat,
    kind: LayerKind,
    state: GMatState,
    ambient: Color,
    preshade: Color,
    runtime: Color,
    specular: Color,
    uvwSrc: UVWSrc,
    transform: Transform,
    opacity: int,
    texture: Option<Key>)

  const Black := Color(0.0, 0.0, 0.0)
  const White := Color(1.0, 1.0, 1.0)

  /** A freshly allocated layer interface, with the engine's defaults. */
  function NewLayer(name: string, page: nat, kind: LayerKind): Layer {
    Layer(name, page, kind, EmptyState, Black, Black, Black, Black, UVWChannel(0), Identity, 100, None)
  }

  /** An hsGMaterial: its layers are indices into the registry's layer arena. */
  datatype GMaterial = GMaterial(name: string, page: nat, compFlags: set<CompFlag>, layers: seq<nat>)

  datatype Compression = Uncompressed | DirectXCompression

  datatype DxtLevel = DXT1 | DXT5

  /** A plMipmap stored in one page, with its level data. */
  datatype Mipmap = Mipmap(
    name: string,
    width: nat,
    height: nat,
    numLevels: nat,
    compression: Compression,
    dxt: DxtLevel,
    levels: seq<seq<bv8>>,
    page: nat)

  datatype TextMap = TextMap(name: string, page: nat, hasAlpha: bool, visWidth: nat, visHeight: nat)

  datatype BitmapConfig = ConfigUnset | RGB8888

  datatype BitmapFlag = IsTexture | AlphaChannelFlag

  /** A plRenderTarget: one face of a dynamic environment map, or a camera map. */
  datatype RenderTarget = RenderTarget(
    config: BitmapConfig,
    flags: set<BitmapFlag>,
    width: nat,
    height: nat,
    proportionalViewport: bool,
    viewportLeft: nat,
    viewportTop: nat,
    viewportRight: nat,
    viewportBottom: nat,
    zDepth: nat)

  const DefaultRenderTarget := RenderTarget(ConfigUnset, {}, 0, 0, true, 0, 0, 0, 0, 0)

  /** A plDynamicEnvMap owns six cube faces. */
  const CubeFaceCount := 6

  datatype EnvMapKind = DynamicEnvMap | DynamicCamMap

  /** A plDynamicEnvMap or plDynamicCamMap. `renderTargets` lists every render target the
      exporter configures: a DEM's six faces followed by the map itself, or the camera map alone. */
  datatype EnvMap = EnvMap(
    kind: EnvMapKind,
    name: string,
    page: nat,
    hither: real,
    yon: real,
    refreshAnimated: bool,
    incCharacters: bool,
    color: Color,
    visRegions: seq<string>,
    renderTargets: seq<RenderTarget>,
    rootNode: Option<string>,
    targetNodes: seq<string>,
    matLayers: seq<nat>,
    disableTexture: Option<nat>,
    position: Option<Vec3>)
}
