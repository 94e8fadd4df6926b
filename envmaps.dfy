/** Dynamic environment maps: the class chosen for an environment-map texture, the state of a
    freshly exported plDynamicEnvMap / plDynamicCamMap, the reuse of one already exported for the
    same viewpoint, the render-target configuration and the visibility-region lookup. */
module EnvMaps {
  import opened Wrappers
  import opened Blender
  import opened Plasma
  import opened Explosions

  /** The class an environment-map texture is exported as: none for an IMAGE source, a camera
      map for a planar map when the target engine is MOUL or later, a cube map otherwise. */
  function EnvMapClassFor(env: EnvMapSettings, moulOrLater: bool): (r: Option<EnvMapKind>)
    ensures r.None? <==> env.source == ImageFile
    ensures r == Some(DynamicCamMap) <==> env.source != ImageFile && env.mapping == Plane && moulOrLater
    ensures r == Some(DynamicEnvMap) <==> env.source != ImageFile && !(env.mapping == Plane && moulOrLater)
  {
    if env.source == ImageFile then None
    else if env.mapping == Plane && moulOrLater then Some(DynamicCamMap)
    else Some(DynamicEnvMap)
  }

  /** The viewpoint object, defaulting to the object being exported. */
  function Viewpoint(bo: BObject, env: EnvMapSettings): BObject {
    if env.viewpoint.Some? then env.viewpoint.value else bo
  }

  function EnvMapName(bo: BObject, env: EnvMapSettings): string {
    Viewpoint(bo, env).name + "_DynEnvMap"
  }

  function DisabledLayerName(bo: BObject, env: EnvMapSettings): string {
    Viewpoint(bo, env).name + "_DisabledDynEnvMap"
  }

  /** The render targets the exporter configures: a cube map's six faces and the map itself, or
      the camera map alone. */
  function InitialRenderTargets(kind: EnvMapKind): (r: seq<RenderTarget>)
    ensures |r| == if kind == DynamicEnvMap then CubeFaceCount + 1 else 1
    ensures forall i :: 0 <= i < |r| ==> r[i] == DefaultRenderTarget
  {
    if kind == DynamicEnvMap then seq(CubeFaceCount + 1, _ => DefaultRenderTarget) else [DefaultRenderTarget]
  }

  /** A freshly allocated map, with the settings taken from the texture before the visibility
      regions are resolved. */
  function NewEnvMap(kind: EnvMapKind, bo: BObject, texture: Texture): (r: EnvMap)
    ensures r.kind == kind && r.name == EnvMapName(bo, texture.environmentMap) && r.page == bo.page
    ensures r.hither == texture.environmentMap.clipStart && r.yon == texture.environmentMap.clipEnd
    ensures r.refreshAnimated <==> texture.environmentMap.source == Animated
    ensures r.incCharacters && r.color == texture.plasmaLayer.envmapColor
    ensures r.visRegions == [] && r.renderTargets == InitialRenderTargets(kind)
    ensures r.rootNode.None? && r.targetNodes == [] && r.matLayers == [] && r.disableTexture.None? && r.position.None?
  {
    var env := texture.environmentMap;
    EnvMap(kind, EnvMapName(bo, env), bo.page, env.clipStart, env.clipEnd, env.source == Animated, true,
           texture.plasmaLayer.envmapColor, [], InitialRenderTargets(kind), None, [], [], None, None)
  }

  /** A render target set up for rendering into: 32-bit colour without an alpha channel, a full
      square viewport of the (power-of-two) resolution and a 24-bit depth buffer. */
  function ConfiguredTarget(t: RenderTarget, eRes: nat): (r: RenderTarget)
    ensures r.config == RGB8888 && IsTexture in r.flags && AlphaChannelFlag !in r.flags
    ensures r.width == eRes && r.height == eRes && !r.proportionalViewport
    ensures r.viewportLeft == 0 && r.viewportTop == 0 && r.viewportRight == eRes && r.viewportBottom == eRes
    ensures r.zDepth == 24
  {
    RenderTarget(RGB8888, (t.flags + {IsTexture}) - {AlphaChannelFlag}, eRes, eRes, false, 0, 0, eRes, eRes, 24)
  }

  /** The final loop of `export_dynamic_env`, over every render target of the map. */
  method ConfigureRenderTargets(targets: seq<RenderTarget>, eRes: nat) returns (r: seq<RenderTarget>)
    ensures |r| == |targets|
    ensures forall i :: 0 <= i < |r| ==> r[i] == ConfiguredTarget(targets[i], eRes)
  {
    r := [];
    var i := 0;
    while i < |targets|
      invariant 0 <= i <= |targets| && |r| == i
      invariant forall j :: 0 <= j < i ==> r[j] == ConfiguredTarget(targets[j], eRes)
    {
      r := r + [ConfiguredTarget(targets[i], eRes)];
      i := i + 1;
    }
  }

  /** Whether a scene object of that name exists and has its visibility-region modifier enabled. */
  predicate IsVisControl(objects: map<string, bool>, name: string) {
    name in objects && objects[name]
  }

  /** The error raised for a region name that is not a usable visibility region. */
  function VisRegionError(texName: string, region: string, objects: map<string, bool>): Failure {
    if region !in objects then ExportError("'" + texName + "': VisControl '" + region + "' not found")
    else ExportError("'" + texName + "': '" + region + "' is not a VisControl")
  }

  /** The EffVisSet loop: every listed region must name an enabled visibility region; the first
      that does not aborts the export. */
  method ResolveVisRegions(texName: string, regions: seq<string>, objects: map<string, bool>)
    returns (r: Result<seq<string>, Failure>)
    ensures r.Ok? <==> forall i :: 0 <= i < |regions| ==> IsVisControl(objects, regions[i])
    ensures r.Ok? ==> r.value == regions
    ensures r.Err? ==> exists i :: 0 <= i < |regions| && !IsVisControl(objects, regions[i])
                                   && (forall j :: 0 <= j < i ==> IsVisControl(objects, regions[j]))
                                   && r.error == VisRegionError(texName, regions[i], objects)
  {
    var found: seq<string> := [];
    var i := 0;
    while i < |regions|
      invariant 0 <= i <= |regions|
      invariant found == regions[..i]
      invariant forall j :: 0 <= j < i ==> IsVisControl(objects, regions[j])
    {
      var name := regions[i];
      if name !in objects || !objects[name] {
        return Err(VisRegionError(texName, name, objects));
      }
      found := found + [name];
      i := i + 1;
    }
    assert found == regions;
    return Ok(found);
  }

  /** A fresh map once its regions are resolved: a camera map gets the viewpoint as root node,
      the exported object as target, the layer and the disabled-texture layer; a cube map gets
      the viewpoint's position. Every render target is configured. */
  function CompleteEnvMap(e: EnvMap, bo: BObject, env: EnvMapSettings, layer: Option<nat>,
                          disabled: nat, visRegions: seq<string>, eRes: nat): (r: EnvMap)
    requires e.kind == DynamicCamMap ==> layer.Some?
    ensures r.kind == e.kind && r.name == e.name && r.page == e.page && r.visRegions == visRegions
    ensures |r.renderTargets| == |e.renderTargets|
    ensures forall i :: 0 <= i < |r.renderTargets| ==> r.renderTargets[i] == ConfiguredTarget(e.renderTargets[i], eRes)
    ensures e.kind == DynamicCamMap ==>
              && r.rootNode == Some(Viewpoint(bo, env).name)
              && r.targetNodes == e.targetNodes + [bo.name]
              && r.matLayers == e.matLayers + [layer.value]
              && r.disableTexture == Some(disabled)
              && r.position == e.position
    ensures e.kind == DynamicEnvMap ==>
              && r.position == Some(Viewpoint(bo, env).location)
              && r.rootNode == e.rootNode && r.targetNodes == e.targetNodes
              && r.matLayers == e.matLayers && r.disableTexture == e.disableTexture
  {
    var withRegions := e.(visRegions := visRegions);
    var wired :=
      if e.kind == DynamicCamMap then
        withRegions.(rootNode := Some(Viewpoint(bo, env).name), targetNodes := e.targetNodes + [bo.name],
                     matLayers := e.matLayers + [layer.value], disableTexture := Some(disabled))
      else withRegions.(position := Some(Viewpoint(bo, env).location));
    wired.(renderTargets := seq(|e.renderTargets|, i requires 0 <= i < |e.renderTargets| => ConfiguredTarget(e.renderTargets[i], eRes)))
  }

  /** A map already exported under the same name: a camera map also renders for this object and
      this layer; a cube map is reused as it is. */
  function ReuseEnvMap(e: EnvMap, bo: BObject, layer: Option<nat>): (r: EnvMap)
    requires e.kind == DynamicCamMap ==> layer.Some?
    ensures e.kind == DynamicEnvMap ==> r == e
    ensures e.kind == DynamicCamMap ==>
              r == e.(targetNodes := e.targetNodes + [bo.name], matLayers := e.matLayers + [layer.value])
  {
    if e.kind == DynamicCamMap then e.(targetNodes := e.targetNodes + [bo.name], matLayers := e.matLayers + [layer.value])
    else e
  }

  /** What a fresh map does to the layer that uses it: a camera map projects in screen space from
      the layer's position (its camera is never set), a cube map reflects. */
  function ProjectLayer(l: Layer, kind: EnvMapKind): (r: Layer)
    ensures kind == DynamicCamMap ==>
              r.uvwSrc == UVWPosition && r.state.miscFlags == l.state.miscFlags + {MiscCam2Screen, MiscPerspProjection}
    ensures kind == DynamicEnvMap ==>
              r.uvwSrc == UVWReflect && r.state.miscFlags == l.state.miscFlags + {MiscUseRefractionXform}
    ensures r == l.(uvwSrc := r.uvwSrc, state := l.state.(miscFlags := r.state.miscFlags))
  {
    if kind == DynamicCamMap then
      l.(uvwSrc := UVWPosition, state := l.state.(miscFlags := l.state.miscFlags + {MiscCam2Screen, MiscPerspProjection}))
    else
      l.(uvwSrc := UVWReflect, state := l.state.(miscFlags := l.state.miscFlags + {MiscUseRefractionXform}))
  }

  /** The layer of `_export_texture_type_environment_map` flagged to shade with an environment
      map, before (or, for an IMAGE source, without) being given the map. */
  function EnvShaded(l: Layer): Layer {
    l.(state := l.state.(shadeFlags := l.state.shadeFlags + {ShadeEnvironMap}))
  }

  /** `x` takes the UVW source of `p` and keeps at least its miscellaneous flags. */
  predicate ProjectsAs(x: Layer, p: Layer) {
    x.uvwSrc == p.uvwSrc && p.state.miscFlags <= x.state.miscFlags
  }

  /** The stand-in layer a camera map shows when disabled: the using layer's colours only. */
  function DisabledLayer(bo: BObject, env: EnvMapSettings, l: Layer): (r: Layer)
    ensures r.name == DisabledLayerName(bo, env) && r.page == bo.page && r.kind == PlainLayer
    ensures r.ambient == l.ambient && r.preshade == l.preshade && r.runtime == l.runtime && r.specular == l.specular
    ensures r.texture.None? && r.state == EmptyState
  {
    NewLayer(DisabledLayerName(bo, env), bo.page, PlainLayer)
      .(ambient := l.ambient, preshade := l.preshade, runtime := l.runtime, specular := l.specular)
  }

  /** A completed cube map has seven render targets and a camera map one, all square at the
      same resolution and without an alpha channel. */
  lemma CompletedTargets(kind: EnvMapKind, bo: BObject, texture: Texture, layer: Option<nat>,
                         disabled: nat, visRegions: seq<string>, eRes: nat)
    requires kind == DynamicCamMap ==> layer.Some?
    ensures var r := CompleteEnvMap(NewEnvMap(kind, bo, texture), bo, texture.environmentMap, layer,
                                    disabled, visRegions, eRes);
      && |r.renderTargets| == (if kind == DynamicEnvMap then 7 else 1)
      && forall i :: 0 <= i < |r.renderTargets| ==>
           r.renderTargets[i].width == eRes && r.renderTargets[i].height == eRes
           && AlphaChannelFlag !in r.renderTargets[i].flags
  {
  }
}
