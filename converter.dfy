/** `MaterialConverter`: the exporter's material session. It turns Blender materials into
    hsGMaterials and their layers in the registry, collects the images they need in the pending
    table, and at the end encodes every pending image once per textures page. */
module Converter {
  import opened Wrappers
  import opened Seqs
  import opened Blender
  import opened Plasma
  import opened Explosions
  import opened Collaborators
  import opened Registry
  import opened Textures
  import opened Layers
  import opened Animation
  import opened EnvMaps
  import opened Mipmaps
  import opened SlotExport
  import opened MaterialExport

  class MaterialConverter {
    /** The exporter's resource manager, its services and the scene being exported. */
    const mgr: ResManager
    const svc: Services
    const scene: Scene
    /** `_pending`: texture key -> consuming layers. */
    var pending: PendingTable
    /** `_obj2mat`: the materials exported for each object. */
    var obj2mat: map<BObject, seq<nat>>
    /** `_alphatest`: the memoised alpha test per image. */
    var alphaTest: map<Image, bool>
    /** The images whose pixels were scanned, in scan order. */
    ghost var scanned: seq<Image>

    ghost predicate Valid()
      reads this, mgr
    {
      && mgr.Valid()
      && ValidServices(svc)
      && WellFormed(pending)
      && LayersBelow(pending, |mgr.layers|)
      && (forall bo :: bo in obj2mat ==> forall j :: 0 <= j < |obj2mat[bo]| ==> obj2mat[bo][j] < |mgr.materials|)
      && (forall img :: img in alphaTest ==> alphaTest[img] == ImageAlphaTest(img, svc.alphaScan))
      && NoDuplicates(scanned)
      && (forall j :: 0 <= j < |scanned| ==> scanned[j] in alphaTest)
    }

    constructor (mgr: ResManager, svc: Services, scene: Scene)
      requires mgr.Valid() && ValidServices(svc)
      ensures Valid()
      ensures this.mgr == mgr && this.svc == svc && this.scene == scene
      ensures pending == EmptyTable && obj2mat == map[] && alphaTest == map[] && scanned == []
    {
      this.mgr := mgr;
      this.svc := svc;
      this.scene := scene;
      pending := EmptyTable;
      obj2mat := map[];
      alphaTest := map[];
      scanned := [];
    }

    /** `_test_image_alpha`: the memoised alpha test; the pixels of an image are scanned at most
        once per session, and only for a four-channel image that uses alpha. */
    method TestImageAlpha(image: Image) returns (r: bool)
      requires Valid()
      modifies this
      ensures Valid()
      ensures r == ImageAlphaTest(image, svc.alphaScan)
      ensures alphaTest == old(alphaTest)[image := r]
      ensures scanned == if image !in old(alphaTest) && image.channels == 4 && image.useAlpha
                         then old(scanned) + [image] else old(scanned)
      ensures pending == old(pending) && obj2mat == old(obj2mat)
    {
      if image in alphaTest {
        return alphaTest[image];
      }
      if image.channels != 4 {
        r := false;
      } else if !image.useAlpha {
        r := false;
      } else {
        r := svc.alphaScan(image);
        scanned := scanned + [image];
      }
      alphaTest := alphaTest[image := r];
    }

    /** Whether an image texture's layer treats its image as having alpha; the alpha test runs
        only when neither calculated alpha nor a stencil already decide it. */
    method ImageAlpha(slot: TextureSlot) returns (hasAlpha: bool)
      requires Valid() && slot.texture.Some?
      modifies this
      ensures Valid()
      ensures var texture := slot.texture.value;
        hasAlpha == ImageHasAlpha(slot, texture.image.Some? && ImageAlphaTest(texture.image.value, svc.alphaScan))
      ensures pending == old(pending) && obj2mat == old(obj2mat)
      ensures (slot.texture.value.image.None? || slot.texture.value.useCalculateAlpha || slot.useStencil)
              ==> alphaTest == old(alphaTest) && scanned == old(scanned)
    {
      var texture := slot.texture.value;
      if texture.image.Some? {
        if texture.useCalculateAlpha || slot.useStencil {
          hasAlpha := true;
        } else {
          hasAlpha := TestImageAlpha(texture.image.value);
        }
      } else {
        hasAlpha := true;
      }
    }

    /** find_create_object for the dynamic text map of a layer without an image: 1024x1024, with
        alpha as the texture asks, reused when the page already has one of that name. */
    method FindCreateTextMap(name: string, page: nat, hasAlpha: bool) returns (k: nat)
      requires mgr.Valid()
      modifies mgr
      ensures mgr.Valid()
      ensures var found := FindTextMap(old(mgr.textMaps), page, name);
        var dtm := TextMap(name, page, hasAlpha, 1024, 1024);
        && (found.Some? ==> k == found.value && mgr.textMaps == old(mgr.textMaps)[k := dtm])
        && (found.None? ==> k == |old(mgr.textMaps)| && mgr.textMaps == old(mgr.textMaps) + [dtm])
      ensures TextMapsEvolve(old(mgr.textMaps), mgr.textMaps)
      ensures mgr.layers == old(mgr.layers) && mgr.materials == old(mgr.materials)
      ensures mgr.mipmaps == old(mgr.mipmaps) && mgr.envMaps == old(mgr.envMaps)
    {
      var dtm := TextMap(name, page, hasAlpha, 1024, 1024);
      var found := FindTextMap(mgr.textMaps, page, name);
      if found.Some? {
        k := found.value;
        mgr.SetTextMap(k, dtm);
      } else {
        k := mgr.AddTextMap(dtm);
      }
    }

    /** `_export_texture_type_image`: flags the layer for the image's alpha and extension, and
        either queues the image with this layer as a consumer, or (without an image) gives the
        layer a dynamic text map named after it. */
    method ExportImage(bo: BObject, layer: nat, slot: TextureSlot) returns (ghost hasAlpha: bool, ghost textMap: Option<nat>)
      requires Valid() && layer < |mgr.layers| && slot.texture.Some?
      modifies this, mgr
      ensures Valid()
      ensures var texture := slot.texture.value;
        hasAlpha == ImageHasAlpha(slot, texture.image.Some? && ImageAlphaTest(texture.image.value, svc.alphaScan))
      ensures mgr.layers == old(mgr.layers)[layer := ImageLayer(old(mgr.layers[layer]), slot, hasAlpha, textMap)]
      ensures slot.texture.value.image.Some? ==>
                && textMap.None? && mgr.textMaps == old(mgr.textMaps)
                && pending == Insert(old(pending), NewTexKey(slot.texture, None, Some(hasAlpha), slot.useStencil), layer)
      ensures slot.texture.value.image.None? ==>
                var name := old(mgr.layers[layer]).name + "_DynText";
                var found := FindTextMap(old(mgr.textMaps), bo.page, name);
                var dtm := TextMap(name, bo.page, slot.texture.value.useAlpha, 1024, 1024);
                && pending == old(pending)
                && (found.Some? ==> textMap == found && mgr.textMaps == old(mgr.textMaps)[found.value := dtm])
                && (found.None? ==> textMap == Some(|old(mgr.textMaps)|) && mgr.textMaps == old(mgr.textMaps) + [dtm])
      ensures mgr.materials == old(mgr.materials) && mgr.mipmaps == old(mgr.mipmaps) && mgr.envMaps == old(mgr.envMaps)
      ensures TextMapsEvolve(old(mgr.textMaps), mgr.textMaps)
      ensures obj2mat == old(obj2mat)
    {
      var texture := slot.texture.value;
      var alpha := ImageAlpha(slot);
      hasAlpha := alpha;
      var l := mgr.layers[layer];
      if texture.image.None? {
        var k := FindCreateTextMap(l.name + "_DynText", bo.page, texture.useAlpha);
        textMap := Some(k);
        mgr.SetLayer(layer, ImageLayer(l, slot, alpha, Some(k)));
      } else {
        textMap := None;
        mgr.SetLayer(layer, ImageLayer(l, slot, alpha, None));
        InsertLayersBelow(pending, NewTexKey(slot.texture, None, Some(alpha), slot.useStencil), layer, |mgr.layers|);
        pending := Insert(pending, NewTexKey(slot.texture, None, Some(alpha), slot.useStencil), layer);
      }
    }

    /** `export_dynamic_env`: the dynamic map for the texture's viewpoint. A map of that class
        and name already in the page is reused (a camera map then also serves this object and
        layer); otherwise a new one is made, its visibility regions resolved, and the layer set
        up to project it. The camera-map paths dereference the layer, which must be given. */
    method ExportDynamicEnv(bo: BObject, layer: Option<nat>, texture: Texture, kind: EnvMapKind)
      returns (r: Result<nat, Failure>)
      requires Valid() && (layer.Some? ==> layer.value < |mgr.layers|)
      modifies mgr
      ensures Valid()
      ensures mgr.materials == old(mgr.materials) && mgr.mipmaps == old(mgr.mipmaps) && mgr.textMaps == old(mgr.textMaps)
      ensures |mgr.layers| >= |old(mgr.layers)|
      ensures forall j :: 0 <= j < |old(mgr.layers)| && (layer.None? || j != layer.value) ==> mgr.layers[j] == old(mgr.layers[j])
      ensures r.Ok? ==> r.value < |mgr.envMaps| && mgr.envMaps[r.value].kind == kind
                        && mgr.envMaps[r.value].name == EnvMapName(bo, texture.environmentMap)
                        && mgr.envMaps[r.value].page == bo.page
      ensures r.Err? ==> mgr.layers == old(mgr.layers)
      ensures EnvMapsEvolve(old(mgr.envMaps), mgr.envMaps)
      ensures r.Ok? && layer.Some? ==>
                var l := old(mgr.layers[layer.value]);
                mgr.layers[layer.value] == l.(uvwSrc := mgr.layers[layer.value].uvwSrc,
                                              state := l.state.(miscFlags := mgr.layers[layer.value].state.miscFlags))
      ensures var found := FindEnvMap(old(mgr.envMaps), kind, bo.page, EnvMapName(bo, texture.environmentMap));
        && (found.Some? && kind == DynamicCamMap && layer.None? ==> r.Err?)
        && (found.Some? && (kind == DynamicEnvMap || layer.Some?) ==>
              && r == Ok(found.value)
              && mgr.envMaps == old(mgr.envMaps)[found.value := ReuseEnvMap(old(mgr.envMaps)[found.value], bo, layer)]
              && mgr.layers == old(mgr.layers))
      ensures var env := texture.environmentMap;
        var regions := texture.plasmaLayer.visRegions;
        FindEnvMap(old(mgr.envMaps), kind, bo.page, EnvMapName(bo, env)).None? ==>
          && (r.Ok? <==> (forall i :: 0 <= i < |regions| ==> IsVisControl(scene.objects, regions[i]))
                         && (kind == DynamicCamMap ==> layer.Some?))
          && (r.Ok? ==>
                && r.value == |old(mgr.envMaps)|
                && mgr.envMaps == old(mgr.envMaps) + [CompleteEnvMap(NewEnvMap(kind, bo, texture), bo, env, layer,
                                                                     |old(mgr.layers)|, regions, svc.pot(env.resolution))]
                && (kind == DynamicCamMap ==>
                      mgr.layers == old(mgr.layers)[layer.value := ProjectLayer(old(mgr.layers[layer.value]), kind)]
                                    + [DisabledLayer(bo, env, old(mgr.layers[layer.value]))])
                && (kind == DynamicEnvMap && layer.Some? ==>
                      mgr.layers == old(mgr.layers)[layer.value := ProjectLayer(old(mgr.layers[layer.value]), kind)])
                && (kind == DynamicEnvMap && layer.None? ==> mgr.layers == old(mgr.layers)))
    {
      var env := texture.environmentMap;
      var name := EnvMapName(bo, env);
      var found := FindEnvMap(mgr.envMaps, kind, bo.page, name);
      if found.Some? {
        if kind == DynamicCamMap {
          if layer.None? {
            return Err(NoneDereference("layer"));
          }
          mgr.SetEnvMap(found.value, ReuseEnvMap(mgr.envMaps[found.value], bo, layer));
        }
        return Ok(found.value);
      }
      r := CreateDynamicEnv(bo, layer, texture, kind);
    }

    /** The creating half of `export_dynamic_env`: a new map of the texture's class, its
        visibility regions resolved, the layer set up to project it. */
    method CreateDynamicEnv(bo: BObject, layer: Option<nat>, texture: Texture, kind: EnvMapKind)
      returns (r: Result<nat, Failure>)
      requires Valid() && (layer.Some? ==> layer.value < |mgr.layers|)
      modifies mgr
      ensures Valid()
      ensures mgr.materials == old(mgr.materials) && mgr.mipmaps == old(mgr.mipmaps) && mgr.textMaps == old(mgr.textMaps)
      ensures |mgr.layers| >= |old(mgr.layers)|
      ensures forall j :: 0 <= j < |old(mgr.layers)| && (layer.None? || j != layer.value) ==> mgr.layers[j] == old(mgr.layers[j])
      ensures r.Ok? ==> r.value < |mgr.envMaps| && mgr.envMaps[r.value].kind == kind
                        && mgr.envMaps[r.value].name == EnvMapName(bo, texture.environmentMap)
                        && mgr.envMaps[r.value].page == bo.page
      ensures r.Err? ==> mgr.layers == old(mgr.layers)
      ensures EnvMapsEvolve(old(mgr.envMaps), mgr.envMaps)
      ensures r.Ok? && layer.Some? ==>
                var l := old(mgr.layers[layer.value]);
                mgr.layers[layer.value] == l.(uvwSrc := mgr.layers[layer.value].uvwSrc,
                                              state := l.state.(miscFlags := mgr.layers[layer.value].state.miscFlags))
      ensures var env := texture.environmentMap;
        var regions := texture.plasmaLayer.visRegions;
          && (r.Ok? <==> (forall i :: 0 <= i < |regions| ==> IsVisControl(scene.objects, regions[i]))
                         && (kind == DynamicCamMap ==> layer.Some?))
          && (r.Ok? ==>
                && r.value == |old(mgr.envMaps)|
                && mgr.envMaps == old(mgr.envMaps) + [CompleteEnvMap(NewEnvMap(kind, bo, texture), bo, env, layer,
                                                                     |old(mgr.layers)|, regions, svc.pot(env.resolution))]
                && (kind == DynamicCamMap ==>
                      mgr.layers == old(mgr.layers)[layer.value := ProjectLayer(old(mgr.layers[layer.value]), kind)]
                                    + [DisabledLayer(bo, env, old(mgr.layers[layer.value]))])
                && (kind == DynamicEnvMap && layer.Some? ==>
                      mgr.layers == old(mgr.layers)[layer.value := ProjectLayer(old(mgr.layers[layer.value]), kind)])
                && (kind == DynamicEnvMap && layer.None? ==> mgr.layers == old(mgr.layers)))
    {
      var env := texture.environmentMap;
      var eRes := svc.pot(env.resolution);
      var disabled := |mgr.layers|;
      var k := mgr.AddEnvMap(NewEnvMap(kind, bo, texture));
      var regions := ResolveVisRegions(texture.name, texture.plasmaLayer.visRegions, scene.objects);
      if regions.Err? {
        return Err(regions.error);
      }
      if kind == DynamicCamMap {
        if layer.None? {
          return Err(NoneDereference("layer"));
        }
        var l := mgr.layers[layer.value];
        var fake := mgr.AddLayer(DisabledLayer(bo, env, l));
        mgr.SetLayer(layer.value, ProjectLayer(l, kind));
      } else if layer.Some? {
        var l := mgr.layers[layer.value];
        mgr.SetLayer(layer.value, ProjectLayer(l, kind));
      }
      mgr.SetEnvMap(k, CompleteEnvMap(mgr.envMaps[k], bo, env, layer, disabled, regions.value, eRes));
      return Ok(k);
    }

    /** `_export_texture_type_environment_map`: the layer shows the dynamic map chosen for the
        texture. An IMAGE source has no map, and the source then dereferences None. On success
        the map's key is returned. */
    method ExportEnvironmentMap(bo: BObject, layer: nat, slot: TextureSlot) returns (r: Result<nat, Failure>)
      requires Valid() && layer < |mgr.layers| && slot.texture.Some?
      modifies mgr
      ensures Valid()
      ensures mgr.materials == old(mgr.materials) && mgr.mipmaps == old(mgr.mipmaps) && mgr.textMaps == old(mgr.textMaps)
      ensures |mgr.layers| >= |old(mgr.layers)|
      ensures forall j :: 0 <= j < |old(mgr.layers)| && j != layer ==> mgr.layers[j] == old(mgr.layers[j])
      ensures EnvMapsEvolve(old(mgr.envMaps), mgr.envMaps)
      ensures var kind := EnvMapClassFor(slot.texture.value.environmentMap, svc.moulOrLater);
        && (kind.None? ==>
              && r == Err(NoneDereference("pl_env")) && mgr.envMaps == old(mgr.envMaps)
              && mgr.layers == old(mgr.layers)[layer := EnvShaded(old(mgr.layers[layer]))])
        && (kind.Some? && r.Err? ==> mgr.layers == old(mgr.layers))
        && (r.Ok? ==>
              && kind.Some? && r.value < |mgr.envMaps|
              && mgr.envMaps[r.value].kind == kind.value
              && mgr.envMaps[r.value].name == EnvMapName(bo, slot.texture.value.environmentMap)
              && mgr.envMaps[r.value].page == bo.page
              && mgr.layers[layer].texture == Some(EnvMapKey(r.value))
              && ShadeEnvironMap in mgr.layers[layer].state.shadeFlags)
      ensures r.Ok? ==>
                var l := old(mgr.layers[layer]);
                mgr.layers[layer] == l.(uvwSrc := mgr.layers[layer].uvwSrc, texture := Some(EnvMapKey(r.value)),
                                        state := l.state.(miscFlags := mgr.layers[layer].state.miscFlags,
                                                          shadeFlags := l.state.shadeFlags + {ShadeEnvironMap}))
      ensures r.Ok? ==>
                var l := old(mgr.layers[layer]);
                var kind := EnvMapClassFor(slot.texture.value.environmentMap, svc.moulOrLater).value;
                ProjectsAs(mgr.layers[layer], l) || ProjectsAs(mgr.layers[layer], ProjectLayer(l, kind))
    {
      var texture := slot.texture.value;
      var kind := EnvMapClassFor(texture.environmentMap, svc.moulOrLater);
      if kind.None? {
        mgr.SetLayer(layer, EnvShaded(mgr.layers[layer]));
        return Err(NoneDereference("pl_env"));
      }
      r := ExportDynamicEnv(bo, Some(layer), texture, kind.value);
      if r.Ok? {
        var l := mgr.layers[layer];
        mgr.SetLayer(layer, EnvShaded(l).(texture := Some(EnvMapKey(r.value))));
      }
    }

    /** `_export_layer_animations`: with any curves on the slot, the opacity converter may force
        alpha blending on the base layer, and if either converter yields a controller a
        plLayerAnimation named after the base layer wraps it. Returns the layer the material
        should list. */
    method ExportLayerAnimations(bo: BObject, bm: Material, slot: TextureSlot, idx: nat, base: nat) returns (top: nat)
      requires Valid() && base < |mgr.layers| && slot.texture.Some?
      modifies mgr
      ensures Valid()
      ensures mgr.materials == old(mgr.materials) && mgr.mipmaps == old(mgr.mipmaps)
      ensures mgr.textMaps == old(mgr.textMaps) && mgr.envMaps == old(mgr.envMaps)
      ensures var effect := LayerAnimationEffect(svc, bm, slot, idx, base);
        var baseLayer := if effect.forceAlpha
                         then old(mgr.layers[base]).(state := old(mgr.layers[base]).state.(blendFlags := old(mgr.layers[base]).state.blendFlags + {BlendAlpha}))
                         else old(mgr.layers[base]);
        && (effect.wrapper.None? ==> top == base && mgr.layers == old(mgr.layers)[base := baseLayer])
        && (effect.wrapper.Some? ==>
              && top == |old(mgr.layers)|
              && mgr.layers == old(mgr.layers)[base := baseLayer]
                               + [NewLayer(old(mgr.layers[base]).name + "_LayerAnim", bo.page, effect.wrapper.value)])
    {
      var fcurves := LayerFCurves(bm, slot, idx);
      if fcurves == [] {
        return base;
      }
      if OpacityCurve(fcurves).Some? {
        var l := mgr.layers[base];
        mgr.SetLayer(base, l.(state := l.state.(blendFlags := l.state.blendFlags + {BlendAlpha})));
      }
      var opacity := OpacityController(svc, fcurves);
      var transform := TransformController(svc, slot, fcurves);
      if opacity.None? && transform.None? {
        return base;
      }
      var timing := Timing(bm.action, slot.texture.value.action, slot.texture.value.plasmaLayer);
      var name := mgr.layers[base].name + "_LayerAnim";
      top := mgr.AddLayer(NewLayer(name, bo.page, LayerAnimation(base, opacity, transform, timing)));
    }

    /** The stencil's binding of the layer the material lists last (`hsgmat.layers[-1]`). */
    method BindLastLayer(mat: nat)
      requires Valid() && mat < |mgr.materials| && |mgr.materials[mat].layers| > 0
      modifies mgr
      ensures Valid()
      ensures var ls := old(mgr.materials[mat].layers);
        mgr.layers == old(mgr.layers)[ls[|ls| - 1] := old(mgr.layers[ls[|ls| - 1]]).(state := BindNextLayer(old(mgr.layers[ls[|ls| - 1]].state)))]
      ensures mgr.materials == old(mgr.materials) && mgr.mipmaps == old(mgr.mipmaps)
      ensures mgr.textMaps == old(mgr.textMaps) && mgr.envMaps == old(mgr.envMaps)
      ensures var ls := mgr.materials[mat].layers; BoundToNext(mgr.layers[ls[|ls| - 1]].state)
    {
      var ls := mgr.materials[mat].layers;
      var prev := ls[|ls| - 1];
      var pl := mgr.layers[prev];
      mgr.SetLayer(prev, pl.(state := BindNextLayer(pl.state)));
    }

    /** `_tex_exporters[texture.type]`: the IMAGE, ENVIRONMENT_MAP or NONE exporter on layer
        `k`, as TypeExported says. IMAGE queues the slot's image with `k` as a consumer, or
        without an image shows the layer's dynamic text map; ENVIRONMENT_MAP shows the dynamic
        map of the texture's class, and fails, queueing nothing, when there is none; NONE does
        nothing. No other existing layer changes. */
    method ExportTextureType(bo: BObject, k: nat, slot: TextureSlot) returns (r: Result<(), Failure>)
      requires Valid() && k < |mgr.layers| && Exportable(slot)
      modifies this, mgr
      ensures Valid()
      ensures obj2mat == old(obj2mat) && mgr.materials == old(mgr.materials) && mgr.mipmaps == old(mgr.mipmaps)
      ensures LayersKeptBut(old(mgr.layers), mgr.layers, k)
      ensures r.Ok? ==> TypeExported(mgr.layers[k], old(mgr.layers[k]), slot, svc.alphaScan)
      ensures r.Ok? ==> pending == InsertAll(old(pending), Queue(svc.alphaScan, slot, k))
      ensures r.Err? ==> pending == old(pending)
      ensures MapsEvolve(old(mgr.textMaps), mgr.textMaps, old(mgr.envMaps), mgr.envMaps)
      ensures r.Ok? ==> ShowsMap(mgr.layers[k], old(mgr.layers[k]), slot, bo, svc.moulOrLater, mgr.textMaps, mgr.envMaps)
      ensures var texture := slot.texture.value;
        var kind := EnvMapClassFor(texture.environmentMap, svc.moulOrLater);
        && (texture.kind != EnvironmentMapType ==> r.Ok?)
        && (texture.kind == EnvironmentMapType && kind.None? ==>
              && r == Err(NoneDereference("pl_env"))
              && mgr.layers == old(mgr.layers)[k := EnvShaded(old(mgr.layers[k]))])
        && (r.Err? && kind.Some? ==> mgr.layers == old(mgr.layers))
      ensures var texture := slot.texture.value;
        texture.kind == ImageType && texture.image.None? ==>
          var key := mgr.layers[k].texture.value;
          && key.textMap < |mgr.textMaps|
          && mgr.textMaps[key.textMap] == TextMap(old(mgr.layers[k]).name + "_DynText", bo.page, texture.useAlpha, 1024, 1024)
      ensures var texture := slot.texture.value;
        texture.kind == EnvironmentMapType && r.Ok? ==>
          var key := mgr.layers[k].texture.value;
          && key.envMap < |mgr.envMaps|
          && Some(mgr.envMaps[key.envMap].kind) == EnvMapClassFor(texture.environmentMap, svc.moulOrLater)
          && mgr.envMaps[key.envMap].name == EnvMapName(bo, texture.environmentMap)
          && mgr.envMaps[key.envMap].page == bo.page
    {
      var texture := slot.texture.value;
      if texture.kind == ImageType {
        var hasAlpha, textMap := ExportImage(bo, k, slot);
        if texture.image.Some? {
          assert [(SlotTexKey(svc.alphaScan, slot), k)][..0] == [];
        }
      } else if texture.kind == EnvironmentMapType {
        var e := ExportEnvironmentMap(bo, k, slot);
        if e.Err? {
          return Err(e.error);
        }
      }
      return Ok(());
    }

    /** The rest of `_export_texture_slot` for the slot's own layer `k`: the texture type's
        exporter, the layer animations, and the material listing the resulting layer; `cs` are
        the insertions into the pending table. */
    method FinishSlotLayer(bo: BObject, bm: Material, mat: nat, slot: TextureSlot, idx: nat, k: nat)
      returns (r: Result<nat, Failure>, ghost cs: seq<(TexKey, nat)>)
      requires Valid() && mat < |mgr.materials| && k < |mgr.layers| && Exportable(slot)
      modifies this, mgr
      ensures Valid()
      ensures obj2mat == old(obj2mat) && mgr.mipmaps == old(mgr.mipmaps)
      ensures SlotFinished(old(mgr.materials), mgr.materials, old(mgr.layers), mgr.layers, mat, k, slot,
                           svc.alphaScan, r, cs)
      ensures pending == InsertAll(old(pending), cs)
      ensures MapsEvolve(old(mgr.textMaps), mgr.textMaps, old(mgr.envMaps), mgr.envMaps)
      ensures r.Ok? ==> ShowsMap(mgr.layers[k], old(mgr.layers[k]), slot, bo, svc.moulOrLater, mgr.textMaps, mgr.envMaps)
    {
      ghost var m0, l0 := mgr.materials, mgr.layers;
      var exported := ExportTextureType(bo, k, slot);
      if exported.Err? {
        cs := [];
        return Err(exported.error), cs;
      }
      cs := Queue(svc.alphaScan, slot, k);
      ghost var l1 := mgr.layers;
      var top := ListAnimatedLayer(bo, bm, mat, slot, idx, k, l0);
      ShowsMapEvolve(l1[k], mgr.layers[k], l0[k], slot, bo, svc.moulOrLater, mgr.textMaps, mgr.textMaps,
                     mgr.envMaps, mgr.envMaps);
      return Ok(top), cs;
    }

    /** The end of `_export_texture_slot` once the texture type is exported on layer `k` (`l0`
        are the layers before): the layer animations, and the material listing the resulting
        layer. */
    method ListAnimatedLayer(bo: BObject, bm: Material, mat: nat, slot: TextureSlot, idx: nat, k: nat,
                             ghost l0: seq<Layer>) returns (top: nat)
      requires Valid() && mat < |mgr.materials| && k < |l0| && Exportable(slot)
      requires LayersKeptBut(l0, mgr.layers, k) && TypeExported(mgr.layers[k], l0[k], slot, svc.alphaScan)
      modifies mgr
      ensures Valid()
      ensures mgr.mipmaps == old(mgr.mipmaps) && mgr.textMaps == old(mgr.textMaps) && mgr.envMaps == old(mgr.envMaps)
      ensures SlotFinished(old(mgr.materials), mgr.materials, l0, mgr.layers, mat, k, slot, svc.alphaScan, Ok(top),
                           Queue(svc.alphaScan, slot, k))
      ensures Evolves(old(mgr.layers[k]), mgr.layers[k])
    {
      ghost var m0, l1 := mgr.materials, mgr.layers;
      top := ExportLayerAnimations(bo, bm, slot, idx, k);
      AnimationEffectKeeps(l1, mgr.layers, k, top, LayerAnimationEffect(svc, bm, slot, idx, k), bo.page);
      mgr.AddMaterialLayer(mat, top);
      SlotListed(m0, mgr.materials, l0, l1, mgr.layers, mat, k, top, slot, svc.alphaScan);
    }

    /** The stencil branch of `_export_texture_slot` for slot `idx`: the material needs a blend
        channel, the next slot is exported first (a stencil in the last slot is an error), and
        the layer the material then lists last is bound to the stencil's layer. */
    method ExportStencilNext(bo: BObject, bm: Material, mat: nat, slots: seq<TextureSlot>, idx: nat)
      returns (r: Result<(), Failure>, ghost bases: seq<nat>, ghost cs: seq<(TexKey, nat)>)
      requires Valid() && mat < |mgr.materials| && idx < |slots| && slots[idx].useStencil
      requires forall i :: 0 <= i < |slots| ==> Exportable(slots[i])
      modifies this, mgr
      ensures Valid()
      ensures obj2mat == old(obj2mat) && mgr.mipmaps == old(mgr.mipmaps)
      ensures StencilExported(slots, idx, SlotContext(bm, scene, bo, svc.alphaScan, svc.moulOrLater), old(mgr.materials), mgr.materials,
                              old(mgr.layers), mgr.layers, mat, r, bases, cs)
      ensures pending == InsertAll(old(pending), cs)
      ensures MapsEvolve(old(mgr.textMaps), mgr.textMaps, old(mgr.envMaps), mgr.envMaps)
      ensures r.Ok? ==> idx + 1 < |slots| && SlotLayerOrder(slots, idx + 1).Ok?
                        && Shown(SlotLayerOrder(slots, idx + 1).value, bases, slots, mgr.layers, |old(mgr.layers)|,
                                 SlotContext(bm, scene, bo, svc.alphaScan, svc.moulOrLater), mgr.textMaps, mgr.envMaps)
      decreases |slots| - idx, 1
    {
      ghost var m0 := mgr.materials;
      mgr.AddCompFlag(mat, CompNeedsBlendChannel);
      if idx + 1 == |slots| {
        r, bases, cs := Err(ExportError(StencilMessage(slots[idx].name))), [], [];
        StencilInLastSlot(slots, idx, SlotContext(bm, scene, bo, svc.alphaScan, svc.moulOrLater), m0, mgr.materials, mgr.layers, mat, r);
        return;
      }
      r, bases, cs := BindAfterNext(bo, bm, mat, slots, idx, m0);
    }

    /** The stencil branch once the material has its blend channel (`m0` is the material arena
        before): the next slot's export, then the binding of the layer the material lists last. */
    method BindAfterNext(bo: BObject, bm: Material, mat: nat, slots: seq<TextureSlot>, idx: nat, ghost m0: seq<GMaterial>)
      returns (r: Result<(), Failure>, ghost bases: seq<nat>, ghost cs: seq<(TexKey, nat)>)
      requires Valid() && mat < |m0| && idx + 1 < |slots| && slots[idx].useStencil
      requires forall i :: 0 <= i < |slots| ==> Exportable(slots[i])
      requires mgr.materials == m0[mat := m0[mat].(compFlags := m0[mat].compFlags + {CompNeedsBlendChannel})]
      modifies this, mgr
      ensures Valid()
      ensures obj2mat == old(obj2mat) && mgr.mipmaps == old(mgr.mipmaps)
      ensures StencilExported(slots, idx, SlotContext(bm, scene, bo, svc.alphaScan, svc.moulOrLater), m0, mgr.materials,
                              old(mgr.layers), mgr.layers, mat, r, bases, cs)
      ensures pending == InsertAll(old(pending), cs)
      ensures MapsEvolve(old(mgr.textMaps), mgr.textMaps, old(mgr.envMaps), mgr.envMaps)
      ensures r.Ok? ==> idx + 1 < |slots| && SlotLayerOrder(slots, idx + 1).Ok?
                        && Shown(SlotLayerOrder(slots, idx + 1).value, bases, slots, mgr.layers, |old(mgr.layers)|,
                                 SlotContext(bm, scene, bo, svc.alphaScan, svc.moulOrLater), mgr.textMaps, mgr.envMaps)
      decreases |slots| - idx, 0
    {
      ghost var ctx := SlotContext(bm, scene, bo, svc.alphaScan, svc.moulOrLater);
      ghost var m1, l0 := mgr.materials, mgr.layers;
      var sub;
      sub, bases, cs := ExportTextureSlot(bo, bm, mat, slots, idx + 1);
      if sub.Err? {
        r := Err(sub.error);
        StencilNextFails(slots, idx, ctx, m0, m1, mgr.materials, l0, mgr.layers, mat, sub, bases, cs, r);
        return;
      }
      BindStencilLayer(bo, bm, mat, slots, idx, m0, m1, l0, sub, bases, cs);
      r := Ok(());
    }

    /** The binding of `_export_texture_slot`'s stencil branch once the next slot is exported:
        the layer the material lists last is bound to the stencil's layer. */
    method BindStencilLayer(bo: BObject, bm: Material, mat: nat, slots: seq<TextureSlot>, idx: nat,
                            ghost m0: seq<GMaterial>, ghost m1: seq<GMaterial>, ghost l0: seq<Layer>,
                            ghost sub: Result<nat, Failure>, ghost bases: seq<nat>, ghost cs: seq<(TexKey, nat)>)
      requires Valid() && mat < |m0| && idx + 1 < |slots| && slots[idx].useStencil && sub.Ok?
      requires m1 == m0[mat := m0[mat].(compFlags := m0[mat].compFlags + {CompNeedsBlendChannel})]
      requires SlotExported(slots, idx + 1, SlotContext(bm, scene, bo, svc.alphaScan, svc.moulOrLater), m1, mgr.materials, l0, mgr.layers,
                            mat, sub, bases, cs)
      requires SlotLayerOrder(slots, idx + 1).Ok?
               && Shown(SlotLayerOrder(slots, idx + 1).value, bases, slots, mgr.layers, |l0|,
                        SlotContext(bm, scene, bo, svc.alphaScan, svc.moulOrLater), mgr.textMaps, mgr.envMaps)
      modifies mgr
      ensures Valid()
      ensures mgr.materials == old(mgr.materials) && mgr.mipmaps == old(mgr.mipmaps)
      ensures mgr.textMaps == old(mgr.textMaps) && mgr.envMaps == old(mgr.envMaps)
      ensures StencilExported(slots, idx, SlotContext(bm, scene, bo, svc.alphaScan, svc.moulOrLater), m0, mgr.materials,
                              l0, mgr.layers, mat, Ok(()), bases, cs)
      ensures Shown(SlotLayerOrder(slots, idx + 1).value, bases, slots, mgr.layers, |l0|,
                    SlotContext(bm, scene, bo, svc.alphaScan, svc.moulOrLater), mgr.textMaps, mgr.envMaps)
    {
      ghost var ctx := SlotContext(bm, scene, bo, svc.alphaScan, svc.moulOrLater);
      ghost var m2, l2 := mgr.materials, mgr.layers;
      BindLastLayer(mat);
      assert var ls := m2[mat].layers;
        mgr.layers == l2[ls[|ls| - 1] := l2[ls[|ls| - 1]].(state := BindNextLayer(l2[ls[|ls| - 1]].state))];
      StencilBinds(slots, idx, ctx, m0, m1, m2, l0, l2, mgr.layers, mat, sub, bases, cs);
      BindKeepsShown(SlotLayerOrder(slots, idx + 1).value, bases, slots, l2, mgr.layers,
                     m2[mat].layers[|m2[mat].layers| - 1], |l0|, ctx, mgr.textMaps, mgr.envMaps);
    }

    /** `_export_texture_slot`: exports slot `idx` as a layer of material `mat` and returns the
        number of slots consumed, as SlotExported says. A stencil first exports the next slot,
        then binds the layer that export listed last to itself; a stencil in the last slot is an
        error. The slot's own layer is the first one allocated, set up on the UV channel of the
        slot's UV map, and the material lists it, or its animation wrapper, after the layers of
        the slots it exported first. `bases` are the own layers of the slots exported, and `cs`
        the insertions into the pending table. */
    method ExportTextureSlot(bo: BObject, bm: Material, mat: nat, slots: seq<TextureSlot>, idx: nat)
      returns (r: Result<nat, Failure>, ghost bases: seq<nat>, ghost cs: seq<(TexKey, nat)>)
      requires Valid() && mat < |mgr.materials| && idx < |slots|
      requires forall i :: 0 <= i < |slots| ==> Exportable(slots[i])
      modifies this, mgr
      ensures Valid()
      ensures obj2mat == old(obj2mat) && mgr.mipmaps == old(mgr.mipmaps)
      ensures SlotExported(slots, idx, SlotContext(bm, scene, bo, svc.alphaScan, svc.moulOrLater), old(mgr.materials), mgr.materials,
                           old(mgr.layers), mgr.layers, mat, r, bases, cs)
      ensures pending == InsertAll(old(pending), cs)
      ensures MapsEvolve(old(mgr.textMaps), mgr.textMaps, old(mgr.envMaps), mgr.envMaps)
      ensures r.Ok? ==> SlotLayerOrder(slots, idx).Ok?
                        && Shown(SlotLayerOrder(slots, idx).value, bases, slots, mgr.layers, |old(mgr.layers)|,
                                 SlotContext(bm, scene, bo, svc.alphaScan, svc.moulOrLater), mgr.textMaps, mgr.envMaps)
      decreases |slots| - idx, 2
    {
      ghost var ctx := SlotContext(bm, scene, bo, svc.alphaScan, svc.moulOrLater);
      ghost var p0 := pending;
      var slot := slots[idx];
      var channel := FindUvChannel(bo.uvLayers, slot.uvLayer);
      ghost var m0, l0 := mgr.materials, mgr.layers;
      ghost var t0, e0 := mgr.textMaps, mgr.envMaps;
      var k := mgr.AddLayer(SlotLayer(bm, scene, bo, slot, channel));
      ghost var l1 := mgr.layers;
      assert l1 == l0 + [Setup(ctx, slot)];
      if slot.useStencil {
        var stencil, sb, scs := ExportStencilNext(bo, bm, mat, slots, idx);
        if stencil.Err? {
          r, bases, cs := Err(stencil.error), sb, scs;
          StencilSlotFails(slots, idx, ctx, m0, mgr.materials, l0, l1, mgr.layers, mat, stencil, r, sb, scs);
          return;
        }
        ghost var m2, l2, p2 := mgr.materials, mgr.layers, pending;
        ghost var t2, e2 := mgr.textMaps, mgr.envMaps;
        var top, fcs := FinishSlotLayer(bo, bm, mat, slot, idx, k);
        r := if top.Ok? then Ok(SlotsConsumed(slot)) else Err(top.error);
        bases, cs := sb + [k], scs + fcs;
        InsertAllConcat(p0, scs, fcs);
        StencilSlot(slots, idx, ctx, m0, m2, mgr.materials, l0, l1, l2, mgr.layers, mat, top, r, sb, scs, fcs);
        MapsEvolveTrans(t0, t2, mgr.textMaps, e0, e2, mgr.envMaps);
        if top.Ok? {
          StencilShown(slots, idx, ctx, l1, l2, mgr.layers, k, sb, t2, mgr.textMaps, e2, mgr.envMaps);
        }
      } else {
        var top, fcs := FinishSlotLayer(bo, bm, mat, slot, idx, k);
        r := if top.Ok? then Ok(SlotsConsumed(slot)) else Err(top.error);
        bases, cs := [k], fcs;
        PlainSlot(slots, idx, ctx, m0, mgr.materials, l0, l1, mgr.layers, mat, top, r, fcs);
        if top.Ok? {
          PlainShown(slots, idx, ctx, mgr.layers, k, mgr.textMaps, mgr.envMaps);
        }
      }
    }

    /** `export_material`'s cursor loop: each call exports the slot under the cursor and moves
        the cursor past the slots it consumed. `done` are the slots exported, in listing order,
        `bases` their own layers, and `cs` the insertions into the pending table. */
    method ExportSlots(bo: BObject, bm: Material, mat: nat, slots: seq<TextureSlot>, ghost m1: seq<GMaterial>)
      returns (r: Result<(), Failure>, ghost done: seq<nat>, ghost bases: seq<nat>, ghost cs: seq<(TexKey, nat)>)
      requires Valid() && mat < |mgr.materials| && mgr.materials == m1
      requires forall i :: 0 <= i < |slots| ==> Exportable(slots[i])
      modifies this, mgr
      ensures Valid()
      ensures obj2mat == old(obj2mat) && mgr.mipmaps == old(mgr.mipmaps)
      ensures Framed(m1, mgr.materials, old(mgr.layers), mgr.layers, mat)
      ensures pending == InsertAll(old(pending), cs)
      ensures r.Ok? ==> CursorAt(slots, |slots|, done, bases, SlotContext(bm, scene, bo, svc.alphaScan, svc.moulOrLater), m1,
                                 mgr.materials, old(mgr.layers), mgr.layers, mat, cs)
      ensures MapsEvolve(old(mgr.textMaps), mgr.textMaps, old(mgr.envMaps), mgr.envMaps)
      ensures r.Ok? ==> Shown(done, bases, slots, mgr.layers, |old(mgr.layers)|,
                              SlotContext(bm, scene, bo, svc.alphaScan, svc.moulOrLater), mgr.textMaps, mgr.envMaps)
    {
      ghost var ctx := SlotContext(bm, scene, bo, svc.alphaScan, svc.moulOrLater);
      ghost var l1, p1 := mgr.layers, pending;
      ghost var t1, e1 := mgr.textMaps, mgr.envMaps;
      var i := 0;
      done, bases, cs := [], [], [];
      CursorStart(slots, ctx, m1, l1, mat);
      while i < |slots|
        invariant Valid() && mat < |mgr.materials|
        invariant obj2mat == old(obj2mat) && mgr.mipmaps == old(mgr.mipmaps)
        invariant WellFormed(p1) && pending == InsertAll(p1, cs)
        invariant CursorAt(slots, i, done, bases, ctx, m1, mgr.materials, l1, mgr.layers, mat, cs)
        invariant MapsEvolve(t1, mgr.textMaps, e1, mgr.envMaps)
        invariant Shown(done, bases, slots, mgr.layers, |l1|, ctx, mgr.textMaps, mgr.envMaps)
        decreases |slots| - i
      {
        ghost var mA, lA, pA := mgr.materials, mgr.layers, pending;
        ghost var tA, eA := mgr.textMaps, mgr.envMaps;
        var step, sbases, scs := ExportTextureSlot(bo, bm, mat, slots, i);
        InsertAllConcat(p1, cs, scs);
        MapsEvolveTrans(t1, tA, mgr.textMaps, e1, eA, mgr.envMaps);
        if step.Err? {
          MaterialGrowsTrans(m1, mA, mgr.materials, mat);
          LayersKeptTrans(l1, lA, mgr.layers);
          return Err(step.error), done, bases, cs + scs;
        }
        CursorStep(slots, i, done, bases, ctx, m1, mA, mgr.materials, l1, lA, mgr.layers, mat, cs, step, sbases, scs);
        ShownStep(done, bases, SlotLayerOrder(slots, i).value, sbases, slots, lA, mgr.layers, |l1|, ctx,
                  tA, mgr.textMaps, eA, mgr.envMaps);
        done, bases, cs := done + SlotLayerOrder(slots, i).value, bases + sbases, cs + scs;
        i := i + step.value;
      }
      return Ok(()), done, bases, cs;
    }

    /** `export_material`: adds a material for `bm`, exports its qualifying slots, gives it the
        automatic layer when they listed none, and records it for the object, as
        MaterialExported says; `bases` are the own layers of the slots exported and `cs` the
        insertions into the pending table. An error leaves the material in the registry and the
        object's record alone. */
    method ExportMaterial(bo: BObject, bm: Material)
      returns (r: Result<nat, Failure>, ghost bases: seq<nat>, ghost cs: seq<(TexKey, nat)>)
      requires Valid()
      modifies this, mgr
      ensures Valid()
      ensures MaterialExported(QualifyingSlots(bm.textureSlots), SlotContext(bm, scene, bo, svc.alphaScan, svc.moulOrLater),
                               old(mgr.materials), mgr.materials, old(mgr.layers), mgr.layers, r, bases, cs)
      ensures pending == InsertAll(old(pending), cs) && mgr.mipmaps == old(mgr.mipmaps)
      ensures r.Err? ==> obj2mat == old(obj2mat)
      ensures r.Ok? ==> obj2mat == old(obj2mat)[bo := (if bo in old(obj2mat) then old(obj2mat)[bo] else []) + [r.value]]
      ensures MapsEvolve(old(mgr.textMaps), mgr.textMaps, old(mgr.envMaps), mgr.envMaps)
      ensures var slots := QualifyingSlots(bm.textureSlots);
        r.Ok? ==> MaterialLayerOrder(slots, 0).Ok?
                  && Shown(MaterialLayerOrder(slots, 0).value, bases, slots, mgr.layers, |old(mgr.layers)|,
                           SlotContext(bm, scene, bo, svc.alphaScan, svc.moulOrLater), mgr.textMaps, mgr.envMaps)
    {
      ghost var ctx := SlotContext(bm, scene, bo, svc.alphaScan, svc.moulOrLater);
      var slots := QualifyingSlots(bm.textureSlots);
      ghost var m0, l0 := mgr.materials, mgr.layers;
      var mat := mgr.AddMaterial(GMaterial(bm.name, bo.page, {}, []));
      ghost var m1 := mgr.materials;
      var exported;
      ghost var done;
      exported, done, bases, cs := ExportSlots(bo, bm, mat, slots, m1);
      if exported.Err? {
        r := Err(exported.error);
        MaterialFailed(slots, ctx, m0, m1, mgr.materials, l0, mgr.layers, r, bases, cs);
        return;
      }
      CompleteMaterial(bo, bm, mat, slots, done, bases, cs, m0, m1, l0);
      RecordMaterial(bo, mat);
      r := Ok(mat);
    }

    /** The end of `export_material` on the registry: a material the slots listed no layer for
        gets the automatic layer. */
    method CompleteMaterial(bo: BObject, bm: Material, mat: nat, slots: seq<TextureSlot>, ghost done: seq<nat>,
                            ghost bases: seq<nat>, ghost cs: seq<(TexKey, nat)>,
                            ghost m0: seq<GMaterial>, ghost m1: seq<GMaterial>, ghost l0: seq<Layer>)
      requires Valid() && mat == |m0| && m1 == m0 + [GMaterial(bm.name, bo.page, {}, [])]
      requires CursorAt(slots, |slots|, done, bases, SlotContext(bm, scene, bo, svc.alphaScan, svc.moulOrLater), m1, mgr.materials,
                        l0, mgr.layers, mat, cs)
      requires Shown(done, bases, slots, mgr.layers, |l0|,
                    SlotContext(bm, scene, bo, svc.alphaScan, svc.moulOrLater), mgr.textMaps, mgr.envMaps)
      modifies mgr
      ensures Valid()
      ensures MaterialExported(slots, SlotContext(bm, scene, bo, svc.alphaScan, svc.moulOrLater), m0, mgr.materials, l0, mgr.layers,
                               Ok(mat), bases, cs)
      ensures mgr.mipmaps == old(mgr.mipmaps) && mgr.textMaps == old(mgr.textMaps) && mgr.envMaps == old(mgr.envMaps)
      ensures MaterialLayerOrder(slots, 0) == Ok(done)
      ensures Shown(done, bases, slots, mgr.layers, |l0|,
                    SlotContext(bm, scene, bo, svc.alphaScan, svc.moulOrLater), mgr.textMaps, mgr.envMaps)
    {
      ghost var ctx := SlotContext(bm, scene, bo, svc.alphaScan, svc.moulOrLater);
      CursorDone(slots, |slots|, done, bases, ctx, m1, mgr.materials, l0, mgr.layers, mat, cs);
      ghost var lS := mgr.layers;
      if |mgr.materials[mat].layers| == 0 {
        ghost var m, l := mgr.materials, mgr.layers;
        var layer := mgr.AddLayer(AutoLayer(bm, scene, bo));
        mgr.AddMaterialLayer(mat, layer);
        MaterialWithAutoLayer(slots, |slots|, done, bases, ctx, m0, m1, m, l0, l, mgr.materials, mgr.layers, cs);
      } else {
        MaterialWithLayers(slots, |slots|, done, bases, ctx, m0, m1, mgr.materials, l0, mgr.layers, cs);
      }
      KeptEvolve(lS, mgr.layers, |l0|);
      ShownEvolve(done, bases, slots, lS, mgr.layers, |l0|, |l0|, ctx, mgr.textMaps, mgr.textMaps,
                  mgr.envMaps, mgr.envMaps);
    }

    /** Caching the material for the object: appended to its list, or the start of one. */
    method RecordMaterial(bo: BObject, mat: nat)
      requires Valid() && mat < |mgr.materials|
      modifies this`obj2mat
      ensures Valid()
      ensures obj2mat == old(obj2mat)[bo := (if bo in old(obj2mat) then old(obj2mat)[bo] else []) + [mat]]
    {
      var listed := if bo in obj2mat then obj2mat[bo] else [];
      obj2mat := obj2mat[bo := listed + [mat]];
    }

    /** `export_waveset_material`: a material of its own with a single alpha-blended layer,
        not recorded for the object. */
    method ExportWavesetMaterial(bo: BObject, bm: Material) returns (mat: nat)
      requires Valid()
      modifies mgr
      ensures Valid()
      ensures mat == |old(mgr.materials)|
      ensures mgr.materials == old(mgr.materials) + [GMaterial(WaveSetName(bm), bo.page, {}, [|old(mgr.layers)|])]
      ensures mgr.layers == old(mgr.layers) + [WaveSetLayer(bm, scene, bo)]
      ensures mgr.mipmaps == old(mgr.mipmaps) && mgr.textMaps == old(mgr.textMaps) && mgr.envMaps == old(mgr.envMaps)
      ensures pending == old(pending) && obj2mat == old(obj2mat)
    {
      ghost var m0 := mgr.materials;
      var g := GMaterial(WaveSetName(bm), bo.page, {}, []);
      mat := mgr.AddMaterial(g);
      var layer := mgr.AddLayer(WaveSetLayer(bm, scene, bo));
      mgr.AddMaterialLayer(mat, layer);
      assert [] + [layer] == [layer];
      assert (m0 + [g])[mat := g.(layers := [layer])] == m0 + [g.(layers := [layer])];
    }

    /** `export_prepared_layer`: queues an externally prepared layer as a consumer of the image,
        keyed without texture settings. A caller may hand in no image (the lightmap baker does
        when its bake produced none); the texture key's constructor then fails its assertion and
        nothing is queued. */
    method ExportPreparedLayer(layer: nat, image: Option<Image>) returns (r: Result<(), Failure>)
      requires Valid() && layer < |mgr.layers|
      modifies this
      ensures Valid()
      ensures image.None? ==> r == Err(AssertionFailure("texture or image")) && pending == old(pending)
      ensures image.Some? ==> r.Ok? && pending == Insert(old(pending), NewTexKey(None, image, None, false), layer)
      ensures obj2mat == old(obj2mat) && alphaTest == old(alphaTest)
    {
      if image.None? {
        return Err(AssertionFailure("texture or image"));
      }
      InsertLayersBelow(pending, NewTexKey(None, image, None, false), layer, |mgr.layers|);
      pending := Insert(pending, NewTexKey(None, image, None, false), layer);
      r := Ok(());
    }

    /** The encoding half of `finalize` for one pending texture: the level data read out
        level by level, and the bitmap's settings. */
    method EncodeTexture(key: TexKey) returns (proto: Mipmap)
      requires ValidServices(svc)
      ensures proto == MipmapFor(svc, key)
    {
      var w, h := svc.pot(key.image.width), svc.pot(key.image.height);
      Pow2Positive(w);
      Pow2Positive(h);
      var n := LevelCount(key.mipmap, w, h);
      var data := CollectLevels(svc, key, w, h, n);
      proto := Mipmap(TexName(key), w, h, n, CompressionFor(key), DxtFor(key), data, 0);
    }

    /** The layer loop of `finalize`: each consumer gets the mipmap of its textures page, which
        is stored in that page the first time the page is met. */
    method PlaceConsumers(proto: Mipmap, consumers: seq<nat>)
      requires mgr.Valid() && forall i :: 0 <= i < |consumers| ==> consumers[i] < |mgr.layers|
      modifies mgr
      ensures mgr.Valid()
      ensures var b := PlaceAll(Bucket(old(mgr.mipmaps), old(mgr.layers), map[]), proto, consumers, svc.texturesPage);
              mgr.mipmaps == b.mipmaps && mgr.layers == b.layers
      ensures mgr.materials == old(mgr.materials) && mgr.textMaps == old(mgr.textMaps) && mgr.envMaps == old(mgr.envMaps)
    {
      ghost var b0 := Bucket(mgr.mipmaps, mgr.layers, map[]);
      var pages: map<nat, nat> := map[];
      var j := 0;
      while j < |consumers|
        invariant j <= |consumers| && mgr.Valid()
        invariant Bucket(mgr.mipmaps, mgr.layers, pages) == PlaceAll(b0, proto, consumers[..j], svc.texturesPage)
        invariant mgr.materials == old(mgr.materials) && mgr.textMaps == old(mgr.textMaps) && mgr.envMaps == old(mgr.envMaps)
      {
        PlaceAllStep(b0, proto, consumers, j, svc.texturesPage);
        var c := consumers[j];
        var page := svc.texturesPage(mgr.layers[c].page);
        if page !in pages {
          var k := mgr.AddMipmap(proto.(page := page));
          pages := pages[page := k];
        }
        mgr.SetLayer(c, mgr.layers[c].(texture := Some(MipmapKey(pages[page]))));
        j := j + 1;
      }
      assert consumers[..j] == consumers;
    }

    /** `finalize`: every pending texture, in the table's order, is encoded once and placed
        among its consumers. The table itself is left as it is. */
    method Finalize()
      requires Valid()
      modifies mgr
      ensures Valid()
      ensures (mgr.mipmaps, mgr.layers) == Finalized(svc, pending, old(mgr.mipmaps), old(mgr.layers))
      ensures mgr.materials == old(mgr.materials) && mgr.textMaps == old(mgr.textMaps) && mgr.envMaps == old(mgr.envMaps)
    {
      PlacePending();
    }

    /** The outer loop of `finalize`: the pending textures, in the table's order, each encoded
        and placed among its consumers. */
    method PlacePending()
      requires mgr.Valid() && ValidServices(svc) && WellFormed(pending) && LayersBelow(pending, |mgr.layers|)
      modifies mgr
      ensures mgr.Valid() && |mgr.layers| == |old(mgr.layers)|
      ensures (mgr.mipmaps, mgr.layers) == Finalized(svc, pending, old(mgr.mipmaps), old(mgr.layers))
      ensures mgr.materials == old(mgr.materials) && mgr.textMaps == old(mgr.textMaps) && mgr.envMaps == old(mgr.envMaps)
    {
      var t := pending;
      ghost var es := Items(t);
      ghost var protos := Encodings(svc, es);
      ghost var h := SessionHistory(svc, t, mgr.mipmaps, mgr.layers);
      var i := 0;
      while i < |t.order|
        invariant i <= |t.order| && mgr.Valid()
        invariant (mgr.mipmaps, mgr.layers) == h[i]
        invariant mgr.materials == old(mgr.materials) && mgr.textMaps == old(mgr.textMaps) && mgr.envMaps == old(mgr.envMaps)
      {
        PlaceNext(t, protos, es, h, i, old(mgr.mipmaps), old(mgr.layers));
        i := i + 1;
      }
    }

    /** One turn of `finalize`'s outer loop: the `i`-th texture of the table `t` is encoded and
        placed among its consumers, which leads to the next state of the history `h`. */
    method PlaceNext(t: PendingTable, ghost protos: seq<Mipmap>, ghost es: seq<Entry>, ghost h: seq<(seq<Mipmap>, seq<Layer>)>,
                     i: nat, ghost m0: seq<Mipmap>, ghost l0: seq<Layer>)
      requires mgr.Valid() && ValidServices(svc) && WellFormed(t) && i < |t.order|
      requires es == Items(t) && protos == Encodings(svc, es)
      requires History(protos, svc.texturesPage, es, h, m0, l0) && (mgr.mipmaps, mgr.layers) == h[i]
      modifies mgr
      ensures mgr.Valid()
      ensures (mgr.mipmaps, mgr.layers) == h[i + 1]
      ensures mgr.materials == old(mgr.materials) && mgr.textMaps == old(mgr.textMaps) && mgr.envMaps == old(mgr.envMaps)
    {
      var e := t.entries[t.order[i]];
      var proto := EncodeTexture(e.key);
      EncodingOf(svc, es, i);
      StepNext(protos, svc.texturesPage, es, h, m0, l0, i, proto, e.layers);
      PlaceConsumers(proto, e.layers);
    }

    /** `get_materials`: the materials exported for the object, in export order; an object never
        exported is the source's KeyError, here None. */
    function GetMaterials(bo: BObject): (r: Option<seq<nat>>)
      reads this
      ensures r.Some? <==> bo in obj2mat
      ensures r.Some? ==> r.value == obj2mat[bo]
    {
      if bo in obj2mat then Some(obj2mat[bo]) else None
    }
  }
}
