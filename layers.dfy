/** Per-slot layer logic of `export_material` and `_export_texture_slot`: which slots are
    exported, the order in which their layers reach the material (stencil chaining), and the
    blend, clamp and shading flags each layer gets. */
module Layers {
  import opened Wrappers
  import opened Seqs
  import opened Blender
  import opened Plasma
  import opened Explosions

  /** The texture types with a registered exporter (`_tex_exporters`). */
  predicate HasExporter(kind: TextureType) {
    kind == EnvironmentMapType || kind == ImageType || kind == NoneType
  }

  predicate Exportable(slot: TextureSlot) {
    slot.use && slot.texture.Some? && HasExporter(slot.texture.value.kind)
  }

  predicate Qualifies(slot: Option<TextureSlot>) {
    slot.Some? && Exportable(slot.value)
  }

  /** The slots `export_material` visits: non-empty, in use, with a texture of a type that has an
      exporter, in their original order. */
  function QualifyingSlots(slots: seq<Option<TextureSlot>>): (r: seq<TextureSlot>)
    ensures |r| <= |slots|
    ensures forall i :: 0 <= i < |r| ==> Exportable(r[i]) && Some(r[i]) in slots
    ensures forall i :: 0 <= i < |slots| && Qualifies(slots[i]) ==> slots[i].value in r
  {
    if slots == [] then []
    else (if Qualifies(slots[0]) then [slots[0].value] else []) + QualifyingSlots(slots[1..])
  }

  /** Filtering keeps the left-to-right order of the material's slots. */
  lemma {:induction false} QualifyingSlotsConcat(a: seq<Option<TextureSlot>>, b: seq<Option<TextureSlot>>)
    ensures QualifyingSlots(a + b) == QualifyingSlots(a) + QualifyingSlots(b)
  {
    if a == [] {
      assert a + b == b;
    } else {
      assert (a + b)[0] == a[0];
      assert (a + b)[1..] == a[1..] + b;
      QualifyingSlotsConcat(a[1..], b);
    }
  }

  /** A BLEND texture never reaches the stencil clamp test: its type has no exporter. */
  lemma StencilBlendClampIsDead(slot: TextureSlot)
    requires Exportable(slot)
    ensures slot.texture.value.kind != BlendType
  {
  }

  // ---------------------------------------------------------------------------------------
  // Stencil chaining

  function StencilMessage(name: string): string {
    "Texture Slot '" + name + "' wants to be a stencil, but there are no more TextureSlots."
  }

  /** What `_export_texture_slot` returns: 2 for a stencil whatever the recursive call
      consumed, else 1. */
  function SlotsConsumed(slot: TextureSlot): nat {
    if slot.useStencil then 2 else 1
  }

  /** The slots whose layers one `_export_texture_slot(idx)` call appends to the material, in
      append order, or the error it raises: a stencil exports the next slot first. */
  function SlotLayerOrder(slots: seq<TextureSlot>, idx: nat): (r: Result<seq<nat>, Failure>)
    requires idx < |slots|
    ensures r.Ok? ==> |r.value| >= 1 && r.value[|r.value| - 1] == idx
    ensures r.Ok? ==> forall j :: 0 <= j < |r.value| ==> idx <= r.value[j] < |slots|
    ensures r.Ok? && !slots[idx].useStencil ==> r.value == [idx]
    ensures r.Ok? && slots[idx].useStencil ==> idx + 1 < |slots| && |r.value| >= 2 && r.value[|r.value| - 2] == idx + 1
    decreases |slots| - idx
  {
    if !slots[idx].useStencil then Ok([idx])
    else if idx + 1 == |slots| then Err(ExportError(StencilMessage(slots[idx].name)))
    else match SlotLayerOrder(slots, idx + 1)
      case Err(e) => Err(e)
      case Ok(next) => Ok(next + [idx])
  }

  /** The cursor loop of `export_material` over the qualifying slots from `i` on. */
  function MaterialLayerOrder(slots: seq<TextureSlot>, i: nat): (r: Result<seq<nat>, Failure>)
    ensures r.Ok? ==> forall j :: 0 <= j < |r.value| ==> i <= r.value[j] < |slots|
    ensures r.Ok? && i < |slots| ==> r.value != []
    decreases |slots| - i
  {
    if i >= |slots| then Ok([])
    else match SlotLayerOrder(slots, i)
      case Err(e) => Err(e)
      case Ok(first) =>
        match MaterialLayerOrder(slots, i + SlotsConsumed(slots[i]))
        case Err(e) => Err(e)
        case Ok(rest) => Ok(first + rest)
  }

  /** A stencil whose next slot is an ordinary one: the next slot's layer comes first, then the
      stencil's own, and two slots are consumed. */
  lemma StencilExportsNextFirst(slots: seq<TextureSlot>, idx: nat)
    requires idx + 1 < |slots| && slots[idx].useStencil && !slots[idx + 1].useStencil
    ensures SlotLayerOrder(slots, idx) == Ok([idx + 1, idx])
    ensures SlotsConsumed(slots[idx]) == 2
  {
    assert SlotLayerOrder(slots, idx + 1) == Ok([idx + 1]);
    assert [idx + 1] + [idx] == [idx + 1, idx];
  }

  /** A stencil in the last slot always makes the material's export fail, whichever way the
      cursor reaches it. */
  lemma {:induction false} LastStencilFails(slots: seq<TextureSlot>, i: nat)
    requires |slots| > 0 && slots[|slots| - 1].useStencil && i < |slots|
    ensures MaterialLayerOrder(slots, i).Err?
    decreases |slots| - i
  {
    var n := |slots|;
    if i == n - 1 {
      assert SlotLayerOrder(slots, i) == Err(ExportError(StencilMessage(slots[i].name)));
    } else if slots[i].useStencil && i == n - 2 {
      assert SlotLayerOrder(slots, n - 1).Err?;
      assert SlotLayerOrder(slots, i).Err?;
    } else if SlotLayerOrder(slots, i).Ok? {
      LastStencilFails(slots, i + SlotsConsumed(slots[i]));
    }
  }

  /** Every stencil is followed by an ordinary slot. */
  predicate WellPaired(slots: seq<TextureSlot>) {
    forall j :: 0 <= j < |slots| && slots[j].useStencil ==> j + 1 < |slots| && !slots[j + 1].useStencil
  }

  /** `order` holds one layer per slot from `i` on, and each stencil's layer comes right after
      the layer of the slot it binds to. */
  predicate OneLayerPerSlot(slots: seq<TextureSlot>, i: nat, order: seq<nat>) {
    && |order| == |slots| - i
    && NoDuplicates(order)
    && (forall p :: 0 <= p < |order| ==> i <= order[p] < |slots|)
    && (forall k :: i <= k < |slots| ==> k in order)
    && (forall p :: 0 <= p < |order| && slots[order[p]].useStencil ==> p > 0 && order[p - 1] == order[p] + 1)
  }

  /** One step of the cursor loop: the slot's own layers, then those of the slots after it. */
  lemma MaterialLayerOrderStep(slots: seq<TextureSlot>, i: nat)
    requires i < |slots| && SlotLayerOrder(slots, i).Ok?
    requires MaterialLayerOrder(slots, i + SlotsConsumed(slots[i])).Ok?
    ensures MaterialLayerOrder(slots, i)
         == Ok(SlotLayerOrder(slots, i).value + MaterialLayerOrder(slots, i + SlotsConsumed(slots[i])).value)
  {
  }

  /** Putting the layers of slots `head` (all below `i + |head|`) in front of an order that
      covers the slots from `i + |head|` on. */
  lemma PrependLayers(slots: seq<TextureSlot>, i: nat, head: seq<nat>, rest: seq<nat>)
    requires OneLayerPerSlot(slots, i + |head|, rest)
    requires |head| == 1 || |head| == 2
    requires |head| == 1 ==> head[0] == i && !slots[i].useStencil
    requires |head| == 2 ==> head == [i + 1, i] && !slots[i + 1].useStencil
    requires i + |head| <= |slots|
    ensures OneLayerPerSlot(slots, i, head + rest)
  {
    var r := head + rest;
    var h := |head|;
    forall p, q | 0 <= p < q < |r| ensures r[p] != r[q] {
      if q >= h { assert r[q] == rest[q - h]; }
      if p >= h { assert r[p] == rest[p - h]; }
    }
    forall p | 0 <= p < |r| ensures i <= r[p] < |slots| {
      if p >= h { assert r[p] == rest[p - h]; }
    }
    forall k | i <= k < |slots| ensures k in r {
      if k >= i + h { assert k in rest; }
      else { assert k in head; }
    }
    forall p | 0 <= p < |r| && slots[r[p]].useStencil ensures p > 0 && r[p - 1] == r[p] + 1 {
      if p >= h {
        assert r[p] == rest[p - h];
        if p > h { assert r[p - 1] == rest[p - h - 1]; }
      }
    }
  }

  /** With every stencil followed by an ordinary slot, the material gets exactly one layer per
      slot, and each stencil's layer comes right after the layer of the slot it binds to. */
  lemma {:induction false} WellPairedLayerOrder(slots: seq<TextureSlot>, i: nat)
    requires WellPaired(slots) && i <= |slots|
    ensures MaterialLayerOrder(slots, i).Ok?
    ensures OneLayerPerSlot(slots, i, MaterialLayerOrder(slots, i).value)
    decreases |slots| - i
  {
    if i < |slots| {
      var step := SlotsConsumed(slots[i]);
      if slots[i].useStencil {
        StencilExportsNextFirst(slots, i);
      }
      WellPairedLayerOrder(slots, i + step);
      MaterialLayerOrderStep(slots, i);
      PrependLayers(slots, i, SlotLayerOrder(slots, i).value, MaterialLayerOrder(slots, i + step).value);
    } else {
      assert MaterialLayerOrder(slots, i).value == [];
    }
  }

  /** Two stencils in a row followed by an ordinary slot: the third slot's layer is appended
      twice, because the first stencil reports 2 consumed slots although its chain used three. */
  lemma ConsecutiveStencilsReexport(slots: seq<TextureSlot>)
    requires |slots| == 3 && slots[0].useStencil && slots[1].useStencil && !slots[2].useStencil
    ensures MaterialLayerOrder(slots, 0) == Ok([2, 1, 0, 2])
  {
    assert SlotLayerOrder(slots, 2) == Ok([2]);
    assert [2] + [1] == [2, 1];
    assert SlotLayerOrder(slots, 1) == Ok([2, 1]);
    assert [2, 1] + [0] == [2, 1, 0];
    assert SlotLayerOrder(slots, 0) == Ok([2, 1, 0]);
    assert MaterialLayerOrder(slots, 3) == Ok([]);
    assert [2] + [] == [2];
    assert MaterialLayerOrder(slots, 2) == Ok([2]);
    assert [2, 1, 0] + [2] == [2, 1, 0, 2];
  }

  // ---------------------------------------------------------------------------------------
  // Layer flags

  /** The blend flags a slot's own layer gets before its texture type is exported: the stencil
      recipe or the slot's blend mode, then the opacity and alpha-halo overrides. */
  function SlotBlendFlags(slot: TextureSlot, props: LayerProps): (r: set<BlendFlag>)
    ensures BlendAlpha in r <==> slot.useStencil || props.opacity < 100
    ensures BlendAlphaMult in r <==> slot.useStencil
    ensures BlendNoTexColor in r <==> slot.useStencil
    ensures BlendAddColorTimesAlpha in r <==> !slot.useStencil && slot.blendType == Add
    ensures BlendMult in r <==> !slot.useStencil && slot.blendType == Multiply
    ensures BlendAlphaTestHigh in r <==> props.alphaHalo
    ensures BlendAlphaAdd !in r && BlendInvertAlpha !in r
  {
    var mode :=
      if slot.useStencil then {BlendAlpha, BlendAlphaMult, BlendNoTexColor}
      else if slot.blendType == Add then {BlendAddColorTimesAlpha}
      else if slot.blendType == Multiply then {BlendMult}
      else {};
    var withOpacity := if props.opacity < 100 then mode + {BlendAlpha} else mode;
    if props.alphaHalo then withOpacity + {BlendAlphaTestHigh} else withOpacity
  }

  /** An alpha-halo layer at full opacity with the default blend mode gets the high alpha test
      and no alpha blending. */
  lemma AlphaHaloAlone(slot: TextureSlot, props: LayerProps)
    requires !slot.useStencil && slot.blendType == Mix && props.opacity == 100 && props.alphaHalo
    ensures SlotBlendFlags(slot, props) == {BlendAlphaTestHigh}
  {
    var r := SlotBlendFlags(slot, props);
    forall f | f in r ensures f == BlendAlphaTestHigh { }
  }

  /** Half opacity on an otherwise plain layer forces alpha blending and nothing else. */
  lemma HalfOpacityBlendsAlpha(slot: TextureSlot, props: LayerProps)
    requires !slot.useStencil && slot.blendType == Mix && props.opacity == 50 && !props.alphaHalo
    ensures SlotBlendFlags(slot, props) == {BlendAlpha}
  {
    var r := SlotBlendFlags(slot, props);
    forall f | f in r ensures f == BlendAlpha { }
  }

  /** Whether an image texture's layer treats its image as having alpha: a texture without an
      image always does; otherwise calculated alpha, a stencil slot, or the image alpha test. */
  function ImageHasAlpha(slot: TextureSlot, imageAlpha: bool): (r: bool)
    requires slot.texture.Some?
    ensures slot.texture.value.image.None? ==> r
    ensures slot.texture.value.image.Some? ==>
              (r <==> slot.texture.value.useCalculateAlpha || slot.useStencil || imageAlpha)
  {
    if slot.texture.value.image.Some? then
      slot.texture.value.useCalculateAlpha || slot.useStencil || imageAlpha
    else true
  }

  /** The image exporter's alpha answer for a slot whose pixels `scan` inspects. */
  function SlotHasAlpha(scan: Image -> bool, slot: TextureSlot): bool
    requires slot.texture.Some?
  {
    var texture := slot.texture.value;
    ImageHasAlpha(slot, texture.image.Some? && ImageAlphaTest(texture.image.value, scan))
  }

  /** The blend flags the image exporter adds: nothing on a stencil (which set its own) or
      without alpha; otherwise at most one alpha-blend variant chosen by the slot's blend mode,
      and the invert flag. */
  function ImageBlendFlags(slot: TextureSlot, hasAlpha: bool): (r: set<BlendFlag>)
    requires slot.texture.Some?
    ensures slot.useStencil || !hasAlpha ==> r == {}
    ensures BlendAlphaAdd in r <==> !slot.useStencil && hasAlpha && slot.texture.value.useAlpha && slot.blendType == Add
    ensures BlendAlphaMult in r <==> !slot.useStencil && hasAlpha && slot.texture.value.useAlpha && slot.blendType == Multiply
    ensures BlendAlpha in r <==> !slot.useStencil && hasAlpha && slot.texture.value.useAlpha
                                 && slot.blendType != Add && slot.blendType != Multiply
    ensures BlendInvertAlpha in r <==> !slot.useStencil && hasAlpha && slot.texture.value.invertAlpha
    ensures r <= {BlendAlpha, BlendAlphaAdd, BlendAlphaMult, BlendInvertAlpha}
    ensures !(BlendAlphaAdd in r && BlendAlphaMult in r) && !(BlendAlpha in r && BlendAlphaAdd in r)
            && !(BlendAlpha in r && BlendAlphaMult in r)
  {
    var texture := slot.texture.value;
    if slot.useStencil then {}
    else
      var variant :=
        if texture.useAlpha && hasAlpha then
          (if slot.blendType == Add then {BlendAlphaAdd}
           else if slot.blendType == Multiply then {BlendAlphaMult}
           else {BlendAlpha})
        else {};
      if texture.invertAlpha && hasAlpha then variant + {BlendInvertAlpha} else variant
  }

  /** CLIP extension clamps the texture, stencil or not. */
  function ImageClampFlags(texture: Texture): (r: set<ClampFlag>)
    ensures ClampTexture in r <==> texture.extension == Clip
  {
    if texture.extension == Clip then {ClampTexture} else {}
  }

  /** A layer state a stencil has bound to: it binds to the next layer, restarts the render
      pass and has a blend mode. */
  predicate BoundToNext(state: GMatState) {
    && MiscBindNext in state.miscFlags && MiscRestartPassHere in state.miscFlags
    && state.blendFlags * BlendMask != {}
  }

  /** The retroactive flagging of the layer a stencil binds to: bind to the next layer,
      restart the render pass, and alpha-blend unless it already has a blend mode. */
  function BindNextLayer(state: GMatState): (r: GMatState)
    ensures r.miscFlags == state.miscFlags + {MiscBindNext, MiscRestartPassHere}
    ensures r.blendFlags * BlendMask != {}
    ensures state.blendFlags * BlendMask != {} ==> r.blendFlags == state.blendFlags
    ensures state.blendFlags * BlendMask == {} ==> r.blendFlags == state.blendFlags + {BlendAlpha}
    ensures r.clampFlags == state.clampFlags && r.zFlags == state.zFlags && r.shadeFlags == state.shadeFlags
    ensures BoundToNext(r)
  {
    var bound := state.(miscFlags := state.miscFlags + {MiscBindNext, MiscRestartPassHere});
    assert BlendAlpha in BlendMask;
    if bound.blendFlags * BlendMask == {} then
      assert BlendAlpha in (bound.blendFlags + {BlendAlpha}) * BlendMask;
      bound.(blendFlags := bound.blendFlags + {BlendAlpha})
    else bound
  }

  /** `_propagate_material_settings`: fog flags from the material's mist setting, ambient from
      the world, preshade and runtime from the diffuse colour, specular from the specular colour. */
  function PropagateMaterialSettings(bm: Material, scene: Scene, layer: Layer): (r: Layer)
    ensures (ShadeNoFog in r.state.shadeFlags <==> ShadeNoFog in layer.state.shadeFlags || !bm.useMist)
    ensures (ShadeReallyNoFog in r.state.shadeFlags <==> ShadeReallyNoFog in layer.state.shadeFlags || !bm.useMist)
    ensures r.state.shadeFlags >= layer.state.shadeFlags
    ensures r.ambient == scene.ambientColor && r.preshade == bm.diffuseColor
    ensures r.runtime == bm.diffuseColor && r.specular == bm.specularColor
    ensures r.state.blendFlags == layer.state.blendFlags && r.state.miscFlags == layer.state.miscFlags
    ensures r.name == layer.name && r.page == layer.page && r.kind == layer.kind && r.texture == layer.texture
    ensures r == layer.(state := r.state, ambient := r.ambient, preshade := r.preshade,
                        runtime := r.runtime, specular := r.specular)
    ensures r.state == layer.state.(shadeFlags := r.state.shadeFlags)
    ensures r.state.shadeFlags - layer.state.shadeFlags <= {ShadeNoFog, ShadeReallyNoFog}
  {
    var shade := if bm.useMist then layer.state.shadeFlags
                 else layer.state.shadeFlags + {ShadeNoFog, ShadeReallyNoFog};
    layer.(state := layer.state.(shadeFlags := shade),
           ambient := scene.ambientColor, preshade := bm.diffuseColor,
           runtime := bm.diffuseColor, specular := bm.specularColor)
  }

  function LayerName(bm: Material, slot: TextureSlot): string {
    bm.name + "_" + slot.name
  }

  /** A slot's own layer once `_export_texture_slot` has set it up, before its texture type is
      exported: the material's settings, the UV channel (the first one when the slot's UV map is
      not found), the slot's offset and scale, the stencil recipe or blend mode, and the layer
      properties. */
  function SlotLayer(bm: Material, scene: Scene, bo: BObject, slot: TextureSlot, uv: Option<nat>): (r: Layer)
    requires slot.texture.Some?
    ensures r.name == LayerName(bm, slot) && r.page == bo.page && r.kind == PlainLayer && r.texture.None?
    ensures r.state.blendFlags == SlotBlendFlags(slot, slot.texture.value.plasmaLayer)
    ensures r.state.zFlags == if slot.useStencil then {ZNoZWrite} else {}
    ensures r.state.clampFlags == if slot.useStencil && slot.texture.value.kind == BlendType then {ClampTexture} else {}
    ensures r.state.miscFlags == {}
    ensures r.state.shadeFlags == if bm.useMist then {} else {ShadeNoFog, ShadeReallyNoFog}
    ensures r.ambient == if slot.useStencil then White else scene.ambientColor
    ensures r.preshade == bm.diffuseColor && r.runtime == bm.diffuseColor && r.specular == bm.specularColor
    ensures r.uvwSrc == UVWChannel(if uv.Some? then uv.value else 0)
    ensures r.transform == TranslateScale(slot.offset, slot.scale)
    ensures r.opacity == slot.texture.value.plasmaLayer.opacity
  {
    var props := slot.texture.value.plasmaLayer;
    var base := PropagateMaterialSettings(bm, scene, NewLayer(LayerName(bm, slot), bo.page, PlainLayer));
    var placed := base.(uvwSrc := UVWChannel(if uv.Some? then uv.value else 0),
                        transform := TranslateScale(slot.offset, slot.scale));
    var stencilled :=
      if slot.useStencil then
        placed.(state := placed.state.(clampFlags := if slot.texture.value.kind == BlendType then {ClampTexture} else {},
                                       zFlags := {ZNoZWrite}),
                ambient := White)
      else placed;
    stencilled.(opacity := props.opacity, state := stencilled.state.(blendFlags := SlotBlendFlags(slot, props)))
  }

  /** `_test_image_alpha`'s answer: a four-channel image that uses alpha and whose pixels carry
      some. */
  function ImageAlphaTest(image: Image, scan: Image -> bool): (r: bool)
    ensures r ==> image.channels == 4 && image.useAlpha
  {
    image.channels == 4 && image.useAlpha && scan(image)
  }

  /** What the image exporter does to the layer: the image's blend and clamp flags, and the
      dynamic text map as texture when there is no image. */
  function ImageLayer(l: Layer, slot: TextureSlot, hasAlpha: bool, textMap: Option<nat>): (r: Layer)
    requires slot.texture.Some?
    ensures r.state.blendFlags == l.state.blendFlags + ImageBlendFlags(slot, hasAlpha)
    ensures r.state.clampFlags == l.state.clampFlags + ImageClampFlags(slot.texture.value)
    ensures r.texture == if textMap.Some? then Some(TextMapKey(textMap.value)) else l.texture
    ensures r == l.(state := r.state, texture := r.texture)
    ensures r.state == l.state.(blendFlags := r.state.blendFlags, clampFlags := r.state.clampFlags)
  {
    var flagged := l.(state := l.state.(blendFlags := l.state.blendFlags + ImageBlendFlags(slot, hasAlpha),
                                       clampFlags := l.state.clampFlags + ImageClampFlags(slot.texture.value)));
    if textMap.Some? then flagged.(texture := Some(TextMapKey(textMap.value))) else flagged
  }

  /** The UV channel of a slot: the index of the first UV map with the slot's UV map name, if
      any. */
  function UvChannel(uvLayers: seq<string>, name: string): (r: Option<nat>)
    ensures r.Some? ==> r.value < |uvLayers| && uvLayers[r.value] == name
                        && forall j :: 0 <= j < r.value ==> uvLayers[j] != name
    ensures r.None? ==> forall j :: 0 <= j < |uvLayers| ==> uvLayers[j] != name
  {
    FirstIndex(uvLayers, (n: string) => n == name)
  }

  /** The `for ... else` search of `_export_texture_slot` for the slot's UV map. */
  method FindUvChannel(uvLayers: seq<string>, name: string) returns (r: Option<nat>)
    ensures r == UvChannel(uvLayers, name)
  {
    var i := 0;
    while i < |uvLayers|
      invariant 0 <= i <= |uvLayers|
      invariant forall j :: 0 <= j < i ==> uvLayers[j] != name
    {
      if uvLayers[i] == name {
        assert UvChannel(uvLayers, name) == Some(i) by {
          var c := UvChannel(uvLayers, name);
          assert c.Some?;
          assert !(c.value < i) && !(i < c.value);
        }
        return Some(i);
      }
      i := i + 1;
    }
    return None;
  }
}
