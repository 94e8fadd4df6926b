/** What `export_material` and `export_waveset_material` do to the registry's materials and
    layers, stated on values: the cursor loop over the qualifying slots, the automatic layer
    of a material without textures, and the single alpha-blended layer of a waveset. */
module MaterialExport {
  import opened Wrappers
  import opened Blender
  import opened Plasma
  import opened Explosions
  import opened Textures
  import opened Layers
  import opened SlotExport

  /** The default layer of a material that got none from its slots: named after the material,
      untextured, with the material's settings. */
  function AutoLayer(bm: Material, scene: Scene, bo: BObject): (r: Layer)
    ensures r.name == bm.name + "_AutoLayer" && r.page == bo.page
    ensures r.kind == PlainLayer && r.texture.None?
    ensures r.state.blendFlags == {} && r.state.miscFlags == {}
    ensures ShadeNoFog in r.state.shadeFlags <==> !bm.useMist
    ensures r.ambient == scene.ambientColor && r.preshade == bm.diffuseColor && r.specular == bm.specularColor
  {
    PropagateMaterialSettings(bm, scene, NewLayer(bm.name + "_AutoLayer", bo.page, PlainLayer))
  }

  function WaveSetName(bm: Material): string {
    bm.name + "_WaveSet7"
  }

  /** The one layer of a waveset material: the material's settings and alpha blending as its
      only blend mode. */
  function WaveSetLayer(bm: Material, scene: Scene, bo: BObject): (r: Layer)
    ensures r.name == WaveSetName(bm) && r.page == bo.page
    ensures r.kind == PlainLayer && r.texture.None?
    ensures r.state.blendFlags == {BlendAlpha} && r.state.blendFlags * BlendMask == {BlendAlpha}
    ensures ShadeNoFog in r.state.shadeFlags <==> !bm.useMist
    ensures r.ambient == scene.ambientColor && r.preshade == bm.diffuseColor && r.specular == bm.specularColor
  {
    var layer := PropagateMaterialSettings(bm, scene, NewLayer(WaveSetName(bm), bo.page, PlainLayer));
    assert {BlendAlpha} * BlendMask == {BlendAlpha};
    layer.(state := layer.state.(blendFlags := layer.state.blendFlags + {BlendAlpha}))
  }

  /** The layer lists `done` is followed by: an error stays an error. */
  function Prepend(done: seq<nat>, r: Result<seq<nat>, Failure>): (p: Result<seq<nat>, Failure>)
    ensures p.Ok? <==> r.Ok?
    ensures p.Ok? ==> |p.value| == |done| + |r.value| && p.value[..|done|] == done && p.value[|done|..] == r.value
  {
    if r.Ok? then Ok(done + r.value) else r
  }

  /** The state of the cursor loop at slot `i`: the layers of `MaterialLayerOrder` from the
      start are `done` followed by those from `i` on; the material's new entries stand, one
      per entry of `done`, for the own layers `bases` of those slots, exported from their
      set-ups; and `cs` queues their images in that order. */
  ghost predicate CursorAt(slots: seq<TextureSlot>, i: nat, done: seq<nat>, bases: seq<nat>, ctx: SlotContext,
                           m1: seq<GMaterial>, m: seq<GMaterial>, l1: seq<Layer>, l: seq<Layer>, mat: nat,
                           cs: seq<(TexKey, nat)>) {
    && i <= |slots|
    && Framed(m1, m, l1, l, mat)
    && MaterialLayerOrder(slots, 0) == Prepend(done, MaterialLayerOrder(slots, i))
    && ListedAs(m[mat].layers, |m1[mat].layers|, done, bases, slots, l, |l1|, ctx)
    && cs == Queued(slots, done, bases, ctx.scan)
    && (done == [] ==> m == m1 && l == l1)
  }

  lemma CursorStart(slots: seq<TextureSlot>, ctx: SlotContext, m1: seq<GMaterial>, l1: seq<Layer>, mat: nat)
    requires mat < |m1|
    ensures CursorAt(slots, 0, [], [], ctx, m1, m1, l1, l1, mat, [])
  {
    if MaterialLayerOrder(slots, 0).Ok? {
      assert [] + MaterialLayerOrder(slots, 0).value == MaterialLayerOrder(slots, 0).value;
    }
  }

  /** `MaterialLayerOrder` from a slot whose own export succeeds: that slot's layers first. */
  lemma MaterialLayerOrderUnfold(slots: seq<TextureSlot>, i: nat)
    requires i < |slots| && SlotLayerOrder(slots, i).Ok?
    ensures MaterialLayerOrder(slots, i)
         == Prepend(SlotLayerOrder(slots, i).value, MaterialLayerOrder(slots, i + SlotsConsumed(slots[i])))
  {
  }

  lemma PrependTwice(done: seq<nat>, first: seq<nat>, rest: Result<seq<nat>, Failure>)
    ensures Prepend(done, Prepend(first, rest)) == Prepend(done + first, rest)
  {
    if rest.Ok? {
      assert done + (first + rest.value) == (done + first) + rest.value;
    }
  }

  /** The cursor loop's bookkeeping of the order: the slot's own layers join `done`. */
  lemma OrderStep(slots: seq<TextureSlot>, i: nat, done: seq<nat>)
    requires i < |slots| && SlotLayerOrder(slots, i).Ok?
    requires MaterialLayerOrder(slots, 0) == Prepend(done, MaterialLayerOrder(slots, i))
    ensures MaterialLayerOrder(slots, 0)
         == Prepend(done + SlotLayerOrder(slots, i).value, MaterialLayerOrder(slots, i + SlotsConsumed(slots[i])))
  {
    MaterialLayerOrderUnfold(slots, i);
    PrependTwice(done, SlotLayerOrder(slots, i).value, MaterialLayerOrder(slots, i + SlotsConsumed(slots[i])));
  }

  /** The listing so far survives a slot export, and the slot's listing follows it. */
  lemma ListingStep(slots: seq<TextureSlot>, i: nat, done: seq<nat>, bases: seq<nat>, ctx: SlotContext,
                    a: seq<nat>, b: seq<nat>, n0: nat, lo: nat, lA: seq<Layer>, lB: seq<Layer>,
                    sbases: seq<nat>, scs: seq<(TexKey, nat)>)
    requires ListedAs(a, n0, done, bases, slots, lA, lo, ctx)
    requires Listing(slots, i, ctx, b, |a|, lB, |lA|, sbases, scs)
    requires LayersKept(lA, lB) && a <= b && lo <= |lA|
    ensures ListedAs(b, n0, done + SlotLayerOrder(slots, i).value, bases + sbases, slots, lB, lo, ctx)
  {
    KeptEvolve(lA, lB, lo);
    ListedAsEvolve(a, n0, done, bases, slots, lA, lB, lo, ctx);
    ListedAsConcat(a, b, n0, done, SlotLayerOrder(slots, i).value, bases, sbases, slots, lB, lo, |lA|, lo, ctx);
  }

  /** One successful slot export moves the cursor past the slots it consumed; its layers join
      `done`, its own layers `bases` and its insertions `cs`. */
  lemma CursorStep(slots: seq<TextureSlot>, i: nat, done: seq<nat>, bases: seq<nat>, ctx: SlotContext,
                   m1: seq<GMaterial>, mA: seq<GMaterial>, mB: seq<GMaterial>, l1: seq<Layer>, lA: seq<Layer>,
                   lB: seq<Layer>, mat: nat, cs: seq<(TexKey, nat)>,
                   r: Result<nat, Failure>, sbases: seq<nat>, scs: seq<(TexKey, nat)>)
    requires i < |slots| && CursorAt(slots, i, done, bases, ctx, m1, mA, l1, lA, mat, cs)
    requires SlotExported(slots, i, ctx, mA, mB, lA, lB, mat, r, sbases, scs) && r.Ok?
    ensures SlotLayerOrder(slots, i).Ok? && r.value >= 1
    ensures CursorAt(slots, i + r.value, done + SlotLayerOrder(slots, i).value, bases + sbases, ctx,
                     m1, mB, l1, lB, mat, cs + scs)
  {
    OrderStep(slots, i, done);
    MaterialGrowsTrans(m1, mA, mB, mat);
    LayersKeptTrans(l1, lA, lB);
    ListingStep(slots, i, done, bases, ctx, mA[mat].layers, mB[mat].layers, |m1[mat].layers|, |l1|, lA, lB, sbases, scs);
    QueuedConcat(slots, done, SlotLayerOrder(slots, i).value, bases, sbases, ctx.scan);
  }

  /** Once the cursor is past the last slot, the material has listed exactly the layers of
      `MaterialLayerOrder`: the j-th new entry stands for the own layer `bases[j]` of slot
      `done[j]`, which is named after the material and that slot, and `cs` queues the images of
      those slots in that order. */
  lemma CursorDone(slots: seq<TextureSlot>, i: nat, done: seq<nat>, bases: seq<nat>, ctx: SlotContext,
                   m1: seq<GMaterial>, m: seq<GMaterial>, l1: seq<Layer>, l: seq<Layer>, mat: nat,
                   cs: seq<(TexKey, nat)>)
    requires CursorAt(slots, i, done, bases, ctx, m1, m, l1, l, mat, cs) && i >= |slots|
    ensures MaterialLayerOrder(slots, 0) == Ok(done)
    ensures done == [] <==> slots == []
    ensures cs == Queued(slots, done, bases, ctx.scan)
    ensures var ls := m[mat].layers;
      && |ls| == |m1[mat].layers| + |done| && |bases| == |done|
      && forall j :: 0 <= j < |done| ==>
           && done[j] < |slots| && Stands(l, ls[|m1[mat].layers| + j], bases[j], |l1|)
           && l[bases[j]].name == LayerName(ctx.bm, slots[done[j]])
  {
    assert MaterialLayerOrder(slots, i) == Ok([]);
    assert done + [] == done;
    forall j | 0 <= j < |done|
      ensures done[j] < |slots| && Stands(l, m[mat].layers[|m1[mat].layers| + j], bases[j], |l1|)
      ensures l[bases[j]].name == LayerName(ctx.bm, slots[done[j]])
    {
      assert ListedEntry(m[mat].layers, |m1[mat].layers|, done, bases, slots, l, |l1|, ctx, j);
    }
  }

  /** `export_material` on the registry: it always adds the material (named after the Blender
      material, in the object's page) and leaves the other materials and the existing layers
      alone. It fails whenever `MaterialLayerOrder` does. On success it returns the new
      material, which lists one new layer per entry of `MaterialLayerOrder`, the j-th standing
      for the own layer `bases[j]` of that slot, exported from its set-up, and the images of
      those slots are queued, in that order, as `cs`; a material without qualifying slots gets
      the automatic layer as its only one. */
  ghost predicate MaterialExported(slots: seq<TextureSlot>, ctx: SlotContext,
                                   m0: seq<GMaterial>, m: seq<GMaterial>, l0: seq<Layer>, l: seq<Layer>,
                                   r: Result<nat, Failure>, bases: seq<nat>, cs: seq<(TexKey, nat)>) {
    && |m| == |m0| + 1 && m[..|m0|] == m0 && LayersKept(l0, l)
    && m[|m0|].name == ctx.bm.name && m[|m0|].page == ctx.bo.page
    && (MaterialLayerOrder(slots, 0).Err? ==> r.Err?)
    && (r.Ok? ==>
          && r.value == |m0| && MaterialLayerOrder(slots, 0).Ok?
          && |m[|m0|].layers| >= 1
          && cs == Queued(slots, MaterialLayerOrder(slots, 0).value, bases, ctx.scan)
          && (slots != [] ==> ListedAs(m[|m0|].layers, 0, MaterialLayerOrder(slots, 0).value, bases, slots, l, |l0|, ctx))
          && (slots == [] ==> m[|m0|].layers == [|l0|] && l == l0 + [AutoLayer(ctx.bm, ctx.scene, ctx.bo)]))
  }

  /** An error from a slot: the material stays, with whatever it listed so far. */
  lemma MaterialFailed(slots: seq<TextureSlot>, ctx: SlotContext, m0: seq<GMaterial>,
                       m1: seq<GMaterial>, m: seq<GMaterial>, l0: seq<Layer>, l: seq<Layer>, r: Result<nat, Failure>,
                       bases: seq<nat>, cs: seq<(TexKey, nat)>)
    requires m1 == m0 + [GMaterial(ctx.bm.name, ctx.bo.page, {}, [])]
    requires MaterialGrows(m1, m, |m0|) && LayersKept(l0, l) && r.Err?
    ensures MaterialExported(slots, ctx, m0, m, l0, l, r, bases, cs)
  {
    assert forall j :: 0 <= j < |m0| ==> m[j] == m1[j] == m0[j];
  }

  /** The cursor loop listed at least one layer. */
  lemma MaterialWithLayers(slots: seq<TextureSlot>, i: nat, done: seq<nat>, bases: seq<nat>, ctx: SlotContext,
                           m0: seq<GMaterial>, m1: seq<GMaterial>, m: seq<GMaterial>, l0: seq<Layer>, l: seq<Layer>,
                           cs: seq<(TexKey, nat)>)
    requires m1 == m0 + [GMaterial(ctx.bm.name, ctx.bo.page, {}, [])]
    requires CursorAt(slots, i, done, bases, ctx, m1, m, l0, l, |m0|, cs) && i >= |slots|
    requires |m[|m0|].layers| > 0
    ensures MaterialExported(slots, ctx, m0, m, l0, l, Ok(|m0|), bases, cs)
  {
    CursorDone(slots, i, done, bases, ctx, m1, m, l0, l, |m0|, cs);
    assert forall j :: 0 <= j < |m0| ==> m[j] == m1[j] == m0[j];
  }

  /** No slot listed a layer: the automatic layer is added and listed. */
  lemma MaterialWithAutoLayer(slots: seq<TextureSlot>, i: nat, done: seq<nat>, bases: seq<nat>, ctx: SlotContext,
                              m0: seq<GMaterial>, m1: seq<GMaterial>, m: seq<GMaterial>, l0: seq<Layer>, l: seq<Layer>,
                              m2: seq<GMaterial>, l2: seq<Layer>, cs: seq<(TexKey, nat)>)
    requires m1 == m0 + [GMaterial(ctx.bm.name, ctx.bo.page, {}, [])]
    requires CursorAt(slots, i, done, bases, ctx, m1, m, l0, l, |m0|, cs) && i >= |slots|
    requires |m[|m0|].layers| == 0
    requires l2 == l + [AutoLayer(ctx.bm, ctx.scene, ctx.bo)]
    requires m2 == m[|m0| := m[|m0|].(layers := m[|m0|].layers + [|l|])]
    ensures MaterialExported(slots, ctx, m0, m2, l0, l2, Ok(|m0|), bases, cs)
  {
    CursorDone(slots, i, done, bases, ctx, m1, m, l0, l, |m0|, cs);
    assert forall j :: 0 <= j < |m0| ==> m2[j] == m1[j] == m0[j];
  }
}
