/** What one `_export_texture_slot` call does to the registry's materials and layers, and what
    it queues in the pending-texture table, stated on values: the arenas before and after the
    call and the sequence of insertions. The converter's methods establish these relations step by step with the lemmas
    below. */
module SlotExport {
  import opened Wrappers
  import opened Blender
  import opened Plasma
  import opened Explosions
  import opened Textures
  import opened Layers
  import opened Animation
  import opened EnvMaps

  /** What a slot export reads besides the slots: the Blender material and object, the scene,
      the pixel scan behind the image alpha test, and whether the target is MOUL or later
      (which decides an environment map's class). */
  datatype SlotContext = SlotContext(bm: Material, scene: Scene, bo: BObject, scan: Image -> bool, moul: bool)

  /** A slot's own layer as `_export_texture_slot` sets it up, on the UV channel of the slot's
      UV map. */
  function Setup(ctx: SlotContext, slot: TextureSlot): Layer
    requires slot.texture.Some?
  {
    SlotLayer(ctx.bm, ctx.scene, ctx.bo, slot, UvChannel(ctx.bo.uvLayers, slot.uvLayer))
  }

  // ---------------------------------------------------------------------------------------
  // What the slots queue in the pending-texture table

  /** The pending-table key of an IMAGE slot with an image: the texture's settings, the image
      exporter's alpha answer, and calculated alpha forced on a stencil. */
  function SlotTexKey(scan: Image -> bool, slot: TextureSlot): (k: TexKey)
    requires slot.texture.Some? && slot.texture.value.image.Some?
    ensures k.image == slot.texture.value.image.value
    ensures k.calcAlpha <==> slot.useStencil || slot.texture.value.useCalculateAlpha
    ensures k.mipmap <==> slot.texture.value.useMipmap
    ensures k.useAlpha <==> k.calcAlpha || SlotHasAlpha(scan, slot)
  {
    NewTexKey(slot.texture, None, Some(SlotHasAlpha(scan, slot)), slot.useStencil)
  }

  predicate QueuesImage(slot: TextureSlot) {
    slot.texture.Some? && slot.texture.value.kind == ImageType && slot.texture.value.image.Some?
  }

  /** What the texture type's exporter queues for the slot's own layer `k`: the slot's image,
      with `k` as a consumer, for an IMAGE texture that has one; nothing otherwise. */
  function Queue(scan: Image -> bool, slot: TextureSlot, k: nat): (cs: seq<(TexKey, nat)>)
    ensures |cs| <= 1
    ensures cs != [] <==> QueuesImage(slot)
    ensures cs != [] ==> cs[0].1 == k && cs[0].0.image == slot.texture.value.image.value
  {
    if QueuesImage(slot) then [(SlotTexKey(scan, slot), k)] else []
  }

  /** The insertions of the slots `order`, whose own layers are `bases`, in that order. */
  function Queued(slots: seq<TextureSlot>, order: seq<nat>, bases: seq<nat>, scan: Image -> bool): seq<(TexKey, nat)>
    decreases |order|
  {
    if order == [] then []
    else
      var n := |order| - 1;
      Queued(slots, order[..n], bases, scan)
      + (if order[n] < |slots| && n < |bases| then Queue(scan, slots[order[n]], bases[n]) else [])
  }

  /** Only the own layers of the listed slots matter. */
  lemma {:induction false} QueuedIgnoresTail(slots: seq<TextureSlot>, order: seq<nat>, bases: seq<nat>,
                                             more: seq<nat>, scan: Image -> bool)
    requires |order| <= |bases|
    ensures Queued(slots, order, bases + more, scan) == Queued(slots, order, bases, scan)
    decreases |order|
  {
    if order != [] {
      var n := |order| - 1;
      QueuedIgnoresTail(slots, order[..n], bases, more, scan);
      assert (bases + more)[n] == bases[n];
    }
  }

  /** The insertions of two successive listings are those of the first, then the second's. */
  lemma {:induction false} QueuedConcat(slots: seq<TextureSlot>, o1: seq<nat>, o2: seq<nat>, b1: seq<nat>, b2: seq<nat>,
                                        scan: Image -> bool)
    requires |o1| == |b1|
    ensures Queued(slots, o1 + o2, b1 + b2, scan) == Queued(slots, o1, b1, scan) + Queued(slots, o2, b2, scan)
    decreases |o2|
  {
    if o2 == [] {
      assert o1 + o2 == o1;
      QueuedIgnoresTail(slots, o1, b1, b2, scan);
    } else {
      var n := |o2| - 1;
      var o, b := o1 + o2, b1 + b2;
      assert o[..|o| - 1] == o1 + o2[..n];
      assert o[|o| - 1] == o2[n];
      var last := if o2[n] < |slots| && n < |b2| then Queue(scan, slots[o2[n]], b2[n]) else [];
      assert (if o[|o| - 1] < |slots| && |o| - 1 < |b| then Queue(scan, slots[o[|o| - 1]], b[|o| - 1]) else []) == last by {
        if n < |b2| {
          assert b[|o| - 1] == b2[n];
        }
      }
      assert Queued(slots, o, b, scan) == Queued(slots, o1 + o2[..n], b, scan) + last;
      QueuedConcat(slots, o1, o2[..n], b1, b2, scan);
      assert Queued(slots, o2, b2, scan) == Queued(slots, o2[..n], b2, scan) + last;
    }
  }

  lemma QueuedOne(slots: seq<TextureSlot>, i: nat, k: nat, scan: Image -> bool)
    requires i < |slots|
    ensures Queued(slots, [i], [k], scan) == Queue(scan, slots[i], k)
  {
    assert [i][..0] == [];
  }

  // ---------------------------------------------------------------------------------------
  // What the slots do to their layers

  /** Exporting into material `mat` leaves every other material alone, keeps its name and page,
      and only adds layers to its list and flags to its compositing word. */
  ghost predicate MaterialGrows(olds: seq<GMaterial>, news: seq<GMaterial>, mat: nat) {
    && |news| == |olds| && mat < |olds|
    && (forall m :: 0 <= m < |news| && m != mat ==> news[m] == olds[m])
    && news[mat].name == olds[mat].name && news[mat].page == olds[mat].page
    && olds[mat].layers <= news[mat].layers
    && olds[mat].compFlags <= news[mat].compFlags
  }

  /** Layers already in the registry are left as they were; new ones may follow. */
  ghost predicate LayersKept(olds: seq<Layer>, news: seq<Layer>) {
    |olds| <= |news| && forall j :: 0 <= j < |olds| ==> news[j] == olds[j]
  }

  /** Layers already in the registry other than `k` are left as they were. */
  ghost predicate LayersKeptBut(olds: seq<Layer>, news: seq<Layer>, k: nat) {
    |olds| <= |news| && forall j :: 0 <= j < |olds| && j != k ==> news[j] == olds[j]
  }

  /** `b` is `a` with perhaps more blend and miscellaneous flags: all that a later stencil
      binding, or the alpha an opacity animation forces, does to a layer. */
  predicate Evolves(a: Layer, b: Layer) {
    && a.state.blendFlags <= b.state.blendFlags && a.state.miscFlags <= b.state.miscFlags
    && b == a.(state := a.state.(blendFlags := b.state.blendFlags, miscFlags := b.state.miscFlags))
  }

  /** The layers from `lo` on that already existed have only evolved. */
  ghost predicate LayersEvolve(olds: seq<Layer>, news: seq<Layer>, lo: nat) {
    |olds| <= |news| && forall j :: lo <= j < |olds| ==> Evolves(olds[j], news[j])
  }

  /** What the texture type's exporter does to the slot's own layer, from `before` to `after`.
      IMAGE adds the image's blend flags (under the exporter's alpha answer) and clamp flags,
      and without an image shows a dynamic text map; ENVIRONMENT_MAP shades with and shows an
      environment map, its projection perhaps changing the UVW source and miscellaneous flags;
      NONE changes nothing. */
  predicate TypeExported(after: Layer, before: Layer, slot: TextureSlot, scan: Image -> bool)
    requires slot.texture.Some?
  {
    var texture := slot.texture.value;
    match texture.kind
    case ImageType =>
      && after == before.(state := before.state.(blendFlags := before.state.blendFlags + ImageBlendFlags(slot, SlotHasAlpha(scan, slot)),
                                                 clampFlags := before.state.clampFlags + ImageClampFlags(texture)),
                          texture := after.texture)
      && (texture.image.Some? ==> after.texture == before.texture)
      && (texture.image.None? ==> after.texture.Some? && after.texture.value.TextMapKey?)
    case EnvironmentMapType =>
      && after == before.(uvwSrc := after.uvwSrc, texture := after.texture,
                          state := before.state.(miscFlags := after.state.miscFlags,
                                                 shadeFlags := before.state.shadeFlags + {ShadeEnvironMap}))
      && after.texture.Some? && after.texture.value.EnvMapKey?
    case _ => after == before
  }

  /** The slot's own layer `x` once exported, against its set-up `setup`: what the texture type
      did (as TypeExported says), with perhaps more blend and miscellaneous flags. Name, page,
      kind, colours, opacity, transform and Z flags stay those of the set-up. */
  predicate ExportedLayer(x: Layer, slot: TextureSlot, setup: Layer, scan: Image -> bool)
    requires slot.texture.Some?
  {
    var texture := slot.texture.value;
    && x.name == setup.name && x.page == setup.page && x.kind == setup.kind
    && x.ambient == setup.ambient && x.preshade == setup.preshade && x.runtime == setup.runtime
    && x.specular == setup.specular && x.opacity == setup.opacity && x.transform == setup.transform
    && x.state.zFlags == setup.state.zFlags
    && x.state.blendFlags >= setup.state.blendFlags
    && (texture.kind == ImageType ==>
          && x.state.blendFlags >= ImageBlendFlags(slot, SlotHasAlpha(scan, slot))
          && x.state.clampFlags == setup.state.clampFlags + ImageClampFlags(texture)
          && x.state.shadeFlags == setup.state.shadeFlags
          && x.uvwSrc == setup.uvwSrc && x.state.miscFlags >= setup.state.miscFlags
          && (texture.image.Some? ==> x.texture == setup.texture)
          && (texture.image.None? ==> x.texture.Some? && x.texture.value.TextMapKey?))
    && (texture.kind == EnvironmentMapType ==>
          && x.state.clampFlags == setup.state.clampFlags
          && x.state.shadeFlags == setup.state.shadeFlags + {ShadeEnvironMap}
          && x.texture.Some? && x.texture.value.EnvMapKey?)
    && (texture.kind != ImageType && texture.kind != EnvironmentMapType ==>
          && x.state.clampFlags == setup.state.clampFlags && x.state.shadeFlags == setup.state.shadeFlags
          && x.uvwSrc == setup.uvwSrc && x.state.miscFlags >= setup.state.miscFlags
          && x.texture == setup.texture)
  }

  /** The texture type's export, then more blend or miscellaneous flags. */
  lemma TypeThenEvolve(before: Layer, after: Layer, final: Layer, slot: TextureSlot, scan: Image -> bool)
    requires slot.texture.Some? && HasExporter(slot.texture.value.kind)
    requires TypeExported(after, before, slot, scan) && Evolves(after, final)
    ensures ExportedLayer(final, slot, before, scan)
  {
    match slot.texture.value.kind
    case ImageType =>
    case EnvironmentMapType =>
    case NoneType =>
  }

  /** The listed layer `x` stands for the own layer `b`: it is `b` or an animation wrapper over
      it, both allocated from `lo` on. */
  ghost predicate Stands(l: seq<Layer>, x: nat, b: nat, lo: nat) {
    && lo <= x < |l| && lo <= b < |l|
    && (x == b || (l[x].kind.LayerAnimation? && l[x].kind.underLay == b))
  }

  /** Entry `n0 + j` of the material list `ls` stands for the own layer `bases[j]` of slot
      `order[j]`, which has that slot's set-up (its name is the material's and the slot's) as
      exported. */
  ghost predicate ListedEntry(ls: seq<nat>, n0: nat, order: seq<nat>, bases: seq<nat>, slots: seq<TextureSlot>,
                              l: seq<Layer>, lo: nat, ctx: SlotContext, j: int) {
    && 0 <= j < |order| && j < |bases| && n0 + j < |ls|
    && order[j] < |slots| && slots[order[j]].texture.Some?
    && Stands(l, ls[n0 + j], bases[j], lo)
    && ExportedLayer(l[bases[j]], slots[order[j]], Setup(ctx, slots[order[j]]), ctx.scan)
  }

  /** From entry `n0` on, the material list `ls` holds one layer per slot of `order`, the j-th
      as ListedEntry says. */
  ghost predicate ListedAs(ls: seq<nat>, n0: nat, order: seq<nat>, bases: seq<nat>, slots: seq<TextureSlot>,
                           l: seq<Layer>, lo: nat, ctx: SlotContext) {
    && |ls| == n0 + |order| && |bases| == |order|
    && forall j :: 0 <= j < |order| ==> ListedEntry(ls, n0, order, bases, slots, l, lo, ctx, j)
  }

  /** A listing survives layers that only evolve. */
  lemma ListedAsEvolve(ls: seq<nat>, n0: nat, order: seq<nat>, bases: seq<nat>, slots: seq<TextureSlot>,
                       l: seq<Layer>, l2: seq<Layer>, lo: nat, ctx: SlotContext)
    requires ListedAs(ls, n0, order, bases, slots, l, lo, ctx) && LayersEvolve(l, l2, lo)
    ensures ListedAs(ls, n0, order, bases, slots, l2, lo, ctx)
  {
    forall j | 0 <= j < |order|
      ensures ListedEntry(ls, n0, order, bases, slots, l2, lo, ctx, j)
    {
      assert ListedEntry(ls, n0, order, bases, slots, l, lo, ctx, j);
      assert Evolves(l[ls[n0 + j]], l2[ls[n0 + j]]);
      assert Evolves(l[bases[j]], l2[bases[j]]);
    }
  }

  lemma KeptEvolve(olds: seq<Layer>, news: seq<Layer>, lo: nat)
    requires LayersKept(olds, news)
    ensures LayersEvolve(olds, news, lo)
  {
  }

  /** Two successive listings make one. */
  lemma ListedAsConcat(a: seq<nat>, b: seq<nat>, n1: nat, o1: seq<nat>, o2: seq<nat>, b1: seq<nat>, b2: seq<nat>,
                       slots: seq<TextureSlot>, l: seq<Layer>, lo1: nat, lo2: nat, lo: nat, ctx: SlotContext)
    requires ListedAs(a, n1, o1, b1, slots, l, lo1, ctx) && ListedAs(b, |a|, o2, b2, slots, l, lo2, ctx)
    requires a <= b && lo <= lo1 && lo <= lo2
    ensures ListedAs(b, n1, o1 + o2, b1 + b2, slots, l, lo, ctx)
  {
    var o, bs := o1 + o2, b1 + b2;
    forall j | 0 <= j < |o|
      ensures ListedEntry(b, n1, o, bs, slots, l, lo, ctx, j)
    {
      if j < |o1| {
        assert ListedEntry(a, n1, o1, b1, slots, l, lo1, ctx, j);
        assert o[j] == o1[j] && bs[j] == b1[j] && b[n1 + j] == a[n1 + j];
      } else {
        var i := j - |o1|;
        assert ListedEntry(b, |a|, o2, b2, slots, l, lo2, ctx, i);
        assert o[j] == o2[i] && bs[j] == b2[i] && n1 + j == |a| + i;
      }
    }
  }

  /** One slot's own listing: `top` stands for its own layer `k`. */
  lemma ListedOne(ls: seq<nat>, top: nat, slots: seq<TextureSlot>, idx: nat, k: nat, l: seq<Layer>, ctx: SlotContext)
    requires idx < |slots| && slots[idx].texture.Some?
    requires Stands(l, top, k, k) && ExportedLayer(l[k], slots[idx], Setup(ctx, slots[idx]), ctx.scan)
    ensures ListedAs(ls + [top], |ls|, [idx], [k], slots, l, k, ctx)
  {
    assert (ls + [top])[|ls| + 0] == top;
    assert ListedEntry(ls + [top], |ls|, [idx], [k], slots, l, k, ctx, 0);
  }

  lemma MaterialGrowsTrans(a: seq<GMaterial>, b: seq<GMaterial>, c: seq<GMaterial>, mat: nat)
    requires MaterialGrows(a, b, mat) && MaterialGrows(b, c, mat)
    ensures MaterialGrows(a, c, mat)
  {
  }

  lemma LayersKeptTrans(a: seq<Layer>, b: seq<Layer>, c: seq<Layer>)
    requires LayersKept(a, b) && LayersKept(b, c)
    ensures LayersKept(a, c)
  {
  }

  // ---------------------------------------------------------------------------------------
  // What the layers show of the text and environment maps

  /** A text map already made is left alone, or found again by name and page and reset to
      1024x1024 (with the alpha the texture asks for). */
  predicate TextMapEvolves(a: TextMap, b: TextMap) {
    b == a || b == TextMap(a.name, a.page, b.hasAlpha, 1024, 1024)
  }

  /** An environment map already made keeps its class, name and page. */
  predicate EnvMapEvolves(a: EnvMap, b: EnvMap) {
    b.kind == a.kind && b.name == a.name && b.page == a.page
  }

  predicate TextMapsEvolve(olds: seq<TextMap>, news: seq<TextMap>) {
    |olds| <= |news| && forall i :: 0 <= i < |olds| ==> TextMapEvolves(olds[i], news[i])
  }

  predicate EnvMapsEvolve(olds: seq<EnvMap>, news: seq<EnvMap>) {
    |olds| <= |news| && forall i :: 0 <= i < |olds| ==> EnvMapEvolves(olds[i], news[i])
  }

  /** What an export does to the two map arenas: the maps there were only evolve, new ones may
      follow. */
  predicate MapsEvolve(t0: seq<TextMap>, t1: seq<TextMap>, e0: seq<EnvMap>, e1: seq<EnvMap>) {
    TextMapsEvolve(t0, t1) && EnvMapsEvolve(e0, e1)
  }

  lemma MapsEvolveTrans(t0: seq<TextMap>, t1: seq<TextMap>, t2: seq<TextMap>,
                        e0: seq<EnvMap>, e1: seq<EnvMap>, e2: seq<EnvMap>)
    requires MapsEvolve(t0, t1, e0, e1) && MapsEvolve(t1, t2, e1, e2)
    ensures MapsEvolve(t0, t2, e0, e2)
  {
    forall i | 0 <= i < |t0|
      ensures TextMapEvolves(t0[i], t2[i])
    {
      assert TextMapEvolves(t0[i], t1[i]) && TextMapEvolves(t1[i], t2[i]);
    }
    forall i | 0 <= i < |e0|
      ensures EnvMapEvolves(e0[i], e2[i])
    {
      assert EnvMapEvolves(e0[i], e1[i]) && EnvMapEvolves(e1[i], e2[i]);
    }
  }

  /** The dynamic text map of a layer without an image: named after the layer, in the object's
      page, 1024x1024. */
  predicate IsDynText(tm: TextMap, layerName: string, page: nat) {
    tm.name == layerName + "_DynText" && tm.page == page && tm.visWidth == 1024 && tm.visHeight == 1024
  }

  /** The dynamic map of an environment texture: of the class its source asks for, named after
      its viewpoint, in the object's page. */
  predicate IsDynEnv(em: EnvMap, kind: EnvMapKind, bo: BObject, env: EnvMapSettings) {
    em.kind == kind && em.name == EnvMapName(bo, env) && em.page == bo.page
  }

  /** The slot's own layer `x`, exported from `before`, shows the map the texture type's
      exporter found or made in the arenas `tms` and `ems`: an IMAGE without an image its
      dynamic text map; an ENVIRONMENT_MAP its dynamic map, the layer projecting it as a fresh
      map asks (ProjectLayer) or, for a map reused, as before. */
  ghost predicate ShowsMap(x: Layer, before: Layer, slot: TextureSlot, bo: BObject, moul: bool,
                           tms: seq<TextMap>, ems: seq<EnvMap>)
    requires slot.texture.Some?
  {
    var texture := slot.texture.value;
    && (texture.kind == ImageType && texture.image.None? ==>
          && x.texture.Some? && x.texture.value.TextMapKey? && x.texture.value.textMap < |tms|
          && IsDynText(tms[x.texture.value.textMap], before.name, bo.page))
    && (texture.kind == EnvironmentMapType ==>
          var kind := EnvMapClassFor(texture.environmentMap, moul);
          && kind.Some? && x.texture.Some? && x.texture.value.EnvMapKey? && x.texture.value.envMap < |ems|
          && IsDynEnv(ems[x.texture.value.envMap], kind.value, bo, texture.environmentMap)
          && (ProjectsAs(x, before) || ProjectsAs(x, ProjectLayer(before, kind.value))))
  }

  /** What a layer shows survives more blend or miscellaneous flags, and maps that only evolve. */
  lemma ShowsMapEvolve(x: Layer, x2: Layer, before: Layer, slot: TextureSlot, bo: BObject, moul: bool,
                       t: seq<TextMap>, t2: seq<TextMap>, e: seq<EnvMap>, e2: seq<EnvMap>)
    requires slot.texture.Some? && ShowsMap(x, before, slot, bo, moul, t, e)
    requires Evolves(x, x2) && MapsEvolve(t, t2, e, e2)
    ensures ShowsMap(x2, before, slot, bo, moul, t2, e2)
  {
    var texture := slot.texture.value;
    if texture.kind == ImageType && texture.image.None? {
      var i := x.texture.value.textMap;
      assert TextMapEvolves(t[i], t2[i]);
    }
    if texture.kind == EnvironmentMapType {
      var i := x.texture.value.envMap;
      assert EnvMapEvolves(e[i], e2[i]);
    }
  }

  /** The `j`-th slot of `order`, whose own layer is `bases[j]` (allocated from `lo` on), shows
      its map as ShowsMap says, against the slot's set-up. */
  ghost predicate ShownAt(order: seq<nat>, bases: seq<nat>, slots: seq<TextureSlot>, l: seq<Layer>, lo: nat,
                          ctx: SlotContext, tms: seq<TextMap>, ems: seq<EnvMap>, j: int) {
    && 0 <= j < |order| && j < |bases| && order[j] < |slots| && slots[order[j]].texture.Some?
    && lo <= bases[j] < |l|
    && ShowsMap(l[bases[j]], Setup(ctx, slots[order[j]]), slots[order[j]], ctx.bo, ctx.moul, tms, ems)
  }

  /** Every slot of `order` shows its map, as ShownAt says. */
  ghost predicate Shown(order: seq<nat>, bases: seq<nat>, slots: seq<TextureSlot>, l: seq<Layer>, lo: nat,
                        ctx: SlotContext, tms: seq<TextMap>, ems: seq<EnvMap>) {
    && |bases| == |order|
    && forall j :: 0 <= j < |order| ==> ShownAt(order, bases, slots, l, lo, ctx, tms, ems, j)
  }

  /** What the listed layers show survives layers that only evolve (from `lo0 <= lo` on) and
      maps that only evolve. */
  lemma ShownEvolve(order: seq<nat>, bases: seq<nat>, slots: seq<TextureSlot>, l: seq<Layer>, l2: seq<Layer>,
                    lo0: nat, lo: nat, ctx: SlotContext,
                    t: seq<TextMap>, t2: seq<TextMap>, e: seq<EnvMap>, e2: seq<EnvMap>)
    requires Shown(order, bases, slots, l, lo, ctx, t, e)
    requires LayersEvolve(l, l2, lo0) && lo0 <= lo && MapsEvolve(t, t2, e, e2)
    ensures Shown(order, bases, slots, l2, lo, ctx, t2, e2)
  {
    forall j | 0 <= j < |order|
      ensures ShownAt(order, bases, slots, l2, lo, ctx, t2, e2, j)
    {
      assert ShownAt(order, bases, slots, l, lo, ctx, t, e, j);
      var s := slots[order[j]];
      ShowsMapEvolve(l[bases[j]], l2[bases[j]], Setup(ctx, s), s, ctx.bo, ctx.moul, t, t2, e, e2);
    }
  }

  /** Binding a layer to the stencil after it keeps what the layers show. */
  lemma BindKeepsShown(order: seq<nat>, bases: seq<nat>, slots: seq<TextureSlot>, l2: seq<Layer>, l3: seq<Layer>,
                       y: nat, lo: nat, ctx: SlotContext, t: seq<TextMap>, e: seq<EnvMap>)
    requires Shown(order, bases, slots, l2, lo, ctx, t, e)
    requires y < |l2| && l3 == l2[y := l2[y].(state := BindNextLayer(l2[y].state))]
    ensures Shown(order, bases, slots, l3, lo, ctx, t, e)
  {
    assert Evolves(l2[y], l3[y]);
    assert LayersEvolve(l2, l3, 0);
    ShownEvolve(order, bases, slots, l2, l3, 0, lo, ctx, t, t, e, e);
  }

  /** Two successive orders show their maps as one. */
  lemma ShownConcat(o1: seq<nat>, o2: seq<nat>, b1: seq<nat>, b2: seq<nat>, slots: seq<TextureSlot>, l: seq<Layer>,
                    lo1: nat, lo2: nat, lo: nat, ctx: SlotContext, t: seq<TextMap>, e: seq<EnvMap>)
    requires Shown(o1, b1, slots, l, lo1, ctx, t, e) && Shown(o2, b2, slots, l, lo2, ctx, t, e)
    requires lo <= lo1 && lo <= lo2
    ensures Shown(o1 + o2, b1 + b2, slots, l, lo, ctx, t, e)
  {
    var o, bs := o1 + o2, b1 + b2;
    forall j | 0 <= j < |o|
      ensures ShownAt(o, bs, slots, l, lo, ctx, t, e, j)
    {
      if j < |o1| {
        assert ShownAt(o1, b1, slots, l, lo1, ctx, t, e, j);
        assert o[j] == o1[j] && bs[j] == b1[j];
      } else {
        var i := j - |o1|;
        assert ShownAt(o2, b2, slots, l, lo2, ctx, t, e, i);
        assert o[j] == o2[i] && bs[j] == b2[i];
      }
    }
  }

  /** An ordinary slot whose own layer `k` shows its map. */
  lemma PlainShown(slots: seq<TextureSlot>, idx: nat, ctx: SlotContext, l: seq<Layer>, k: nat,
                   t: seq<TextMap>, e: seq<EnvMap>)
    requires idx < |slots| && !slots[idx].useStencil && slots[idx].texture.Some? && k < |l|
    requires ShowsMap(l[k], Setup(ctx, slots[idx]), slots[idx], ctx.bo, ctx.moul, t, e)
    ensures SlotLayerOrder(slots, idx) == Ok([idx])
    ensures Shown([idx], [k], slots, l, k, ctx, t, e)
  {
    assert ShownAt([idx], [k], slots, l, k, ctx, t, e, 0);
  }

  /** A stencil slot: the next slot's layers show their maps (allocated after the own layer
      `k`, the last of `l1`), the own layer is exported from its set-up and shows its map. */
  lemma StencilShown(slots: seq<TextureSlot>, idx: nat, ctx: SlotContext, l1: seq<Layer>, l2: seq<Layer>,
                     l3: seq<Layer>, k: nat, sb: seq<nat>,
                     t2: seq<TextMap>, t3: seq<TextMap>, e2: seq<EnvMap>, e3: seq<EnvMap>)
    requires idx + 1 < |slots| && slots[idx].useStencil && slots[idx].texture.Some?
    requires k + 1 == |l1| && l1[k] == Setup(ctx, slots[idx]) && LayersKept(l1, l2)
    requires SlotLayerOrder(slots, idx + 1).Ok?
    requires Shown(SlotLayerOrder(slots, idx + 1).value, sb, slots, l2, |l1|, ctx, t2, e2)
    requires LayersKeptBut(l2, l3, k) && MapsEvolve(t2, t3, e2, e3)
    requires k < |l3| && ShowsMap(l3[k], l2[k], slots[idx], ctx.bo, ctx.moul, t3, e3)
    ensures SlotLayerOrder(slots, idx).Ok?
    ensures Shown(SlotLayerOrder(slots, idx).value, sb + [k], slots, l3, k, ctx, t3, e3)
  {
    var sub := SlotLayerOrder(slots, idx + 1).value;
    assert SlotLayerOrder(slots, idx) == Ok(sub + [idx]);
    assert LayersEvolve(l2, l3, |l1|);
    ShownEvolve(sub, sb, slots, l2, l3, |l1|, |l1|, ctx, t2, t3, e2, e3);
    assert ShownAt([idx], [k], slots, l3, k, ctx, t3, e3, 0);
    ShownConcat(sub, [idx], sb, [k], slots, l3, |l1|, k, k, ctx, t3, e3);
  }

  /** The cursor loop's step: what the slots exported so far show survives the next slot's
      export, which adds what its own slots show. */
  lemma ShownStep(done: seq<nat>, bases: seq<nat>, o: seq<nat>, sb: seq<nat>, slots: seq<TextureSlot>,
                  lA: seq<Layer>, lB: seq<Layer>, lo: nat, ctx: SlotContext,
                  tA: seq<TextMap>, tB: seq<TextMap>, eA: seq<EnvMap>, eB: seq<EnvMap>)
    requires Shown(done, bases, slots, lA, lo, ctx, tA, eA) && lo <= |lA|
    requires LayersKept(lA, lB) && MapsEvolve(tA, tB, eA, eB)
    requires Shown(o, sb, slots, lB, |lA|, ctx, tB, eB)
    ensures Shown(done + o, bases + sb, slots, lB, lo, ctx, tB, eB)
  {
    KeptEvolve(lA, lB, lo);
    ShownEvolve(done, bases, slots, lA, lB, lo, lo, ctx, tA, tB, eA, eB);
    ShownConcat(done, o, bases, sb, slots, lB, lo, |lA|, lo, ctx, tB, eB);
  }

  // ---------------------------------------------------------------------------------------
  // The slot's own layer

  /** The texture type's exporter, the layer animations and the listing, for the slot's own
      layer `k` of material `mat`, which queue the insertions `cs`: on success the material lists `top` (the layer or its animation wrapper) last, the
      layer is exported from the set-up it had, and the slot's image (if any) was queued with
      `k`; on an error no material changed. */
  ghost predicate SlotFinished(m0: seq<GMaterial>, m: seq<GMaterial>, l0: seq<Layer>, l: seq<Layer>,
                               mat: nat, k: nat, slot: TextureSlot,
                               scan: Image -> bool, top: Result<nat, Failure>, cs: seq<(TexKey, nat)>) {
    && mat < |m0| && k < |l0| && slot.texture.Some? && LayersKeptBut(l0, l, k)
    && (top.Err? ==> m == m0)
    && (top.Ok? ==>
          && m == m0[mat := m0[mat].(layers := m0[mat].layers + [top.value])]
          && cs == Queue(scan, slot, k)
          && ExportedLayer(l[k], slot, l0[k], scan)
          && Stands(l, top.value, k, k))
  }

  /** The layer-animation export of layer `k`: other layers are unchanged, `k` only evolves, and
      `top` is `k` or a new animation wrapper over it. */
  ghost predicate AnimationKept(l1: seq<Layer>, l2: seq<Layer>, k: nat, top: nat) {
    && LayersKeptBut(l1, l2, k) && k < |l1|
    && Evolves(l1[k], l2[k])
    && Stands(l2, top, k, k)
  }

  /** Forcing alpha blending on `k` and appending the wrapper the effect asks for. */
  lemma AnimationEffectKeeps(l1: seq<Layer>, l2: seq<Layer>, k: nat, top: nat, effect: AnimEffect, page: nat)
    requires k < |l1|
    requires effect.wrapper.Some? ==> effect.wrapper.value.LayerAnimation? && effect.wrapper.value.underLay == k
    requires var baseLayer := if effect.forceAlpha
                              then l1[k].(state := l1[k].state.(blendFlags := l1[k].state.blendFlags + {BlendAlpha}))
                              else l1[k];
      && (effect.wrapper.None? ==> top == k && l2 == l1[k := baseLayer])
      && (effect.wrapper.Some? ==>
            top == |l1| && l2 == l1[k := baseLayer] + [NewLayer(l1[k].name + "_LayerAnim", page, effect.wrapper.value)])
    ensures AnimationKept(l1, l2, k, top)
  {
  }

  /** The texture type's exporter, then the animations, then the listing of `top`. */
  lemma SlotListed(m0: seq<GMaterial>, m3: seq<GMaterial>, l0: seq<Layer>, l1: seq<Layer>, l2: seq<Layer>,
                   mat: nat, k: nat, top: nat, slot: TextureSlot, scan: Image -> bool)
    requires mat < |m0| && k < |l0| && Exportable(slot)
    requires LayersKeptBut(l0, l1, k) && TypeExported(l1[k], l0[k], slot, scan)
    requires AnimationKept(l1, l2, k, top)
    requires m3 == m0[mat := m0[mat].(layers := m0[mat].layers + [top])]
    ensures SlotFinished(m0, m3, l0, l2, mat, k, slot, scan, Ok(top), Queue(scan, slot, k))
  {
    TypeThenEvolve(l0[k], l1[k], l2[k], slot, scan);
  }

  /** A finished slot grows only its own material. */
  lemma FinishedGrows(m0: seq<GMaterial>, m: seq<GMaterial>, l0: seq<Layer>, l: seq<Layer>,
                      mat: nat, k: nat, slot: TextureSlot,
                      scan: Image -> bool, top: Result<nat, Failure>, cs: seq<(TexKey, nat)>)
    requires SlotFinished(m0, m, l0, l, mat, k, slot, scan, top, cs)
    ensures MaterialGrows(m0, m, mat)
  {
  }

  // ---------------------------------------------------------------------------------------
  // One slot export

  /** From entry `n0` of the material list `ls` on, the layers of the slots
      `SlotLayerOrder(slots, idx)`, standing for the own layers `bases` allocated from `lo` on,
      as ListedAs says; and `cs` queues their images in that order. */
  ghost predicate Listing(slots: seq<TextureSlot>, idx: nat, ctx: SlotContext, ls: seq<nat>, n0: nat,
                          l: seq<Layer>, lo: nat, bases: seq<nat>, cs: seq<(TexKey, nat)>) {
    && idx < |slots| && SlotLayerOrder(slots, idx).Ok?
    && ListedAs(ls, n0, SlotLayerOrder(slots, idx).value, bases, slots, l, lo, ctx)
    && cs == Queued(slots, SlotLayerOrder(slots, idx).value, bases, ctx.scan)
  }

  /** The layer listed `d` entries from the end of `ls` is bound to the stencil listed after it. */
  ghost predicate BoundAt(ls: seq<nat>, l: seq<Layer>, d: nat) {
    1 <= d <= |ls| && ls[|ls| - d] < |l| && BoundToNext(l[ls[|ls| - d]].state)
  }

  /** Every slot-export step grows only material `mat` and keeps the layers there were. */
  ghost predicate Framed(m0: seq<GMaterial>, m: seq<GMaterial>, l0: seq<Layer>, l: seq<Layer>, mat: nat) {
    && MaterialGrows(m0, m, mat) && LayersKept(l0, l)
  }

  /** The frame of a stencil slot: its own layer's allocation, the stencil branch, then the
      own layer's export. */
  lemma StencilFramed(m0: seq<GMaterial>, m2: seq<GMaterial>, m3: seq<GMaterial>,
                      l0: seq<Layer>, l1: seq<Layer>, l2: seq<Layer>, l3: seq<Layer>,
                      mat: nat, slot: TextureSlot,
                      scan: Image -> bool, top: Result<nat, Failure>, fcs: seq<(TexKey, nat)>)
    requires |l1| == |l0| + 1 && LayersKept(l0, l1)
    requires Framed(m0, m2, l1, l2, mat)
    requires SlotFinished(m2, m3, l2, l3, mat, |l0|, slot, scan, top, fcs)
    ensures Framed(m0, m3, l0, l3, mat)
  {
    FinishedGrows(m2, m3, l2, l3, mat, |l0|, slot, scan, top, fcs);
    MaterialGrowsTrans(m0, m2, m3, mat);
    assert forall j :: 0 <= j < |l0| ==> l3[j] == l2[j];
  }

  /** The stencil branch for slot `idx`: the material needs a blend channel; on success the
      layers the next slot's export appended are the Listing of the next slot, and the last of
      them is bound to the stencil. */
  ghost predicate StencilExported(slots: seq<TextureSlot>, idx: nat, ctx: SlotContext,
                                  m0: seq<GMaterial>, m: seq<GMaterial>, l0: seq<Layer>, l: seq<Layer>,
                                  mat: nat, r: Result<(), Failure>,
                                  bases: seq<nat>, cs: seq<(TexKey, nat)>) {
    && idx < |slots|
    && Framed(m0, m, l0, l, mat)
    && CompNeedsBlendChannel in m[mat].compFlags
    && (SlotLayerOrder(slots, idx).Err? ==> r.Err?)
    && (r.Ok? ==>
          && idx + 1 < |slots|
          && Listing(slots, idx + 1, ctx, m[mat].layers, |m0[mat].layers|, l, |l0|, bases, cs)
          && BoundAt(m[mat].layers, l, 1))
  }

  /** One `_export_texture_slot(idx)` call, which queues the insertions `cs`. It fails whenever `SlotLayerOrder` does. On success it returns the slots
      consumed; the material's new entries are the Listing of the slot: one layer per entry of
      `SlotLayerOrder`, the j-th standing for the own layer `bases[j]` of the j-th slot of that
      order, exported from that slot's set-up, with the images of those slots queued with
      their own layers in that order; the slot's own layer is the first one allocated and
      comes last. A stencil's layer is preceded by the layer it binds. */
  ghost predicate SlotExported(slots: seq<TextureSlot>, idx: nat, ctx: SlotContext,
                               m0: seq<GMaterial>, m: seq<GMaterial>, l0: seq<Layer>, l: seq<Layer>,
                               mat: nat, r: Result<nat, Failure>,
                               bases: seq<nat>, cs: seq<(TexKey, nat)>) {
    && idx < |slots|
    && Framed(m0, m, l0, l, mat)
    && (SlotLayerOrder(slots, idx).Err? ==> r.Err?)
    && (r.Ok? ==>
          && r.value == SlotsConsumed(slots[idx])
          && Listing(slots, idx, ctx, m[mat].layers, |m0[mat].layers|, l, |l0|, bases, cs)
          && bases != [] && bases[|bases| - 1] == |l0|)
    && (r.Ok? && slots[idx].useStencil ==>
          CompNeedsBlendChannel in m[mat].compFlags && BoundAt(m[mat].layers, l, 2))
  }

  /** A stencil slot's export binds the layer of the next slot: the layer listed second to
      last stands for a layer named after slot `idx + 1`, and it is bound to the stencil. */
  lemma StencilBindsNextSlot(slots: seq<TextureSlot>, idx: nat, ctx: SlotContext,
                             m0: seq<GMaterial>, m: seq<GMaterial>, l0: seq<Layer>, l: seq<Layer>,
                             mat: nat, r: Result<nat, Failure>,
                             bases: seq<nat>, cs: seq<(TexKey, nat)>)
    requires SlotExported(slots, idx, ctx, m0, m, l0, l, mat, r, bases, cs)
    requires r.Ok? && slots[idx].useStencil
    ensures var ls := m[mat].layers;
      && |ls| >= 2 && |bases| >= 2 && idx + 1 < |slots|
      && Stands(l, ls[|ls| - 2], bases[|bases| - 2], |l0|)
      && l[bases[|bases| - 2]].name == LayerName(ctx.bm, slots[idx + 1])
      && BoundToNext(l[ls[|ls| - 2]].state)
  {
    var order := SlotLayerOrder(slots, idx).value;
    var j := |order| - 2;
    assert ListedEntry(m[mat].layers, |m0[mat].layers|, order, bases, slots, l, |l0|, ctx, j);
    assert order[j] == idx + 1;
  }

  // Stencil steps

  /** A stencil in the last slot: only the compositing flag was set before the error. */
  lemma StencilInLastSlot(slots: seq<TextureSlot>, idx: nat, ctx: SlotContext, m0: seq<GMaterial>, m1: seq<GMaterial>,
                          l0: seq<Layer>, mat: nat, r: Result<(), Failure>)
    requires idx + 1 == |slots| && slots[idx].useStencil && mat < |m0| && r.Err?
    requires m1 == m0[mat := m0[mat].(compFlags := m0[mat].compFlags + {CompNeedsBlendChannel})]
    ensures StencilExported(slots, idx, ctx, m0, m1, l0, l0, mat, r, [], [])
  {
  }

  /** The next slot's export failed: so did the stencil, with nothing bound. */
  lemma StencilNextFails(slots: seq<TextureSlot>, idx: nat, ctx: SlotContext,
                         m0: seq<GMaterial>, m1: seq<GMaterial>, m2: seq<GMaterial>, l0: seq<Layer>, l2: seq<Layer>,
                         mat: nat, sub: Result<nat, Failure>,
                         bases: seq<nat>, cs: seq<(TexKey, nat)>, r: Result<(), Failure>)
    requires idx + 1 < |slots| && slots[idx].useStencil && mat < |m0| && sub.Err? && r.Err?
    requires m1 == m0[mat := m0[mat].(compFlags := m0[mat].compFlags + {CompNeedsBlendChannel})]
    requires SlotExported(slots, idx + 1, ctx, m1, m2, l0, l2, mat, sub, bases, cs)
    ensures StencilExported(slots, idx, ctx, m0, m2, l0, l2, mat, r, bases, cs)
  {
    MaterialGrowsTrans(m0, m1, m2, mat);
  }

  /** Binding the layer a listing ends with to a stencil keeps the listing, and touches no
      layer below `lo`. */
  lemma BindKeepsListing(slots: seq<TextureSlot>, idx: nat, ctx: SlotContext, ls: seq<nat>, n0: nat,
                         l2: seq<Layer>, l3: seq<Layer>, lo: nat, bases: seq<nat>, cs: seq<(TexKey, nat)>)
    requires Listing(slots, idx, ctx, ls, n0, l2, lo, bases, cs)
    requires |ls| > 0 && ls[|ls| - 1] < |l2|
    requires l3 == l2[ls[|ls| - 1] := l2[ls[|ls| - 1]].(state := BindNextLayer(l2[ls[|ls| - 1]].state))]
    ensures Listing(slots, idx, ctx, ls, n0, l3, lo, bases, cs) && BoundAt(ls, l3, 1)
    ensures lo <= ls[|ls| - 1] && |l3| == |l2| && forall j :: 0 <= j < lo ==> l3[j] == l2[j]
  {
    var order := SlotLayerOrder(slots, idx).value;
    var y := ls[|ls| - 1];
    assert ListedEntry(ls, n0, order, bases, slots, l2, lo, ctx, |order| - 1);
    assert Evolves(l2[y], l3[y]);
    assert LayersEvolve(l2, l3, lo);
    ListedAsEvolve(ls, n0, order, bases, slots, l2, l3, lo, ctx);
  }

  /** The next slot exported, then the layer the material lists last was bound. */
  lemma StencilBinds(slots: seq<TextureSlot>, idx: nat, ctx: SlotContext,
                     m0: seq<GMaterial>, m1: seq<GMaterial>, m2: seq<GMaterial>,
                     l0: seq<Layer>, l2: seq<Layer>, l3: seq<Layer>, mat: nat, sub: Result<nat, Failure>, bases: seq<nat>, cs: seq<(TexKey, nat)>)
    requires idx + 1 < |slots| && slots[idx].useStencil && mat < |m0| && sub.Ok?
    requires m1 == m0[mat := m0[mat].(compFlags := m0[mat].compFlags + {CompNeedsBlendChannel})]
    requires SlotExported(slots, idx + 1, ctx, m1, m2, l0, l2, mat, sub, bases, cs)
    requires var ls := m2[mat].layers;
      |ls| > 0 && ls[|ls| - 1] < |l2|
      && l3 == l2[ls[|ls| - 1] := l2[ls[|ls| - 1]].(state := BindNextLayer(l2[ls[|ls| - 1]].state))]
    ensures StencilExported(slots, idx, ctx, m0, m2, l0, l3, mat, Ok(()), bases, cs)
  {
    MaterialGrowsTrans(m0, m1, m2, mat);
    assert |m1[mat].layers| == |m0[mat].layers|;
    BindKeepsListing(slots, idx + 1, ctx, m2[mat].layers, |m1[mat].layers|, l2, l3, |l0|, bases, cs);
    assert LayersKept(l0, l3) by {
      assert LayersKept(l0, l2);
    }
    assert SlotLayerOrder(slots, idx) == Ok(SlotLayerOrder(slots, idx + 1).value + [idx]);
  }

  // Slot steps

  /** An ordinary slot: its layer, then the texture type, animations and listing. */
  lemma PlainSlot(slots: seq<TextureSlot>, idx: nat, ctx: SlotContext,
                  m0: seq<GMaterial>, m2: seq<GMaterial>, l0: seq<Layer>, l1: seq<Layer>, l2: seq<Layer>,
                  mat: nat, top: Result<nat, Failure>, r: Result<nat, Failure>,
                  cs: seq<(TexKey, nat)>)
    requires idx < |slots| && !slots[idx].useStencil && Exportable(slots[idx])
    requires l1 == l0 + [Setup(ctx, slots[idx])]
    requires SlotFinished(m0, m2, l1, l2, mat, |l0|, slots[idx], ctx.scan, top, cs)
    requires r.Ok? <==> top.Ok?
    requires r.Ok? ==> r.value == SlotsConsumed(slots[idx])
    ensures SlotExported(slots, idx, ctx, m0, m2, l0, l2, mat, r, [|l0|], cs)
  {
    if r.Ok? {
      assert SlotLayerOrder(slots, idx) == Ok([idx]);
      assert m2[mat].layers == m0[mat].layers + [top.value];
      ListedOne(m0[mat].layers, top.value, slots, idx, |l0|, l2, ctx);
      QueuedOne(slots, idx, |l0|, ctx.scan);
    }
  }

  /** A stencil slot whose stencil branch failed. */
  lemma StencilSlotFails(slots: seq<TextureSlot>, idx: nat, ctx: SlotContext,
                         m0: seq<GMaterial>, m2: seq<GMaterial>, l0: seq<Layer>, l1: seq<Layer>, l2: seq<Layer>,
                         mat: nat, s: Result<(), Failure>, r: Result<nat, Failure>,
                         bases: seq<nat>, cs: seq<(TexKey, nat)>)
    requires idx < |slots| && slots[idx].useStencil && Exportable(slots[idx])
    requires l1 == l0 + [Setup(ctx, slots[idx])]
    requires StencilExported(slots, idx, ctx, m0, m2, l1, l2, mat, s, bases, cs)
    requires s.Err? && r.Err?
    ensures SlotExported(slots, idx, ctx, m0, m2, l0, l2, mat, r, bases, cs)
  {
    LayersKeptTrans(l0, l1, l2);
  }

  /** The listings of a stencil slot: the next slot's layers, then its own. */
  lemma StencilSlotListed(slots: seq<TextureSlot>, idx: nat, ctx: SlotContext, ls2: seq<nat>, n0: nat, top: nat,
                          l1: seq<Layer>, l2: seq<Layer>, l3: seq<Layer>, k: nat, sub: seq<nat>, sb: seq<nat>)
    requires idx < |slots| && slots[idx].texture.Some? && k + 1 == |l1|
    requires ListedAs(ls2, n0, sub, sb, slots, l2, |l1|, ctx) && LayersKept(l1, l2)
    requires LayersKeptBut(l2, l3, k)
    requires Stands(l3, top, k, k) && ExportedLayer(l3[k], slots[idx], Setup(ctx, slots[idx]), ctx.scan)
    ensures ListedAs(ls2 + [top], n0, sub + [idx], sb + [k], slots, l3, k, ctx)
  {
    assert LayersEvolve(l2, l3, |l1|);
    ListedAsEvolve(ls2, n0, sub, sb, slots, l2, l3, |l1|, ctx);
    ListedOne(ls2, top, slots, idx, k, l3, ctx);
    ListedAsConcat(ls2, ls2 + [top], n0, sub, [idx], sb, [k], slots, l3, |l1|, k, k, ctx);
  }

  /** The queue of a stencil slot: the next slot's, then its own. */
  lemma StencilSlotQueued(slots: seq<TextureSlot>, idx: nat, sub: seq<nat>, sb: seq<nat>, k: nat, scan: Image -> bool,
                          scs: seq<(TexKey, nat)>, fcs: seq<(TexKey, nat)>)
    requires idx + 1 < |slots| && slots[idx].useStencil && SlotLayerOrder(slots, idx + 1) == Ok(sub) && |sub| == |sb|
    requires scs == Queued(slots, sub, sb, scan) && fcs == Queue(scan, slots[idx], k)
    ensures SlotLayerOrder(slots, idx) == Ok(sub + [idx])
    ensures Queued(slots, SlotLayerOrder(slots, idx).value, sb + [k], scan) == scs + fcs
  {
    QueuedConcat(slots, sub, [idx], sb, [k], scan);
    QueuedOne(slots, idx, k, scan);
  }

  /** The layer a stencil bound is listed just before the stencil's own and is not the own
      layer. */
  lemma StencilBoundStays(ls2: seq<nat>, n0: nat, top: nat, sub: seq<nat>, sb: seq<nat>, slots: seq<TextureSlot>,
                          l1: seq<Layer>, l2: seq<Layer>, l3: seq<Layer>, k: nat, ctx: SlotContext)
    requires k + 1 == |l1| && sub != []
    requires ListedAs(ls2, n0, sub, sb, slots, l2, |l1|, ctx) && LayersKeptBut(l2, l3, k)
    requires BoundAt(ls2, l2, 1)
    ensures BoundAt(ls2 + [top], l3, 2)
  {
    assert ListedEntry(ls2, n0, sub, sb, slots, l2, |l1|, ctx, |sub| - 1);
    assert (ls2 + [top])[|ls2| + 1 - 2] == ls2[|ls2| - 1];
  }

  /** The stencil slot's own layer after the next slot's: its Listing and the bound layer. */
  lemma StencilOwnListing(slots: seq<TextureSlot>, idx: nat, ctx: SlotContext, ls2: seq<nat>, n0: nat, top: nat,
                          l1: seq<Layer>, l2: seq<Layer>, l3: seq<Layer>, k: nat, sb: seq<nat>,
                          scs: seq<(TexKey, nat)>, fcs: seq<(TexKey, nat)>)
    requires idx + 1 < |slots| && slots[idx].useStencil && slots[idx].texture.Some? && k + 1 == |l1|
    requires Listing(slots, idx + 1, ctx, ls2, n0, l2, |l1|, sb, scs) && BoundAt(ls2, l2, 1)
    requires LayersKept(l1, l2) && LayersKeptBut(l2, l3, k)
    requires Stands(l3, top, k, k) && ExportedLayer(l3[k], slots[idx], Setup(ctx, slots[idx]), ctx.scan)
    requires fcs == Queue(ctx.scan, slots[idx], k)
    ensures Listing(slots, idx, ctx, ls2 + [top], n0, l3, k, sb + [k], scs + fcs)
    ensures BoundAt(ls2 + [top], l3, 2)
  {
    var sub := SlotLayerOrder(slots, idx + 1).value;
    StencilSlotQueued(slots, idx, sub, sb, k, ctx.scan, scs, fcs);
    StencilSlotListed(slots, idx, ctx, ls2, n0, top, l1, l2, l3, k, sub, sb);
    StencilBoundStays(ls2, n0, top, sub, sb, slots, l1, l2, l3, k, ctx);
  }

  /** The steps of a stencil slot's export: its own layer's set-up, the stencil branch, then
      the texture type, animations and listing of its own layer, which returns `top`; the
      call's result `r` follows `top`. */
  ghost predicate StencilSteps(slots: seq<TextureSlot>, idx: nat, ctx: SlotContext,
                        m0: seq<GMaterial>, m2: seq<GMaterial>, m3: seq<GMaterial>,
                        l0: seq<Layer>, l1: seq<Layer>, l2: seq<Layer>, l3: seq<Layer>,
                        mat: nat, top: Result<nat, Failure>, r: Result<nat, Failure>,
                        sb: seq<nat>, scs: seq<(TexKey, nat)>, fcs: seq<(TexKey, nat)>) {
    && idx < |slots| && slots[idx].useStencil && Exportable(slots[idx])
    && l1 == l0 + [Setup(ctx, slots[idx])]
    && StencilExported(slots, idx, ctx, m0, m2, l1, l2, mat, Ok(()), sb, scs)
    && SlotFinished(m2, m3, l2, l3, mat, |l0|, slots[idx], ctx.scan, top, fcs)
    && (r.Ok? <==> top.Ok?)
    && (r.Ok? ==> r.value == SlotsConsumed(slots[idx]))
  }

  /** A stencil slot whose own layer failed after the stencil branch. */
  lemma StencilOwnFails(slots: seq<TextureSlot>, idx: nat, ctx: SlotContext,
                        m0: seq<GMaterial>, m2: seq<GMaterial>, m3: seq<GMaterial>,
                        l0: seq<Layer>, l1: seq<Layer>, l2: seq<Layer>, l3: seq<Layer>,
                        mat: nat, top: Result<nat, Failure>, r: Result<nat, Failure>,
                        sb: seq<nat>, scs: seq<(TexKey, nat)>, fcs: seq<(TexKey, nat)>)
    requires StencilSteps(slots, idx, ctx, m0, m2, m3, l0, l1, l2, l3, mat, top, r, sb, scs, fcs) && top.Err?
    ensures SlotExported(slots, idx, ctx, m0, m3, l0, l3, mat, r, sb + [|l0|], scs + fcs)
  {
    StencilFramed(m0, m2, m3, l0, l1, l2, l3, mat, slots[idx], ctx.scan, top, fcs);
  }

  /** A stencil slot whose own layer was listed after the stencil branch. */
  lemma StencilOwnListed(slots: seq<TextureSlot>, idx: nat, ctx: SlotContext,
                        m0: seq<GMaterial>, m2: seq<GMaterial>, m3: seq<GMaterial>,
                        l0: seq<Layer>, l1: seq<Layer>, l2: seq<Layer>, l3: seq<Layer>,
                        mat: nat, top: Result<nat, Failure>, r: Result<nat, Failure>,
                        sb: seq<nat>, scs: seq<(TexKey, nat)>, fcs: seq<(TexKey, nat)>)
    requires StencilSteps(slots, idx, ctx, m0, m2, m3, l0, l1, l2, l3, mat, top, r, sb, scs, fcs) && top.Ok?
    ensures SlotExported(slots, idx, ctx, m0, m3, l0, l3, mat, r, sb + [|l0|], scs + fcs)
  {
    var k := |l0|;
    StencilFramed(m0, m2, m3, l0, l1, l2, l3, mat, slots[idx], ctx.scan, top, fcs);
    assert LayersKept(l1, l2) && l2[k] == l1[k];
    StencilOwnListing(slots, idx, ctx, m2[mat].layers, |m0[mat].layers|, top.value, l1, l2, l3, k, sb, scs, fcs);
    assert m3[mat].layers == m2[mat].layers + [top.value];
  }

  /** A stencil slot: its layer, the stencil branch, then the texture type, animations and
      listing of its own layer. */
  lemma StencilSlot(slots: seq<TextureSlot>, idx: nat, ctx: SlotContext,
                        m0: seq<GMaterial>, m2: seq<GMaterial>, m3: seq<GMaterial>,
                        l0: seq<Layer>, l1: seq<Layer>, l2: seq<Layer>, l3: seq<Layer>,
                        mat: nat, top: Result<nat, Failure>, r: Result<nat, Failure>,
                        sb: seq<nat>, scs: seq<(TexKey, nat)>, fcs: seq<(TexKey, nat)>)
    requires StencilSteps(slots, idx, ctx, m0, m2, m3, l0, l1, l2, l3, mat, top, r, sb, scs, fcs)
    ensures SlotExported(slots, idx, ctx, m0, m3, l0, l3, mat, r, sb + [|l0|], scs + fcs)
  {
    if top.Ok? {
      StencilOwnListed(slots, idx, ctx, m0, m2, m3, l0, l1, l2, l3, mat, top, r, sb, scs, fcs);
    } else {
      StencilOwnFails(slots, idx, ctx, m0, m2, m3, l0, l1, l2, l3, mat, top, r, sb, scs, fcs);
    }
  }
}
