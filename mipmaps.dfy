/** `finalize`: the encoding chosen for each pending texture (power-of-two size, mip level count,
    compression, DXT level) and the placement of one plMipmap per textures page among the layers
    that use it. */
module Mipmaps {
  import opened Wrappers
  import opened Seqs
  import opened Blender
  import opened Plasma
  import opened Textures
  import opened Collaborators

  function Pow2(k: nat): (r: nat)
    ensures r >= 1
  {
    if k == 0 then 1 else 2 * Pow2(k - 1)
  }

  lemma {:induction false} Pow2Monotone(a: nat, b: nat)
    requires a <= b
    ensures Pow2(a) <= Pow2(b)
    decreases b
  {
    if a < b {
      Pow2Monotone(a, b - 1);
    }
  }

  /** Only an exponent of at least 3 gives 8 or more. */
  lemma Pow2AtLeastEight(k: nat)
    requires Pow2(k) >= 8
    ensures k >= 3
  {
  }

  /** floor(log2(n)). */
  function Log2Floor(n: nat): (r: nat)
    requires n >= 1
    ensures Pow2(r) <= n < 2 * Pow2(r)
    decreases n
  {
    if n == 1 then 0 else 1 + Log2Floor(n / 2)
  }

  /** On a power of two the logarithm is exact. */
  lemma {:induction false} Log2OfPow2(n: nat)
    requires IsPow2(n)
    ensures Pow2(Log2Floor(n)) == n
    decreases n
  {
    if n != 1 {
      Log2OfPow2(n / 2);
    }
  }

  lemma Pow2Positive(n: nat)
    requires IsPow2(n)
    ensures n >= 1
  {
  }

  function MaxDim(w: nat, h: nat): nat {
    if w >= h then w else h
  }

  /** numLevels: a full mip chain minus the two smallest levels (at least two levels) for a
      mipmapped texture, a single level otherwise. */
  function LevelCount(mipmap: bool, w: nat, h: nat): (r: nat)
    requires w >= 1 && h >= 1
    ensures !mipmap ==> r == 1
    ensures mipmap ==> r >= 2
  {
    if !mipmap then 1
    else
      var full: int := Log2Floor(MaxDim(w, h)) + 1;
      if full - 2 >= 2 then full - 2 else 2
  }

  /** The workaround keeps the chain down to the level whose larger side is 4 pixels, for any
      power-of-two texture of at least 8 pixels. */
  lemma SmallestLevelIsFourPixels(w: nat, h: nat)
    requires IsPow2(w) && IsPow2(h) && MaxDim(w, h) >= 8
    ensures var n := LevelCount(true, w, h); MaxDim(w, h) == 4 * Pow2(n - 1)
  {
    var m := MaxDim(w, h);
    Log2OfPow2(m);
    var l := Log2Floor(m);
    Pow2AtLeastEight(l);
    assert LevelCount(true, w, h) == l - 1;
    assert Pow2(l) == 2 * Pow2(l - 1);
    assert Pow2(l - 1) == 2 * Pow2(l - 2);
  }

  /** Textures smaller than 8 pixels keep two levels, the clamped minimum. */
  lemma SmallTexturesKeepTwoLevels(w: nat, h: nat)
    requires w >= 1 && h >= 1 && MaxDim(w, h) < 8
    ensures LevelCount(true, w, h) == 2
  {
    var l := Log2Floor(MaxDim(w, h));
    if l >= 3 {
      Pow2Monotone(3, l);
    }
  }

  /** The logarithm undoes the power. */
  lemma {:induction false} Log2Pow2(k: nat)
    ensures Log2Floor(Pow2(k)) == k
    decreases k
  {
    if k > 0 {
      Log2Pow2(k - 1);
      assert Pow2(k) / 2 == Pow2(k - 1);
    }
  }

  /** A 2^i x 2^j texture keeps max(i, j) - 1 of its max(i, j) + 1 levels, and never fewer than
      two: a 256 x 256 texture keeps 7 levels, a 1024 x 512 one keeps 9. */
  lemma LevelCountOfPow2(i: nat, j: nat)
    ensures var m := if i >= j then i else j;
            LevelCount(true, Pow2(i), Pow2(j)) == if m >= 3 then m - 1 else 2
  {
    var m := if i >= j then i else j;
    if i >= j {
      Pow2Monotone(j, i);
    } else {
      Pow2Monotone(i, j);
    }
    assert MaxDim(Pow2(i), Pow2(j)) == Pow2(m);
    Log2Pow2(m);
  }

  /** DirectX compression exactly for mipmapped textures. */
  function CompressionFor(k: TexKey): (r: Compression)
    ensures r == DirectXCompression <==> k.mipmap
  {
    if k.mipmap then DirectXCompression else Uncompressed
  }

  /** DXT5 (with an alpha block) when the bitmap keeps or synthesises alpha, DXT1 otherwise. */
  function DxtFor(k: TexKey): (r: DxtLevel)
    ensures r == DXT5 <==> k.useAlpha || k.calcAlpha
  {
    if k.useAlpha || k.calcAlpha then DXT5 else DXT1
  }

  /** The level data taken from the image scaled to w x h: uncompressed bitmaps are read as
      BGRA. */
  function LevelData(svc: Services, k: TexKey, w: nat, h: nat, n: nat): (r: seq<seq<bv8>>)
    ensures |r| == n
    ensures forall i :: 0 <= i < n ==> r[i] == svc.levelData(k.image, w, h, i, k.calcAlpha, CompressionFor(k) == Uncompressed)
  {
    seq(n, (i: int) requires 0 <= i < n => svc.levelData(k.image, w, h, i as nat, k.calcAlpha, CompressionFor(k) == Uncompressed))
  }

  /** The loop reading every level out of the GL texture. */
  method CollectLevels(svc: Services, k: TexKey, w: nat, h: nat, n: nat) returns (data: seq<seq<bv8>>)
    ensures data == LevelData(svc, k, w, h, n)
  {
    data := [];
    var bgra := CompressionFor(k) == Uncompressed;
    var i := 0;
    while i < n
      invariant 0 <= i <= n && |data| == i
      invariant forall j :: 0 <= j < i ==> data[j] == svc.levelData(k.image, w, h, j, k.calcAlpha, bgra)
    {
      data := data + [svc.levelData(k.image, w, h, i, k.calcAlpha, bgra)];
      i := i + 1;
    }
  }

  /** The plMipmap a pending texture becomes, before it is stored in a page: named after the
      texture, sized to the power-of-two dimensions. */
  function MipmapFor(svc: Services, k: TexKey): (r: Mipmap)
    requires ValidServices(svc)
    ensures IsPow2(r.width) && IsPow2(r.height)
    ensures r.width == svc.pot(k.image.width) && r.height == svc.pot(k.image.height)
    ensures r.name == TexName(k) && r.page == 0
    ensures r.numLevels == LevelCount(k.mipmap, r.width, r.height) && |r.levels| == r.numLevels
    ensures r.compression == CompressionFor(k) && r.dxt == DxtFor(k)
  {
    var w, h := svc.pot(k.image.width), svc.pot(k.image.height);
    Pow2Positive(w);
    Pow2Positive(h);
    var n := LevelCount(k.mipmap, w, h);
    Mipmap(TexName(k), w, h, n, CompressionFor(k), DxtFor(k), LevelData(svc, k, w, h, n), 0)
  }

  /** The layer loop's state: the mipmap and layer arenas, and the mipmap made so far for each
      textures page. */
  datatype Bucket = Bucket(mipmaps: seq<Mipmap>, layers: seq<Layer>, pages: map<nat, nat>)

  predicate PagesInRange(b: Bucket) {
    forall p :: p in b.pages ==> b.pages[p] < |b.mipmaps|
  }

  /** One consumer: the mipmap of its textures page, stored there first if that page has none. */
  function PlaceInPage(b: Bucket, proto: Mipmap, layer: nat, texturesPage: nat -> nat): (r: Bucket)
    requires layer < |b.layers| && PagesInRange(b)
    ensures PagesInRange(r) && |r.layers| == |b.layers| && b.mipmaps <= r.mipmaps
  {
    var page := texturesPage(b.layers[layer].page);
    if page in b.pages then
      b.(layers := b.layers[layer := b.layers[layer].(texture := Some(MipmapKey(b.pages[page])))])
    else
      var k := |b.mipmaps|;
      Bucket(b.mipmaps + [proto.(page := page)],
             b.layers[layer := b.layers[layer].(texture := Some(MipmapKey(k)))],
             b.pages[page := k])
  }

  /** The consumers in order. */
  function PlaceAll(b: Bucket, proto: Mipmap, consumers: seq<nat>, texturesPage: nat -> nat): (r: Bucket)
    requires PagesInRange(b) && forall i :: 0 <= i < |consumers| ==> consumers[i] < |b.layers|
    ensures PagesInRange(r) && |r.layers| == |b.layers| && b.mipmaps <= r.mipmaps
    decreases |consumers|
  {
    if consumers == [] then b
    else
      var prev := PlaceAll(b, proto, consumers[..|consumers| - 1], texturesPage);
      PlaceInPage(prev, proto, consumers[|consumers| - 1], texturesPage)
  }

  function TexturesPageOf(layers: seq<Layer>, l: nat, texturesPage: nat -> nat): nat
    requires l < |layers|
  {
    texturesPage(layers[l].page)
  }

  /** The mipmaps after placement: the old ones stay, and every new one is a copy of the
      prototype, the one of the textures page it is stored in. */
  ghost predicate PlacedMipmaps(b0: Bucket, proto: Mipmap, r: Bucket) {
    && b0.mipmaps <= r.mipmaps
    && (forall p :: p in r.pages ==> |b0.mipmaps| <= r.pages[p] < |r.mipmaps| && r.mipmaps[r.pages[p]] == proto.(page := p))
    && (forall j :: |b0.mipmaps| <= j < |r.mipmaps| ==> r.mipmaps[j].page in r.pages && r.pages[r.mipmaps[j].page] == j)
  }

  /** The pages served are exactly the textures pages of the consumers. */
  ghost predicate PlacedPages(b0: Bucket, consumers: seq<nat>, texturesPage: nat -> nat, r: Bucket)
    requires forall i :: 0 <= i < |consumers| ==> consumers[i] < |b0.layers|
  {
    forall p :: p in r.pages <==> exists i :: 0 <= i < |consumers| && TexturesPageOf(b0.layers, consumers[i], texturesPage) == p
  }

  /** Each consumer's layer points at the mipmap of its textures page; other layers are untouched. */
  ghost predicate PlacedLayers(b0: Bucket, consumers: seq<nat>, texturesPage: nat -> nat, r: Bucket)
    requires forall i :: 0 <= i < |consumers| ==> consumers[i] < |b0.layers|
  {
    && |r.layers| == |b0.layers|
    && (forall l :: 0 <= l < |r.layers| && l !in consumers ==> r.layers[l] == b0.layers[l])
    && (forall l :: 0 <= l < |r.layers| && l in consumers ==>
          TexturesPageOf(b0.layers, l, texturesPage) in r.pages &&
          r.layers[l] == b0.layers[l].(texture := Some(MipmapKey(r.pages[TexturesPageOf(b0.layers, l, texturesPage)]))))
  }

  /** What placing a pending texture's consumers achieves, starting from arenas `b0` with no page
      served yet. */
  ghost predicate Placed(b0: Bucket, proto: Mipmap, consumers: seq<nat>, texturesPage: nat -> nat, r: Bucket)
    requires forall i :: 0 <= i < |consumers| ==> consumers[i] < |b0.layers|
  {
    PlacedMipmaps(b0, proto, r) && PlacedPages(b0, consumers, texturesPage, r) && PlacedLayers(b0, consumers, texturesPage, r)
  }

  lemma PlaceStepMipmaps(b0: Bucket, proto: Mipmap, prev: Bucket, c: nat, texturesPage: nat -> nat)
    requires c < |prev.layers| && PagesInRange(prev) && PlacedMipmaps(b0, proto, prev)
    ensures PlacedMipmaps(b0, proto, PlaceInPage(prev, proto, c, texturesPage))
  {
    var r := PlaceInPage(prev, proto, c, texturesPage);
    var page := texturesPage(prev.layers[c].page);
    if page !in prev.pages {
      forall j | |b0.mipmaps| <= j < |r.mipmaps| ensures r.mipmaps[j].page in r.pages && r.pages[r.mipmaps[j].page] == j {
        if j < |prev.mipmaps| {
          assert r.mipmaps[j] == prev.mipmaps[j];
        }
      }
    }
  }

  lemma PlaceStepPages(b0: Bucket, proto: Mipmap, prev: Bucket, front: seq<nat>, c: nat, texturesPage: nat -> nat)
    requires forall i :: 0 <= i < |front| ==> front[i] < |b0.layers|
    requires c < |b0.layers| && |prev.layers| == |b0.layers| && prev.layers[c].page == b0.layers[c].page
    requires PagesInRange(prev) && PlacedPages(b0, front, texturesPage, prev)
    ensures PlacedPages(b0, front + [c], texturesPage, PlaceInPage(prev, proto, c, texturesPage))
  {
    var r := PlaceInPage(prev, proto, c, texturesPage);
    var cs := front + [c];
    var page := TexturesPageOf(b0.layers, c, texturesPage);
    forall p ensures p in r.pages <==> exists i :: 0 <= i < |cs| && TexturesPageOf(b0.layers, cs[i], texturesPage) == p {
      if p in r.pages {
        if p == page {
          assert cs[|front|] == c;
        } else {
          assert p in prev.pages;
          var i :| 0 <= i < |front| && TexturesPageOf(b0.layers, front[i], texturesPage) == p;
          assert cs[i] == front[i];
        }
      }
      if exists i :: 0 <= i < |cs| && TexturesPageOf(b0.layers, cs[i], texturesPage) == p {
        var i :| 0 <= i < |cs| && TexturesPageOf(b0.layers, cs[i], texturesPage) == p;
        if i < |front| {
          assert front[i] == cs[i];
        }
      }
    }
  }

  lemma PlaceStepLayers(b0: Bucket, proto: Mipmap, prev: Bucket, front: seq<nat>, c: nat, texturesPage: nat -> nat)
    requires forall i :: 0 <= i < |front| ==> front[i] < |b0.layers|
    requires c < |b0.layers| && PagesInRange(prev) && PlacedLayers(b0, front, texturesPage, prev)
    ensures prev.layers[c].page == b0.layers[c].page
    ensures PlacedLayers(b0, front + [c], texturesPage, PlaceInPage(prev, proto, c, texturesPage))
  {
    var r := PlaceInPage(prev, proto, c, texturesPage);
    var cs := front + [c];
    assert forall l :: l in cs <==> l in front || l == c;
    assert prev.layers[c].page == b0.layers[c].page;
    assert forall p :: p in prev.pages ==> p in r.pages && r.pages[p] == prev.pages[p];
  }

  lemma {:induction false} PlaceAllPlaces(b0: Bucket, proto: Mipmap, consumers: seq<nat>, texturesPage: nat -> nat)
    requires b0.pages == map[] && forall i :: 0 <= i < |consumers| ==> consumers[i] < |b0.layers|
    ensures Placed(b0, proto, consumers, texturesPage, PlaceAll(b0, proto, consumers, texturesPage))
    decreases |consumers|
  {
    if consumers != [] {
      var n := |consumers|;
      var front := consumers[..n - 1];
      var c := consumers[n - 1];
      assert consumers == front + [c];
      PlaceAllPlaces(b0, proto, front, texturesPage);
      var prev := PlaceAll(b0, proto, front, texturesPage);
      assert PlaceAll(b0, proto, consumers, texturesPage) == PlaceInPage(prev, proto, c, texturesPage);
      PlaceStepMipmaps(b0, proto, prev, c, texturesPage);
      PlaceStepLayers(b0, proto, prev, front, c, texturesPage);
      PlaceStepPages(b0, proto, prev, front, c, texturesPage);
    }
  }

  /** Two consumers of the same pending texture share a bitmap exactly when their layers use
      the same textures page. */
  lemma ConsumersShareByPage(b0: Bucket, proto: Mipmap, consumers: seq<nat>, texturesPage: nat -> nat, a: nat, b: nat)
    requires b0.pages == map[] && forall i :: 0 <= i < |consumers| ==> consumers[i] < |b0.layers|
    requires a in consumers && b in consumers
    ensures var r := PlaceAll(b0, proto, consumers, texturesPage);
      && r.layers[a].texture.Some? && r.layers[a].texture.value.MipmapKey?
      && r.layers[b].texture.Some? && r.layers[b].texture.value.MipmapKey?
      && (r.layers[a].texture == r.layers[b].texture
          <==> TexturesPageOf(b0.layers, a, texturesPage) == TexturesPageOf(b0.layers, b, texturesPage))
      && r.layers[a].texture.value.mipmap < |r.mipmaps|
      && r.mipmaps[r.layers[a].texture.value.mipmap].page == TexturesPageOf(b0.layers, a, texturesPage)
  {
    PlaceAllPlaces(b0, proto, consumers, texturesPage);
    var r := PlaceAll(b0, proto, consumers, texturesPage);
    var pa, pb := TexturesPageOf(b0.layers, a, texturesPage), TexturesPageOf(b0.layers, b, texturesPage);
    var ia :| 0 <= ia < |consumers| && consumers[ia] == a;
    var ib :| 0 <= ib < |consumers| && consumers[ib] == b;
    assert pa in r.pages && pb in r.pages;
    if r.pages[pa] == r.pages[pb] {
      assert r.mipmaps[r.pages[pa]].page == pa;
    }
  }

  /** The placement loop after one more consumer. */
  lemma PlaceAllStep(b: Bucket, proto: Mipmap, consumers: seq<nat>, j: nat, texturesPage: nat -> nat)
    requires PagesInRange(b) && forall i :: 0 <= i < |consumers| ==> consumers[i] < |b.layers|
    requires j < |consumers|
    ensures PlaceAll(b, proto, consumers[..j + 1], texturesPage)
         == PlaceInPage(PlaceAll(b, proto, consumers[..j], texturesPage), proto, consumers[j], texturesPage)
  {
    assert consumers[..j + 1][..j] == consumers[..j];
  }

  /** `self._pending.items()`: the pending textures in the table's order. */
  function Items(t: PendingTable): (r: seq<Entry>)
    requires WellFormed(t)
    ensures |r| == |t.order|
    ensures forall i :: 0 <= i < |t.order| ==> r[i] == t.entries[t.order[i]]
  {
    seq(|t.order|, (i: int) requires 0 <= i < |t.order| => t.entries[t.order[i]])
  }

  /** Every consumer the entries list is a layer below `n`. */
  ghost predicate ConsumersBelow(es: seq<Entry>, n: nat) {
    forall i :: 0 <= i < |es| ==> forall j :: 0 <= j < |es[i].layers| ==> es[i].layers[j] < n
  }

  lemma ItemsBelow(t: PendingTable, n: nat)
    requires WellFormed(t) && LayersBelow(t, n)
    ensures ConsumersBelow(Items(t), n)
  {
    forall i | 0 <= i < |t.order| ensures t.order[i] in t.entries {
    }
  }

  /** The encoding of each pending texture. */
  function Encodings(svc: Services, es: seq<Entry>): (r: seq<Mipmap>)
    requires ValidServices(svc)
    ensures |r| == |es|
  {
    seq(|es|, (i: int) requires 0 <= i < |es| => MipmapFor(svc, es[i].key))
  }

  /** The `q`-th pending texture's encoding is its mipmap. */
  lemma EncodingOf(svc: Services, es: seq<Entry>, q: nat)
    requires ValidServices(svc) && q < |es|
    ensures Encodings(svc, es)[q] == MipmapFor(svc, es[q].key)
  {
  }

  /** `finalize`'s outer loop after the first `n` pending textures, each with its encoding in
      `protos`: each is placed among its consumers, from no page served. */
  function FinalizeUpTo(protos: seq<Mipmap>, tp: nat -> nat, es: seq<Entry>, n: nat,
                        mipmaps: seq<Mipmap>, layers: seq<Layer>): (r: (seq<Mipmap>, seq<Layer>))
    requires |protos| == |es| && n <= |es| && ConsumersBelow(es, |layers|)
    ensures |r.1| == |layers| && |mipmaps| <= |r.0|
    decreases n
  {
    if n == 0 then (mipmaps, layers)
    else
      var prev := FinalizeUpTo(protos, tp, es, n - 1, mipmaps, layers);
      var b := PlaceAll(Bucket(prev.0, prev.1, map[]), protos[n - 1], es[n - 1].layers, tp);
      (b.mipmaps, b.layers)
  }

  /** The whole of `finalize`: every pending texture, in the table's order, encoded and placed. */
  function Finalized(svc: Services, t: PendingTable, mipmaps: seq<Mipmap>, layers: seq<Layer>): (r: (seq<Mipmap>, seq<Layer>))
    requires ValidServices(svc) && WellFormed(t) && LayersBelow(t, |layers|)
    ensures |r.1| == |layers| && |mipmaps| <= |r.0|
  {
    ItemsBelow(t, |layers|);
    FinalizeUpTo(Encodings(svc, Items(t)), svc.texturesPage, Items(t), |t.order|, mipmaps, layers)
  }

  // The states `finalize` passes through, `h[n]` after the first `n` pending textures.

  /** The `n`-th pending texture (`es[n - 1]`) placed among its consumers leads from `h[n - 1]`
      to `h[n]`. */
  ghost predicate StepAt(protos: seq<Mipmap>, tp: nat -> nat, es: seq<Entry>, h: seq<(seq<Mipmap>, seq<Layer>)>, n: nat) {
    && 0 < n < |h| && n <= |es| && n <= |protos|
    && ConsumersBelow(es, |h[n - 1].1|)
    && var b := PlaceAll(Bucket(h[n - 1].0, h[n - 1].1, map[]), protos[n - 1], es[n - 1].layers, tp);
       h[n] == (b.mipmaps, b.layers)
  }

  ghost predicate History(protos: seq<Mipmap>, tp: nat -> nat, es: seq<Entry>, h: seq<(seq<Mipmap>, seq<Layer>)>,
                          mipmaps: seq<Mipmap>, layers: seq<Layer>) {
    && |h| == |es| + 1 && |protos| == |es| && h[0] == (mipmaps, layers)
    && ConsumersBelow(es, |layers|)
    && (forall n :: 0 <= n < |h| ==> |h[n].1| == |layers|)
    && (forall n :: 0 < n < |h| ==> StepAt(protos, tp, es, h, n))
  }

  /** `finalize`'s states are a history. */
  lemma FinalizeHistory(protos: seq<Mipmap>, tp: nat -> nat, es: seq<Entry>, mipmaps: seq<Mipmap>, layers: seq<Layer>)
    returns (h: seq<(seq<Mipmap>, seq<Layer>)>)
    requires |protos| == |es| && ConsumersBelow(es, |layers|)
    ensures History(protos, tp, es, h, mipmaps, layers) && h[|es|] == FinalizeUpTo(protos, tp, es, |es|, mipmaps, layers)
  {
    h := seq(|es| + 1, (n: int) requires 0 <= n <= |es| => FinalizeUpTo(protos, tp, es, n, mipmaps, layers));
    forall n | 0 < n < |h| ensures StepAt(protos, tp, es, h, n) {
      assert h[n - 1] == FinalizeUpTo(protos, tp, es, n - 1, mipmaps, layers);
    }
  }

  /** The history of a whole session: the states `finalize` passes through, from the given arenas
      to `Finalized`. */
  lemma SessionHistory(svc: Services, t: PendingTable, mipmaps: seq<Mipmap>, layers: seq<Layer>)
    returns (h: seq<(seq<Mipmap>, seq<Layer>)>)
    requires ValidServices(svc) && WellFormed(t) && LayersBelow(t, |layers|)
    ensures History(Encodings(svc, Items(t)), svc.texturesPage, Items(t), h, mipmaps, layers)
    ensures h[|t.order|] == Finalized(svc, t, mipmaps, layers)
  {
    ItemsBelow(t, |layers|);
    h := FinalizeHistory(Encodings(svc, Items(t)), svc.texturesPage, Items(t), mipmaps, layers);
  }

  /** The state after the pending texture `n` is the placement of its encoding among its
      consumers, from the state before. */
  lemma StepNext(protos: seq<Mipmap>, tp: nat -> nat, es: seq<Entry>, h: seq<(seq<Mipmap>, seq<Layer>)>,
                 mipmaps: seq<Mipmap>, layers: seq<Layer>, n: nat, proto: Mipmap, consumers: seq<nat>)
    requires History(protos, tp, es, h, mipmaps, layers) && n < |es|
    requires proto == protos[n] && consumers == es[n].layers
    ensures forall j :: 0 <= j < |consumers| ==> consumers[j] < |h[n].1|
    ensures var b := PlaceAll(Bucket(h[n].0, h[n].1, map[]), proto, consumers, tp);
      h[n + 1] == (b.mipmaps, b.layers)
  {
    assert StepAt(protos, tp, es, h, n + 1);
  }

  /** What placing the `n`-th pending texture achieves. */
  lemma StepPlaced(protos: seq<Mipmap>, tp: nat -> nat, es: seq<Entry>, h: seq<(seq<Mipmap>, seq<Layer>)>,
                   mipmaps: seq<Mipmap>, layers: seq<Layer>, n: nat)
    requires History(protos, tp, es, h, mipmaps, layers) && 0 < n < |h|
    ensures var b0 := Bucket(h[n - 1].0, h[n - 1].1, map[]);
      var b := PlaceAll(b0, protos[n - 1], es[n - 1].layers, tp);
      && Placed(b0, protos[n - 1], es[n - 1].layers, tp, b)
      && h[n] == (b.mipmaps, b.layers)
  {
    assert StepAt(protos, tp, es, h, n);
    PlaceAllPlaces(Bucket(h[n - 1].0, h[n - 1].1, map[]), protos[n - 1], es[n - 1].layers, tp);
  }

  /** Placing the `n`-th pending texture keeps the mipmaps made before. */
  lemma StepKeepsMipmap(protos: seq<Mipmap>, tp: nat -> nat, es: seq<Entry>, h: seq<(seq<Mipmap>, seq<Layer>)>,
                        mipmaps: seq<Mipmap>, layers: seq<Layer>, n: nat, m: nat)
    requires History(protos, tp, es, h, mipmaps, layers) && 0 < n < |h|
    ensures |h[n - 1].0| <= |h[n].0|
    ensures m < |h[n - 1].0| ==> h[n].0[m] == h[n - 1].0[m]
  {
    StepPlaced(protos, tp, es, h, mipmaps, layers, n);
    if m < |h[n - 1].0| {
      assert h[n - 1].0[m] == h[n - 1].0[..|h[n - 1].0|][m];
    }
  }

  /** Placing the `n`-th pending texture changes only textures of layers, and only of the layers
      it lists. */
  lemma StepKeepsLayer(protos: seq<Mipmap>, tp: nat -> nat, es: seq<Entry>, h: seq<(seq<Mipmap>, seq<Layer>)>,
                       mipmaps: seq<Mipmap>, layers: seq<Layer>, n: nat, l: nat)
    requires History(protos, tp, es, h, mipmaps, layers) && 0 < n < |h| && l < |layers|
    ensures h[n].1[l] == h[n - 1].1[l].(texture := h[n].1[l].texture)
    ensures l !in es[n - 1].layers ==> h[n].1[l] == h[n - 1].1[l]
  {
    StepPlaced(protos, tp, es, h, mipmaps, layers, n);
  }

  /** Finalizing changes only the textures of layers: their pages and everything else stay. */
  lemma {:induction false} KeepsPages(protos: seq<Mipmap>, tp: nat -> nat, es: seq<Entry>, h: seq<(seq<Mipmap>, seq<Layer>)>,
                                      mipmaps: seq<Mipmap>, layers: seq<Layer>, n: nat, l: nat)
    requires History(protos, tp, es, h, mipmaps, layers) && n < |h| && l < |layers|
    ensures h[n].1[l] == layers[l].(texture := h[n].1[l].texture)
    decreases n
  {
    if n > 0 {
      KeepsPages(protos, tp, es, h, mipmaps, layers, n - 1, l);
      StepKeepsLayer(protos, tp, es, h, mipmaps, layers, n, l);
    }
  }

  /** From state `q` to state `n`, the mipmap at index `m` is kept. */
  lemma {:induction false} KeepsMipmap(protos: seq<Mipmap>, tp: nat -> nat, es: seq<Entry>, h: seq<(seq<Mipmap>, seq<Layer>)>,
                                       mipmaps: seq<Mipmap>, layers: seq<Layer>, q: nat, n: nat, m: nat)
    requires History(protos, tp, es, h, mipmaps, layers) && q <= n < |h|
    ensures |h[q].0| <= |h[n].0|
    ensures m < |h[q].0| ==> h[n].0[m] == h[q].0[m]
    decreases n
  {
    if q < n {
      KeepsMipmap(protos, tp, es, h, mipmaps, layers, q, n - 1, m);
      StepKeepsMipmap(protos, tp, es, h, mipmaps, layers, n, m);
    }
  }

  /** From state `q` to state `n`, a layer none of the pending textures in between lists is left
      alone. */
  lemma {:induction false} KeepsLayer(protos: seq<Mipmap>, tp: nat -> nat, es: seq<Entry>, h: seq<(seq<Mipmap>, seq<Layer>)>,
                                      mipmaps: seq<Mipmap>, layers: seq<Layer>, q: nat, n: nat, l: nat)
    requires History(protos, tp, es, h, mipmaps, layers) && q <= n < |h| && l < |layers|
    requires forall j :: q <= j < n ==> l !in es[j].layers
    ensures h[n].1[l] == h[q].1[l]
    decreases n
  {
    if q < n {
      KeepsLayer(protos, tp, es, h, mipmaps, layers, q, n - 1, l);
      assert l !in es[n - 1].layers;
      StepKeepsLayer(protos, tp, es, h, mipmaps, layers, n, l);
    }
  }

  /** Consumer `l` served by the pending texture `q` in state `r`: it points at a mipmap made
      while `q` was placed, a copy of `q`'s encoding stored in the layer's textures page. */
  ghost predicate ServedBy(protos: seq<Mipmap>, tp: nat -> nat, h: seq<(seq<Mipmap>, seq<Layer>)>,
                           layers: seq<Layer>, q: nat, l: nat, r: (seq<Mipmap>, seq<Layer>))
    requires q + 1 < |h| && q < |protos| && l < |layers|
  {
    && l < |r.1| && r.1[l].texture.Some? && r.1[l].texture.value.MipmapKey?
    && var m := r.1[l].texture.value.mipmap;
       && |h[q].0| <= m < |h[q + 1].0| && m < |r.0|
       && r.0[m] == protos[q].(page := tp(layers[l].page))
       && r.1[l] == layers[l].(texture := Some(MipmapKey(m)))
  }

  /** Right after the pending texture `q` is placed, each of its consumers is served by it. */
  lemma StepServes(protos: seq<Mipmap>, tp: nat -> nat, es: seq<Entry>, h: seq<(seq<Mipmap>, seq<Layer>)>,
                   mipmaps: seq<Mipmap>, layers: seq<Layer>, q: nat, l: nat)
    requires History(protos, tp, es, h, mipmaps, layers) && q < |es| && l < |layers| && l in es[q].layers
    ensures ServedBy(protos, tp, h, layers, q, l, h[q + 1])
  {
    StepPlaced(protos, tp, es, h, mipmaps, layers, q + 1);
    KeepsPages(protos, tp, es, h, mipmaps, layers, q, l);
  }

  /** The last pending texture that lists a layer serves it at the end. */
  lemma Serves(protos: seq<Mipmap>, tp: nat -> nat, es: seq<Entry>, h: seq<(seq<Mipmap>, seq<Layer>)>,
               mipmaps: seq<Mipmap>, layers: seq<Layer>, q: nat, l: nat)
    requires History(protos, tp, es, h, mipmaps, layers) && q < |es| && l < |layers|
    requires l in es[q].layers && forall j :: q < j < |es| ==> l !in es[j].layers
    ensures ServedBy(protos, tp, h, layers, q, l, h[|es|])
  {
    StepServes(protos, tp, es, h, mipmaps, layers, q, l);
    var m := h[q + 1].1[l].texture.value.mipmap;
    KeepsLayer(protos, tp, es, h, mipmaps, layers, q + 1, |es|, l);
    KeepsMipmap(protos, tp, es, h, mipmaps, layers, q + 1, |es|, m);
  }

  /** Within one pending texture's placement, two distinct new mipmaps belong to two textures
      pages. */
  lemma SameStepDistinctPages(protos: seq<Mipmap>, tp: nat -> nat, es: seq<Entry>, h: seq<(seq<Mipmap>, seq<Layer>)>,
                              mipmaps: seq<Mipmap>, layers: seq<Layer>, q: nat, a: nat, b: nat)
    requires History(protos, tp, es, h, mipmaps, layers) && q < |es| && a < |layers| && b < |layers|
    requires a in es[q].layers && b in es[q].layers
    requires h[q + 1].1[a].texture != h[q + 1].1[b].texture
    ensures tp(layers[a].page) != tp(layers[b].page)
  {
    StepPlaced(protos, tp, es, h, mipmaps, layers, q + 1);
    KeepsPages(protos, tp, es, h, mipmaps, layers, q, a);
    KeepsPages(protos, tp, es, h, mipmaps, layers, q, b);
    assert TexturesPageOf(h[q].1, a, tp) == tp(layers[a].page);
    assert TexturesPageOf(h[q].1, b, tp) == tp(layers[b].page);
  }

  /** A layer no pending texture lists as a consumer comes out of `finalize` as it went in. */
  lemma FinalizeKeepsUnlisted(svc: Services, t: PendingTable, mipmaps: seq<Mipmap>, layers: seq<Layer>, l: nat)
    requires ValidServices(svc) && WellFormed(t) && LayersBelow(t, |layers|) && l < |layers|
    requires forall id :: id in t.entries ==> l !in t.entries[id].layers
    ensures Finalized(svc, t, mipmaps, layers).1[l] == layers[l]
  {
    var es := Items(t);
    ItemsBelow(t, |layers|);
    var h := FinalizeHistory(Encodings(svc, es), svc.texturesPage, es, mipmaps, layers);
    forall j | 0 <= j < |es| ensures l !in es[j].layers {
      assert t.order[j] in t.entries;
    }
    KeepsLayer(Encodings(svc, es), svc.texturesPage, es, h, mipmaps, layers, 0, |es|, l);
  }

  /** The last pending texture that lists a layer decides it: the layer comes out of `finalize`
      pointing at a new mipmap, that texture's encoding stored in the layer's textures page. A
      layer two pending textures list is thus served by the later one. */
  lemma FinalizeServes(svc: Services, t: PendingTable, mipmaps: seq<Mipmap>, layers: seq<Layer>, q: nat, l: nat)
    requires ValidServices(svc) && WellFormed(t) && LayersBelow(t, |layers|) && l < |layers| && q < |t.order|
    requires l in t.entries[t.order[q]].layers
    requires forall j :: q < j < |t.order| ==> l !in t.entries[t.order[j]].layers
    ensures var r := Finalized(svc, t, mipmaps, layers);
      && r.1[l].texture.Some? && r.1[l].texture.value.MipmapKey?
      && var m := r.1[l].texture.value.mipmap;
         && |mipmaps| <= m < |r.0|
         && r.0[m] == MipmapFor(svc, t.entries[t.order[q]].key).(page := svc.texturesPage(layers[l].page))
         && r.1[l] == layers[l].(texture := Some(MipmapKey(m)))
  {
    var es := Items(t);
    ItemsBelow(t, |layers|);
    var h := FinalizeHistory(Encodings(svc, es), svc.texturesPage, es, mipmaps, layers);
    Serves(Encodings(svc, es), svc.texturesPage, es, h, mipmaps, layers, q, l);
    EncodingOf(svc, es, q);
    KeepsMipmap(Encodings(svc, es), svc.texturesPage, es, h, mipmaps, layers, 0, q, 0);
  }

  /** Layers decided by two different pending textures never share a mipmap. */
  lemma NeverSharesAcross(protos: seq<Mipmap>, tp: nat -> nat, es: seq<Entry>, h: seq<(seq<Mipmap>, seq<Layer>)>,
                          mipmaps: seq<Mipmap>, layers: seq<Layer>, qa: nat, qb: nat, a: nat, b: nat)
    requires History(protos, tp, es, h, mipmaps, layers) && qa < |es| && qb < |es| && qa != qb && a < |layers| && b < |layers|
    requires a in es[qa].layers && forall j :: qa < j < |es| ==> a !in es[j].layers
    requires b in es[qb].layers && forall j :: qb < j < |es| ==> b !in es[j].layers
    ensures h[|es|].1[a].texture != h[|es|].1[b].texture
  {
    Serves(protos, tp, es, h, mipmaps, layers, qa, a);
    Serves(protos, tp, es, h, mipmaps, layers, qb, b);
    if qa < qb {
      KeepsMipmap(protos, tp, es, h, mipmaps, layers, qa + 1, qb, 0);
    } else {
      KeepsMipmap(protos, tp, es, h, mipmaps, layers, qb + 1, qa, 0);
    }
  }

  /** Layers decided by the same pending texture share a mipmap exactly when their textures
      pages agree. */
  lemma SharesByPage(protos: seq<Mipmap>, tp: nat -> nat, es: seq<Entry>, h: seq<(seq<Mipmap>, seq<Layer>)>,
                     mipmaps: seq<Mipmap>, layers: seq<Layer>, q: nat, a: nat, b: nat)
    requires History(protos, tp, es, h, mipmaps, layers) && q < |es| && a < |layers| && b < |layers|
    requires a in es[q].layers && forall j :: q < j < |es| ==> a !in es[j].layers
    requires b in es[q].layers && forall j :: q < j < |es| ==> b !in es[j].layers
    ensures h[|es|].1[a].texture == h[|es|].1[b].texture <==> tp(layers[a].page) == tp(layers[b].page)
  {
    Serves(protos, tp, es, h, mipmaps, layers, q, a);
    Serves(protos, tp, es, h, mipmaps, layers, q, b);
    KeepsLayer(protos, tp, es, h, mipmaps, layers, q + 1, |es|, a);
    KeepsLayer(protos, tp, es, h, mipmaps, layers, q + 1, |es|, b);
    if h[|es|].1[a].texture != h[|es|].1[b].texture {
      SameStepDistinctPages(protos, tp, es, h, mipmaps, layers, q, a, b);
    }
  }

  // After `finalize`, a layer's deciding texture is the last pending texture that lists it.

  /** Each pending texture gets mipmaps of its own: two layers that different pending textures
      decide never share a mipmap after `finalize`. */
  lemma FinalizeNeverSharesAcross(svc: Services, t: PendingTable, mipmaps: seq<Mipmap>, layers: seq<Layer>,
                                  qa: nat, qb: nat, a: nat, b: nat)
    requires ValidServices(svc) && WellFormed(t) && LayersBelow(t, |layers|)
    requires qa < |t.order| && qb < |t.order| && qa != qb && a < |layers| && b < |layers|
    requires a in t.entries[t.order[qa]].layers && forall j :: qa < j < |t.order| ==> a !in t.entries[t.order[j]].layers
    requires b in t.entries[t.order[qb]].layers && forall j :: qb < j < |t.order| ==> b !in t.entries[t.order[j]].layers
    ensures var r := Finalized(svc, t, mipmaps, layers); r.1[a].texture != r.1[b].texture
  {
    var es := Items(t);
    ItemsBelow(t, |layers|);
    var h := FinalizeHistory(Encodings(svc, es), svc.texturesPage, es, mipmaps, layers);
    NeverSharesAcross(Encodings(svc, es), svc.texturesPage, es, h, mipmaps, layers, qa, qb, a, b);
  }

  /** Each pending texture is encoded once per textures page: two layers the same pending
      texture decides share a mipmap after `finalize` exactly when their textures pages agree. */
  lemma FinalizeSharesByPage(svc: Services, t: PendingTable, mipmaps: seq<Mipmap>, layers: seq<Layer>,
                             q: nat, a: nat, b: nat)
    requires ValidServices(svc) && WellFormed(t) && LayersBelow(t, |layers|)
    requires q < |t.order| && a < |layers| && b < |layers|
    requires a in t.entries[t.order[q]].layers && forall j :: q < j < |t.order| ==> a !in t.entries[t.order[j]].layers
    requires b in t.entries[t.order[q]].layers && forall j :: q < j < |t.order| ==> b !in t.entries[t.order[j]].layers
    ensures var r := Finalized(svc, t, mipmaps, layers);
      r.1[a].texture == r.1[b].texture <==> svc.texturesPage(layers[a].page) == svc.texturesPage(layers[b].page)
  {
    var es := Items(t);
    ItemsBelow(t, |layers|);
    var h := FinalizeHistory(Encodings(svc, es), svc.texturesPage, es, mipmaps, layers);
    SharesByPage(Encodings(svc, es), svc.texturesPage, es, h, mipmaps, layers, q, a, b);
  }
}
