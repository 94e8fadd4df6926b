/** `_Texture`: the identity and encoding policy of one source image, and the session's table of
    pending textures that deduplicates bitmaps before they are encoded. */
module Textures {
  import opened Wrappers
  import opened Seqs
  import opened Blender

  /** A `_Texture`: the image, whether alpha is synthesised (calc_alpha), whether mip levels
      are generated, and whether the bitmap keeps an alpha channel. */
  datatype TexKey = TexKey(image: Image, calcAlpha: bool, mipmap: bool, useAlpha: bool)

  /** What `__eq__` and `__hash__` look at: the image and calc_alpha. */
  type Ident = (Image, bool)

  function IdentOf(k: TexKey): Ident {
    (k.image, k.calcAlpha)
  }

  /** `_Texture.__init__`. The source asserts that a texture or an image is given; the
      precondition asks for an image, which the image exporter checks before building a key and
      `export_prepared_layer` checks as the assertion would (MaterialConverter.ExportPreparedLayer). */
  function NewTexKey(texture: Option<Texture>, image: Option<Image>, useAlpha: Option<bool>,
                     forceCalcAlpha: bool): (k: TexKey)
    requires image.Some? || (texture.Some? && texture.value.image.Some?)
    ensures k.image == if image.Some? then image.value else texture.value.image.value
    ensures k.calcAlpha <==> forceCalcAlpha || (texture.Some? && texture.value.useCalculateAlpha)
    ensures k.mipmap <==> texture.Some? && texture.value.useMipmap
    ensures k.calcAlpha ==> k.useAlpha
    ensures !k.calcAlpha && useAlpha.Some? ==> k.useAlpha == useAlpha.value
    ensures !k.calcAlpha && useAlpha.None? ==> (k.useAlpha <==> k.image.channels == 4 && k.image.useAlpha)
  {
    var img := if image.Some? then image.value else texture.value.image.value;
    var requested := texture.Some? && texture.value.useCalculateAlpha;
    var mip := texture.Some? && texture.value.useMipmap;
    if forceCalcAlpha || requested then TexKey(img, true, mip, true)
    else if useAlpha.None? then TexKey(img, false, mip, img.channels == 4 && img.useAlpha)
    else TexKey(img, false, mip, useAlpha.value)
  }

  /** `_update`: take over any flag the other copy of the same texture asks for. */
  function Update(self: TexKey, other: TexKey): (r: TexKey)
    ensures IdentOf(r) == IdentOf(self)
    ensures r.useAlpha <==> self.useAlpha || other.useAlpha
    ensures r.mipmap <==> self.mipmap || other.mipmap
  {
    var withAlpha := if other.useAlpha then self.(useAlpha := true) else self;
    if other.mipmap then withAlpha.(mipmap := true) else withAlpha
  }

  /** `__eq__`: whether the two are the same texture, and the receiver's state afterwards
      (on equality the receiver absorbs the other's flags; the other is left as it was). */
  function Equals(self: TexKey, other: TexKey): (r: (bool, TexKey))
    ensures r.0 <==> IdentOf(self) == IdentOf(other)
    ensures IdentOf(r.1) == IdentOf(self)
    ensures r.0 ==> ((r.1.useAlpha <==> self.useAlpha || other.useAlpha)
                     && (r.1.mipmap <==> self.mipmap || other.mipmap))
    ensures !r.0 ==> r.1 == self
  {
    if self.image == other.image && self.calcAlpha == other.calcAlpha then (true, Update(self, other))
    else (false, self)
  }

  /** Merging the same copy twice changes nothing more. */
  lemma MergeIdempotent(self: TexKey, other: TexKey)
    ensures Equals(Equals(self, other).1, other) == Equals(self, other)
  {
  }

  /** `__hash__` combines the image name and calc_alpha; equal keys hash alike. */
  function Hash(k: TexKey): (r: (string, bool))
    ensures r == (IdentOf(k).0.name, IdentOf(k).1)
  {
    (k.image.name, k.calcAlpha)
  }

  lemma HashAgreesWithEquality(a: TexKey, b: TexKey)
    ensures Equals(a, b).0 ==> Hash(a) == Hash(b)
  {
  }

  // ---------------------------------------------------------------------------------------
  // The canonical name (`__str__`), after PurePath.with_suffix on a '/'-separated path.

  /** str.rfind(c) */
  function LastIndexOf(s: string, c: char): (r: Option<nat>)
    ensures r.Some? ==> r.value < |s| && s[r.value] == c && forall j :: r.value < j < |s| ==> s[j] != c
    ensures r.None? ==> forall j :: 0 <= j < |s| ==> s[j] != c
  {
    if |s| == 0 then None
    else if s[|s| - 1] == c then Some(|s| - 1)
    else LastIndexOf(s[..|s| - 1], c)
  }

  /** The directories of a path: everything up to and including its last '/'. */
  function Parent(path: string): (r: string)
    ensures r <= path
  {
    match LastIndexOf(path, '/')
    case Some(i) => path[..i + 1]
    case None => ""
  }

  /** PurePath.name: the final component. */
  function FinalName(path: string): (r: string)
    ensures path == Parent(path) + r
  {
    path[|Parent(path)|..]
  }

  /** The directories end in a separator, and the final component holds none. */
  lemma Components(path: string)
    ensures |Parent(path)| > 0 ==> Parent(path)[|Parent(path)| - 1] == '/'
    ensures forall j :: 0 <= j < |FinalName(path)| ==> FinalName(path)[j] != '/'
  {
    var p := Parent(path);
    match LastIndexOf(path, '/')
    case Some(i) =>
      assert forall j :: 0 <= j < |FinalName(path)| ==> FinalName(path)[j] == path[|p| + j];
    case None =>
  }

  /** PurePath.suffix: the final component from its last dot on, unless that dot is the
      component's first or last character. */
  function Suffix(path: string): (r: string)
    ensures |r| <= |FinalName(path)|
  {
    var name := FinalName(path);
    match LastIndexOf(name, '.')
    case Some(i) => if 0 < i < |name| - 1 then name[i..] else ""
    case None => ""
  }

  /** PurePath.stem: the final component without its suffix. */
  function Stem(path: string): string {
    var name := FinalName(path);
    name[..|name| - |Suffix(path)|]
  }

  /** PurePath.with_suffix: replace the final component's suffix, or append one when it has none;
      the directories stay. */
  function WithSuffix(path: string, suffix: string): string {
    var name := FinalName(path);
    var current := Suffix(path);
    Parent(path) + (if current == "" then name else name[..|name| - |current|]) + suffix
  }

  /** A suffix as the exporter writes them: a dot and at least one further character, no
      further dot and no separator. */
  predicate IsExtension(ext: string) {
    |ext| >= 2 && ext[0] == '.' && forall j :: 1 <= j < |ext| ==> ext[j] != '.' && ext[j] != '/'
  }

  /** `__str__` */
  function TexName(k: TexKey): string {
    var name := WithSuffix(k.image.name, if k.mipmap then ".dds" else ".bmp");
    if k.calcAlpha then "ALPHAGEN_" + name else name
  }

  /** A suffix adds to the final component and leaves the directories alone. */
  lemma {:induction false} ExtendedComponents(a: string, ext: string)
    requires IsExtension(ext)
    ensures Parent(a + ext) == Parent(a) && FinalName(a + ext) == FinalName(a) + ext
  {
    var w := a + ext;
    assert forall j :: |a| <= j < |w| ==> w[j] != '/';
    match LastIndexOf(a, '/')
    case Some(i) =>
      assert w[i] == '/';
      assert LastIndexOf(w, '/') == Some(i);
    case None =>
      assert forall j :: 0 <= j < |w| ==> w[j] != '/';
  }

  /** The last dot of a component followed by an extension is the extension's own. */
  lemma {:induction false} LastDotOfExtended(a: string, ext: string)
    requires IsExtension(ext)
    ensures LastIndexOf(a + ext, '.') == Some(|a|)
  {
    var w := a + ext;
    assert w[|a|] == '.';
    assert forall j :: |a| < j < |w| ==> w[j] == ext[j - |a|];
  }

  /** A non-empty final component keeps a non-empty stem. */
  lemma StemNonEmpty(path: string)
    requires |FinalName(path)| > 0
    ensures |Stem(path)| > 0 && forall j :: 0 <= j < |Stem(path)| ==> Stem(path)[j] != '/'
  {
    Components(path);
    match LastIndexOf(FinalName(path), '.')
    case Some(i) =>
    case None =>
  }

  /** A path with a non-empty stem, followed by an extension, has the extension as its suffix and
      keeps its directories and stem. */
  lemma {:induction false} SuffixOfExtended(a: string, ext: string)
    requires IsExtension(ext) && |FinalName(a)| > 0
    ensures Parent(a + ext) == Parent(a) && Suffix(a + ext) == ext && Stem(a + ext) == FinalName(a)
  {
    ExtendedComponents(a, ext);
    LastDotOfExtended(FinalName(a), ext);
    var name := FinalName(a) + ext;
    assert Suffix(a + ext) == name[|FinalName(a)|..];
    assert name[|FinalName(a)|..] == ext;
  }

  /** A path whose final component is not empty, given a new extension, keeps its directories
      and its stem and has exactly that extension. */
  lemma {:induction false} WithSuffixRoundTrip(path: string, ext: string)
    requires IsExtension(ext) && |FinalName(path)| > 0
    ensures WithSuffix(path, ext) == Parent(path) + Stem(path) + ext
    ensures Parent(WithSuffix(path, ext)) == Parent(path)
    ensures Suffix(WithSuffix(path, ext)) == ext
    ensures Stem(WithSuffix(path, ext)) == Stem(path)
  {
    var p, n, st := Parent(path), FinalName(path), Stem(path);
    StemNonEmpty(path);
    Components(path);
    assert st <= n;
    ExtendedParent(p, st);
    var a := p + st;
    assert FinalName(a) == st;
    assert |FinalName(a)| > 0;
    SuffixOfExtended(a, ext);
    var cur := Suffix(path);
    assert (if cur == "" then n else n[..|n| - |cur|]) == st;
  }

  /** Parent and final component of a directory part followed by a component without
      separators. */
  lemma {:induction false} ExtendedParent(dir: string, name: string)
    requires |dir| > 0 ==> dir[|dir| - 1] == '/'
    requires forall j :: 0 <= j < |name| ==> name[j] != '/'
    ensures Parent(dir + name) == dir && FinalName(dir + name) == name
  {
    var w := dir + name;
    assert forall j :: |dir| <= j < |w| ==> w[j] != '/';
    if |dir| > 0 {
      assert w[|dir| - 1] == '/';
      assert LastIndexOf(w, '/') == Some(|dir| - 1);
    } else {
      assert LastIndexOf(w, '/') == None;
    }
  }

  /** A path that ends in a non-empty name without separators has a non-empty final component. */
  lemma EndsInComponent(dir: string, name: string)
    requires |name| > 0 && forall j :: 0 <= j < |name| ==> name[j] != '/'
    ensures |FinalName(dir + name)| > 0
  {
    assert (dir + name)[|dir + name| - 1] == name[|name| - 1];
  }

  /** A prefix, then a path given an extension: the prefix, the path's directories and stem,
      then the extension, which is also the whole string's suffix. */
  lemma {:induction false} PrefixedWithSuffix(prefix: string, path: string, ext: string)
    requires IsExtension(ext) && |FinalName(path)| > 0
    ensures prefix + WithSuffix(path, ext) == prefix + Parent(path) + Stem(path) + ext
    ensures Suffix(prefix + WithSuffix(path, ext)) == ext
  {
    WithSuffixRoundTrip(path, ext);
    var p, st := Parent(path), Stem(path);
    AppendAssoc(prefix, p + st, ext);
    AppendAssoc(prefix, p, st);
    StemNonEmpty(path);
    EndsInComponent(prefix + p, st);
    SuffixOfExtended(prefix + p + st, ext);
  }

  /** The two extensions the exporter writes are suffixes. */
  lemma ExporterExtensions()
    ensures IsExtension(".dds") && IsExtension(".bmp")
  {
  }

  /** The canonical name: "ALPHAGEN_" when alpha is synthesised, the image's directories and
      stem, then ".dds" for a mipmapped texture and ".bmp" otherwise. */
  lemma {:induction false} TexNameShape(k: TexKey)
    requires |FinalName(k.image.name)| > 0
    ensures var ext := if k.mipmap then ".dds" else ".bmp";
            TexName(k) == (if k.calcAlpha then "ALPHAGEN_" else "") + Parent(k.image.name) + Stem(k.image.name) + ext
            && Suffix(TexName(k)) == ext
  {
    var ext := if k.mipmap then ".dds" else ".bmp";
    ExporterExtensions();
    var prefix := if k.calcAlpha then "ALPHAGEN_" else "";
    PrefixedWithSuffix(prefix, k.image.name, ext);
    assert TexName(k) == prefix + WithSuffix(k.image.name, ext);
  }

  /** Two different images may share a canonical name: names are not identities. Images whose
      file names differ only in their extension ("rock.png", "rock.jpg") are distinct textures
      that are written under one name. */
  lemma DistinctTexturesMayShareName(a: TexKey, b: TexKey, stem: Name, ext1: string, ext2: string)
    requires IsExtension(ext1) && IsExtension(ext2) && ext1 != ext2 && |FinalName(stem)| > 0
    requires a.image.name == stem + ext1 && b.image.name == stem + ext2
    requires a.calcAlpha == b.calcAlpha && a.mipmap == b.mipmap
    ensures IdentOf(a) != IdentOf(b)
    ensures TexName(a) == TexName(b)
  {
    var ext := if a.mipmap then ".dds" else ".bmp";
    ReplaceExtension(stem, ext1, ext);
    ReplaceExtension(stem, ext2, ext);
    assert a.image.name[|stem|..] == ext1;
    assert b.image.name[|stem|..] == ext2;
  }

  /** Replacing one extension of a path by another keeps its directories and stem. */
  lemma {:induction false} ReplaceExtension(stem: string, ext: string, ext2: string)
    requires IsExtension(ext) && |FinalName(stem)| > 0
    ensures WithSuffix(stem + ext, ext2) == stem + ext2
  {
    var w := stem + ext;
    SuffixOfExtended(stem, ext);
    ExtendedComponents(stem, ext);
    assert FinalName(w)[..|FinalName(w)| - |ext|] == FinalName(stem);
  }

  // ---------------------------------------------------------------------------------------
  // The pending-texture table (`MaterialConverter._pending`).

  /** One pending texture: the key object kept in the table and the layers that use it. */
  datatype Entry = Entry(key: TexKey, layers: seq<nat>)

  /** A dict from `_Texture` to its layers: `order` is the dict's insertion order. */
  datatype PendingTable = PendingTable(order: seq<Ident>, entries: map<Ident, Entry>)

  const EmptyTable := PendingTable([], map[])

  /** Each identity has exactly one entry, listed once in `order`, under its own identity. */
  ghost predicate WellFormed(t: PendingTable) {
    && NoDuplicates(t.order)
    && (forall id :: id in t.entries <==> id in t.order)
    && (forall id :: id in t.entries ==> IdentOf(t.entries[id].key) == id)
  }

  lemma EmptyTableWellFormed()
    ensures WellFormed(EmptyTable)
  {
  }

  /** `key in pending`: hashing reaches the stored key with the same identity, and the stored
      key's `__eq__` merges the probe's flags into it. */
  function Probe(t: PendingTable, k: TexKey): (r: (bool, PendingTable))
    requires WellFormed(t)
    ensures r.0 <==> IdentOf(k) in t.entries
    ensures !r.0 ==> r.1 == t
    ensures r.0 ==> r.1 == t.(entries := t.entries[IdentOf(k) := t.entries[IdentOf(k)].(key := Update(t.entries[IdentOf(k)].key, k))])
  {
    var id := IdentOf(k);
    if id in t.entries then
      var (eq, merged) := Equals(t.entries[id].key, k);
      (true, t.(entries := t.entries[id := t.entries[id].(key := merged)]))
    else
      (false, t)
  }

  /** The source's insert-or-append: a miss stores this key with the layer as its only user;
      a hit merges the key (once for `in`, again for `pending[key]`) and appends the layer. */
  function Insert(t: PendingTable, k: TexKey, layer: nat): (r: PendingTable)
    requires WellFormed(t)
    ensures WellFormed(r)
  {
    var (found, t1) := Probe(t, k);
    var id := IdentOf(k);
    if !found then
      PendingTable(t.order + [id], t.entries[id := Entry(k, [layer])])
    else
      var (_, t2) := Probe(t1, k);
      t2.(entries := t2.entries[id := t2.entries[id].(layers := t2.entries[id].layers + [layer])])
  }

  /** The effect of one insertion on one identity. */
  lemma InsertAt(t: PendingTable, k: TexKey, layer: nat, id: Ident)
    requires WellFormed(t)
    ensures var r := Insert(t, k, layer);
      && (id in r.entries <==> id in t.entries || id == IdentOf(k))
      && (id in r.entries && id != IdentOf(k) ==> r.entries[id] == t.entries[id])
      && (id == IdentOf(k) ==>
            && r.entries[id].layers == (if id in t.entries then t.entries[id].layers else []) + [layer]
            && (r.entries[id].key.useAlpha <==> (id in t.entries && t.entries[id].key.useAlpha) || k.useAlpha)
            && (r.entries[id].key.mipmap <==> (id in t.entries && t.entries[id].key.mipmap) || k.mipmap))
      && r.order == (if IdentOf(k) in t.entries then t.order else t.order + [IdentOf(k)])
  {
  }

  /** Every layer the table lists is below `n`. */
  ghost predicate LayersBelow(t: PendingTable, n: nat) {
    forall id :: id in t.entries ==> forall j :: 0 <= j < |t.entries[id].layers| ==> t.entries[id].layers[j] < n
  }

  lemma InsertLayersBelow(t: PendingTable, k: TexKey, layer: nat, n: nat)
    requires WellFormed(t) && LayersBelow(t, n) && layer < n
    ensures LayersBelow(Insert(t, k, layer), n)
  {
    var r := Insert(t, k, layer);
    forall id | id in r.entries ensures forall j :: 0 <= j < |r.entries[id].layers| ==> r.entries[id].layers[j] < n {
      InsertAt(t, k, layer, id);
    }
  }

  /** A sequence of insertions (texture key, consuming layer), in arrival order. */
  function InsertAll(t: PendingTable, cs: seq<(TexKey, nat)>): (r: PendingTable)
    requires WellFormed(t)
    ensures WellFormed(r)
    decreases |cs|
  {
    if cs == [] then t else Insert(InsertAll(t, cs[..|cs| - 1]), cs[|cs| - 1].0, cs[|cs| - 1].1)
  }

  /** Insertions in two batches are the insertions of both, in order. */
  lemma {:induction false} InsertAllConcat(t: PendingTable, a: seq<(TexKey, nat)>, b: seq<(TexKey, nat)>)
    requires WellFormed(t)
    ensures InsertAll(t, a + b) == InsertAll(InsertAll(t, a), b)
    decreases |b|
  {
    if b == [] {
      assert a + b == a;
    } else {
      var n := |b| - 1;
      assert (a + b)[..|a + b| - 1] == a + b[..n];
      assert (a + b)[|a + b| - 1] == b[n];
      InsertAllConcat(t, a, b[..n]);
    }
  }

  /** The layers contributed under `id`, in arrival order. */
  function LayersOf(cs: seq<(TexKey, nat)>, id: Ident): (r: seq<nat>)
    decreases |cs|
  {
    if cs == [] then []
    else LayersOf(cs[..|cs| - 1], id) + (if IdentOf(cs[|cs| - 1].0) == id then [cs[|cs| - 1].1] else [])
  }

  /** The identities of `cs` not yet in `seen`, appended in order of first arrival. */
  function FirstSeen(seen: seq<Ident>, cs: seq<(TexKey, nat)>): seq<Ident>
    decreases |cs|
  {
    if cs == [] then seen
    else
      var prev := FirstSeen(seen, cs[..|cs| - 1]);
      var id := IdentOf(cs[|cs| - 1].0);
      if id in prev then prev else prev + [id]
  }

  function LayersBefore(t: PendingTable, id: Ident): seq<nat> {
    if id in t.entries then t.entries[id].layers else []
  }

  predicate KeyUsesAlpha(k: TexKey) { k.useAlpha }
  predicate KeyMipmaps(k: TexKey) { k.mipmap }
  predicate AnyKey(k: TexKey) { true }

  /** Whether some insertion in `cs` used identity `id` with a key satisfying `f`. */
  predicate AnyContributor(cs: seq<(TexKey, nat)>, id: Ident, f: TexKey -> bool)
    decreases |cs|
  {
    cs != [] && ((IdentOf(cs[|cs| - 1].0) == id && f(cs[|cs| - 1].0)) || AnyContributor(cs[..|cs| - 1], id, f))
  }

  /** AnyContributor is "there is a contributor with that identity and property". */
  lemma {:induction false} AnyContributorExists(cs: seq<(TexKey, nat)>, id: Ident, f: TexKey -> bool)
    ensures AnyContributor(cs, id, f) <==> exists j :: 0 <= j < |cs| && IdentOf(cs[j].0) == id && f(cs[j].0)
    decreases |cs|
  {
    if cs != [] {
      var n := |cs| - 1;
      AnyContributorExists(cs[..n], id, f);
      if exists j :: 0 <= j < |cs| && IdentOf(cs[j].0) == id && f(cs[j].0) {
        var j :| 0 <= j < |cs| && IdentOf(cs[j].0) == id && f(cs[j].0);
        if j < n { assert cs[..n][j] == cs[j]; }
      }
      if exists j :: 0 <= j < n && IdentOf(cs[..n][j].0) == id && f(cs[..n][j].0) {
        var j :| 0 <= j < n && IdentOf(cs[..n][j].0) == id && f(cs[..n][j].0);
        assert cs[..n][j] == cs[j];
      }
    }
  }

  /** An identity nobody contributed has no contributed layers and no contributed flags. */
  lemma {:induction false} NoContributor(cs: seq<(TexKey, nat)>, id: Ident)
    requires !AnyContributor(cs, id, AnyKey)
    ensures LayersOf(cs, id) == [] && !AnyContributor(cs, id, KeyUsesAlpha) && !AnyContributor(cs, id, KeyMipmaps)
    decreases |cs|
  {
    if cs != [] {
      NoContributor(cs[..|cs| - 1], id);
    }
  }

  /** An identity has an entry after the insertions exactly when it had one or was used. */
  lemma {:induction false} InsertAllPresence(t: PendingTable, cs: seq<(TexKey, nat)>, id: Ident)
    requires WellFormed(t)
    ensures id in InsertAll(t, cs).entries <==> id in t.entries || AnyContributor(cs, id, AnyKey)
    decreases |cs|
  {
    if cs != [] {
      var n := |cs| - 1;
      InsertAllPresence(t, cs[..n], id);
      InsertAt(InsertAll(t, cs[..n]), cs[n].0, cs[n].1, id);
    }
  }

  /** The layers of an entry: the earlier ones, then every contributed one in arrival order. */
  lemma {:induction false} InsertAllLayers(t: PendingTable, cs: seq<(TexKey, nat)>, id: Ident)
    requires WellFormed(t)
    requires id in InsertAll(t, cs).entries
    ensures InsertAll(t, cs).entries[id].layers == LayersBefore(t, id) + LayersOf(cs, id)
    decreases |cs|
  {
    if cs != [] {
      var n := |cs| - 1;
      var prev := InsertAll(t, cs[..n]);
      InsertAt(prev, cs[n].0, cs[n].1, id);
      if IdentOf(cs[n].0) == id {
        if id in prev.entries {
          InsertAllLayers(t, cs[..n], id);
        } else {
          InsertAllPresence(t, cs[..n], id);
          NoContributor(cs[..n], id);
        }
        assert LayersOf(cs, id) == LayersOf(cs[..n], id) + [cs[n].1];
        AppendAssoc(LayersBefore(t, id), LayersOf(cs[..n], id), [cs[n].1]);
      } else {
        InsertAllLayers(t, cs[..n], id);
        assert LayersOf(cs, id) == LayersOf(cs[..n], id);
      }
    }
  }

  /** The flags of an entry: the OR of the earlier flags and every contributor's flags. */
  lemma {:induction false} InsertAllFlags(t: PendingTable, cs: seq<(TexKey, nat)>, id: Ident)
    requires WellFormed(t)
    requires id in InsertAll(t, cs).entries
    ensures var e := InsertAll(t, cs).entries[id];
      && (e.key.useAlpha <==> (id in t.entries && t.entries[id].key.useAlpha) || AnyContributor(cs, id, KeyUsesAlpha))
      && (e.key.mipmap <==> (id in t.entries && t.entries[id].key.mipmap) || AnyContributor(cs, id, KeyMipmaps))
    decreases |cs|
  {
    if cs != [] {
      var n := |cs| - 1;
      var prev := InsertAll(t, cs[..n]);
      InsertAt(prev, cs[n].0, cs[n].1, id);
      if id in prev.entries {
        InsertAllFlags(t, cs[..n], id);
      } else {
        InsertAllPresence(t, cs[..n], id);
        NoContributor(cs[..n], id);
      }
    }
  }

  /** After any sequence of insertions: an identity has an entry exactly when it had one or some
      insertion used it; its layers are the earlier ones followed by every contributed layer in
      arrival order; its flags are the OR of the earlier flags and all contributors' flags. */
  lemma InsertAllEntry(t: PendingTable, cs: seq<(TexKey, nat)>, id: Ident)
    requires WellFormed(t)
    ensures var r := InsertAll(t, cs);
      && (id in r.entries <==> id in t.entries || AnyContributor(cs, id, AnyKey))
      && (id !in r.entries ==> LayersOf(cs, id) == [] && !AnyContributor(cs, id, KeyUsesAlpha)
                                && !AnyContributor(cs, id, KeyMipmaps))
      && (id in r.entries ==>
            && IdentOf(r.entries[id].key) == id
            && r.entries[id].layers == LayersBefore(t, id) + LayersOf(cs, id)
            && (r.entries[id].key.useAlpha <==>
                  (id in t.entries && t.entries[id].key.useAlpha) || AnyContributor(cs, id, KeyUsesAlpha))
            && (r.entries[id].key.mipmap <==>
                  (id in t.entries && t.entries[id].key.mipmap) || AnyContributor(cs, id, KeyMipmaps)))
  {
    InsertAllPresence(t, cs, id);
    if id in InsertAll(t, cs).entries {
      InsertAllLayers(t, cs, id);
      InsertAllFlags(t, cs, id);
    } else {
      NoContributor(cs, id);
    }
  }

  /** The table's iteration order is the order in which identities first arrived. */
  lemma {:induction false} InsertAllOrder(t: PendingTable, cs: seq<(TexKey, nat)>)
    requires WellFormed(t)
    ensures InsertAll(t, cs).order == FirstSeen(t.order, cs)
    decreases |cs|
  {
    if cs != [] {
      var n := |cs| - 1;
      InsertAllOrder(t, cs[..n]);
      var prev := InsertAll(t, cs[..n]);
      InsertAt(prev, cs[n].0, cs[n].1, IdentOf(cs[n].0));
    }
  }

  /** From an empty table: one entry per identity used, holding all of that identity's layers
      in arrival order. */
  lemma SessionDeduplicates(cs: seq<(TexKey, nat)>, id: Ident)
    ensures var r := InsertAll(EmptyTable, cs);
      && NoDuplicates(r.order)
      && (id in r.entries <==> exists j :: 0 <= j < |cs| && IdentOf(cs[j].0) == id)
      && (id in r.entries ==> r.entries[id].layers == LayersOf(cs, id))
      && (id in r.entries ==> (r.entries[id].key.useAlpha <==>
            exists j :: 0 <= j < |cs| && IdentOf(cs[j].0) == id && cs[j].0.useAlpha))
      && (id in r.entries ==> (r.entries[id].key.mipmap <==>
            exists j :: 0 <= j < |cs| && IdentOf(cs[j].0) == id && cs[j].0.mipmap))
  {
    InsertAllEntry(EmptyTable, cs, id);
    AnyContributorExists(cs, id, AnyKey);
    AnyContributorExists(cs, id, KeyUsesAlpha);
    AnyContributorExists(cs, id, KeyMipmaps);
  }
}
