# Korman's material exporter, modelled in Dafny

Korman exports Blender scenes to the Plasma engine. Its material exporter
(`korman/exporter/material.py`, class `MaterialConverter`) does three jobs:

- It turns each Blender material into an `hsGMaterial` in the exporter's
  resource manager. Every used texture slot becomes a `plLayer`. A stencil slot
  chains onto the slot after it. An animated slot gets a `plLayerAnimation`
  wrapper. A material with no usable slots gets an automatic layer.
- It gives each layer its texture. An environment-map texture gets a
  `plDynamicEnvMap` or `plDynamicCamMap`. An image-less image texture gets a
  `plDynamicTextMap`. Every other image goes into the pending table
  (`_pending`). That table deduplicates images by their `_Texture` identity,
  which is the image plus whether alpha is calculated.
- At `finalize`, it encodes every pending image once. It picks a
  power-of-two size, a mip-level count, a compression and a DXT level. It
  stores one `plMipmap` per textures page, and points every consuming layer
  at the bitmap of its page.

The project follows the program's structure, one module per concern:

- `Blender`, `Plasma`, `Explosions`: the input scene, the engine records the
  exporter builds, and the two kinds of failure (a raised `ExportError`, and a
  crash on a `None` dereference).
- `Collaborators`: the services the exporter calls but does not implement.
  These are `ensure_power_of_two`, the OpenGL texture helper, the textures-page
  choice, the animation converter's controller builders and the target engine
  version. They appear as uninterpreted functions. The one assumption made
  about them is that `ensure_power_of_two` returns a power of two.
- `Registry`: the resource manager as a class. It holds arenas (sequence
  fields) of layers, materials, mipmaps, text maps and environment maps. A key
  is an index into one arena.
- `Textures`: `_Texture` as a value, with its equality, merge, hash and
  canonical name. This module also holds the pending table.
- `Layers`, `Animation`, `EnvMaps`, `Mipmaps`: the per-slot, per-animation,
  per-environment-map and per-bitmap logic, as functions.
- `SlotExport`, `MaterialExport`: what one slot export and one material
  export do to the registry, stated as relations between the arenas before and
  after.
- `Converter`: `MaterialConverter` as a class. Its fields are `_pending`,
  `_obj2mat` and `_alphatest`. Its methods update those fields and the
  registry in place, in the source's order. Each method is proved against the
  functions and relations above.

Some behaviour is modelled as the code has it, although its warnings or
names suggest otherwise:

- An environment-map texture whose source is an image file gets no map. The
  code still flags the layer to shade with an environment map, then
  dereferences `None` and crashes (`NoneDereference("pl_env")`). It does not
  skip the texture after its warning.
- STATIC environment-map sources are exported as dynamic maps, the same as
  ANIMATED ones.
- `finalize` does not empty the pending table.
- A stencil slot returns 2 consumed slots even when its chain used more. Two
  stencils in a row therefore export the third slot twice
  (`Layers.ConsecutiveStencilsReexport`).
- The material curves of a slot's animation are looked up by the slot's
  position among the qualifying slots. This is not necessarily its index in
  Blender's `texture_slots`.

## Model

| member | source | states |
|---|---|---|
| Textures.NewTexKey | korman/exporter/material.py:28-48 | The key's image is the given image, or else the texture's image. Alpha is calculated exactly when this is forced or the texture asks for it, and calculated alpha implies alpha in use. Otherwise alpha use is the explicit argument when one is given, else "four channels and the image uses alpha". Mipmapping follows the texture |
| Textures.Update | korman/exporter/material.py:71-76 | The receiver keeps its identity and ends up with the OR of both copies' alpha and mipmap flags |
| Textures.Equals | korman/exporter/material.py:50-57 | True exactly when image and calc_alpha agree. On equality the receiver absorbs the other's flags. Otherwise the receiver is unchanged |
| Textures.MergeIdempotent | korman/exporter/material.py:50-76 | Comparing the merged key with the same copy again changes nothing, so the double lookup of the pending table is harmless |
| Textures.HashAgreesWithEquality | korman/exporter/material.py:54-60 | Equal keys have equal hashes |
| Textures.Hash | korman/exporter/material.py:59-60 | The hash is computed from what equality compares only: the image's name and calc_alpha |
| Textures.WithSuffixRoundTrip | korman/exporter/material.py:62-66 | Giving a path whose final component is not empty a new extension keeps its directories and stem and appends the extension. The result's directories and stem are the original ones and its suffix is that extension |
| Textures.PrefixedWithSuffix | korman/exporter/material.py:62-69 | Any prefix, then a path with a non-empty final component given an extension, is the prefix, the path's directories and stem, then the extension. The extension is the whole string's suffix |
| Textures.ReplaceExtension | korman/exporter/material.py:62-66 | Replacing the extension of a path whose final component is not empty keeps everything before it, directories included |
| Textures.TexNameShape | korman/exporter/material.py:62-69 | For an image name whose final component is not empty, the canonical name is "ALPHAGEN_" when alpha is calculated, then the name's directories, then its final component's stem, then ".dds" for a mipmapped texture or ".bmp" otherwise. That extension is the canonical name's suffix. Dots in directory names are kept |
| Textures.DistinctTexturesMayShareName | korman/exporter/material.py:50-69 | Two images whose names differ only in their extension are different textures with the same canonical name |
| Textures.EmptyTableWellFormed | korman/exporter/material.py:83 | The empty table has one entry per identity, listed once in order |
| Textures.Probe | korman/exporter/material.py:453 | A `key in pending` test hits exactly when the identity is stored. A hit merges the probe's flags into the stored key; a miss changes nothing |
| Textures.Insert | korman/exporter/material.py:452-458 | Inserting keeps the table well formed |
| Textures.InsertAt | korman/exporter/material.py:452-458 | One insertion gives an entry to that identity, appends the layer to its consumers, ORs its flags and appends a new identity to the order. Other entries are untouched |
| Textures.InsertLayersBelow | korman/exporter/material.py:452-458 | Every layer the table lists stays an existing layer |
| Textures.InsertAll | korman/exporter/material.py:452-458 | Any sequence of insertions keeps the table well formed |
| Textures.InsertAllPresence | korman/exporter/material.py:452-458 | After insertions, an identity has an entry exactly when it had one or some insertion used it |
| Textures.InsertAllLayers | korman/exporter/material.py:452-458 | An entry's layers are its earlier layers followed by every contributed layer, in arrival order |
| Textures.InsertAllFlags | korman/exporter/material.py:452-458 | An entry's alpha and mipmap flags are the OR of its earlier flags and every contributor's flags |
| Textures.InsertAllEntry | korman/exporter/material.py:452-458 | Presence, layers and flags of an entry after any sequence of insertions, together |
| Textures.InsertAllOrder | korman/exporter/material.py:452-458 | The table's iteration order is the order in which identities first arrived |
| Textures.SessionDeduplicates | korman/exporter/material.py:452-458 | Starting from an empty table, each identity used gets exactly one entry, none is listed twice, and the entry holds all the layers that used it in arrival order. Its flags are set exactly when some user set them |
| Layers.QualifyingSlots | korman/exporter/material.py:100-101 | The visited slots are those that are present, in use, and have a texture of a type with an exporter. The result contains only such slots and every such slot |
| Seqs.FilterOrdered | korman/exporter/material.py:100-101 | A list comprehension keeps the elements it selects in their order in the input list |
| Layers.QualifyingSlotsConcat | korman/exporter/material.py:100-101 | Filtering keeps the slots' left-to-right order |
| Layers.StencilBlendClampIsDead | korman/exporter/material.py:169-170 | No visited slot has a BLEND texture, so the stencil's clamp branch is never taken |
| Layers.SlotLayerOrder | korman/exporter/material.py:166-213 | One slot's export appends a non-empty run of layers of slots at or after it, ending with its own. An ordinary slot appends only its own. A stencil needs a next slot and appends at least two |
| Layers.MaterialLayerOrder | korman/exporter/material.py:105-107 | The cursor loop appends only layers of visited slots, and at least one whenever there is a slot to visit |
| Layers.StencilExportsNextFirst | korman/exporter/material.py:174-181 | A stencil before an ordinary slot appends the next slot's layer, then its own, and consumes two slots |
| Layers.LastStencilFails | korman/exporter/material.py:175-177 | A stencil in the last visited slot makes the material's export fail, however the cursor reaches it |
| Layers.MaterialLayerOrderStep | korman/exporter/material.py:105-107 | One loop step appends the slot's own run, then those of the slots after the ones it consumed |
| Layers.PrependLayers | korman/exporter/material.py:166-213 | An ordinary slot, or a stencil with its ordinary next slot, in front of a one-layer-per-slot order gives a one-layer-per-slot order from that slot on |
| Layers.WellPairedLayerOrder | korman/exporter/material.py:105-213 | When every stencil is followed by an ordinary slot, the export succeeds with exactly one layer per slot. Each stencil's layer comes right after the layer it binds to |
| Layers.ConsecutiveStencilsReexport | korman/exporter/material.py:179-181 | For stencil, stencil, ordinary, the material gets the layers of slots 2, 1, 0, 2: the third slot is exported twice |
| Layers.SlotBlendFlags | korman/exporter/material.py:166-204 | A slot's layer alpha-blends exactly when it is a stencil or below full opacity. It gets alpha-mult and no-tex-colour exactly for a stencil, add or mult exactly for that blend mode on a non-stencil, the high alpha test exactly for alpha halo, and nothing else |
| Layers.AlphaHaloAlone | korman/exporter/material.py:201-204 | A plain full-opacity alpha-halo layer gets the high alpha test as its only blend flag |
| Layers.HalfOpacityBlendsAlpha | korman/exporter/material.py:200-202 | A plain layer at half opacity gets alpha blending as its only blend flag |
| Layers.ImageHasAlpha | korman/exporter/material.py:415-422 | A texture without an image counts as having alpha. Otherwise it has alpha exactly when alpha is calculated, the slot is a stencil, or the image alpha test passes |
| Layers.ImageBlendFlags | korman/exporter/material.py:424-437 | A stencil, or a texture without alpha, gets no blend flag from the image exporter. Otherwise it gets alpha-add, alpha-mult or alpha by blend mode (at most one of them, and only when the texture uses alpha), and invert alpha exactly when asked |
| Layers.ImageClampFlags | korman/exporter/material.py:438-439 | The texture is clamped exactly for CLIP extension |
| Layers.BindNextLayer | korman/exporter/material.py:183-188 | The bound layer binds to the next and restarts the pass. It keeps its blend flags when it has a blend mode, else it gains alpha blending. Its other flags are kept |
| Layers.PropagateMaterialSettings | korman/exporter/material.py:558-571 | Both no-fog flags are added exactly when the material does not use mist. The colours come from the world ambient and the material's diffuse and specular colours. The shade flags gain no other flag, and every other field of the layer and of its state is kept |
| Layers.SlotLayer | korman/exporter/material.py:141-204 | A slot's own layer before its texture type is exported: name, page, material settings, UV channel (0 when not found), offset and scale, stencil recipe (no Z write, white ambient) or blend mode, opacity and blend flags |
| Layers.ImageAlphaTest | korman/exporter/material.py:589-596 | The alpha test passes only for a four-channel image that uses alpha |
| Layers.ImageLayer | korman/exporter/material.py:424-450 | The image exporter adds exactly the image's blend and clamp flags, sets the text map as texture when there is one, and changes nothing else |
| Layers.FindUvChannel | korman/exporter/material.py:151-157 | The UV channel found is the first UV map with the slot's name; none is found exactly when no UV map has that name |
| Layers.UvChannel | korman/exporter/material.py:151-157 | The channel is the index of the first UV map with the slot's UV map name; there is none exactly when no UV map has that name |
| Animation.Digits | korman/exporter/material.py:233 | A slot index is spelled as a non-empty string of decimal digits |
| Animation.DigitsInjective | korman/exporter/material.py:233 | Different indices are spelled differently |
| Animation.SlotPathsDistinct | korman/exporter/material.py:233 | The data-path prefix of one slot is never a prefix of another slot's path, so one slot never harvests another slot's material curves |
| Animation.Harvest | korman/exporter/material.py:218-228 | Nothing is harvested without an action. With no prefix, all the action's curves are harvested. With a prefix, exactly the curves whose data path starts with it. The action is returned |
| Animation.LayerFCurvesOrigin | korman/exporter/material.py:232-234 | Every harvested curve is the texture's, or the material's for this slot. Every curve of the texture's action is harvested |
| Animation.OpacityCurve | korman/exporter/material.py:277-283 | The curve found animates the layer's opacity; none is found exactly when no curve does |
| Animation.Contains | korman/exporter/material.py:286-287 | `find(sub) != -1` holds exactly when `sub` occurs at some position |
| Animation.OpacityController | korman/exporter/material.py:277-283 | Without an opacity curve there is no opacity controller |
| Animation.TransformController | korman/exporter/material.py:285-291 | The matrix builder gets exactly the curves whose data path contains "offset", exactly those containing "scale", both in their original order, and the slot's static offset and scale |
| Animation.Timing | korman/exporter/material.py:256-271 | The frame range is the texture action's when it has one, else the material action's. The animation is stopped exactly when not auto-started. It loops exactly when asked, and then over the whole range |
| Animation.LayerAnimationEffect | korman/exporter/material.py:236-275 | Without curves nothing happens. Otherwise the base layer is forced to alpha-blend exactly when an opacity curve exists. A wrapper is made exactly when some controller is built, and it wraps the base layer with both controllers and the timing |
| Animation.OpacityCurveForcesAlpha | korman/exporter/material.py:277-280 | A texture whose own action animates opacity always gets alpha blending, even when no controller results |
| EnvMaps.EnvMapClassFor | korman/exporter/material.py:298-308 | No map for an image-file source. A camera map exactly for a planar map on MOUL or later. A cube map for every other static or animated source |
| EnvMaps.InitialRenderTargets | korman/exporter/material.py:385 | A cube map configures its six faces and itself; a camera map configures only itself |
| EnvMaps.NewEnvMap | korman/exporter/material.py:335-344 | A fresh map is named after the viewpoint, with the texture's clip range and colour. It refreshes exactly for an animated source, includes characters, and has no regions, nodes or layers yet |
| EnvMaps.ConfiguredTarget | korman/exporter/material.py:396-407 | A configured target is 32-bit without an alpha channel, square at the resolution, with a full fixed viewport and a 24-bit depth buffer |
| EnvMaps.ConfigureRenderTargets | korman/exporter/material.py:396-407 | The loop configures every render target, in order |
| EnvMaps.ResolveVisRegions | korman/exporter/material.py:348-356 | Resolution succeeds exactly when every listed region is an enabled visibility region, and then returns them all in order. Otherwise it fails with the error for the first bad one ("not found" or "is not a VisControl") |
| EnvMaps.CompleteEnvMap | korman/exporter/material.py:356-407 | A camera map gets the viewpoint as root, this object as target, the layer and the disabled layer. A cube map gets the viewpoint's position. Every render target is configured |
| EnvMaps.ReuseEnvMap | korman/exporter/material.py:321-326 | A reused camera map also renders for this object and layer; a reused cube map is unchanged |
| EnvMaps.ProjectLayer | korman/exporter/material.py:381-393 | A camera map's layer projects from its position in screen space; a cube map's layer reflects with the refraction transform. Nothing else changes |
| EnvMaps.DisabledLayer | korman/exporter/material.py:374-379 | The stand-in layer of a disabled camera map has the using layer's four colours, and no texture or flags |
| EnvMaps.CompletedTargets | korman/exporter/material.py:358-407 | A completed cube map has seven render targets and a camera map one. All are square at the resolution and without alpha |
| Mipmaps.Log2Floor | korman/exporter/material.py:488 | floor(log2 n): the largest power of two not above n |
| Mipmaps.LevelCount | korman/exporter/material.py:488-505 | A texture that is not mipmapped has one level; a mipmapped one has at least two |
| Mipmaps.SmallestLevelIsFourPixels | korman/exporter/material.py:488-505 | For a power-of-two texture of at least 8 pixels, the kept chain ends at the level whose larger side is 4 pixels |
| Mipmaps.SmallTexturesKeepTwoLevels | korman/exporter/material.py:488-505 | A mipmapped texture under 8 pixels keeps the minimum of two levels |
| Mipmaps.Log2Pow2 | korman/exporter/material.py:488 | The logarithm of 2^k is k |
| Mipmaps.LevelCountOfPow2 | korman/exporter/material.py:488-505 | A 2^i by 2^j mipmapped texture keeps max(i, j) - 1 levels, and never fewer than two |
| Mipmaps.CompressionFor | korman/exporter/material.py:489 | DirectX compression exactly for mipmapped textures |
| Mipmaps.DxtFor | korman/exporter/material.py:490 | DXT5 exactly when alpha is used or calculated |
| Mipmaps.LevelData | korman/exporter/material.py:517-523 | One entry per level, read from the image with calc_alpha, in BGRA exactly for uncompressed bitmaps |
| Mipmaps.CollectLevels | korman/exporter/material.py:521-523 | The level loop reads exactly the level data |
| Mipmaps.MipmapFor | korman/exporter/material.py:479-505 | The bitmap is named after the texture and sized to power-of-two dimensions. It has the level count, compression and DXT level above, and one data entry per level |
| Mipmaps.PlaceInPage | korman/exporter/material.py:541-549 | Placing one consumer keeps every page's bitmap an existing mipmap and keeps the number of layers |
| Mipmaps.PlaceAll | korman/exporter/material.py:534-549 | Placing all consumers keeps every page's bitmap an existing mipmap and keeps the number of layers |
| Mipmaps.PlaceStepMipmaps | korman/exporter/material.py:541-546 | One more consumer keeps the old mipmaps, and keeps each new one a copy of the bitmap for the one page it serves |
| Mipmaps.PlaceStepPages | korman/exporter/material.py:541-546 | One more consumer adds exactly its textures page to the pages served |
| Mipmaps.PlaceStepLayers | korman/exporter/material.py:541-549 | One more consumer points at its page's bitmap; other layers are untouched |
| Mipmaps.PlaceAllPlaces | korman/exporter/material.py:531-549 | After placement, the old mipmaps are kept and one new bitmap exists per textures page of the consumers, stored in that page. Each consumer uses its page's bitmap and every other layer is unchanged |
| Mipmaps.ConsumersShareByPage | korman/exporter/material.py:531-549 | Every consumer gets a mipmap stored in its textures page. Two consumers share a bitmap exactly when their textures pages agree |
| Mipmaps.PlaceAllStep | korman/exporter/material.py:534-549 | The consumer loop advances by one placement per consumer |
| Mipmaps.FinalizeKeepsUnlisted | korman/exporter/material.py:474-549 | A layer that no pending texture lists comes out of finalize unchanged |
| Mipmaps.Items | korman/exporter/material.py:475 | The pending textures in the table's own order, one per identity the table lists |
| Mipmaps.FinalizeHistory | korman/exporter/material.py:475-549 | The states finalize passes through form a history: each is the one before with the next pending texture's encoding placed among its consumers |
| Mipmaps.SessionHistory | korman/exporter/material.py:475-549 | The states a whole session's finalize passes through form a history: it starts at the given arenas, each step places the next pending texture's encoding, and it ends at `Finalized` |
| Mipmaps.StepKeepsMipmap | korman/exporter/material.py:541-546 | Placing one pending texture keeps every mipmap made before |
| Mipmaps.StepKeepsLayer | korman/exporter/material.py:531-549 | Placing one pending texture changes only layer textures, and only the textures of the layers it lists |
| Mipmaps.KeepsPages | korman/exporter/material.py:475-549 | Finalize changes only the texture of a layer; its page and everything else stay |
| Mipmaps.KeepsMipmap | korman/exporter/material.py:475-549 | Every mipmap that exists at one state of finalize is kept unchanged at every later state |
| Mipmaps.KeepsLayer | korman/exporter/material.py:475-549 | A layer that none of the pending textures in between lists is unchanged between two states |
| Mipmaps.StepServes | korman/exporter/material.py:531-549 | Right after a pending texture is placed, each of its consumers points at a mipmap made in that step. That mipmap is the texture's encoding stored in the consumer's textures page |
| Mipmaps.Serves | korman/exporter/material.py:475-549 | The last pending texture that lists a layer still serves that layer at the end |
| Mipmaps.SameStepDistinctPages | korman/exporter/material.py:536-549 | Within one pending texture, two consumers with different mipmaps have different textures pages |
| Mipmaps.NeverSharesAcross | korman/exporter/material.py:475-549 | Layers decided by two different pending textures never share a mipmap |
| Mipmaps.SharesByPage | korman/exporter/material.py:531-549 | Layers decided by one pending texture share a mipmap exactly when their textures pages agree |
| Mipmaps.FinalizeServes | korman/exporter/material.py:474-549 | After finalize, every layer that a pending texture lists points at a new mipmap. That mipmap is `MipmapFor` of the last pending texture listing the layer, stored in the layer's textures page. Nothing else about the layer changes |
| Mipmaps.FinalizeNeverSharesAcross | korman/exporter/material.py:474-549 | After finalize, layers decided by different pending textures never share a mipmap |
| Mipmaps.FinalizeSharesByPage | korman/exporter/material.py:531-549 | After finalize, layers decided by the same pending texture share a mipmap exactly when their textures pages agree |
| MaterialExport.AutoLayer | korman/exporter/material.py:111-113 | The automatic layer is named "<material>_AutoLayer", is in the object's page, is untextured and unblended, and has the material's fog and colour settings |
| MaterialExport.WaveSetLayer | korman/exporter/material.py:129-135 | The waveset layer is named "<material>_WaveSet7", has the material's settings, and has alpha blending as its only blend flag and blend mode |
| MaterialExport.CursorStep | korman/exporter/material.py:105-107 | A successful slot export moves the cursor past the slots it consumed, and its layers join those listed so far |
| MaterialExport.CursorDone | korman/exporter/material.py:105-107 | At the end of the loop, the layers listed are exactly the material's layer order, and none were listed exactly when there were no slots. The j-th new entry of the material stands for a layer named after the j-th slot of that order, and the queued insertions are those of the order's slots |
| MaterialExport.MaterialFailed | korman/exporter/material.py:99-107 | A failing slot leaves the new material in the registry, and the other materials and the existing layers alone |
| MaterialExport.MaterialWithLayers | korman/exporter/material.py:105-123 | When the slots listed layers, the new material lists one new layer per entry of the layer order |
| MaterialExport.MaterialWithAutoLayer | korman/exporter/material.py:109-114 | When the slots listed none, the automatic layer is added and is the material's only layer |
| SlotExport.SlotTexKey | korman/exporter/material.py:451-452 | The pending key of an IMAGE slot with an image: its image, calculated alpha exactly when the slot is a stencil or the texture asks for it, mipmapping as the texture asks, and alpha in use when calculated or when the image exporter found alpha |
| SlotExport.Queue | korman/exporter/material.py:451-458 | A slot queues at most one insertion, exactly when it is an IMAGE slot with an image, and then its image with the slot's own layer as consumer |
| SlotExport.ShowsMapEvolve | korman/exporter/material.py:206-213 | What the slot's layer shows survives more blend or miscellaneous flags and maps that only evolve |
| SlotExport.ShownEvolve | korman/exporter/material.py:179-188 | What the listed slots' layers show survives layers that only evolve and maps that only evolve |
| SlotExport.BindKeepsShown | korman/exporter/material.py:183-188 | Binding a layer to a stencil keeps what the listed layers show |
| SlotExport.PlainShown | korman/exporter/material.py:141-213 | An ordinary slot's order is the slot itself, and its own layer shows its map |
| SlotExport.StencilShown | korman/exporter/material.py:166-213 | A stencil slot's order is the next slot's, then its own; the next slot's layers still show their maps after the stencil's own export, and its own layer shows its map |
| SlotExport.ShownStep | korman/exporter/material.py:105-107 | A cursor step keeps what the slots exported so far show, and adds what the new slot's order shows |
| SlotExport.AnimationEffectKeeps | korman/exporter/material.py:210 | The animation export keeps the base layer's set-up; the layer listed is the base layer or a new wrapper over it |
| SlotExport.SlotListed | korman/exporter/material.py:206-213 | The texture type, the animations and the listing leave the material listing the slot's top layer last, with the slot's set-up kept |
| SlotExport.StencilInLastSlot | korman/exporter/material.py:166-177 | A stencil in the last slot fails after only setting the blend channel |
| SlotExport.StencilNextFails | korman/exporter/material.py:175-179 | When the next slot's export fails, the stencil fails and nothing is bound |
| SlotExport.StencilBinds | korman/exporter/material.py:179-188 | After the next slot's export, the layer the material lists last is bound to the stencil |
| SlotExport.PlainSlot | korman/exporter/material.py:141-213 | An ordinary slot lists its own layer (or its wrapper) and consumes one slot |
| SlotExport.StencilSlotFails | korman/exporter/material.py:166-181 | A failing stencil branch fails the slot; no existing layer changed |
| SlotExport.StencilSlot | korman/exporter/material.py:166-213 | A stencil slot's export is a `SlotExported`: it lists the next slot's layers, each set up from its slot, then its own, and the next slot's last layer is bound to it. Two slots are consumed, and the queued insertions are the next slot's, then its own |
| SlotExport.StencilBindsNextSlot | korman/exporter/material.py:174-188 | After a stencil slot's export, the layer listed second to last stands for a layer named after slot idx + 1, and it is bound to the stencil |
| Registry.FindEnvMap | korman/exporter/material.py:320 | The map found has that class, page and name, and is the first such. None is found exactly when no map matches |
| Registry.FindTextMap | korman/exporter/material.py:446 | The text map found has that page and name, and is the first such. None is found exactly when no map matches |
| Registry.ResManager.constructor | korman/exporter/material.py:554-556 | The registry starts with empty arenas |
| Registry.ResManager.AddLayer | korman/exporter/material.py:147 | A new layer is appended and its key returned; nothing else changes |
| Registry.ResManager.SetLayer | korman/exporter/material.py:186-188 | An in-place update of one layer |
| Registry.ResManager.AddMaterial | korman/exporter/material.py:99 | A new material is appended and its key returned |
| Registry.ResManager.AddMaterialLayer | korman/exporter/material.py:212 | `addLayer` appends the key to that material's layers only |
| Registry.ResManager.AddCompFlag | korman/exporter/material.py:167 | The flag is added to that material's compositing flags only |
| Registry.ResManager.AddMipmap | korman/exporter/material.py:545 | A new mipmap is appended and its key returned |
| Registry.ResManager.AddTextMap | korman/exporter/material.py:446 | A new text map is appended and its key returned |
| Registry.ResManager.SetTextMap | korman/exporter/material.py:447-449 | An in-place update of one text map |
| Registry.ResManager.AddEnvMap | korman/exporter/material.py:335 | A new environment map is appended and its key returned |
| Registry.ResManager.SetEnvMap | korman/exporter/material.py:324-325 | An in-place update of one environment map |
| Converter.MaterialConverter.constructor | korman/exporter/material.py:80-89 | The session starts with empty pending, per-object and alpha-test tables |
| Converter.MaterialConverter.TestImageAlpha | korman/exporter/material.py:581-599 | The answer is the alpha test of the image, and is memoised. The pixels of an image are scanned at most once per session, and only for a four-channel image that uses alpha |
| Converter.MaterialConverter.ImageAlpha | korman/exporter/material.py:416-422 | The layer's alpha as `ImageHasAlpha` defines it. No test is run when calculated alpha, a stencil or a missing image already decide it |
| Converter.MaterialConverter.FindCreateTextMap | korman/exporter/material.py:446-449 | The page's text map of that name is reused, or else appended. It is 1024 by 1024 with alpha as asked. The text maps there were only evolve (`TextMapsEvolve`): the one reused keeps its name and page |
| Converter.MaterialConverter.ExportImage | korman/exporter/material.py:411-458 | The layer gets the image's flags. With an image, the key built from the texture (alpha as found, calculated alpha forced for a stencil) is inserted with this layer as a consumer, and the text maps stay. Without one, the layer's "_DynText" text map becomes its texture, and the text maps only evolve |
| Converter.MaterialConverter.ExportDynamicEnv | korman/exporter/material.py:312-409 | A map already exported for the viewpoint is reused, and a reused camera map gains this object and layer. Otherwise a new map is made; it fails exactly when a visibility region is bad. The result has the requested class, the viewpoint's name and the object's page. The environment maps there were keep their class, name and page (`EnvMapsEvolve`) |
| Converter.MaterialConverter.CreateDynamicEnv | korman/exporter/material.py:328-409 | The new map is the completed fresh map, at the power-of-two resolution. A camera map adds its disabled layer, and the using layer is set up to project it. The environment maps there were keep their class, name and page |
| Converter.MaterialConverter.ExportEnvironmentMap | korman/exporter/material.py:293-310 | An image-file source flags the layer with the environment-map shade flag, then crashes on the missing map; no map changes. Otherwise a failure changes no layer. On success the layer gets a map of the texture's class, viewpoint name and page as its texture and the shade flag, and projects it as a fresh map asks (`ProjectLayer`) or, for a reused map, as before. No other existing layer changes, and the environment maps only evolve |
| Converter.MaterialConverter.ExportLayerAnimations | korman/exporter/material.py:215-275 | The base layer gains alpha blending when an opacity curve exists. A "<layer>_LayerAnim" wrapper is appended exactly when the effect asks for one, and it is the layer returned |
| Converter.MaterialConverter.BindLastLayer | korman/exporter/material.py:183-188 | The layer the material lists last is bound to the next one; nothing else changes |
| Converter.MaterialConverter.ExportTextureType | korman/exporter/material.py:207 | The type's exporter touches only the slot's layer, as `TypeExported` says for its type. On success the slot's image (for an IMAGE slot with an image) is queued with that layer, and the layer shows its map as `ShowsMap` says: an image-less image the page's 1024 by 1024 "<layer>_DynText" text map; an environment map a map of its class, name and page, with the projection pinned. A failure queues nothing. A texture that is not an environment map always succeeds. An environment map without a map class flags its layer to shade with an environment map and fails with the `None` dereference. Any other failure changes no layer. The map arenas only evolve (`MapsEvolve`) |
| Converter.MaterialConverter.FinishSlotLayer | korman/exporter/material.py:206-213 | The texture type, the animations, and the material listing the resulting layer, as `SlotFinished` says. On success the slot's layer shows the map its type export found or made, as `ShowsMap` says. The map arenas only evolve. The pending table gains exactly the queued insertions |
| Converter.MaterialConverter.ListAnimatedLayer | korman/exporter/material.py:210-213 | After the type export, the animations and the material listing the resulting layer, with the slot's image queued with its layer. The slot's layer only gains blend or miscellaneous flags (`Evolves`), and the text and environment maps are left alone |
| Converter.MaterialConverter.ExportStencilNext | korman/exporter/material.py:166-188 | The stencil sets the blend channel, exports the next slot (an error in the last slot) and binds the layer listed last, as `StencilExported` says. On success each slot of the next slot's order shows its map (`Shown`). The map arenas only evolve. The pending table gains exactly the next slot's insertions |
| Converter.MaterialConverter.BindAfterNext | korman/exporter/material.py:179-188 | The next slot's export, then the binding of the layer listed last. On success each slot of the next slot's order shows its map (`Shown`). The map arenas only evolve. The pending table gains exactly the next slot's insertions |
| Converter.MaterialConverter.BindStencilLayer | korman/exporter/material.py:183-188 | After the next slot's successful export, binding the layer listed last completes the stencil's export as `StencilExported` says. What the next slot's layers show is kept, and the text and environment maps are left alone |
| Converter.MaterialConverter.ExportTextureSlot | korman/exporter/material.py:141-213 | One slot export, as `SlotExported` says. It fails whenever its layer order does. On success it consumes the slot count and lists one layer per entry of the order. The j-th stands for a layer set up from the j-th ordered slot, on the UV channel of that slot's UV map, with the slot's name and its type exported, and that layer shows the text or environment map its type export found or made (`Shown`). The images of those slots are queued with their layers in that order, and the pending table gains exactly those insertions. A stencil's layer comes right after the layer it binds. The map arenas only evolve |
| Converter.MaterialConverter.ExportSlots | korman/exporter/material.py:105-107 | On success, the loop has listed exactly the material's layer order, one layer per entry as `ListedEntry` says, and each of those slots' layers shows its map (`Shown`). The map arenas only evolve. The pending table gains exactly the queued insertions |
| Converter.MaterialConverter.ExportMaterial | korman/exporter/material.py:95-123 | The material is always added, named after the Blender material, with the other materials and existing layers untouched. It fails whenever the layer order does. On success it lists one new layer per order entry, or only the automatic layer, and is recorded for the object after that object's earlier materials. Each ordered slot's layer shows its text or environment map (`Shown`), and the map arenas only evolve, so a text map shown stays 1024 by 1024 and an environment map keeps its class, name and page |
| Converter.MaterialConverter.CompleteMaterial | korman/exporter/material.py:109-114 | A material left without layers gets the automatic layer. The listing is the material's whole layer order, and what the slots' layers show is kept |
| Converter.MaterialConverter.RecordMaterial | korman/exporter/material.py:116-120 | The material is appended to the object's list, or starts it |
| Converter.MaterialConverter.ExportWavesetMaterial | korman/exporter/material.py:125-139 | A new material named "<material>_WaveSet7" lists exactly one new layer, the waveset layer. It is not recorded for the object and not queued |
| Converter.MaterialConverter.ExportPreparedLayer | korman/exporter/material.py:464-472 | Without an image the call fails on the source's assertion and queues nothing. With one, the image is keyed without texture settings and inserted with this layer as a consumer |
| Converter.MaterialConverter.EncodeTexture | korman/exporter/material.py:479-526 | The bitmap built for a pending texture is `MipmapFor` of its key |
| Converter.MaterialConverter.PlaceConsumers | korman/exporter/material.py:530-549 | The layer loop places exactly as `PlaceAll` does, from no page served |
| Converter.MaterialConverter.Finalize | korman/exporter/material.py:474-549 | Finalize gives mipmaps and layers as `Finalized` defines them, from every pending texture in the table's order. It leaves the table, materials, text maps and environment maps as they were |
| Converter.MaterialConverter.PlacePending | korman/exporter/material.py:475-549 | The outer loop of finalize yields `Finalized` of the pending table |
| Converter.MaterialConverter.PlaceNext | korman/exporter/material.py:476-549 | One turn of the outer loop encodes the next pending texture and moves to the next state of finalize's history |
| Converter.MaterialConverter.GetMaterials | korman/exporter/material.py:551-552 | The object's materials in export order; none for an object never exported |

## Left out

- Floating point: opacity is kept as the percentage, not divided by 100.
  Frame numbers are not divided by the scene's frame rate. Colours and clip
  distances are kept as given.
- Animation.Timing: begin and end are frame numbers, not seconds, because the
  frame rate is floating point.
- EnvMaps.NewEnvMap: the refresh rate (0.01 or 0.0) is a flag saying whether
  the source is animated. The fog start, which is copied from the world's fog
  settings, is not modelled.
- Textures.Hash: the hash is the pair (image name, calc_alpha), not their
  XORed hash values. Only its agreement with equality matters to the table.
- Mipmaps.Log2Floor: the level count uses an exact integer floor(log2). The
  source computes it with floating-point `math.log`.
- Pixel work is not modelled: the OpenGL texture helper, scaling and
  reloading images (`_resize_image`), the pixels read into each level, and
  whether an image needed resizing. The level data and the alpha scan are
  uninterpreted services.
- `ensure_power_of_two`, the textures-page choice, the controller builders and
  the engine version are inputs, as uninterpreted services.
- Printing and the exporter's warnings (an opaque image that wants alpha, an
  image-file environment map) are output only; they are not modelled.
- The scene objects the environment-map code looks up (`find_key`,
  `find_create_key` of plSceneObject and plVisRegion) are represented by object
  names. Region lookups use a map from name to "visibility-region modifier
  enabled".
- The layer transform is a record of offset and scale, not an hsMatrix44.
- The registry is a set of arenas indexed by key. Python object identity and
  aliasing are represented by those indices.
- The weak reference to the exporter and the `_mgr` property are represented
  by the converter's constant registry and services.
- korman/exporter/explosions.py, utils.py, helpers.py, animation.py and korlib
  are not part of this model: only the calls into them are.
- TexName: paths are split at '/' only, as PurePosixPath does; on Windows
  Python also splits at '\\'. PurePath's normalisation (collapsed "//",
  dropped "." components, a trailing '/') is not modelled. The ValueError that
  with_suffix raises for an empty final component (material.py:64-66) is not
  modelled either; for such a name the model appends the extension, and
  TexNameShape asks for a non-empty final component.
- Converter.MaterialConverter.GetMaterials: an object that was never exported
  gives None, where the source's dictionary lookup raises KeyError
  (material.py:552).
- Converter.MaterialConverter.ExportDynamicEnv, CreateDynamicEnv: the branches
  for a missing layer (`layer` None) follow export_dynamic_env's own
  `layer is not None` test (material.py:391) and its `layer.key` crash for a
  camera map. No caller inside this model passes None:
  ExportEnvironmentMap always passes its layer, and the callers that may
  (outside material.py) are not part of this model.
