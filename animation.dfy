/** `_export_layer_animations` and its two converters: which f-curves a layer's animation is
    built from, which controllers result, and the timing of the plLayerAnimation wrapper. */
module Animation {
  import opened Wrappers
  import opened Seqs
  import opened Blender
  import opened Plasma
  import opened Collaborators

  function DigitChar(d: nat): (c: char)
    requires d < 10
    ensures '0' <= c <= '9'
  {
    (48 + d) as char
  }

  /** The decimal spelling of n, as `str.format` writes it. */
  function Digits(n: nat): (r: string)
    ensures |r| >= 1 && forall i :: 0 <= i < |r| ==> '0' <= r[i] <= '9'
    ensures n >= 10 ==> |r| >= 2
    decreases n
  {
    if n < 10 then [DigitChar(n)] else Digits(n / 10) + [DigitChar(n % 10)]
  }

  /** Different numbers are spelled differently. */
  lemma {:induction false} DigitsInjective(i: nat, j: nat)
    requires Digits(i) == Digits(j)
    ensures i == j
    decreases i
  {
    if i >= 10 && j >= 10 {
      var di, dj := Digits(i), Digits(j);
      assert di[|di| - 1] == DigitChar(i % 10) && dj[|dj| - 1] == DigitChar(j % 10);
      assert di[..|di| - 1] == Digits(i / 10) && dj[..|dj| - 1] == Digits(j / 10);
      DigitsInjective(i / 10, j / 10);
    }
  }

  /** The data-path prefix of the material's curves on slot `idx`. */
  function SlotPath(idx: nat): string {
    "texture_slots[" + Digits(idx) + "]"
  }

  /** No slot's prefix is a prefix of another slot's: the material curves harvested for one
      slot never include those of a different slot index. */
  lemma SlotPathsDistinct(i: nat, j: nat, rest: string)
    requires SlotPath(i) <= SlotPath(j) + rest
    ensures i == j
  {
    var p := "texture_slots[";
    var di, dj := Digits(i), Digits(j);
    var a, b := SlotPath(i), SlotPath(j) + rest;
    assert a == p + di + "]" && b == p + dj + "]" + rest;
    assert forall k :: 0 <= k < |di| ==> a[|p| + k] == di[k];
    assert forall k :: 0 <= k < |dj| ==> b[|p| + k] == dj[k];
    var k := if |di| < |dj| then |di| else |dj|;
    assert a[|p| + k] == b[|p| + k];
    assert k == |di| ==> a[|p| + k] == ']';
    assert k == |dj| ==> b[|p| + k] == ']';
    assert |di| == |dj|;
    assert forall k :: 0 <= k < |di| ==> di[k] == dj[k] by {
      forall k | 0 <= k < |di| ensures di[k] == dj[k] {
        assert a[|p| + k] == b[|p| + k];
      }
    }
    assert di == dj;
    DigitsInjective(i, j);
  }

  /** `harvest_fcurves`: the action's curves (only those whose data path starts with the prefix,
      when one is given) and the action itself; nothing for an id without an action. */
  function Harvest(action: Option<Action>, prefix: Option<string>): (r: (seq<FCurve>, Option<Action>))
    ensures r.1 == action
    ensures action.None? ==> r.0 == []
    ensures action.Some? && prefix.None? ==> r.0 == action.value.fcurves
    ensures action.Some? && prefix.Some? ==>
              (forall i :: 0 <= i < |r.0| ==> r.0[i] in action.value.fcurves && prefix.value <= r.0[i].dataPath)
              && (forall i :: 0 <= i < |action.value.fcurves| && prefix.value <= action.value.fcurves[i].dataPath
                    ==> action.value.fcurves[i] in r.0)
  {
    match action
    case None => ([], None)
    case Some(a) =>
      match prefix
      case None => (a.fcurves, action)
      case Some(p) => (Filter(a.fcurves, (c: FCurve) => p <= c.dataPath), action)
  }

  /** The curves a slot's layer animation is built from: the material's curves on this slot,
      then every curve of the texture's own action. */
  function LayerFCurves(bm: Material, slot: TextureSlot, idx: nat): seq<FCurve>
    requires slot.texture.Some?
  {
    Harvest(bm.action, Some(SlotPath(idx))).0 + Harvest(slot.texture.value.action, None).0
  }

  /** Every harvested curve is one of the texture's, or one of the material's on this slot;
      every curve of the texture's action is harvested. */
  lemma LayerFCurvesOrigin(bm: Material, slot: TextureSlot, idx: nat)
    requires slot.texture.Some?
    ensures var cs := LayerFCurves(bm, slot, idx);
      && (forall i :: 0 <= i < |cs| ==>
            (slot.texture.value.action.Some? && cs[i] in slot.texture.value.action.value.fcurves)
            || (bm.action.Some? && cs[i] in bm.action.value.fcurves && SlotPath(idx) <= cs[i].dataPath))
      && (slot.texture.value.action.Some? ==>
            forall i :: 0 <= i < |slot.texture.value.action.value.fcurves| ==>
              slot.texture.value.action.value.fcurves[i] in cs)
  {
    var m := Harvest(bm.action, Some(SlotPath(idx))).0;
    var t := Harvest(slot.texture.value.action, None).0;
    var cs := LayerFCurves(bm, slot, idx);
    assert cs == m + t;
    forall i | 0 <= i < |cs|
      ensures (slot.texture.value.action.Some? && cs[i] in slot.texture.value.action.value.fcurves)
              || (bm.action.Some? && cs[i] in bm.action.value.fcurves && SlotPath(idx) <= cs[i].dataPath)
    {
      if i < |m| {
        assert cs[i] == m[i];
      } else {
        assert cs[i] == t[i - |m|];
      }
    }
    if slot.texture.value.action.Some? {
      forall i | 0 <= i < |t| ensures t[i] in cs {
        assert cs[|m| + i] == t[i];
      }
    }
  }

  const OpacityPath := "plasma_layer.opacity"

  predicate IsOpacityCurve(c: FCurve) {
    c.dataPath == OpacityPath
  }

  /** The first curve animating the layer's opacity. */
  function OpacityCurve(fcurves: seq<FCurve>): (r: Option<FCurve>)
    ensures r.Some? ==> r.value in fcurves && IsOpacityCurve(r.value)
    ensures r.None? ==> forall i :: 0 <= i < |fcurves| ==> !IsOpacityCurve(fcurves[i])
  {
    match FirstIndex(fcurves, IsOpacityCurve)
    case None => None
    case Some(i) => Some(fcurves[i])
  }

  /** `sub` occurs in `s` (`str.find(sub) != -1`). */
  function Contains(s: string, sub: string): (r: bool)
    ensures r <==> exists i :: 0 <= i <= |s| && sub <= s[i..]
    decreases |s|
  {
    if sub <= s then
      assert sub <= s[0..];
      true
    else if s == [] then false
    else
      var r := Contains(s[1..], sub);
      assert forall i :: 1 <= i <= |s| ==> s[i..] == s[1..][i - 1..];
      assert r ==> exists i :: 0 <= i <= |s| && sub <= s[i..] by {
        if r {
          var j :| 0 <= j <= |s[1..]| && sub <= s[1..][j..];
          assert s[1..][j..] == s[j + 1..];
        }
      }
      r
  }

  predicate IsPositionCurve(c: FCurve) {
    Contains(c.dataPath, "offset")
  }

  predicate IsScaleCurve(c: FCurve) {
    Contains(c.dataPath, "scale")
  }

  /** `_export_layer_opacity_animation`'s controller: built from the first opacity curve. */
  function OpacityController(svc: Services, fcurves: seq<FCurve>): (r: Option<Ctrl>)
    ensures OpacityCurve(fcurves).None? ==> r.None?
  {
    match OpacityCurve(fcurves)
    case None => None
    case Some(c) => svc.scalarController(c)
  }

  /** `_export_layer_transform_animation`'s controller: built from the offset and scale curves and
      the slot's static offset and scale. */
  function TransformController(svc: Services, slot: TextureSlot, fcurves: seq<FCurve>): (r: Option<Ctrl>)
    ensures var pos, scl := Filter(fcurves, IsPositionCurve), Filter(fcurves, IsScaleCurve);
      && (forall c :: c in pos <==> c in fcurves && IsPositionCurve(c))
      && (forall c :: c in scl <==> c in fcurves && IsScaleCurve(c))
      && r == svc.matrixController(pos, scl, slot.offset, slot.scale)
  {
    svc.matrixController(Filter(fcurves, IsPositionCurve), Filter(fcurves, IsScaleCurve), slot.offset, slot.scale)
  }

  /** The wrapper's time conversion: the frame range of the texture's action if it has one, else
      the material's; stopped unless auto-started; looping over the whole range when asked. */
  function Timing(matAction: Option<Action>, texAction: Option<Action>, props: LayerProps): (r: TimeConvert)
    requires matAction.Some? || texAction.Some?
    ensures texAction.Some? ==> r.begin == texAction.value.frameStart && r.end == texAction.value.frameEnd
    ensures texAction.None? ==> r.begin == matAction.value.frameStart && r.end == matAction.value.frameEnd
    ensures r.stopped <==> !props.animAutoStart
    ensures r.loop <==> props.animLoop
    ensures r.loop ==> r.loopBegin == r.begin && r.loopEnd == r.end
    ensures !r.loop ==> r.loopBegin == DefaultTimeConvert.loopBegin && r.loopEnd == DefaultTimeConvert.loopEnd
  {
    var range := if texAction.Some? then texAction.value else matAction.value;
    var atc := DefaultTimeConvert.(begin := range.frameStart, end := range.frameEnd,
                                   stopped := !props.animAutoStart);
    if props.animLoop then atc.(loop := true, loopBegin := atc.begin, loopEnd := atc.end) else atc
  }

  /** What the animation export does to a slot's base layer: whether the opacity converter forces
      alpha blending on it, and the plLayerAnimation wrapping it, if any. */
  datatype AnimEffect = AnimEffect(forceAlpha: bool, wrapper: Option<LayerKind>)

  function LayerAnimationEffect(svc: Services, bm: Material, slot: TextureSlot, idx: nat, base: nat): (r: AnimEffect)
    requires slot.texture.Some?
    ensures LayerFCurves(bm, slot, idx) == [] ==> r == AnimEffect(false, None)
    ensures LayerFCurves(bm, slot, idx) != [] ==> (r.forceAlpha <==> OpacityCurve(LayerFCurves(bm, slot, idx)).Some?)
    ensures r.wrapper.Some? <==> (LayerFCurves(bm, slot, idx) != [] &&
              (OpacityController(svc, LayerFCurves(bm, slot, idx)).Some?
               || TransformController(svc, slot, LayerFCurves(bm, slot, idx)).Some?))
    ensures r.wrapper.Some? ==>
              && r.wrapper.value.LayerAnimation?
              && r.wrapper.value.underLay == base
              && r.wrapper.value.opacityCtl == OpacityController(svc, LayerFCurves(bm, slot, idx))
              && r.wrapper.value.transformCtl == TransformController(svc, slot, LayerFCurves(bm, slot, idx))
              && r.wrapper.value.timeConvert ==
                   Timing(bm.action, slot.texture.value.action, slot.texture.value.plasmaLayer)
  {
    var fcurves := LayerFCurves(bm, slot, idx);
    if fcurves == [] then AnimEffect(false, None)
    else
      var opacity := OpacityController(svc, fcurves);
      var transform := TransformController(svc, slot, fcurves);
      if opacity.None? && transform.None? then AnimEffect(OpacityCurve(fcurves).Some?, None)
      else
        AnimEffect(OpacityCurve(fcurves).Some?,
                   Some(LayerAnimation(base, opacity, transform,
                                       Timing(bm.action, slot.texture.value.action, slot.texture.value.plasmaLayer))))
  }

  /** A texture whose own action animates its opacity gets alpha blending on its base layer, even
      when no controller can be built from the curve. */
  lemma OpacityCurveForcesAlpha(svc: Services, bm: Material, slot: TextureSlot, idx: nat, base: nat, c: FCurve)
    requires slot.texture.Some? && slot.texture.value.action.Some?
    requires c in slot.texture.value.action.value.fcurves && IsOpacityCurve(c)
    ensures LayerAnimationEffect(svc, bm, slot, idx, base).forceAlpha
  {
    LayerFCurvesOrigin(bm, slot, idx);
    var cs := LayerFCurves(bm, slot, idx);
    var i :| 0 <= i < |slot.texture.value.action.value.fcurves| && slot.texture.value.action.value.fcurves[i] == c;
    assert c in cs;
  }
}
