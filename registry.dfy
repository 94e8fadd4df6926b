/** The engine's object registry (the exporter's resource manager), reduced to what the
    material exporter needs: arenas of objects that are allocated, looked up by name within a
    page, and updated in place through their keys. */
module Registry {
  import opened Wrappers
  import opened Seqs
  import opened Plasma

  /** find_object / find_create_object: the first env map of this class, page and name. */
  function FindEnvMap(maps: seq<EnvMap>, kind: EnvMapKind, page: nat, name: string): (r: Option<nat>)
    ensures r.Some? ==> r.value < |maps| && maps[r.value].kind == kind
                        && maps[r.value].page == page && maps[r.value].name == name
    ensures r.None? ==> forall j :: 0 <= j < |maps| ==>
                          !(maps[j].kind == kind && maps[j].page == page && maps[j].name == name)
  {
    FirstIndex(maps, (m: EnvMap) => m.kind == kind && m.page == page && m.name == name)
  }

  function FindTextMap(maps: seq<TextMap>, page: nat, name: string): (r: Option<nat>)
    ensures r.Some? ==> r.value < |maps| && maps[r.value].page == page && maps[r.value].name == name
    ensures r.None? ==> forall j :: 0 <= j < |maps| ==> !(maps[j].page == page && maps[j].name == name)
  {
    FirstIndex(maps, (m: TextMap) => m.page == page && m.name == name)
  }

  class ResManager {
    var layers: seq<Layer>
    var materials: seq<GMaterial>
    var mipmaps: seq<Mipmap>
    var textMaps: seq<TextMap>
    var envMaps: seq<EnvMap>

    /** Every layer a material lists exists. */
    ghost predicate Valid()
      reads this
    {
      forall m :: 0 <= m < |materials| ==>
        forall j :: 0 <= j < |materials[m].layers| ==> materials[m].layers[j] < |layers|
    }

    constructor ()
      ensures Valid()
      ensures layers == [] && materials == [] && mipmaps == [] && textMaps == [] && envMaps == []
    {
      layers, materials, mipmaps, textMaps, envMaps := [], [], [], [], [];
    }

    method AddLayer(l: Layer) returns (k: nat)
      requires Valid()
      modifies this
      ensures Valid()
      ensures k == |old(layers)| && layers == old(layers) + [l]
      ensures materials == old(materials) && mipmaps == old(mipmaps)
      ensures textMaps == old(textMaps) && envMaps == old(envMaps)
    {
      k := |layers|;
      layers := layers + [l];
    }

    method SetLayer(k: nat, l: Layer)
      requires Valid() && k < |layers|
      modifies this
      ensures Valid()
      ensures layers == old(layers)[k := l]
      ensures materials == old(materials) && mipmaps == old(mipmaps)
      ensures textMaps == old(textMaps) && envMaps == old(envMaps)
    {
      layers := layers[k := l];
    }

    method AddMaterial(m: GMaterial) returns (k: nat)
      requires Valid() && m.layers == []
      modifies this
      ensures Valid()
      ensures k == |old(materials)| && materials == old(materials) + [m]
      ensures layers == old(layers) && mipmaps == old(mipmaps)
      ensures textMaps == old(textMaps) && envMaps == old(envMaps)
    {
      k := |materials|;
      materials := materials + [m];
    }

    /** hsGMaterial.addLayer */
    method AddMaterialLayer(m: nat, l: nat)
      requires Valid() && m < |materials| && l < |layers|
      modifies this
      ensures Valid()
      ensures materials == old(materials)[m := old(materials[m]).(layers := old(materials[m].layers) + [l])]
      ensures layers == old(layers) && mipmaps == old(mipmaps)
      ensures textMaps == old(textMaps) && envMaps == old(envMaps)
    {
      materials := materials[m := materials[m].(layers := materials[m].layers + [l])];
    }

    method AddCompFlag(m: nat, f: CompFlag)
      requires Valid() && m < |materials|
      modifies this
      ensures Valid()
      ensures materials == old(materials)[m := old(materials[m]).(compFlags := old(materials[m].compFlags) + {f})]
      ensures layers == old(layers) && mipmaps == old(mipmaps)
      ensures textMaps == old(textMaps) && envMaps == old(envMaps)
    {
      materials := materials[m := materials[m].(compFlags := materials[m].compFlags + {f})];
    }

    /** AddObject(page, mipmap) */
    method AddMipmap(mip: Mipmap) returns (k: nat)
      requires Valid()
      modifies this
      ensures Valid()
      ensures k == |old(mipmaps)| && mipmaps == old(mipmaps) + [mip]
      ensures layers == old(layers) && materials == old(materials)
      ensures textMaps == old(textMaps) && envMaps == old(envMaps)
    {
      k := |mipmaps|;
      mipmaps := mipmaps + [mip];
    }

    method AddTextMap(t: TextMap) returns (k: nat)
      requires Valid()
      modifies this
      ensures Valid()
      ensures k == |old(textMaps)| && textMaps == old(textMaps) + [t]
      ensures layers == old(layers) && materials == old(materials)
      ensures mipmaps == old(mipmaps) && envMaps == old(envMaps)
    {
      k := |textMaps|;
      textMaps := textMaps + [t];
    }

    method SetTextMap(k: nat, t: TextMap)
      requires Valid() && k < |textMaps|
      modifies this
      ensures Valid()
      ensures textMaps == old(textMaps)[k := t]
      ensures layers == old(layers) && materials == old(materials)
      ensures mipmaps == old(mipmaps) && envMaps == old(envMaps)
    {
      textMaps := textMaps[k := t];
    }

    method AddEnvMap(e: EnvMap) returns (k: nat)
      requires Valid()
      modifies this
      ensures Valid()
      ensures k == |old(envMaps)| && envMaps == old(envMaps) + [e]
      ensures layers == old(layers) && materials == old(materials)
      ensures mipmaps == old(mipmaps) && textMaps == old(textMaps)
    {
      k := |envMaps|;
      envMaps := envMaps + [e];
    }

    method SetEnvMap(k: nat, e: EnvMap)
      requires Valid() && k < |envMaps|
      modifies this
      ensures Valid()
      ensures envMaps == old(envMaps)[k := e]
      ensures layers == old(layers) && materials == old(materials)
      ensures mipmaps == old(mipmaps) && textMaps == old(textMaps)
    {
      envMaps := envMaps[k := e];
    }
  }
}
