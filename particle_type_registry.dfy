/** The registry of particle types of readdy/main/model/ParticleTypeRegistry.cpp:
    a counter handing out type ids, a name-to-id mapping and an id-to-info
    mapping. */
module ParticleTypeRegistries {
  import opened Wrappers

  /** The flavour of a particle type.  Particle.h is not part of this model;
      only the distinction "topology flavour or not" is used by the core. */
  datatype Flavor = Normal | Topology

  datatype ParticleTypeInfo = ParticleTypeInfo(
    name: string, diffusionConstant: real, radius: real, flavor: Flavor, typeId: nat)

  class ParticleTypeRegistry {
    var typeCounter: nat
    var nTypes: nat
    var typeMapping: map<string, nat>
    var particleInfo: map<nat, ParticleTypeInfo>

    /** Every stored info was handed an id below the counter and records its
        own id, and every mapped name leads to an info carrying that name. */
    ghost predicate Valid()
      reads this
    {
      && (forall id | id in particleInfo :: id < typeCounter && particleInfo[id].typeId == id)
      && (forall n | n in typeMapping :: typeMapping[n] in particleInfo && particleInfo[typeMapping[n]].name == n)
    }

    /** ParticleTypeRegistry.h is not part of this model; the registry is
        taken to start empty with both counters at zero. */
    constructor ()
      ensures Valid()
      ensures typeCounter == 0 && nTypes == 0 && typeMapping == map[] && particleInfo == map[]
    {
      typeCounter, nTypes := 0, 0;
      typeMapping, particleInfo := map[], map[];
    }

    /** `add`: the current counter value becomes the new id, then both counters
        are incremented; an existing name keeps its id because `emplace` does
        not overwrite, although a new info and a new count are still made. */
    method Add(name: string, diffusionConst: real, radius: real, flavor: Flavor)
      requires Valid()
      modifies this
      ensures Valid()
      ensures typeCounter == old(typeCounter) + 1 && nTypes == old(nTypes) + 1
      ensures typeMapping == if name in old(typeMapping) then old(typeMapping)
                             else old(typeMapping)[name := old(typeCounter)]
      ensures particleInfo == old(particleInfo)[old(typeCounter) :=
                ParticleTypeInfo(name, diffusionConst, radius, flavor, old(typeCounter))]
    {
      var tId := typeCounter;
      typeCounter := typeCounter + 1;
      if name !in typeMapping {
        typeMapping := typeMapping[name := tId];
      }
      if tId !in particleInfo {
        particleInfo := particleInfo[tId := ParticleTypeInfo(name, diffusionConst, radius, flavor, tId)];
      }
      nTypes := nTypes + 1;
    }

    /** `id_of`: the id registered for `name`; an unknown name throws. */
    function IdOf(name: string): (r: Result<nat>)
      requires Valid()
      reads this
      ensures r.Ok? <==> name in typeMapping
      ensures r.Ok? ==> r.value in particleInfo && particleInfo[r.value].name == name
    {
      if name in typeMapping then Ok(typeMapping[name]) else Err("unknown particle type")
    }

    /** `info_of(id)`: throws when no info was registered under `id`. */
    function InfoOf(id: nat): (r: Result<ParticleTypeInfo>)
      requires Valid()
      reads this
      ensures r.Ok? <==> id in particleInfo
      ensures r.Ok? ==> r.value.typeId == id
    {
      if id in particleInfo then Ok(particleInfo[id]) else Err("unknown particle type id")
    }

    /** `info_of(name)`: the info of `id_of(name)`, which carries `name`. */
    function InfoOfName(name: string): (r: Result<ParticleTypeInfo>)
      requires Valid()
      reads this
      ensures r.Ok? <==> name in typeMapping
      ensures r.Ok? ==> r.value.name == name
    {
      var id :- IdOf(name);
      InfoOf(id)
    }

    function RadiusOf(id: nat): (r: Result<real>)
      requires Valid()
      reads this
      ensures r.Ok? <==> InfoOf(id).Ok?
    {
      var info :- InfoOf(id);
      Ok(info.radius)
    }

    function RadiusOfName(name: string): (r: Result<real>)
      requires Valid()
      reads this
      ensures r.Ok? <==> name in typeMapping
      ensures r.Ok? ==> r == RadiusOf(IdOf(name).value)
    {
      var id :- IdOf(name);
      RadiusOf(id)
    }

    function DiffusionConstantOf(id: nat): (r: Result<real>)
      requires Valid()
      reads this
      ensures r.Ok? <==> InfoOf(id).Ok?
    {
      var info :- InfoOf(id);
      Ok(info.diffusionConstant)
    }

    function DiffusionConstantOfName(name: string): (r: Result<real>)
      requires Valid()
      reads this
      ensures r.Ok? <==> name in typeMapping
      ensures r.Ok? ==> r == DiffusionConstantOf(IdOf(name).value)
    {
      var id :- IdOf(name);
      DiffusionConstantOf(id)
    }

    function NTypes(): nat
      reads this
    {
      nTypes
    }

    /** `name_of`: a scan of the mapping for a name mapped to `id`, or the
        empty string when there is none. */
    method NameOf(id: nat) returns (name: string)
      ensures id in typeMapping.Values ==> name in typeMapping && typeMapping[name] == id
      ensures id !in typeMapping.Values ==> name == ""
    {
      var remaining := typeMapping.Keys;
      while remaining != {}
        invariant remaining <= typeMapping.Keys
        invariant forall n | n in typeMapping.Keys - remaining :: typeMapping[n] != id
        decreases remaining
      {
        var n :| n in remaining;
        if typeMapping[n] == id {
          return n;
        }
        remaining := remaining - {n};
      }
      name := "";
    }

    /** `types_flat`: one id per name of the mapping. */
    method TypesFlat() returns (v: seq<nat>)
      ensures |v| == |typeMapping|
      ensures forall i | 0 <= i < |v| :: v[i] in typeMapping.Values
      ensures forall n | n in typeMapping :: typeMapping[n] in v
    {
      var remaining := typeMapping.Keys;
      ghost var done: set<string> := {};
      v := [];
      while remaining != {}
        invariant done + remaining == typeMapping.Keys && done !! remaining
        invariant |v| == |done|
        invariant forall i | 0 <= i < |v| :: v[i] in typeMapping.Values
        invariant forall n | n in done :: typeMapping[n] in v
        decreases remaining
      {
        var n :| n in remaining;
        v := v + [typeMapping[n]];
        done := done + {n};
        remaining := remaining - {n};
      }
    }
  }

  /** Registering a fresh name makes it known under the counter's old value,
      with the given properties; re-registering it keeps that id while the
      type count still grows. */
  method RegisterTwice(radius: real, diffusion: real)
    returns (firstId: nat, secondId: nat, count: nat, info: ParticleTypeInfo)
    ensures firstId == 0 && secondId == 0 && count == 2
    ensures info == ParticleTypeInfo("A", diffusion, radius, Topology, 0)
  {
    var registry := new ParticleTypeRegistry();
    registry.Add("A", diffusion, radius, Topology);
    firstId := registry.IdOf("A").value;
    info := registry.InfoOf(firstId).value;
    registry.Add("A", 2.0 * diffusion, 2.0 * radius, Normal);
    secondId := registry.IdOf("A").value;
    count := registry.NTypes();
  }

  /** Looking up an unregistered name fails. */
  method UnknownNameFails() returns (found: bool)
    ensures !found
  {
    var registry := new ParticleTypeRegistry();
    registry.Add("A", 1.0, 1.0, Normal);
    found := registry.IdOf("B").Ok?;
  }
}
