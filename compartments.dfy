/** The CPU kernel's compartments program: registered regions of space
    (predicates on positions), each with a map of type conversions, applied
    to every active particle. */
module Compartments {
  import opened Vectors
  import opened Particles

  /** The type after the first `i` compartments, in registration order, had
      their say: a compartment containing `pos` with a conversion for the
      current type converts it, and the next one sees the converted type. */
  function ConvertType(compartments: seq<Vec3 -> bool>, conversions: map<nat, map<nat, nat>>, pos: Vec3, t: nat, i: nat): nat
    requires i <= |compartments|
  {
    if i == 0 then t
    else
      var before := ConvertType(compartments, conversions, pos, t, i - 1);
      if compartments[i - 1](pos) && i - 1 in conversions && before in conversions[i - 1]
      then conversions[i - 1][before]
      else before
  }

  /** An entry after `execute`: a deactivated entry is untouched, an active
      one gets the converted type and keeps everything else. */
  function Converted(compartments: seq<Vec3 -> bool>, conversions: map<nat, map<nat, nat>>, e: Entry): Entry {
    if e.deactivated then e else e.(ptype := ConvertType(compartments, conversions, e.pos, e.ptype, |compartments|))
  }

  /** `conversions` after `registerConversion` of a valid compartment index:
      the conversion is added unless one for `from` exists already. */
  function WithConversion(conversions: map<nat, map<nat, nat>>, idx: nat, from: nat, to: nat): (r: map<nat, map<nat, nat>>)
    ensures idx in r && from in r[idx]
    ensures idx in conversions && from in conversions[idx] ==> r == conversions
    ensures !(idx in conversions && from in conversions[idx]) ==> r[idx][from] == to
    ensures forall k | k != idx :: (k in r <==> k in conversions) && (k in r ==> r[k] == conversions[k])
    ensures forall f | f != from :: (f in r[idx] <==> idx in conversions && f in conversions[idx])
  {
    var inner := if idx in conversions then conversions[idx] else map[];
    if from in inner then conversions else conversions[idx := inner[from := to]]
  }

  /** The first conversion registered for a compartment and type wins. */
  lemma FirstConversionWins(conversions: map<nat, map<nat, nat>>, idx: nat, from: nat, to1: nat, to2: nat)
    ensures WithConversion(WithConversion(conversions, idx, from, to1), idx, from, to2) == WithConversion(conversions, idx, from, to1)
    ensures !(idx in conversions && from in conversions[idx]) ==> WithConversion(WithConversion(conversions, idx, from, to1), idx, from, to2)[idx][from] == to1
  {
  }

  /** `new` is `old` plus empty conversion maps for some compartments. */
  ghost predicate ExtendsWithEmpty(old0: map<nat, map<nat, nat>>, new0: map<nat, map<nat, nat>>) {
    && old0.Keys <= new0.Keys
    && forall k | k in new0 :: new0[k] == if k in old0 then old0[k] else map[]
  }

  /** Empty conversion maps convert nothing. */
  lemma {:induction false} ConvertTypeIgnoresEmpty(compartments: seq<Vec3 -> bool>, a: map<nat, map<nat, nat>>, b: map<nat, map<nat, nat>>,
                                                   pos: Vec3, t: nat, i: nat)
    requires i <= |compartments| && ExtendsWithEmpty(a, b)
    ensures ConvertType(compartments, b, pos, t, i) == ConvertType(compartments, a, pos, t, i)
  {
    if i > 0 {
      ConvertTypeIgnoresEmpty(compartments, a, b, pos, t, i - 1);
    }
  }

  /** An entry whose type no containing compartment converts keeps its type. */
  lemma {:induction false} NoConversionKeepsType(compartments: seq<Vec3 -> bool>, conversions: map<nat, map<nat, nat>>, pos: Vec3, t: nat, i: nat)
    requires i <= |compartments|
    requires forall c | 0 <= c < i && compartments[c](pos) && c in conversions :: t !in conversions[c]
    ensures ConvertType(compartments, conversions, pos, t, i) == t
  {
    if i > 0 {
      NoConversionKeepsType(compartments, conversions, pos, t, i - 1);
    }
  }

  /** Only the type of an active entry may change. */
  lemma ConvertedChangesOnlyType(compartments: seq<Vec3 -> bool>, conversions: map<nat, map<nat, nat>>, e: Entry)
    ensures Converted(compartments, conversions, e).(ptype := e.ptype) == e
    ensures e.deactivated ==> Converted(compartments, conversions, e) == e
  {
  }

  class CompartmentsProgram {
    var compartments: seq<Vec3 -> bool>
    var conversions: map<nat, map<nat, nat>>

    constructor ()
      ensures compartments == [] && conversions == map[]
    {
      compartments := [];
      conversions := map[];
    }

    /** `registerCompartment`: appends one region at the end. */
    method RegisterCompartment(fun: Vec3 -> bool)
      modifies this
      ensures compartments == old(compartments) + [fun]
      ensures conversions == old(conversions)
    {
      compartments := compartments + [fun];
    }

    /** `registerConversion` by type id: an unknown compartment index is an
        error and registers nothing. */
    method RegisterConversion(idx: nat, from: nat, to: nat) returns (ok: bool)
      modifies this
      ensures ok <==> idx < |old(compartments)|
      ensures compartments == old(compartments)
      ensures ok ==> conversions == WithConversion(old(conversions), idx, from, to)
      ensures !ok ==> conversions == old(conversions)
    {
      if idx >= |compartments| {
        return false;
      }
      if idx !in conversions {
        conversions := conversions[idx := map[]];
      }
      var inner := conversions[idx];
      if from !in inner {
        conversions := conversions[idx := inner[from := to]];
      }
      ok := true;
    }

    /** `registerConversion` by type name: an unknown name is an error, and
        otherwise the id-based registration runs. */
    method RegisterConversionByName(idx: nat, from: string, to: string, typeMapping: map<string, nat>) returns (ok: bool)
      modifies this
      ensures ok <==> from in typeMapping && to in typeMapping && idx < |old(compartments)|
      ensures compartments == old(compartments)
      ensures ok ==> conversions == WithConversion(old(conversions), idx, typeMapping[from], typeMapping[to])
      ensures !ok ==> conversions == old(conversions)
    {
      if from !in typeMapping || to !in typeMapping {
        return false;
      }
      ok := RegisterConversion(idx, typeMapping[from], typeMapping[to]);
    }

    /** The compartment loop of `execute` for one active entry; looking up a
        compartment without conversions inserts an empty map for it. */
    method ConvertEntry(e: Entry) returns (t: nat)
      modifies this
      ensures compartments == old(compartments)
      ensures ExtendsWithEmpty(old(conversions), conversions)
      ensures t == ConvertType(compartments, old(conversions), e.pos, e.ptype, |compartments|)
    {
      t := e.ptype;
      var i := 0;
      while i < |compartments|
        invariant 0 <= i <= |compartments| && compartments == old(compartments)
        invariant ExtendsWithEmpty(old(conversions), conversions)
        invariant t == ConvertType(compartments, old(conversions), e.pos, e.ptype, i)
      {
        if compartments[i](e.pos) {
          if i !in conversions {
            conversions := conversions[i := map[]];
          }
          if t in conversions[i] {
            t := conversions[i][t];
          }
        }
        i := i + 1;
      }
    }

    /** `execute`: converts the type of every active entry. */
    method Execute(data: array<Entry>)
      modifies this, data
      ensures compartments == old(compartments)
      ensures ExtendsWithEmpty(old(conversions), conversions)
      ensures forall j | 0 <= j < data.Length :: data[j] == Converted(compartments, old(conversions), old(data[j]))
    {
      var idx := 0;
      while idx < data.Length
        invariant 0 <= idx <= data.Length && compartments == old(compartments)
        invariant ExtendsWithEmpty(old(conversions), conversions)
        invariant forall j | 0 <= j < data.Length ::
                    data[j] == if j < idx then Converted(compartments, old(conversions), old(data[j])) else old(data[j])
      {
        var e := data[idx];
        if !e.deactivated {
          ghost var before := conversions;
          var t := ConvertEntry(e);
          ConvertTypeIgnoresEmpty(compartments, old(conversions), before, e.pos, e.ptype, |compartments|);
          data[idx] := e.(ptype := t);
        }
        idx := idx + 1;
      }
    }
  }
}
