/** A topology: the kernel indices of its particles and the bonded, angle
    and torsion potentials it owns.  Potentials name the topology they were
    built for; a topology only accepts its own. */
module Topologies {
  import opened Wrappers

  /** One harmonic bond between the topology-local particles `idx1` and `idx2`. */
  datatype BondConfiguration = BondConfiguration(idx1: nat, idx2: nat, length: real, forceConstant: real)

  /** The constructor takes the force constant before the length; the
      fields keep each value under its own name. */
  function NewBondConfiguration(idx1: nat, idx2: nat, forceConstant: real, length: real): (b: BondConfiguration)
    ensures b.idx1 == idx1 && b.idx2 == idx2
    ensures b.forceConstant == forceConstant && b.length == length
  {
    BondConfiguration(idx1, idx2, length, forceConstant)
  }

  datatype BondedPotential = BondedPotential(owner: Topology, bonds: seq<BondConfiguration>)
  /** The angle and torsion terms are not part of this model; only the owner is. */
  datatype AnglePotential = AnglePotential(owner: Topology)
  datatype TorsionPotential = TorsionPotential(owner: Topology)

  /** The first bond, in order, with an index outside `0 .. n-1`, and the
      message the constructor throws for it. */
  function FirstBondError(bonds: seq<BondConfiguration>, n: nat): (r: Option<string>)
    ensures r.None? <==> forall i | 0 <= i < |bonds| :: bonds[i].idx1 < n && bonds[i].idx2 < n
  {
    if bonds == [] then None
    else if bonds[0].idx1 >= n then Some("the first particle was out of bounds!")
    else if bonds[0].idx2 >= n then Some("the second particle was out of bounds!")
    else
      var rest := FirstBondError(bonds[1..], n);
      assert forall i | 1 <= i < |bonds| :: bonds[i] == bonds[1..][i - 1];
      rest
  }

  /** The harmonic bond constructor: it throws on the first bond (in order)
      that names a particle outside the topology, checking `idx1` before
      `idx2`, and otherwise keeps the bonds exactly as given. */
  function NewHarmonicBondPotential(topology: Topology, bonds: seq<BondConfiguration>): (r: Result<BondedPotential>)
    reads topology
    ensures r.Ok? <==> forall i | 0 <= i < |bonds| :: bonds[i].idx1 < |topology.particles| && bonds[i].idx2 < |topology.particles|
    ensures r.Ok? ==> r.value.owner == topology && r.value.bonds == bonds
    ensures r.Err? && |bonds| > 0 && bonds[0].idx1 >= |topology.particles| ==> r.message == "the first particle was out of bounds!"
    ensures r.Err? && |bonds| > 0 && bonds[0].idx1 < |topology.particles| <= bonds[0].idx2 ==> r.message == "the second particle was out of bounds!"
  {
    match FirstBondError(bonds, topology.NParticles())
    case Some(message) => Err(message)
    case None => Ok(BondedPotential(topology, bonds))
  }

  /** `permutation[i]` replaces every stored index `i`. */
  function Permuted(particles: seq<nat>, permutation: seq<nat>): (r: seq<nat>)
    requires forall k | 0 <= k < |particles| :: particles[k] < |permutation|
  {
    seq(|particles|, k requires 0 <= k < |particles| => permutation[particles[k]])
  }

  predicate IsIdentity(permutation: seq<nat>) {
    forall i | 0 <= i < |permutation| :: permutation[i] == i
  }

  /** The identity permutation leaves the index list as it is. */
  lemma PermutedIdentity(particles: seq<nat>, permutation: seq<nat>)
    requires forall k | 0 <= k < |particles| :: particles[k] < |permutation|
    requires IsIdentity(permutation)
    ensures Permuted(particles, permutation) == particles
  {
    var r := Permuted(particles, permutation);
    forall k | 0 <= k < |particles|
      ensures r[k] == particles[k]
    {
      assert permutation[particles[k]] == particles[k];
    }
  }

  /** Permuting by `p` and then by `q` is permuting once by `q` after `p`. */
  lemma PermutedCompose(particles: seq<nat>, p: seq<nat>, q: seq<nat>)
    requires forall k | 0 <= k < |particles| :: particles[k] < |p|
    requires forall i | 0 <= i < |p| :: p[i] < |q|
    ensures forall k | 0 <= k < |Permuted(particles, p)| :: Permuted(particles, p)[k] < |q|
    ensures Permuted(Permuted(particles, p), q)
         == Permuted(particles, seq(|p|, i requires 0 <= i < |p| => q[p[i]]))
  {
    var pq := seq(|p|, i requires 0 <= i < |p| => q[p[i]]);
    var lhs, rhs := Permuted(Permuted(particles, p), q), Permuted(particles, pq);
    forall k | 0 <= k < |particles|
      ensures lhs[k] == rhs[k]
    {
      assert pq[particles[k]] == q[p[particles[k]]];
    }
  }

  class Topology {
    var particles: seq<nat>
    var bondedPotentials: seq<BondedPotential>
    var anglePotentials: seq<AnglePotential>
    var torsionPotentials: seq<TorsionPotential>

    /** The index list is stored as given; no potentials yet. */
    constructor (particles: seq<nat>)
      ensures this.particles == particles
      ensures bondedPotentials == [] && anglePotentials == [] && torsionPotentials == []
    {
      this.particles := particles;
      bondedPotentials, anglePotentials, torsionPotentials := [], [], [];
    }

    function NParticles(): nat
      reads this
    {
      |particles|
    }

    /** Appends the potential if this topology owns it; otherwise reports
        the error and changes nothing. */
    method AddAnglePotential(pot: AnglePotential) returns (r: Result<()>)
      modifies this
      ensures r.Ok? <==> pot.owner == this
      ensures r.Ok? ==> anglePotentials == old(anglePotentials) + [pot]
      ensures r.Err? ==> anglePotentials == old(anglePotentials)
      ensures particles == old(particles) && bondedPotentials == old(bondedPotentials)
      ensures torsionPotentials == old(torsionPotentials)
    {
      if pot.owner != this {
        return Err("the topology associated with the argument did not correspond to the actual one");
      }
      anglePotentials := anglePotentials + [pot];
      r := Ok(());
    }

    method AddTorsionPotential(pot: TorsionPotential) returns (r: Result<()>)
      modifies this
      ensures r.Ok? <==> pot.owner == this
      ensures r.Ok? ==> torsionPotentials == old(torsionPotentials) + [pot]
      ensures r.Err? ==> torsionPotentials == old(torsionPotentials)
      ensures particles == old(particles) && bondedPotentials == old(bondedPotentials)
      ensures anglePotentials == old(anglePotentials)
    {
      if pot.owner != this {
        return Err("the topology associated with the argument did not correspond to the actual one");
      }
      torsionPotentials := torsionPotentials + [pot];
      r := Ok(());
    }

    method AddBondedPotential(pot: BondedPotential) returns (r: Result<()>)
      modifies this
      ensures r.Ok? <==> pot.owner == this
      ensures r.Ok? ==> bondedPotentials == old(bondedPotentials) + [pot]
      ensures r.Err? ==> bondedPotentials == old(bondedPotentials)
      ensures particles == old(particles) && anglePotentials == old(anglePotentials)
      ensures torsionPotentials == old(torsionPotentials)
    {
      if pot.owner != this {
        return Err("the topology associated with the argument did not correspond to the actual one");
      }
      bondedPotentials := bondedPotentials + [pot];
      r := Ok(());
    }

    /** Replaces, in place, every stored index `i` by `permutation[i]`. */
    method PermuteIndices(permutation: seq<nat>)
      requires forall k | 0 <= k < |particles| :: particles[k] < |permutation|
      modifies this
      ensures particles == Permuted(old(particles), permutation)
      ensures bondedPotentials == old(bondedPotentials) && anglePotentials == old(anglePotentials)
      ensures torsionPotentials == old(torsionPotentials)
    {
      ghost var original := particles;
      var k := 0;
      while k < |particles|
        invariant 0 <= k <= |particles| == |original|
        invariant forall j | 0 <= j < k :: particles[j] == permutation[original[j]]
        invariant forall j | k <= j < |particles| :: particles[j] == original[j]
        invariant bondedPotentials == old(bondedPotentials) && anglePotentials == old(anglePotentials)
        invariant torsionPotentials == old(torsionPotentials)
      {
        particles := particles[k := permutation[particles[k]]];
        k := k + 1;
      }
    }
  }
}
