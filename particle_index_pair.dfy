/** The normalised, unordered pair of particle indices of
    kernels/cpu/include/readdy/kernel/cpu/model/ParticleIndexPair.h. */
module ParticleIndexPairs {
  import opened Wrappers

  /** Invariant of every constructed pair: `idx1 < idx2`. */
  datatype ParticleIndexPair = ParticleIndexPair(idx1: nat, idx2: nat)

  /** The constructor: orders the two indices, or throws on equal indices. */
  function MakePair(a: nat, b: nat): (r: Result<ParticleIndexPair>)
    ensures r.Ok? <==> a != b
    ensures r.Ok? ==> r.value.idx1 < r.value.idx2
    ensures r.Ok? ==> {r.value.idx1, r.value.idx2} == {a, b}
  {
    if a < b then Ok(ParticleIndexPair(a, b))
    else if a > b then Ok(ParticleIndexPair(b, a))
    else Err("pair must not have equal indices")
  }

  /** The order of the constructor's arguments does not matter. */
  lemma MakePairSymmetric(a: nat, b: nat)
    ensures MakePair(a, b) == MakePair(b, a)
  {
  }

  /** `operator==`: component-wise comparison, which is exactly equality of
      the pairs. */
  function Equal(p: ParticleIndexPair, q: ParticleIndexPair): (r: bool)
    ensures r <==> p == q
  {
    p.idx1 == q.idx1 && p.idx2 == q.idx2
  }

  /** `hash_value`: the seed 0 combined with `idx1`, then with `idx2`.  The
      combining step (readdy/common/hash.h) is not part of this model and is
      a parameter. */
  function HashValue(p: ParticleIndexPair, combine: (nat, nat) -> nat): nat {
    combine(combine(0, p.idx1), p.idx2)
  }

  /** Pairs that compare equal hash equally, whatever the combining step. */
  lemma EqualPairsHashEqually(p: ParticleIndexPair, q: ParticleIndexPair, combine: (nat, nat) -> nat)
    requires Equal(p, q)
    ensures HashValue(p, combine) == HashValue(q, combine)
  {
  }

  /** Constructing from `(a, b)` and from `(b, a)` gives pairs that are equal
      and hash equally. */
  lemma SwappedConstructionAgrees(a: nat, b: nat, combine: (nat, nat) -> nat)
    requires a != b
    ensures MakePair(a, b).Ok? && MakePair(b, a).Ok?
    ensures Equal(MakePair(a, b).value, MakePair(b, a).value)
    ensures HashValue(MakePair(a, b).value, combine) == HashValue(MakePair(b, a).value, combine)
  {
    MakePairSymmetric(a, b);
  }
}
