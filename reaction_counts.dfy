/** The per-step reaction counts: one vector of counters per particle type
    (order-1 reactions) and per unordered type pair (order-2 reactions),
    with one counter per reaction registered for that type or pair. */
module ReactionCounts {
  import opened Particles

  /** The key of an unordered type pair: the smaller type first. */
  function PairKey(t1: nat, t2: nat): (k: (nat, nat))
    ensures k.0 <= k.1 && {k.0, k.1} == {t1, t2}
  {
    if t1 <= t2 then (t1, t2) else (t2, t1)
  }

  lemma PairKeySymmetric(t1: nat, t2: nat)
    ensures PairKey(t1, t2) == PairKey(t2, t1)
  {
  }

  datatype Counts = Counts(order1: map<nat, seq<nat>>, order2: map<(nat, nat), seq<nat>>)

  function Zeros(n: nat): (r: seq<nat>)
    ensures |r| == n && forall i | 0 <= i < n :: r[i] == 0
  {
    seq(n, _ => 0)
  }

  /** The vector a visited key ends up with: an existing non-empty vector is
      zero-filled and keeps its length, otherwise it becomes `n` zeros. */
  function ResetVector<K>(m: map<K, seq<nat>>, k: K, n: nat): (r: seq<nat>)
    ensures forall i | 0 <= i < |r| :: r[i] == 0
    ensures k in m && m[k] != [] ==> |r| == |m[k]|
    ensures (k !in m || m[k] == []) ==> |r| == n
  {
    if k in m && m[k] != [] then Zeros(|m[k]|) else Zeros(n)
  }

  /** Resetting twice is resetting once (for a positive count). */
  lemma ResetVectorStable<K>(m: map<K, seq<nat>>, k: K, n: nat)
    requires n > 0
    ensures ResetVector(m[k := ResetVector(m, k, n)], k, n) == ResetVector(m, k, n)
  {
  }

  /** `cur` is `m0` with every key in `visited` that has reactions reset, and
      every other key as it was. */
  ghost predicate ResetOn<K(!new)>(m0: map<K, seq<nat>>, cur: map<K, seq<nat>>, visited: set<K>, n: K -> nat) {
    && (forall k | k in visited && n(k) > 0 :: k in cur && cur[k] == ResetVector(m0, k, n(k)))
    && (forall k | !(k in visited && n(k) > 0) :: (k in cur <==> k in m0) && (k in m0 ==> cur[k] == m0[k]))
  }

  /** Visiting one key: reset its vector when it has reactions. */
  function ResetStep<K>(cur: map<K, seq<nat>>, k: K, n: nat): map<K, seq<nat>> {
    if n > 0 then cur[k := ResetVector(cur, k, n)] else cur
  }

  lemma ResetOnStep<K(!new)>(m0: map<K, seq<nat>>, cur: map<K, seq<nat>>, visited: set<K>, n: K -> nat, k: K)
    requires ResetOn(m0, cur, visited, n)
    ensures ResetOn(m0, ResetStep(cur, k, n(k)), visited + {k}, n)
  {
    if n(k) > 0 {
      assert ResetVector(cur, k, n(k)) == ResetVector(m0, k, n(k));
    }
  }

  /** The number of counters per type and per type pair. */
  function Order1Sizes(reg: ReactionRegistry): nat -> nat {
    t => |reg.order1ByType(t)|
  }

  function Order2Sizes(reg: ReactionRegistry): ((nat, nat)) -> nat {
    (p: (nat, nat)) => |reg.order2ByType(p.0, p.1)|
  }

  /** The type pairs `initializeCounts` visits: both types registered, the first not above the second. */
  ghost function VisitedPairs(types: seq<nat>): set<(nat, nat)> {
    PairsUpTo(types, types)
  }

  /** The pairs visited for first types drawn from `firsts`. */
  ghost function PairsUpTo(firsts: seq<nat>, types: seq<nat>): set<(nat, nat)> {
    set a, b | a in firsts && b in types && a <= b :: (a, b)
  }

  /** The pairs visited for first type `t1`. */
  ghost function PairsFrom(t1: nat, types: seq<nat>): set<(nat, nat)> {
    set b | b in types && t1 <= b :: (t1, b)
  }

  lemma PairsFromSnoc(t1: nat, types: seq<nat>, j: nat)
    requires j < |types|
    ensures PairsFrom(t1, types[..j + 1]) == PairsFrom(t1, types[..j]) + (if t1 <= types[j] then {(t1, types[j])} else {})
  {
    assert types[..j + 1] == types[..j] + [types[j]];
  }

  lemma PairsUpToSnoc(types: seq<nat>, i: nat)
    requires i < |types|
    ensures PairsUpTo(types[..i + 1], types) == PairsUpTo(types[..i], types) + PairsFrom(types[i], types)
  {
    assert types[..i + 1] == types[..i] + [types[i]];
  }

  /** The types visited so far. */
  ghost function TypesIn(ts: seq<nat>): set<nat> {
    set t | t in ts
  }

  lemma TypesUpToSnoc(types: seq<nat>, i: nat)
    requires i < |types|
    ensures TypesIn(types[..i + 1]) == TypesIn(types[..i]) + {types[i]}
  {
    assert types[..i + 1] == types[..i] + [types[i]];
  }

  /** The inner loop of `initializeCounts`: the pairs whose first type is `t1`. */
  method InitializePairCounts(order2: map<(nat, nat), seq<nat>>, t1: nat, types: seq<nat>, reg: ReactionRegistry,
                              ghost m0: map<(nat, nat), seq<nat>>, ghost done: set<(nat, nat)>)
    returns (order2': map<(nat, nat), seq<nat>>)
    requires ResetOn(m0, order2, done, Order2Sizes(reg))
    ensures ResetOn(m0, order2', done + PairsFrom(t1, types), Order2Sizes(reg))
  {
    order2' := order2;
    ghost var visited := done;
    var j := 0;
    while j < |types|
      invariant 0 <= j <= |types|
      invariant visited == done + PairsFrom(t1, types[..j])
      invariant ResetOn(m0, order2', visited, Order2Sizes(reg))
    {
      var t2 := types[j];
      PairsFromSnoc(t1, types, j);
      if t1 <= t2 {
        ResetOnStep(m0, order2', visited, Order2Sizes(reg), (t1, t2));
        order2' := ResetStep(order2', (t1, t2), |reg.order2ByType(t1, t2)|);
        visited := visited + {(t1, t2)};
      }
      j := j + 1;
    }
    assert types[..j] == types;
  }

  /** `initializeCounts` for the registered type ids `types` (the values of
      the type mapping, in its iteration order). */
  method InitializeCounts(counts: Counts, types: seq<nat>, reg: ReactionRegistry) returns (counts': Counts)
    ensures ResetOn(counts.order1, counts'.order1, (set t | t in types), Order1Sizes(reg))
    ensures ResetOn(counts.order2, counts'.order2, VisitedPairs(types), Order2Sizes(reg))
  {
    var order1, order2 := counts.order1, counts.order2;
    ghost var done1: set<nat> := {};
    ghost var done2: set<(nat, nat)> := {};
    var i := 0;
    while i < |types|
      invariant 0 <= i <= |types|
      invariant done1 == TypesIn(types[..i])
      invariant done2 == PairsUpTo(types[..i], types)
      invariant ResetOn(counts.order1, order1, done1, Order1Sizes(reg))
      invariant ResetOn(counts.order2, order2, done2, Order2Sizes(reg))
    {
      var t1 := types[i];
      TypesUpToSnoc(types, i);
      PairsUpToSnoc(types, i);
      ResetOnStep(counts.order1, order1, done1, Order1Sizes(reg), t1);
      order1 := ResetStep(order1, t1, |reg.order1ByType(t1)|);
      done1 := done1 + {t1};
      order2 := InitializePairCounts(order2, t1, types, reg, counts.order2, done2);
      done2 := done2 + PairsFrom(t1, types);
      i := i + 1;
    }
    assert types[..i] == types;
    counts' := Counts(order1, order2);
  }

  /** What `initializeCounts` leaves behind: the keys are the old keys plus
      the visited keys that have reactions, and every visited vector holds
      only zeros. */
  lemma ResetOnResult<K(!new)>(m0: map<K, seq<nat>>, cur: map<K, seq<nat>>, visited: set<K>, n: K -> nat)
    requires ResetOn(m0, cur, visited, n)
    ensures cur.Keys == m0.Keys + set k | k in visited && n(k) > 0
    ensures forall k | k in visited && n(k) > 0 :: forall i | 0 <= i < |cur[k]| :: cur[k][i] == 0
    ensures forall k | k in visited && n(k) > 0 && k !in m0 :: |cur[k]| == n(k)
  {
    forall k | k in cur.Keys
      ensures k in m0.Keys + set k | k in visited && n(k) > 0
    {
    }
    forall k | k in m0.Keys + set k | k in visited && n(k) > 0
      ensures k in cur.Keys
    {
    }
  }

  /** Copies every vector of `from` over the vector of the same key in `to`;
      a key of `from` missing in `to` is an error. The keys are visited in an
      unspecified order, so on error the vectors copied so far are not stated. */
  method AssignVectors<K>(from: map<K, seq<nat>>, to: map<K, seq<nat>>) returns (ok: bool, to': map<K, seq<nat>>)
    ensures ok <==> from.Keys <= to.Keys
    ensures ok ==> to'.Keys == to.Keys
    ensures ok ==> forall k | k in from :: to'[k] == from[k]
    ensures ok ==> forall k | k in to && k !in from :: to'[k] == to[k]
  {
    to' := to;
    var remaining := from.Keys;
    while remaining != {}
      invariant remaining <= from.Keys
      invariant to'.Keys == to.Keys
      invariant forall k | k in from && k !in remaining :: k in to && to'[k] == from[k]
      invariant forall k | k in to && k !in from :: to'[k] == to[k]
      decreases remaining
    {
      var k :| k in remaining;
      if k !in to' {
        return false, to';
      }
      to' := to'[k := from[k]];
      remaining := remaining - {k};
    }
    ok := true;
  }

  /** `assignCountsToResult`: order-1 vectors first, then order-2 vectors. */
  method AssignCountsToResult(from: Counts, to: Counts) returns (ok: bool, to': Counts)
    ensures ok <==> from.order1.Keys <= to.order1.Keys && from.order2.Keys <= to.order2.Keys
    ensures ok ==> to'.order1.Keys == to.order1.Keys && to'.order2.Keys == to.order2.Keys
    ensures ok ==> forall t | t in from.order1 :: to'.order1[t] == from.order1[t]
    ensures ok ==> forall p | p in from.order2 :: to'.order2[p] == from.order2[p]
    ensures ok ==> forall t | t in to.order1 && t !in from.order1 :: to'.order1[t] == to.order1[t]
    ensures ok ==> forall p | p in to.order2 && p !in from.order2 :: to'.order2[p] == to.order2[p]
  {
    var ok1, order1 := AssignVectors(from.order1, to.order1);
    if !ok1 {
      return false, Counts(order1, to.order2);
    }
    var ok2, order2 := AssignVectors(from.order2, to.order2);
    ok, to' := ok2, Counts(order1, order2);
  }

  /** The one context setting the observable touches. */
  class CountingContext {
    var recordReactionCounts: bool

    constructor (record: bool)
      ensures recordReactionCounts == record
    {
      recordReactionCounts := record;
    }

    /** `initialize`: switches recording on whatever it was before. */
    method Initialize()
      modifies this
      ensures recordReactionCounts
    {
      if !recordReactionCounts {
        recordReactionCounts := true;
      }
    }
  }
}
