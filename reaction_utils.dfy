/** The CPU kernel's reaction helpers: the acceptance test of a reaction
    event, the gathering of all possible events with their running
    (cumulative) rates, and the outcome of performing one reaction.
    The uniform draw, the exponential and the random direction of a fission
    are parameters. */
module CpuReactionUtils {
  import opened Vectors
  import opened Particles
  import opened Sequences

  /** `shouldPerformEvent`: the event happens when the uniform draw `u` is
      below `rate * timeStep` (approximated) or below `1 - exp(-rate * timeStep)`. */
  predicate ShouldPerformEvent(rate: real, timeStep: real, approximated: bool, u: real, exp: real -> real) {
    if approximated then u < rate * timeStep else u < 1.0 - exp(-rate * timeStep)
  }

  /** A larger rate accepts every draw a smaller one accepts (for a monotone exponential). */
  lemma AcceptanceMonotoneInRate(r1: real, r2: real, timeStep: real, approximated: bool, u: real, exp: real -> real)
    requires 0.0 <= r1 <= r2 && 0.0 <= timeStep
    requires forall a: real, b: real :: a <= b ==> exp(a) <= exp(b)
    requires ShouldPerformEvent(r1, timeStep, approximated, u, exp)
    ensures ShouldPerformEvent(r2, timeStep, approximated, u, exp)
  {
    assert r1 * timeStep <= r2 * timeStep by { MulMonotone(r1, r2, timeStep); }
    if !approximated {
      assert -r2 * timeStep <= -r1 * timeStep;
      assert exp(-r2 * timeStep) <= exp(-r1 * timeStep);
    }
  }

  lemma MulMonotone(a: real, b: real, c: real)
    requires a <= b && 0.0 <= c
    ensures a * c <= b * c
  {
    assert b * c - a * c == (b - a) * c;
  }

  /** The linear approximation accepts every draw the exact test accepts,
      since `1 - exp(-x) <= x` whenever `exp` lies above its tangent at 0. */
  lemma ApproximationAcceptsMore(rate: real, timeStep: real, u: real, exp: real -> real)
    requires forall x: real :: 1.0 + x <= exp(x)
    requires ShouldPerformEvent(rate, timeStep, false, u, exp)
    ensures ShouldPerformEvent(rate, timeStep, true, u, exp)
  {
    assert 1.0 + -rate * timeStep <= exp(-rate * timeStep);
  }

  // ---------------------------------------------------------------------
  // gatherEvents

  /** The order-1 events found among the first `k` reactions of the entry's
      type, in order; their cumulative rate is filled in by `Accumulate`. */
  function Order1Candidates(reg: ReactionRegistry, e: Entry, index: nat, k: nat): seq<Event>
    requires k <= |reg.order1ByType(e.ptype)|
  {
    if k == 0 then []
    else
      var r := reg.order1ByType(e.ptype)[k - 1];
      Order1Candidates(reg, e, index, k - 1)
        + (if r.rate > 0.0 then [Event(1, |r.products|, index, 0, r.rate, 0.0, k - 1, e.ptype, 0)] else [])
  }

  /** The order-2 events of the pair (`index`, `nbIdx`) among the first `k`
      reactions of their type pair, at squared distance `d2`. */
  function Order2Candidates(reg: ReactionRegistry, e: Entry, index: nat, nb: Entry, nbIdx: nat, d2: real, k: nat): seq<Event>
    requires k <= |reg.order2ByType(e.ptype, nb.ptype)|
  {
    if k == 0 then []
    else
      var r := reg.order2ByType(e.ptype, nb.ptype)[k - 1];
      Order2Candidates(reg, e, index, nb, nbIdx, d2, k - 1)
        + (if r.rate > 0.0 && d2 < r.eductDistanceSquared
           then [Event(2, |r.products|, index, nbIdx, r.rate, 0.0, k - 1, e.ptype, nb.ptype)]
           else [])
  }

  /** The order-2 events of entry `index` with its first `j` neighbours: a
      neighbour of lower index, or a deactivated one, is skipped. */
  function NeighborCandidates(ctx: ReactionContext, data: seq<Entry>, nl: seq<seq<nat>>, index: nat, j: nat): seq<Event>
    requires NeighborListFits(data, nl) && index < |data| && j <= |nl[index]|
  {
    if j == 0 then []
    else
      var prev := NeighborCandidates(ctx, data, nl, index, j - 1);
      var nbIdx := nl[index][j - 1];
      var e := data[index];
      var nb := data[nbIdx];
      if index > nbIdx || nb.deactivated then prev
      else
        prev + Order2Candidates(ctx.reactions, e, index, nb, nbIdx, DistSquared(nb.pos, e.pos, ctx.periodic, ctx.box),
                                |ctx.reactions.order2ByType(e.ptype, nb.ptype)|)
  }

  /** All events of one entry: none when it is deactivated. */
  function EntryCandidates(ctx: ReactionContext, data: seq<Entry>, nl: seq<seq<nat>>, index: nat): seq<Event>
    requires NeighborListFits(data, nl) && index < |data|
  {
    if data[index].deactivated then []
    else
      Order1Candidates(ctx.reactions, data[index], index, |ctx.reactions.order1ByType(data[index].ptype)|)
        + NeighborCandidates(ctx, data, nl, index, |nl[index]|)
  }

  predicate IndicesFit(particles: seq<nat>, data: seq<Entry>) {
    forall i | 0 <= i < |particles| :: particles[i] < |data|
  }

  /** The events of the given particles, in visiting order. */
  function Candidates(ctx: ReactionContext, data: seq<Entry>, nl: seq<seq<nat>>, particles: seq<nat>): seq<Event>
    requires NeighborListFits(data, nl) && IndicesFit(particles, data)
  {
    if particles == [] then []
    else
      Candidates(ctx, data, nl, particles[..|particles| - 1])
        + EntryCandidates(ctx, data, nl, particles[|particles| - 1])
  }

  /** Sum of the rates of a list of events. */
  function SumRates(evs: seq<Event>): real {
    if evs == [] then 0.0 else SumRates(evs[..|evs| - 1]) + evs[|evs| - 1].rate
  }

  /** The events with their cumulative rate set to the running total, starting from `alpha`. */
  function Accumulate(alpha: real, evs: seq<Event>): seq<Event> {
    if evs == [] then []
    else Accumulate(alpha, evs[..|evs| - 1]) + [evs[|evs| - 1].(cumulativeRate := alpha + SumRates(evs))]
  }

  lemma AccumulateSnoc(alpha: real, evs: seq<Event>, e: Event)
    ensures SumRates(evs + [e]) == SumRates(evs) + e.rate
    ensures Accumulate(alpha, evs + [e]) == Accumulate(alpha, evs) + [e.(cumulativeRate := alpha + SumRates(evs) + e.rate)]
  {
    assert (evs + [e])[..|evs|] == evs;
  }

  lemma CandidatesSnoc(ctx: ReactionContext, data: seq<Entry>, nl: seq<seq<nat>>, particles: seq<nat>, i: nat)
    requires NeighborListFits(data, nl) && IndicesFit(particles, data) && i < |particles|
    ensures Candidates(ctx, data, nl, particles[..i + 1])
         == Candidates(ctx, data, nl, particles[..i]) + EntryCandidates(ctx, data, nl, particles[i])
  {
    assert particles[..i + 1][..i] == particles[..i];
  }

  /** `events` and `alpha` hold the events of `prefix`, accumulated from `alpha0`, after `events0`. */
  ghost predicate Gathered(alpha0: real, events0: seq<Event>, prefix: seq<Event>, alpha: real, events: seq<Event>) {
    events == events0 + Accumulate(alpha0, prefix) && alpha == alpha0 + SumRates(prefix)
  }

  /** Appending one event with the running total as its cumulative rate keeps `Gathered`. */
  lemma GatheredSnoc(alpha0: real, events0: seq<Event>, prefix: seq<Event>, alpha: real, events: seq<Event>, ev: Event)
    requires Gathered(alpha0, events0, prefix, alpha, events)
    ensures Gathered(alpha0, events0, prefix + [ev], alpha + ev.rate, events + [ev.(cumulativeRate := alpha + ev.rate)])
  {
    AccumulateSnoc(alpha0, prefix, ev);
    AppendAssoc(events0, Accumulate(alpha0, prefix), [ev.(cumulativeRate := alpha + ev.rate)]);
  }

  /** The order-1 loop of `gatherEvents` for one entry. */
  method GatherOrder1(reg: ReactionRegistry, entry: Entry, index: nat, alpha: real, events: seq<Event>,
                      ghost alpha0: real, ghost events0: seq<Event>, ghost prefix: seq<Event>)
    returns (alpha': real, events': seq<Event>)
    requires Gathered(alpha0, events0, prefix, alpha, events)
    ensures Gathered(alpha0, events0, prefix + Order1Candidates(reg, entry, index, |reg.order1ByType(entry.ptype)|), alpha', events')
  {
    alpha', events' := alpha, events;
    var rs := reg.order1ByType(entry.ptype);
    var k := 0;
    AppendEmpty(prefix);
    while k < |rs|
      invariant 0 <= k <= |rs|
      invariant Gathered(alpha0, events0, prefix + Order1Candidates(reg, entry, index, k), alpha', events')
    {
      var rate := rs[k].rate;
      ghost var done := Order1Candidates(reg, entry, index, k);
      if rate > 0.0 {
        ghost var ev := Event(1, |rs[k].products|, index, 0, rate, 0.0, k, entry.ptype, 0);
        GatheredSnoc(alpha0, events0, prefix + done, alpha', events', ev);
        AppendAssoc(prefix, done, [ev]);
        alpha' := alpha' + rate;
        events' := events' + [Event(1, |rs[k].products|, index, 0, rate, alpha', k, entry.ptype, 0)];
      } else {
        AppendEmpty(done);
      }
      k := k + 1;
    }
  }

  /** The loop over the order-2 reactions of one pair in `gatherEvents`. */
  method GatherPair(reg: ReactionRegistry, entry: Entry, index: nat, nb: Entry, nbIdx: nat, d2: real,
                    alpha: real, events: seq<Event>,
                    ghost alpha0: real, ghost events0: seq<Event>, ghost prefix: seq<Event>)
    returns (alpha': real, events': seq<Event>)
    requires Gathered(alpha0, events0, prefix, alpha, events)
    ensures Gathered(alpha0, events0,
                     prefix + Order2Candidates(reg, entry, index, nb, nbIdx, d2, |reg.order2ByType(entry.ptype, nb.ptype)|),
                     alpha', events')
  {
    alpha', events' := alpha, events;
    var rs := reg.order2ByType(entry.ptype, nb.ptype);
    var m := 0;
    AppendEmpty(prefix);
    while m < |rs|
      invariant 0 <= m <= |rs|
      invariant Gathered(alpha0, events0, prefix + Order2Candidates(reg, entry, index, nb, nbIdx, d2, m), alpha', events')
    {
      var rate := rs[m].rate;
      ghost var done := Order2Candidates(reg, entry, index, nb, nbIdx, d2, m);
      if rate > 0.0 && d2 < rs[m].eductDistanceSquared {
        ghost var ev := Event(2, |rs[m].products|, index, nbIdx, rate, 0.0, m, entry.ptype, nb.ptype);
        GatheredSnoc(alpha0, events0, prefix + done, alpha', events', ev);
        AppendAssoc(prefix, done, [ev]);
        alpha' := alpha' + rate;
        events' := events' + [Event(2, |rs[m].products|, index, nbIdx, rate, alpha', m, entry.ptype, nb.ptype)];
      } else {
        AppendEmpty(done);
      }
      m := m + 1;
    }
  }

  /** The neighbour loop of `gatherEvents` for one entry. */
  method GatherNeighbors(ctx: ReactionContext, data: seq<Entry>, nl: seq<seq<nat>>, index: nat,
                         alpha: real, events: seq<Event>,
                         ghost alpha0: real, ghost events0: seq<Event>, ghost prefix: seq<Event>)
    returns (alpha': real, events': seq<Event>)
    requires NeighborListFits(data, nl) && index < |data|
    requires Gathered(alpha0, events0, prefix, alpha, events)
    ensures Gathered(alpha0, events0, prefix + NeighborCandidates(ctx, data, nl, index, |nl[index]|), alpha', events')
  {
    alpha', events' := alpha, events;
    var entry := data[index];
    var j := 0;
    assert prefix + NeighborCandidates(ctx, data, nl, index, 0) == prefix;
    while j < |nl[index]|
      invariant 0 <= j <= |nl[index]|
      invariant Gathered(alpha0, events0, prefix + NeighborCandidates(ctx, data, nl, index, j), alpha', events')
    {
      var nbIdx := nl[index][j];
      ghost var withPrev := prefix + NeighborCandidates(ctx, data, nl, index, j);
      if index <= nbIdx {
        var nb := data[nbIdx];
        if !nb.deactivated {
          var d2 := DistSquared(nb.pos, entry.pos, ctx.periodic, ctx.box);
          if |ctx.reactions.order2ByType(entry.ptype, nb.ptype)| > 0 {
            alpha', events' := GatherPair(ctx.reactions, entry, index, nb, nbIdx, d2, alpha', events', alpha0, events0, withPrev);
          } else {
            assert withPrev + Order2Candidates(ctx.reactions, entry, index, nb, nbIdx, d2, 0) == withPrev;
          }
          assert prefix + NeighborCandidates(ctx, data, nl, index, j + 1)
              == withPrev + Order2Candidates(ctx.reactions, entry, index, nb, nbIdx, d2, |ctx.reactions.order2ByType(entry.ptype, nb.ptype)|);
        }
      }
      j := j + 1;
    }
  }

  /** The body of `gatherEvents` for one particle index. */
  method GatherEntry(ctx: ReactionContext, data: seq<Entry>, nl: seq<seq<nat>>, index: nat,
                     alpha: real, events: seq<Event>,
                     ghost alpha0: real, ghost events0: seq<Event>, ghost prefix: seq<Event>)
    returns (alpha': real, events': seq<Event>)
    requires NeighborListFits(data, nl) && index < |data|
    requires Gathered(alpha0, events0, prefix, alpha, events)
    ensures Gathered(alpha0, events0, prefix + EntryCandidates(ctx, data, nl, index), alpha', events')
  {
    alpha', events' := alpha, events;
    if !data[index].deactivated {
      alpha', events' := GatherOrder1(ctx.reactions, data[index], index, alpha', events', alpha0, events0, prefix);
      ghost var withOrder1 := prefix + Order1Candidates(ctx.reactions, data[index], index, |ctx.reactions.order1ByType(data[index].ptype)|);
      alpha', events' := GatherNeighbors(ctx, data, nl, index, alpha', events', alpha0, events0, withOrder1);
      assert prefix + EntryCandidates(ctx, data, nl, index) == withOrder1 + NeighborCandidates(ctx, data, nl, index, |nl[index]|);
    } else {
      assert prefix + EntryCandidates(ctx, data, nl, index) == prefix;
    }
  }

  /** `gatherEvents`: appends the events of `particles` to `events` with
      their running cumulative rates and adds their rates to `alpha`. */
  method GatherEvents(ctx: ReactionContext, particles: seq<nat>, nl: seq<seq<nat>>, data: seq<Entry>,
                      alpha0: real, events0: seq<Event>)
    returns (alpha: real, events: seq<Event>)
    requires NeighborListFits(data, nl) && IndicesFit(particles, data)
    ensures events == events0 + Accumulate(alpha0, Candidates(ctx, data, nl, particles))
    ensures alpha == alpha0 + SumRates(Candidates(ctx, data, nl, particles))
  {
    alpha, events := alpha0, events0;
    var i := 0;
    while i < |particles|
      invariant 0 <= i <= |particles|
      invariant Gathered(alpha0, events0, Candidates(ctx, data, nl, particles[..i]), alpha, events)
    {
      ghost var before := Candidates(ctx, data, nl, particles[..i]);
      CandidatesSnoc(ctx, data, nl, particles, i);
      alpha, events := GatherEntry(ctx, data, nl, particles[i], alpha, events, alpha0, events0, before);
      i := i + 1;
    }
    assert particles[..|particles|] == particles;
  }

  // ---------------------------------------------------------------------
  // Properties of the gathered events

  /** What every gathered event promises: a positive rate equal to the rate
      of the reaction it names, existing and active participants whose types
      it records, the first index below the second for order 2, and a
      pair within the reaction's educt distance. */
  ghost predicate GatheredEventValid(ctx: ReactionContext, data: seq<Entry>, ev: Event) {
    && ev.rate > 0.0
    && ev.idx1 < |data| && !data[ev.idx1].deactivated && ev.t1 == data[ev.idx1].ptype
    && (ev.nEducts == 1 || ev.nEducts == 2)
    && (ev.nEducts == 1 ==>
          && ev.reactionIdx < |ctx.reactions.order1ByType(ev.t1)|
          && ctx.reactions.order1ByType(ev.t1)[ev.reactionIdx].rate == ev.rate
          && ev.nProducts == |ctx.reactions.order1ByType(ev.t1)[ev.reactionIdx].products|)
    && (ev.nEducts == 2 ==>
          && ev.idx1 < ev.idx2 < |data| && !data[ev.idx2].deactivated && ev.t2 == data[ev.idx2].ptype
          && ev.reactionIdx < |ctx.reactions.order2ByType(ev.t1, ev.t2)|
          && ctx.reactions.order2ByType(ev.t1, ev.t2)[ev.reactionIdx].rate == ev.rate
          && ev.nProducts == |ctx.reactions.order2ByType(ev.t1, ev.t2)[ev.reactionIdx].products|
          && DistSquared(data[ev.idx2].pos, data[ev.idx1].pos, ctx.periodic, ctx.box)
               < ctx.reactions.order2ByType(ev.t1, ev.t2)[ev.reactionIdx].eductDistanceSquared)
  }

  ghost predicate AllGatheredValid(ctx: ReactionContext, data: seq<Entry>, evs: seq<Event>) {
    forall i | 0 <= i < |evs| :: GatheredEventValid(ctx, data, evs[i])
  }

  lemma {:induction false} Order1CandidatesValid(ctx: ReactionContext, data: seq<Entry>, index: nat, k: nat)
    requires index < |data| && !data[index].deactivated
    requires k <= |ctx.reactions.order1ByType(data[index].ptype)|
    ensures AllGatheredValid(ctx, data, Order1Candidates(ctx.reactions, data[index], index, k))
  {
    if k > 0 {
      Order1CandidatesValid(ctx, data, index, k - 1);
    }
  }

  lemma {:induction false} Order2CandidatesValid(ctx: ReactionContext, data: seq<Entry>, index: nat, nbIdx: nat, k: nat)
    requires index < nbIdx < |data| && !data[index].deactivated && !data[nbIdx].deactivated
    requires k <= |ctx.reactions.order2ByType(data[index].ptype, data[nbIdx].ptype)|
    ensures AllGatheredValid(ctx, data,
      Order2Candidates(ctx.reactions, data[index], index, data[nbIdx], nbIdx,
                       DistSquared(data[nbIdx].pos, data[index].pos, ctx.periodic, ctx.box), k))
  {
    if k > 0 {
      Order2CandidatesValid(ctx, data, index, nbIdx, k - 1);
    }
  }

  lemma {:induction false} NeighborCandidatesValid(ctx: ReactionContext, data: seq<Entry>, nl: seq<seq<nat>>, index: nat, j: nat)
    requires NeighborListFits(data, nl) && index < |data| && !data[index].deactivated && j <= |nl[index]|
    ensures AllGatheredValid(ctx, data, NeighborCandidates(ctx, data, nl, index, j))
  {
    if j > 0 {
      NeighborCandidatesValid(ctx, data, nl, index, j - 1);
      var nbIdx := nl[index][j - 1];
      if index <= nbIdx && !data[nbIdx].deactivated {
        Order2CandidatesValid(ctx, data, index, nbIdx, |ctx.reactions.order2ByType(data[index].ptype, data[nbIdx].ptype)|);
      }
    }
  }

  lemma {:induction false} CandidatesValid(ctx: ReactionContext, data: seq<Entry>, nl: seq<seq<nat>>, particles: seq<nat>)
    requires NeighborListFits(data, nl) && IndicesFit(particles, data)
    ensures AllGatheredValid(ctx, data, Candidates(ctx, data, nl, particles))
  {
    if particles != [] {
      var last := particles[|particles| - 1];
      CandidatesValid(ctx, data, nl, particles[..|particles| - 1]);
      if !data[last].deactivated {
        Order1CandidatesValid(ctx, data, last, |ctx.reactions.order1ByType(data[last].ptype)|);
        NeighborCandidatesValid(ctx, data, nl, last, |nl[last]|);
      }
    }
  }

  /** `Accumulate` keeps every event but its cumulative rate, which becomes the running total. */
  lemma {:induction false} AccumulateRunningTotals(alpha: real, evs: seq<Event>)
    ensures |Accumulate(alpha, evs)| == |evs|
    ensures forall i | 0 <= i < |evs| ::
              Accumulate(alpha, evs)[i] == evs[i].(cumulativeRate := alpha + SumRates(evs[..i + 1]))
  {
    if evs != [] {
      var n := |evs| - 1;
      var init := evs[..n];
      AccumulateRunningTotals(alpha, init);
      var acc := Accumulate(alpha, evs);
      assert acc == Accumulate(alpha, init) + [evs[n].(cumulativeRate := alpha + SumRates(evs))];
      forall i | 0 <= i < |evs|
        ensures acc[i] == evs[i].(cumulativeRate := alpha + SumRates(evs[..i + 1]))
      {
        if i < n {
          assert acc[i] == Accumulate(alpha, init)[i];
          assert init[..i + 1] == evs[..i + 1];
        } else {
          assert evs[..i + 1] == evs;
        }
      }
    }
  }

  /** With positive rates, the sum over a longer prefix is strictly larger. */
  lemma {:induction false} SumRatesPrefixGrows(evs: seq<Event>, m: nat, n: nat)
    requires m < n <= |evs| && forall i | 0 <= i < |evs| :: evs[i].rate > 0.0
    ensures SumRates(evs[..m]) < SumRates(evs[..n])
  {
    assert evs[..n][..n - 1] == evs[..n - 1];
    if m < n - 1 {
      SumRatesPrefixGrows(evs, m, n - 1);
    }
  }

  /** With positive rates the running totals strictly increase, stay above
      the start and end at the start plus the sum of the rates. */
  lemma AccumulateIncreasing(alpha: real, evs: seq<Event>)
    requires forall i | 0 <= i < |evs| :: evs[i].rate > 0.0
    ensures |Accumulate(alpha, evs)| == |evs|
    ensures forall i, j | 0 <= i < j < |evs| ::
              Accumulate(alpha, evs)[i].cumulativeRate < Accumulate(alpha, evs)[j].cumulativeRate
    ensures forall i | 0 <= i < |evs| ::
              alpha < Accumulate(alpha, evs)[i].cumulativeRate <= alpha + SumRates(evs)
    ensures evs != [] ==> Accumulate(alpha, evs)[|evs| - 1].cumulativeRate == alpha + SumRates(evs)
  {
    AccumulateRunningTotals(alpha, evs);
    assert evs[..0] == [];
    assert evs[..|evs|] == evs;
    forall i, j | 0 <= i < j < |evs|
      ensures Accumulate(alpha, evs)[i].cumulativeRate < Accumulate(alpha, evs)[j].cumulativeRate
    {
      SumRatesPrefixGrows(evs, i + 1, j + 1);
    }
    forall i | 0 <= i < |evs|
      ensures alpha < Accumulate(alpha, evs)[i].cumulativeRate <= alpha + SumRates(evs)
    {
      SumRatesPrefixGrows(evs, 0, i + 1);
      if i + 1 < |evs| {
        SumRatesPrefixGrows(evs, i + 1, |evs|);
      }
    }
  }

  /** The events `gatherEvents` appends are valid, carry strictly
      increasing cumulative rates above the initial `alpha`, and the last of
      them carries the final `alpha`. */
  lemma GatheredEventsProperties(ctx: ReactionContext, data: seq<Entry>, nl: seq<seq<nat>>, particles: seq<nat>, alpha0: real)
    requires NeighborListFits(data, nl) && IndicesFit(particles, data)
    ensures var gathered := Accumulate(alpha0, Candidates(ctx, data, nl, particles));
      && AllGatheredValid(ctx, data, gathered)
      && (forall i, j | 0 <= i < j < |gathered| :: gathered[i].cumulativeRate < gathered[j].cumulativeRate)
      && (forall i | 0 <= i < |gathered| ::
            alpha0 < gathered[i].cumulativeRate <= alpha0 + SumRates(Candidates(ctx, data, nl, particles)))
      && (gathered != [] ==> gathered[|gathered| - 1].cumulativeRate == alpha0 + SumRates(Candidates(ctx, data, nl, particles)))
  {
    var cands := Candidates(ctx, data, nl, particles);
    CandidatesValid(ctx, data, nl, particles);
    AccumulateRunningTotals(alpha0, cands);
    AccumulateIncreasing(alpha0, cands);
    var gathered := Accumulate(alpha0, cands);
    forall i | 0 <= i < |gathered|
      ensures GatheredEventValid(ctx, data, gathered[i])
    {
      assert GatheredEventValid(ctx, data, cands[i]);
    }
  }

  // ---------------------------------------------------------------------
  // performReaction

  /** The weight a fusion product moves by from entry 1 towards entry 2:
      weight 1 when entry 1 is the first educt, weight 2 otherwise. */
  function FusionWeight(type1: nat, r: Reaction): real
    requires |r.educts| >= 1
  {
    if r.educts[0] == type1 then r.weight1 else r.weight2
  }

  /** Where a fusion product is placed, before the periodic wrap. */
  function FusionPosition(pos1: Vec3, pos2: Vec3, type1: nat, r: Reaction): Vec3
    requires |r.educts| >= 1
  {
    pos1.Plus(pos2.Minus(pos1).Scale(FusionWeight(type1, r)))
  }

  /** For two different educt types and weights that sum to one, the product
      lands at the same place whichever educt is entry 1. */
  lemma FusionPositionOrderIndependent(pos1: Vec3, pos2: Vec3, type1: nat, type2: nat, r: Reaction)
    requires |r.educts| >= 1 && r.educts[0] == type1 && type2 != type1
    requires r.weight1 + r.weight2 == 1.0
    ensures FusionPosition(pos1, pos2, type1, r) == FusionPosition(pos2, pos1, type2, r)
  {
    var w1, w2 := r.weight1, r.weight2;
    assert pos1.x + w1 * (pos2.x - pos1.x) == pos2.x + w2 * (pos1.x - pos2.x);
    assert pos1.y + w1 * (pos2.y - pos1.y) == pos2.y + w2 * (pos1.y - pos2.y);
    assert pos1.z + w1 * (pos2.z - pos1.z) == pos2.z + w2 * (pos1.z - pos2.z);
  }

  /** Where entry 1 of a fission ends up: displaced along `n3` by weight 1
      times the product distance. */
  function FissionDisplacement(pos: Vec3, n3: Vec3, r: Reaction, displace: (Vec3, Vec3) -> Vec3): Vec3 {
    displace(pos, n3.Scale(r.weight1 * r.productDistance))
  }

  /** The outcome of performing reaction `r` on entries `idx1` and `idx2`;
      `n3` is the unit direction of a fission and `displace` the particle
      data's displacement of an entry by a vector. Every new identity is
      drawn from the counter, the fission product's before entry 1's. */
  function CpuOutcome(ctx: ReactionContext, s: ReactionState, idx1: nat, idx2: nat, r: Reaction, n3: Vec3,
                      displace: (Vec3, Vec3) -> Vec3): ReactionState
    requires idx1 < |s.entries| && idx2 < |s.entries| && r.WellFormed() && ValidBox(ctx.periodic, ctx.box)
  {
    var e1 := s.entries[idx1];
    var e2 := s.entries[idx2];
    match r.kind
    case Decay => s.(decayed := s.decayed + [idx1])
    case Conversion =>
      s.(entries := s.entries[idx1 := e1.(ptype := r.products[0], id := s.nextId)], nextId := s.nextId + 1)
    case Enzymatic =>
      if e1.ptype == r.educts[1] then
        s.(entries := s.entries[idx2 := e2.(ptype := r.products[0], id := s.nextId)], nextId := s.nextId + 1)
      else
        s.(entries := s.entries[idx1 := e1.(ptype := r.products[0], id := s.nextId)], nextId := s.nextId + 1)
    case Fission =>
      var p := Particle(e1.pos.Minus(n3.Scale(r.weight2 * r.productDistance)), r.products[1], s.nextId);
      var moved := e1.(ptype := r.products[0], id := s.nextId + 1,
                       pos := FissionDisplacement(e1.pos, n3, r, displace));
      s.(entries := s.entries[idx1 := moved], newEntries := s.newEntries + [p], nextId := s.nextId + 2)
    case Fusion =>
      var p := Particle(ApplyPBC(FusionPosition(e1.pos, e2.pos, e1.ptype, r), ctx.periodic, ctx.box),
                        r.products[0], s.nextId);
      s.(newEntries := s.newEntries + [p], decayed := s.decayed + [idx1, idx2], nextId := s.nextId + 1)
  }

  /** `performReaction` on the particle table `data`, the buffers of new and
      decayed entries, and the id counter. */
  method PerformReaction(ctx: ReactionContext, data: array<Entry>, idx1: nat, idx2: nat,
                         newEntries: seq<Particle>, decayed: seq<nat>, nextId: nat,
                         r: Reaction, n3: Vec3, displace: (Vec3, Vec3) -> Vec3)
    returns (newEntries': seq<Particle>, decayed': seq<nat>, nextId': nat)
    requires idx1 < data.Length && idx2 < data.Length && r.WellFormed() && ValidBox(ctx.periodic, ctx.box)
    modifies data
    ensures ReactionState(data[..], newEntries', decayed', nextId')
         == CpuOutcome(ctx, ReactionState(old(data[..]), newEntries, decayed, nextId), idx1, idx2, r, n3, displace)
  {
    newEntries', decayed', nextId' := newEntries, decayed, nextId;
    ghost var s0 := ReactionState(data[..], newEntries, decayed, nextId);
    var entry1 := data[idx1];
    var entry2 := data[idx2];
    assert entry1 == s0.entries[idx1] && entry2 == s0.entries[idx2];
    match r.kind {
      case Decay =>
        decayed' := decayed' + [idx1];
      case Conversion =>
        data[idx1] := entry1.(ptype := r.products[0], id := nextId');
        nextId' := nextId' + 1;
      case Enzymatic =>
        if entry1.ptype == r.educts[1] {
          // entry 1 is the catalyst
          data[idx2] := entry2.(ptype := r.products[0], id := nextId');
        } else {
          // entry 2 is the catalyst
          data[idx1] := entry1.(ptype := r.products[0], id := nextId');
        }
        nextId' := nextId' + 1;
      case Fission =>
        var p := Particle(entry1.pos.Minus(n3.Scale(r.weight2 * r.productDistance)), r.products[1], nextId');
        nextId' := nextId' + 1;
        newEntries' := newEntries' + [p];
        var retyped := entry1.(ptype := r.products[0], id := nextId');
        nextId' := nextId' + 1;
        var newPos := FissionDisplacement(entry1.pos, n3, r, displace);
        data[idx1] := retyped.(pos := newPos);
        ghost var t := CpuOutcome(ctx, s0, idx1, idx2, r, n3, displace);
        assert t.newEntries[|newEntries|] == p;
        assert t.entries == data[..];
      case Fusion =>
        var pos := ApplyPBC(FusionPosition(entry1.pos, entry2.pos, entry1.ptype, r), ctx.periodic, ctx.box);
        newEntries' := newEntries' + [Particle(pos, r.products[0], nextId')];
        nextId' := nextId' + 1;
        decayed' := decayed' + [idx1, idx2];
    }
  }

  /** No two entries or new particles share an id. */
  ghost predicate IdsUnique(s: ReactionState) {
    && (forall i, j | 0 <= i < j < |s.entries| :: s.entries[i].id != s.entries[j].id)
    && (forall i, j | 0 <= i < j < |s.newEntries| :: s.newEntries[i].id != s.newEntries[j].id)
    && (forall i, j | 0 <= i < |s.entries| && 0 <= j < |s.newEntries| :: s.entries[i].id != s.newEntries[j].id)
  }

  /** Ids drawn from the counter are fresh: a reaction keeps every id below
      the counter and keeps ids unique. */
  lemma CpuOutcomeKeepsIdsFresh(ctx: ReactionContext, s: ReactionState, idx1: nat, idx2: nat, r: Reaction, n3: Vec3,
                                displace: (Vec3, Vec3) -> Vec3)
    requires idx1 < |s.entries| && idx2 < |s.entries| && r.WellFormed() && ValidBox(ctx.periodic, ctx.box)
    requires IdsBelowCounter(s) && IdsUnique(s)
    ensures var t := CpuOutcome(ctx, s, idx1, idx2, r, n3, displace);
      IdsBelowCounter(t) && IdsUnique(t) && s.nextId <= t.nextId
  {
    match r.kind {
      case Decay =>
      case Conversion =>
        RenewIdKeepsUnique(s, idx1);
      case Enzymatic =>
        if s.entries[idx1].ptype == r.educts[1] {
          RenewIdKeepsUnique(s, idx2);
        } else {
          RenewIdKeepsUnique(s, idx1);
        }
      case Fission =>
        FissionKeepsIdsFresh(ctx, s, idx1, idx2, r, n3, displace);
      case Fusion =>
        FusionKeepsIdsFresh(ctx, s, idx1, idx2, r, n3, displace);
    }
  }

  /** The fusion case of `CpuOutcomeKeepsIdsFresh`: the product takes one fresh id. */
  lemma FusionKeepsIdsFresh(ctx: ReactionContext, s: ReactionState, idx1: nat, idx2: nat, r: Reaction, n3: Vec3,
                            displace: (Vec3, Vec3) -> Vec3)
    requires idx1 < |s.entries| && idx2 < |s.entries| && r.WellFormed() && ValidBox(ctx.periodic, ctx.box)
    requires IdsBelowCounter(s) && IdsUnique(s) && r.kind == Fusion
    ensures var t := CpuOutcome(ctx, s, idx1, idx2, r, n3, displace);
      IdsBelowCounter(t) && IdsUnique(t) && s.nextId <= t.nextId
  {
    var t := CpuOutcome(ctx, s, idx1, idx2, r, n3, displace);
    AppendFreshKeepsUnique(s, t.newEntries[|s.newEntries|]);
    assert t == s.(newEntries := s.newEntries + [t.newEntries[|s.newEntries|]], decayed := t.decayed, nextId := s.nextId + 1);
  }

  /** The fission case of `CpuOutcomeKeepsIdsFresh`: the new particle takes
      one fresh id and the moved educt the next. */
  lemma FissionKeepsIdsFresh(ctx: ReactionContext, s: ReactionState, idx1: nat, idx2: nat, r: Reaction, n3: Vec3,
                             displace: (Vec3, Vec3) -> Vec3)
    requires idx1 < |s.entries| && idx2 < |s.entries| && r.WellFormed() && ValidBox(ctx.periodic, ctx.box)
    requires IdsBelowCounter(s) && IdsUnique(s) && r.kind == Fission
    ensures var t := CpuOutcome(ctx, s, idx1, idx2, r, n3, displace);
      IdsBelowCounter(t) && IdsUnique(t) && s.nextId <= t.nextId
  {
    var t := CpuOutcome(ctx, s, idx1, idx2, r, n3, displace);
    var p := t.newEntries[|s.newEntries|];
    var s1 := s.(newEntries := s.newEntries + [p], nextId := s.nextId + 1);
    AppendFreshKeepsUnique(s, p);
    RenewIdKeepsUnique(s1, idx1);
    assert t.entries == s1.entries[idx1 := t.entries[idx1]];
  }

  /** Giving one entry the counter's id, then advancing the counter. */
  lemma RenewIdKeepsUnique(s: ReactionState, i: nat)
    requires i < |s.entries| && IdsBelowCounter(s) && IdsUnique(s)
    ensures forall e: Entry | e.id == s.nextId ::
      var t := s.(entries := s.entries[i := e], nextId := s.nextId + 1);
      IdsBelowCounter(t) && IdsUnique(t)
  {
  }

  /** Appending a particle with the counter's id, then advancing the counter. */
  lemma AppendFreshKeepsUnique(s: ReactionState, p: Particle)
    requires IdsBelowCounter(s) && IdsUnique(s) && p.id == s.nextId
    ensures var t := s.(newEntries := s.newEntries + [p], nextId := s.nextId + 1);
      IdsBelowCounter(t) && IdsUnique(t)
  {
  }

  /** Nothing but the reacting entries changes; the decayed buffer grows by
      the educts of a decay or a fusion, the new-entry buffer by the one
      product of a fission or a fusion. */
  lemma CpuOutcomeFootprint(ctx: ReactionContext, s: ReactionState, idx1: nat, idx2: nat, r: Reaction, n3: Vec3,
                            displace: (Vec3, Vec3) -> Vec3)
    requires idx1 < |s.entries| && idx2 < |s.entries| && r.WellFormed() && ValidBox(ctx.periodic, ctx.box)
    ensures var t := CpuOutcome(ctx, s, idx1, idx2, r, n3, displace);
      && |t.entries| == |s.entries|
      && (forall j | 0 <= j < |s.entries| && j != idx1 && j != idx2 :: t.entries[j] == s.entries[j])
      && t.decayed == s.decayed + (match r.kind case Decay => [idx1] case Fusion => [idx1, idx2] case _ => [])
      && |t.newEntries| == |s.newEntries| + (if r.kind == Fission || r.kind == Fusion then 1 else 0)
      && t.newEntries[..|s.newEntries|] == s.newEntries
  {
  }
}
