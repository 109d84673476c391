/** One step of the CPU kernel's uncontrolled approximation: every entry
    proposes the reaction events it passes the acceptance test for (in
    chunks, one per worker, concatenated in chunk order), the events are
    shuffled, and then executed one after another, skipping every event
    that touches a particle consumed by an earlier executed event.  The
    uniform draws, the exponential, the shuffle and the fission directions
    are parameters. */
module UncontrolledApproximation {
  import opened Vectors
  import opened Particles
  import opened CpuReactionUtils
  import opened ReactionCounts
  import opened Chunks
  import opened Sequences

  /** The acceptance test of `findEvents`: its time step, whether the
      rate is approximated, the uniform value drawn for each candidate event
      and the exponential. */
  datatype Acceptance = Acceptance(timeStep: real, approximateRate: bool, draw: Event -> real, exp: real -> real)
  {
    predicate Accepts(ev: Event) {
      ShouldPerformEvent(ev.rate, timeStep, approximateRate, draw(ev), exp)
    }
  }

  // ---------------------------------------------------------------------
  // findEvents

  /** The accepted order-1 events among the first `k` reactions of the entry's type. */
  function FoundOrder1(reg: ReactionRegistry, acc: Acceptance, e: Entry, index: nat, k: nat): seq<Event>
    requires k <= |reg.order1ByType(e.ptype)|
  {
    if k == 0 then []
    else
      var r := reg.order1ByType(e.ptype)[k - 1];
      var ev := Event(1, |r.products|, index, index, r.rate, 0.0, k - 1, e.ptype, 0);
      FoundOrder1(reg, acc, e, index, k - 1) + (if r.rate > 0.0 && acc.Accepts(ev) then [ev] else [])
  }

  /** The accepted order-2 events of the pair (`index`, `nbIdx`) at squared
      distance `d2`, among the first `k` reactions of their type pair. */
  function FoundPair(reg: ReactionRegistry, acc: Acceptance, e: Entry, index: nat, nb: Entry, nbIdx: nat, d2: real, k: nat): seq<Event>
    requires k <= |reg.order2ByType(e.ptype, nb.ptype)|
  {
    if k == 0 then []
    else
      var r := reg.order2ByType(e.ptype, nb.ptype)[k - 1];
      var ev := Event(2, |r.products|, index, nbIdx, r.rate, 0.0, k - 1, e.ptype, nb.ptype);
      FoundPair(reg, acc, e, index, nb, nbIdx, d2, k - 1)
        + (if r.rate > 0.0 && d2 < r.eductDistanceSquared && acc.Accepts(ev) then [ev] else [])
  }

  /** The order-2 events of entry `index` with its first `j` neighbours; a
      neighbour of lower index is skipped (its own pass finds the pair). */
  function FoundNeighbors(ctx: ReactionContext, acc: Acceptance, data: seq<Entry>, nl: seq<seq<nat>>, index: nat, j: nat): seq<Event>
    requires NeighborListFits(data, nl) && index < |data| && j <= |nl[index]|
  {
    if j == 0 then []
    else
      var prev := FoundNeighbors(ctx, acc, data, nl, index, j - 1);
      var nbIdx := nl[index][j - 1];
      var e := data[index];
      var nb := data[nbIdx];
      if index > nbIdx then prev
      else
        prev + FoundPair(ctx.reactions, acc, e, index, nb, nbIdx, DistSquared(nb.pos, e.pos, ctx.periodic, ctx.box),
                         |ctx.reactions.order2ByType(e.ptype, nb.ptype)|)
  }

  /** The events of one entry: none when it is deactivated. */
  function FoundEntry(ctx: ReactionContext, acc: Acceptance, data: seq<Entry>, nl: seq<seq<nat>>, index: nat): seq<Event>
    requires NeighborListFits(data, nl) && index < |data|
  {
    if data[index].deactivated then []
    else
      FoundOrder1(ctx.reactions, acc, data[index], index, |ctx.reactions.order1ByType(data[index].ptype)|)
        + FoundNeighbors(ctx, acc, data, nl, index, |nl[index]|)
  }

  /** The events of the entries `lo .. hi-1`, in index order. */
  function FoundIn(ctx: ReactionContext, acc: Acceptance, data: seq<Entry>, nl: seq<seq<nat>>, lo: nat, hi: nat): seq<Event>
    requires NeighborListFits(data, nl) && lo <= hi <= |data|
    decreases hi - lo
  {
    if hi == lo then [] else FoundIn(ctx, acc, data, nl, lo, hi - 1) + FoundEntry(ctx, acc, data, nl, hi - 1)
  }

  /** The order-1 loop of `findEvents`. */
  method FindOrder1(reg: ReactionRegistry, acc: Acceptance, entry: Entry, index: nat, events: seq<Event>)
    returns (events': seq<Event>)
    ensures events' == events + FoundOrder1(reg, acc, entry, index, |reg.order1ByType(entry.ptype)|)
  {
    events' := events;
    var rs := reg.order1ByType(entry.ptype);
    var k := 0;
    while k < |rs|
      invariant 0 <= k <= |rs|
      invariant events' == events + FoundOrder1(reg, acc, entry, index, k)
    {
      var rate := rs[k].rate;
      var ev := Event(1, |rs[k].products|, index, index, rate, 0.0, k, entry.ptype, 0);
      if rate > 0.0 && acc.Accepts(ev) {
        events' := events' + [ev];
      }
      k := k + 1;
    }
  }

  /** The loop over the order-2 reactions of one pair in `findEvents`. */
  method FindPair(reg: ReactionRegistry, acc: Acceptance, entry: Entry, index: nat, nb: Entry, nbIdx: nat, d2: real,
                  events: seq<Event>)
    returns (events': seq<Event>)
    ensures events' == events + FoundPair(reg, acc, entry, index, nb, nbIdx, d2, |reg.order2ByType(entry.ptype, nb.ptype)|)
  {
    events' := events;
    var rs := reg.order2ByType(entry.ptype, nb.ptype);
    var m := 0;
    while m < |rs|
      invariant 0 <= m <= |rs|
      invariant events' == events + FoundPair(reg, acc, entry, index, nb, nbIdx, d2, m)
    {
      var rate := rs[m].rate;
      var ev := Event(2, |rs[m].products|, index, nbIdx, rate, 0.0, m, entry.ptype, nb.ptype);
      if rate > 0.0 && d2 < rs[m].eductDistanceSquared && acc.Accepts(ev) {
        events' := events' + [ev];
      }
      m := m + 1;
    }
  }

  /** The neighbour loop of `findEvents`. */
  method FindNeighbors(ctx: ReactionContext, acc: Acceptance, data: seq<Entry>, nl: seq<seq<nat>>, index: nat,
                       events: seq<Event>)
    returns (events': seq<Event>)
    requires NeighborListFits(data, nl) && index < |data|
    ensures events' == events + FoundNeighbors(ctx, acc, data, nl, index, |nl[index]|)
  {
    events' := events;
    var entry := data[index];
    var j := 0;
    while j < |nl[index]|
      invariant 0 <= j <= |nl[index]|
      invariant events' == events + FoundNeighbors(ctx, acc, data, nl, index, j)
    {
      var nbIdx := nl[index][j];
      if index <= nbIdx {
        var nb := data[nbIdx];
        var rs := ctx.reactions.order2ByType(entry.ptype, nb.ptype);
        var d2 := DistSquared(nb.pos, entry.pos, ctx.periodic, ctx.box);
        if |rs| > 0 {
          events' := FindPair(ctx.reactions, acc, entry, index, nb, nbIdx, d2, events');
        }
        assert FoundNeighbors(ctx, acc, data, nl, index, j + 1)
            == FoundNeighbors(ctx, acc, data, nl, index, j) + FoundPair(ctx.reactions, acc, entry, index, nb, nbIdx, d2, |rs|);
      }
      j := j + 1;
    }
  }

  /** `findEvents` over the entries `lo .. hi-1` (one chunk). */
  method FindEvents(ctx: ReactionContext, acc: Acceptance, data: seq<Entry>, nl: seq<seq<nat>>, lo: nat, hi: nat)
    returns (events: seq<Event>)
    requires NeighborListFits(data, nl) && lo <= hi <= |data|
    ensures events == FoundIn(ctx, acc, data, nl, lo, hi)
  {
    events := [];
    var index := lo;
    while index < hi
      invariant lo <= index <= hi
      invariant events == FoundIn(ctx, acc, data, nl, lo, index)
    {
      FoundInSnoc(ctx, acc, data, nl, lo, index + 1);
      if !data[index].deactivated {
        ghost var before := events;
        events := FindOrder1(ctx.reactions, acc, data[index], index, events);
        events := FindNeighbors(ctx, acc, data, nl, index, events);
        AppendAssoc(before, FoundOrder1(ctx.reactions, acc, data[index], index, |ctx.reactions.order1ByType(data[index].ptype)|),
                    FoundNeighbors(ctx, acc, data, nl, index, |nl[index]|));
      } else {
        AppendEmpty(events);
      }
      index := index + 1;
    }
  }

  // ---------------------------------------------------------------------
  // What findEvents emits

  /** What every event `findEvents` emits promises: sentinel 0, a positive
      and accepted rate equal to the rate of the reaction it names, an
      active first participant whose type it records; order 1 names the
      entry twice; order 2 has the first index below the second and the
      pair within the reaction's educt distance. */
  ghost predicate FoundEventValid(ctx: ReactionContext, acc: Acceptance, data: seq<Entry>, ev: Event) {
    && ev.cumulativeRate == 0.0 && ev.rate > 0.0 && acc.Accepts(ev)
    && ev.idx1 < |data| && !data[ev.idx1].deactivated && ev.t1 == data[ev.idx1].ptype
    && (ev.nEducts == 1 || ev.nEducts == 2)
    && (ev.nEducts == 1 ==>
          && ev.idx2 == ev.idx1
          && ev.reactionIdx < |ctx.reactions.order1ByType(ev.t1)|
          && ctx.reactions.order1ByType(ev.t1)[ev.reactionIdx].rate == ev.rate)
    && (ev.nEducts == 2 ==>
          && ev.idx1 < ev.idx2 < |data| && ev.t2 == data[ev.idx2].ptype
          && ev.reactionIdx < |ctx.reactions.order2ByType(ev.t1, ev.t2)|
          && ctx.reactions.order2ByType(ev.t1, ev.t2)[ev.reactionIdx].rate == ev.rate
          && DistSquared(data[ev.idx2].pos, data[ev.idx1].pos, ctx.periodic, ctx.box)
               < ctx.reactions.order2ByType(ev.t1, ev.t2)[ev.reactionIdx].eductDistanceSquared)
  }

  /** Every event is valid and its first index lies in `lo .. hi-1`. */
  ghost predicate AllFoundValid(ctx: ReactionContext, acc: Acceptance, data: seq<Entry>, evs: seq<Event>, lo: nat, hi: nat) {
    forall i | 0 <= i < |evs| :: FoundEventValid(ctx, acc, data, evs[i]) && lo <= evs[i].idx1 < hi
  }

  lemma {:induction false} FoundOrder1Valid(ctx: ReactionContext, acc: Acceptance, data: seq<Entry>, index: nat, k: nat)
    requires index < |data| && !data[index].deactivated
    requires k <= |ctx.reactions.order1ByType(data[index].ptype)|
    ensures AllFoundValid(ctx, acc, data, FoundOrder1(ctx.reactions, acc, data[index], index, k), index, index + 1)
  {
    if k > 0 {
      FoundOrder1Valid(ctx, acc, data, index, k - 1);
    }
  }

  lemma {:induction false} FoundPairValid(ctx: ReactionContext, acc: Acceptance, data: seq<Entry>, index: nat, nbIdx: nat, k: nat)
    requires index < nbIdx < |data| && !data[index].deactivated
    requires k <= |ctx.reactions.order2ByType(data[index].ptype, data[nbIdx].ptype)|
    ensures AllFoundValid(ctx, acc, data,
      FoundPair(ctx.reactions, acc, data[index], index, data[nbIdx], nbIdx,
                DistSquared(data[nbIdx].pos, data[index].pos, ctx.periodic, ctx.box), k), index, index + 1)
  {
    if k > 0 {
      FoundPairValid(ctx, acc, data, index, nbIdx, k - 1);
    }
  }

  lemma {:induction false} FoundNeighborsValid(ctx: ReactionContext, acc: Acceptance, data: seq<Entry>, nl: seq<seq<nat>>, index: nat, j: nat)
    requires NeighborListFits(data, nl) && index < |data| && !data[index].deactivated && j <= |nl[index]|
    ensures AllFoundValid(ctx, acc, data, FoundNeighbors(ctx, acc, data, nl, index, j), index, index + 1)
  {
    if j > 0 {
      FoundNeighborsValid(ctx, acc, data, nl, index, j - 1);
      var nbIdx := nl[index][j - 1];
      if index <= nbIdx {
        FoundPairValid(ctx, acc, data, index, nbIdx, |ctx.reactions.order2ByType(data[index].ptype, data[nbIdx].ptype)|);
      }
    }
  }

  /** Valid events with first indices in a range stay so in a wider range and
      under concatenation. */
  lemma AllFoundValidJoin(ctx: ReactionContext, acc: Acceptance, data: seq<Entry>, a: seq<Event>, b: seq<Event>,
                          lo: nat, mid: nat, hi: nat)
    requires lo <= mid < hi
    requires AllFoundValid(ctx, acc, data, a, lo, mid + 1) && AllFoundValid(ctx, acc, data, b, mid, hi)
    ensures AllFoundValid(ctx, acc, data, a + b, lo, hi)
  {
    forall i | 0 <= i < |a + b|
      ensures FoundEventValid(ctx, acc, data, (a + b)[i]) && lo <= (a + b)[i].idx1 < hi
    {
      if i < |a| { assert (a + b)[i] == a[i]; } else { assert (a + b)[i] == b[i - |a|]; }
    }
  }

  /** Every event of one entry is valid and names that entry first. */
  lemma FoundEntryValid(ctx: ReactionContext, acc: Acceptance, data: seq<Entry>, nl: seq<seq<nat>>, index: nat)
    requires NeighborListFits(data, nl) && index < |data|
    ensures AllFoundValid(ctx, acc, data, FoundEntry(ctx, acc, data, nl, index), index, index + 1)
  {
    if !data[index].deactivated {
      FoundOrder1Valid(ctx, acc, data, index, |ctx.reactions.order1ByType(data[index].ptype)|);
      FoundNeighborsValid(ctx, acc, data, nl, index, |nl[index]|);
      AllFoundValidJoin(ctx, acc, data,
        FoundOrder1(ctx.reactions, acc, data[index], index, |ctx.reactions.order1ByType(data[index].ptype)|),
        FoundNeighbors(ctx, acc, data, nl, index, |nl[index]|), index, index, index + 1);
    }
  }

  /** Every event found in a chunk is valid and belongs to an entry of the chunk. */
  lemma {:induction false} FoundInValid(ctx: ReactionContext, acc: Acceptance, data: seq<Entry>, nl: seq<seq<nat>>, lo: nat, hi: nat)
    requires NeighborListFits(data, nl) && lo <= hi <= |data|
    ensures AllFoundValid(ctx, acc, data, FoundIn(ctx, acc, data, nl, lo, hi), lo, hi)
    decreases hi - lo
  {
    if hi > lo {
      FoundInValid(ctx, acc, data, nl, lo, hi - 1);
      FoundEntryValid(ctx, acc, data, nl, hi - 1);
      AllFoundValidJoin(ctx, acc, data, FoundIn(ctx, acc, data, nl, lo, hi - 1), FoundEntry(ctx, acc, data, nl, hi - 1),
                        lo, hi - 1, hi);
    }
  }

  /** A deactivated entry proposes nothing. */
  lemma NoEventsOfDeactivated(ctx: ReactionContext, acc: Acceptance, data: seq<Entry>, nl: seq<seq<nat>>, lo: nat, hi: nat)
    requires NeighborListFits(data, nl) && lo <= hi <= |data|
    ensures var evs := FoundIn(ctx, acc, data, nl, lo, hi);
      forall i | 0 <= i < |evs| :: evs[i].idx1 < |data| && !data[evs[i].idx1].deactivated
  {
    FoundInValid(ctx, acc, data, nl, lo, hi);
  }

  /** One more entry appends its events. */
  lemma FoundInSnoc(ctx: ReactionContext, acc: Acceptance, data: seq<Entry>, nl: seq<seq<nat>>, lo: nat, hi: nat)
    requires NeighborListFits(data, nl) && lo < hi <= |data|
    ensures FoundIn(ctx, acc, data, nl, lo, hi) == FoundIn(ctx, acc, data, nl, lo, hi - 1) + FoundEntry(ctx, acc, data, nl, hi - 1)
  {
  }

  /** Splitting the entries into two consecutive chunks and concatenating
      their events gives the events of the whole range. */
  lemma {:induction false} FoundInSplit(ctx: ReactionContext, acc: Acceptance, data: seq<Entry>, nl: seq<seq<nat>>, lo: nat, mid: nat, hi: nat)
    requires NeighborListFits(data, nl) && lo <= mid <= hi <= |data|
    ensures FoundIn(ctx, acc, data, nl, lo, hi) == FoundIn(ctx, acc, data, nl, lo, mid) + FoundIn(ctx, acc, data, nl, mid, hi)
    decreases hi - mid
  {
    if hi > mid {
      FoundInSplit(ctx, acc, data, nl, lo, mid, hi - 1);
      FoundInSnoc(ctx, acc, data, nl, lo, hi);
      FoundInSnoc(ctx, acc, data, nl, mid, hi);
      AppendAssoc(FoundIn(ctx, acc, data, nl, lo, mid), FoundIn(ctx, acc, data, nl, mid, hi - 1),
                  FoundEntry(ctx, acc, data, nl, hi - 1));
    } else {
      AppendEmpty(FoundIn(ctx, acc, data, nl, lo, mid));
    }
  }

  // ---------------------------------------------------------------------
  // Gathering in chunks

  /** `chunk` holds the events of chunk `c`. */
  ghost predicate ChunkFound(ctx: ReactionContext, acc: Acceptance, data: seq<Entry>, nl: seq<seq<nat>>,
                             nThreads: nat, c: nat, chunk: seq<Event>)
    requires 1 <= nThreads && NeighborListFits(data, nl)
  {
    && c < nThreads
    && ChunkStart(c, |data|, nThreads) <= ChunkStart(c + 1, |data|, nThreads) <= |data|
    && chunk == FoundIn(ctx, acc, data, nl, ChunkStart(c, |data|, nThreads), ChunkStart(c + 1, |data|, nThreads))
  }

  /** `chunks` holds, for each of the first `i` workers, the events of its chunk. */
  ghost predicate ChunksFoundUpTo(ctx: ReactionContext, acc: Acceptance, data: seq<Entry>, nl: seq<seq<nat>>,
                                  nThreads: nat, i: nat, chunks: seq<seq<Event>>)
    requires 1 <= nThreads && NeighborListFits(data, nl)
  {
    |chunks| == i && forall c: nat | c < i :: ChunkFound(ctx, acc, data, nl, nThreads, c, chunks[c])
  }

  /** `chunks` holds, for every worker, the events of its chunk. */
  ghost predicate ChunksFound(ctx: ReactionContext, acc: Acceptance, data: seq<Entry>, nl: seq<seq<nat>>,
                              nThreads: nat, chunks: seq<seq<Event>>)
    requires 1 <= nThreads && NeighborListFits(data, nl)
  {
    ChunksFoundUpTo(ctx, acc, data, nl, nThreads, nThreads, chunks)
  }

  /** Appending the next worker's chunk keeps the prefix property. */
  lemma ChunksFoundSnoc(ctx: ReactionContext, acc: Acceptance, data: seq<Entry>, nl: seq<seq<nat>>,
                        nThreads: nat, i: nat, chunks: seq<seq<Event>>, found: seq<Event>)
    requires 1 <= nThreads && NeighborListFits(data, nl)
    requires ChunksFoundUpTo(ctx, acc, data, nl, nThreads, i, chunks)
    requires ChunkFound(ctx, acc, data, nl, nThreads, i, found)
    ensures ChunksFoundUpTo(ctx, acc, data, nl, nThreads, i + 1, chunks + [found])
  {
    forall c: nat | c < i + 1
      ensures ChunkFound(ctx, acc, data, nl, nThreads, c, (chunks + [found])[c])
    {
      if c < i { assert (chunks + [found])[c] == chunks[c]; }
    }
  }

  /** One worker: `findEvents` over chunk `i`. */
  method FindChunk(ctx: ReactionContext, acc: Acceptance, data: seq<Entry>, nl: seq<seq<nat>>, nThreads: nat,
                   i: nat, start: nat, end: nat)
    returns (found: seq<Event>)
    requires 1 <= nThreads && NeighborListFits(data, nl) && i < nThreads
    requires start == ChunkStart(i, |data|, nThreads) && end == ChunkStart(i + 1, |data|, nThreads)
    ensures ChunkFound(ctx, acc, data, nl, nThreads, i, found)
  {
    ChunkStartBounds(i, |data|, nThreads);
    found := FindEvents(ctx, acc, data, nl, start, end);
  }

  /** The worker loop of `perform`: one `findEvents` per chunk, the last
      chunk running to the end of the data. */
  method FindInChunks(ctx: ReactionContext, acc: Acceptance, data: seq<Entry>, nl: seq<seq<nat>>, nThreads: nat)
    returns (chunks: seq<seq<Event>>)
    requires 1 <= nThreads && NeighborListFits(data, nl)
    ensures ChunksFound(ctx, acc, data, nl, nThreads, chunks)
  {
    var n := |data|;
    var grain := n / nThreads;
    chunks := [];
    var start := 0;
    var i := 0;
    while i < nThreads - 1
      invariant 0 <= i < nThreads
      invariant start == ChunkStart(i, n, nThreads)
      invariant ChunksFoundUpTo(ctx, acc, data, nl, nThreads, i, chunks)
    {
      ChunkStartBounds(i, n, nThreads);
      var found := FindChunk(ctx, acc, data, nl, nThreads, i, start, start + grain);
      ChunksFoundSnoc(ctx, acc, data, nl, nThreads, i, chunks, found);
      chunks := chunks + [found];
      start := start + grain;
      i := i + 1;
    }
    ChunkStartBounds(i, n, nThreads);
    var found := FindChunk(ctx, acc, data, nl, nThreads, i, start, n);
    ChunksFoundSnoc(ctx, acc, data, nl, nThreads, i, chunks, found);
    chunks := chunks + [found];
  }

  /** `events` holds the events of the first `c` chunks. */
  ghost predicate CollectedUpTo(ctx: ReactionContext, acc: Acceptance, data: seq<Entry>, nl: seq<seq<nat>>,
                                nThreads: nat, c: nat, events: seq<Event>)
    requires 1 <= nThreads && NeighborListFits(data, nl)
  {
    && c <= nThreads
    && ChunkStart(c, |data|, nThreads) <= |data|
    && events == FoundIn(ctx, acc, data, nl, 0, ChunkStart(c, |data|, nThreads))
  }

  /** The collect loop of `perform`: the chunks' events concatenated in chunk order. */
  method CollectChunks(ctx: ReactionContext, acc: Acceptance, data: seq<Entry>, nl: seq<seq<nat>>, nThreads: nat,
                       chunks: seq<seq<Event>>)
    returns (events: seq<Event>)
    requires 1 <= nThreads && NeighborListFits(data, nl)
    requires ChunksFound(ctx, acc, data, nl, nThreads, chunks)
    ensures events == FoundIn(ctx, acc, data, nl, 0, |data|)
  {
    events := [];
    var c := 0;
    while c < nThreads
      invariant CollectedUpTo(ctx, acc, data, nl, nThreads, c, events)
    {
      CollectStep(ctx, acc, data, nl, nThreads, chunks, c, events);
      events := events + chunks[c];
      c := c + 1;
    }
  }

  /** One round of the collect loop extends the events by one chunk. */
  lemma CollectStep(ctx: ReactionContext, acc: Acceptance, data: seq<Entry>, nl: seq<seq<nat>>, nThreads: nat,
                    chunks: seq<seq<Event>>, c: nat, events: seq<Event>)
    requires 1 <= nThreads && NeighborListFits(data, nl) && c < nThreads
    requires ChunksFound(ctx, acc, data, nl, nThreads, chunks)
    requires CollectedUpTo(ctx, acc, data, nl, nThreads, c, events)
    ensures CollectedUpTo(ctx, acc, data, nl, nThreads, c + 1, events + chunks[c])
  {
    assert ChunkFound(ctx, acc, data, nl, nThreads, c, chunks[c]);
    FoundInSplit(ctx, acc, data, nl, 0, ChunkStart(c, |data|, nThreads), ChunkStart(c + 1, |data|, nThreads));
  }

  /** The gather phase of `perform`: every chunk searched, always with the
      approximated rate, and the chunks' events concatenated in order; the
      result is one sequential pass over all entries. */
  method GatherAll(ctx: ReactionContext, data: seq<Entry>, nl: seq<seq<nat>>, nThreads: nat,
                   timeStep: real, draw: Event -> real, exp: real -> real)
    returns (events: seq<Event>)
    requires 1 <= nThreads && NeighborListFits(data, nl)
    ensures events == FoundIn(ctx, Acceptance(timeStep, true, draw, exp), data, nl, 0, |data|)
  {
    var acc := Acceptance(timeStep, true, draw, exp);
    var chunks := FindInChunks(ctx, acc, data, nl, nThreads);
    events := CollectChunks(ctx, acc, data, nl, nThreads, chunks);
  }

  // ---------------------------------------------------------------------
  // Executing the shuffled events

  /** An event runs when its sentinel is still 0 and it touches no particle
      an earlier executed event consumed. */
  predicate Fires(e: Event, consumed: set<nat>) {
    e.cumulativeRate == 0.0 && !Touches(e, consumed)
  }

  /** The particles consumed by the events of `evs` that run, in order. */
  function Consumed(evs: seq<Event>): set<nat> {
    if evs == [] then {}
    else
      var before := Consumed(evs[..|evs| - 1]);
      var e := evs[|evs| - 1];
      if Fires(e, before) then before + Participants(e) else before
  }

  /** Event `i` of `evs` runs. */
  predicate Fired(evs: seq<Event>, i: nat)
    requires i < |evs|
  {
    Fires(evs[i], Consumed(evs[..i]))
  }

  /** An event as the execute loop leaves it once `consumed` is consumed:
      its sentinel is set to 1 if it touches a consumed particle. */
  function Mark(e: Event, consumed: set<nat>): (r: Event)
    ensures r == e.(cumulativeRate := r.cumulativeRate)
    ensures r.cumulativeRate == 0.0 <==> Fires(e, consumed)
  {
    if Touches(e, consumed) then e.(cumulativeRate := 1.0) else e
  }

  lemma MarkTwice(e: Event, a: set<nat>, b: set<nat>)
    ensures Mark(Mark(e, a), b) == Mark(e, a + b)
  {
  }

  lemma ConsumedSnoc(evs: seq<Event>, i: nat)
    requires i < |evs|
    ensures Consumed(evs[..i + 1]) == if Fired(evs, i) then Consumed(evs[..i]) + Participants(evs[i]) else Consumed(evs[..i])
  {
    assert evs[..i + 1][..i] == evs[..i];
  }

  /** A particle is consumed exactly when some event that ran names it. */
  lemma {:induction false} ConsumedByFired(evs: seq<Event>, k: nat)
    ensures k in Consumed(evs) <==> exists i | 0 <= i < |evs| :: Fired(evs, i) && k in Participants(evs[i])
    decreases |evs|
  {
    if evs != [] {
      var n := |evs| - 1;
      var init := evs[..n];
      ConsumedByFired(init, k);
      ConsumedSnoc(evs, n);
      assert evs[..n + 1] == evs;
      forall i | 0 <= i < n
        ensures Fired(evs, i) == Fired(init, i) && evs[i] == init[i]
      {
        assert init[..i] == evs[..i];
      }
    }
  }

  /** Consumed particles only accumulate along the events. */
  lemma {:induction false} ConsumedGrows(evs: seq<Event>, m: nat, n: nat)
    requires m <= n <= |evs|
    ensures Consumed(evs[..m]) <= Consumed(evs[..n])
    decreases n - m
  {
    if m < n {
      ConsumedGrows(evs, m, n - 1);
      ConsumedSnoc(evs, n - 1);
    }
  }

  /** An event runs if and only if its sentinel was 0 and none of its
      indices belongs to an earlier event that ran. */
  lemma FiredIff(evs: seq<Event>, j: nat)
    requires j < |evs|
    ensures Fired(evs, j) <==>
              evs[j].cumulativeRate == 0.0
              && forall i | 0 <= i < j && Fired(evs, i) :: !Touches(evs[j], Participants(evs[i]))
  {
    var pre := evs[..j];
    forall i | 0 <= i < j
      ensures Fired(pre, i) == Fired(evs, i) && pre[i] == evs[i]
    {
      assert pre[..i] == evs[..i];
    }
    ConsumedByFired(pre, evs[j].idx1);
    ConsumedByFired(pre, evs[j].idx2);
  }

  /** Events that run are pairwise index-disjoint: no particle takes part
      in two executed events. */
  lemma ExecutedDisjoint(evs: seq<Event>, i: nat, j: nat)
    requires i < j < |evs| && Fired(evs, i) && Fired(evs, j)
    ensures Participants(evs[i]) !! Participants(evs[j])
    ensures !Touches(evs[j], Participants(evs[i]))
  {
    ConsumedSnoc(evs, i);
    ConsumedGrows(evs, i + 1, j);
  }

  /** The state the execute loop changes: the reaction state of
      `performReaction` and the reaction counts. */
  datatype ExecState = ExecState(rs: ReactionState, counts: Counts)

  /** The event names a registered reaction of its type (pair). */
  predicate NamesReaction(ctx: ReactionContext, e: Event) {
    if e.nEducts == 1 then e.reactionIdx < |ctx.reactions.order1ByType(e.t1)|
    else e.reactionIdx < |ctx.reactions.order2ByType(e.t1, e.t2)|
  }

  /** The event names existing entries and a registered reaction. */
  predicate Executable(ctx: ReactionContext, n: nat, e: Event) {
    e.idx1 < n && (e.nEducts != 1 ==> e.idx2 < n) && NamesReaction(ctx, e)
  }

  /** The reaction an event names. */
  function EventReaction(ctx: ReactionContext, e: Event): Reaction
    requires NamesReaction(ctx, e)
  {
    if e.nEducts == 1 then ctx.reactions.order1ByType(e.t1)[e.reactionIdx]
    else ctx.reactions.order2ByType(e.t1, e.t2)[e.reactionIdx]
  }

  /** An order-1 event is performed on its first entry twice. */
  function SecondIndex(e: Event): nat {
    if e.nEducts == 1 then e.idx1 else e.idx2
  }

  /** The counter of the event's reaction exists. */
  predicate HasCounter(counts: Counts, e: Event) {
    if e.nEducts == 1 then e.t1 in counts.order1 && e.reactionIdx < |counts.order1[e.t1]|
    else PairKey(e.t1, e.t2) in counts.order2 && e.reactionIdx < |counts.order2[PairKey(e.t1, e.t2)]|
  }

  /** Same keys and same vector lengths. */
  predicate SameShape(a: Counts, b: Counts) {
    && a.order1.Keys == b.order1.Keys && (forall t | t in a.order1 :: |a.order1[t]| == |b.order1[t]|)
    && a.order2.Keys == b.order2.Keys && (forall p | p in a.order2 :: |a.order2[p]| == |b.order2[p]|)
  }

  /** Counting an executed event increments exactly its own counter. */
  function CountEvent(counts: Counts, e: Event): (r: Counts)
    requires HasCounter(counts, e)
    ensures SameShape(r, counts)
    ensures e.nEducts == 1 ==> r.order2 == counts.order2
    ensures e.nEducts == 1 ==> forall t, i | t in counts.order1 && 0 <= i < |counts.order1[t]| ::
              r.order1[t][i] == counts.order1[t][i] + (if t == e.t1 && i == e.reactionIdx then 1 else 0)
    ensures e.nEducts != 1 ==> r.order1 == counts.order1
    ensures e.nEducts != 1 ==> forall p, i | p in counts.order2 && 0 <= i < |counts.order2[p]| ::
              r.order2[p][i] == counts.order2[p][i] + (if p == PairKey(e.t1, e.t2) && i == e.reactionIdx then 1 else 0)
  {
    if e.nEducts == 1 then
      var v := counts.order1[e.t1];
      counts.(order1 := counts.order1[e.t1 := v[e.reactionIdx := v[e.reactionIdx] + 1]])
    else
      var key := PairKey(e.t1, e.t2);
      var v := counts.order2[key];
      counts.(order2 := counts.order2[key := v[e.reactionIdx := v[e.reactionIdx] + 1]])
  }

  /** Running one event: its reaction is performed (`n3` is the fission
      direction drawn for it) and, when counting, its counter incremented. */
  function Fire(ctx: ReactionContext, e: Event, n3: Vec3, displace: (Vec3, Vec3) -> Vec3, record: bool, st: ExecState): (r: ExecState)
    requires ValidContext(ctx) && Executable(ctx, |st.rs.entries|, e) && (record ==> HasCounter(st.counts, e))
    ensures |r.rs.entries| == |st.rs.entries| && SameShape(r.counts, st.counts)
  {
    var reaction := EventReaction(ctx, e);
    CpuOutcomeFootprint(ctx, st.rs, e.idx1, SecondIndex(e), reaction, n3, displace);
    ExecState(CpuOutcome(ctx, st.rs, e.idx1, SecondIndex(e), reaction, n3, displace),
              if record then CountEvent(st.counts, e) else st.counts)
  }

  /** Every event is executable against `n` entries and, when counting, has a counter. */
  predicate AllExecutable(ctx: ReactionContext, n: nat, record: bool, counts: Counts, evs: seq<Event>) {
    forall i | 0 <= i < |evs| :: Executable(ctx, n, evs[i]) && (record ==> HasCounter(counts, evs[i]))
  }

  /** The state after the events of `evs` ran in order from `st0`; the event
      at position `k` draws the fission direction `n3(k)`. */
  function Run(ctx: ReactionContext, evs: seq<Event>, n3: nat -> Vec3, displace: (Vec3, Vec3) -> Vec3, record: bool, st0: ExecState): (st: ExecState)
    requires ValidContext(ctx) && AllExecutable(ctx, |st0.rs.entries|, record, st0.counts, evs)
    ensures |st.rs.entries| == |st0.rs.entries| && SameShape(st.counts, st0.counts)
    decreases |evs|
  {
    if evs == [] then st0
    else
      var k := |evs| - 1;
      var st := Run(ctx, evs[..k], n3, displace, record, st0);
      if Fires(evs[k], Consumed(evs[..k])) then Fire(ctx, evs[k], n3(k), displace, record, st) else st
  }

  /** The marking loop: every event from `from` on that touches `p` gets sentinel 1. */
  method MarkLater(events: array<Event>, from: nat, p: set<nat>)
    modifies events
    ensures forall j | 0 <= j < events.Length ::
              events[j] == if j < from then old(events[j]) else Mark(old(events[j]), p)
  {
    var j := from;
    while j < events.Length
      invariant forall k | 0 <= k < events.Length ::
                  events[k] == if k < from || k >= j then old(events[k]) else Mark(old(events[k]), p)
    {
      if Touches(events[j], p) {
        events[j] := events[j].(cumulativeRate := 1.0);
      }
      j := j + 1;
    }
  }

  lemma RunSnoc(ctx: ReactionContext, evs: seq<Event>, i: nat, n3: nat -> Vec3, displace: (Vec3, Vec3) -> Vec3,
                record: bool, st0: ExecState)
    requires ValidContext(ctx) && AllExecutable(ctx, |st0.rs.entries|, record, st0.counts, evs) && i < |evs|
    ensures var st := Run(ctx, evs[..i], n3, displace, record, st0);
      Run(ctx, evs[..i + 1], n3, displace, record, st0)
        == if Fired(evs, i) then Fire(ctx, evs[i], n3(i), displace, record, st) else st
  {
    assert evs[..i + 1][..i] == evs[..i];
  }

  /** The events and the state after the first `i` events were reached:
      earlier events carry their final sentinel, later ones the marks of the
      particles consumed so far, and the state is that of running the first `i`. */
  ghost predicate ExecutedUpTo(ctx: ReactionContext, evs0: seq<Event>, i: nat, n3: nat -> Vec3,
                               displace: (Vec3, Vec3) -> Vec3, record: bool, st0: ExecState,
                               evs: seq<Event>, st: ExecState)
    requires ValidContext(ctx) && AllExecutable(ctx, |st0.rs.entries|, record, st0.counts, evs0)
  {
    && i <= |evs0| && |evs| == |evs0|
    && (forall j | 0 <= j < i :: evs[j] == Mark(evs0[j], Consumed(evs0[..j])))
    && (forall j | i <= j < |evs| :: evs[j] == Mark(evs0[j], Consumed(evs0[..i])))
    && st == Run(ctx, evs0[..i], n3, displace, record, st0)
  }

  /** One round of the execute loop. */
  method ExecuteStep(ctx: ReactionContext, data: array<Entry>, events: array<Event>, i: nat, n3: nat -> Vec3,
                     displace: (Vec3, Vec3) -> Vec3, record: bool,
                     newEntries: seq<Particle>, decayed: seq<nat>, nextId: nat, counts: Counts,
                     ghost evs0: seq<Event>, ghost st0: ExecState)
    returns (newEntries': seq<Particle>, decayed': seq<nat>, nextId': nat, counts': Counts)
    requires ValidContext(ctx) && AllExecutable(ctx, |st0.rs.entries|, record, st0.counts, evs0)
    requires i < events.Length && data.Length == |st0.rs.entries|
    requires ExecutedUpTo(ctx, evs0, i, n3, displace, record, st0, events[..],
                          ExecState(ReactionState(data[..], newEntries, decayed, nextId), counts))
    modifies data, events
    ensures ExecutedUpTo(ctx, evs0, i + 1, n3, displace, record, st0, events[..],
                         ExecState(ReactionState(data[..], newEntries', decayed', nextId'), counts'))
  {
    newEntries', decayed', nextId', counts' := newEntries, decayed, nextId, counts;
    ghost var before := Consumed(evs0[..i]);
    ghost var st := ExecState(ReactionState(data[..], newEntries, decayed, nextId), counts);
    ConsumedSnoc(evs0, i);
    RunSnoc(ctx, evs0, i, n3, displace, record, st0);
    var e := events[i];
    assert e == Mark(evs0[i], before);
    if e.cumulativeRate == 0.0 {
      assert e == evs0[i];
      var r := EventReaction(ctx, e);
      newEntries', decayed', nextId' := PerformReaction(ctx, data, e.idx1, SecondIndex(e), newEntries, decayed, nextId, r, n3(i), displace);
      if record {
        counts' := CountEvent(counts, e);
      }
      assert ExecState(ReactionState(data[..], newEntries', decayed', nextId'), counts') == Fire(ctx, e, n3(i), displace, record, st);
      MarkLater(events, i + 1, Participants(e));
      forall j | i < j < events.Length
        ensures events[j] == Mark(evs0[j], Consumed(evs0[..i + 1]))
      {
        MarkTwice(evs0[j], before, Participants(e));
      }
    }
  }

  /** The execute loop of `perform`: runs the (shuffled) events in order,
      each one only if its sentinel is still 0, and marks every later event
      touching a particle it consumed. */
  method Execute(ctx: ReactionContext, data: array<Entry>, events: array<Event>, n3: nat -> Vec3,
                 displace: (Vec3, Vec3) -> Vec3, record: bool, counts: Counts, nextId: nat)
    returns (newEntries: seq<Particle>, decayed: seq<nat>, nextId': nat, counts': Counts)
    requires ValidContext(ctx) && AllExecutable(ctx, data.Length, record, counts, events[..])
    modifies data, events
    ensures forall j | 0 <= j < events.Length :: events[j] == Mark(old(events[j]), Consumed(old(events[..j])))
    ensures ExecState(ReactionState(data[..], newEntries, decayed, nextId'), counts')
         == Run(ctx, old(events[..]), n3, displace, record, ExecState(ReactionState(old(data[..]), [], [], nextId), counts))
  {
    ghost var evs0 := events[..];
    ghost var st0 := ExecState(ReactionState(data[..], [], [], nextId), counts);
    newEntries, decayed, nextId', counts' := [], [], nextId, counts;
    var i := 0;
    while i < events.Length
      invariant 0 <= i <= events.Length
      invariant ExecutedUpTo(ctx, evs0, i, n3, displace, record, st0, events[..],
                             ExecState(ReactionState(data[..], newEntries, decayed, nextId'), counts'))
    {
      newEntries, decayed, nextId', counts' := ExecuteStep(ctx, data, events, i, n3, displace, record,
                                                          newEntries, decayed, nextId', counts', evs0, st0);
      i := i + 1;
    }
    assert evs0[..events.Length] == evs0;
  }

  // ---------------------------------------------------------------------
  // perform

  /** Order-2 reactions are registered for the unordered type pair. */
  ghost predicate SymmetricRegistry(reg: ReactionRegistry) {
    forall a: nat, b: nat :: reg.order2ByType(a, b) == reg.order2ByType(b, a)
  }

  /** Every count vector of a type (pair) with reactions is either empty or
      has one counter per reaction. */
  ghost predicate CountsFit(reg: ReactionRegistry, counts: Counts) {
    && (forall t | t in counts.order1 && Order1Sizes(reg)(t) > 0 ::
          |counts.order1[t]| == 0 || |counts.order1[t]| == Order1Sizes(reg)(t))
    && (forall p | p in counts.order2 && Order2Sizes(reg)(p) > 0 ::
          |counts.order2[p]| == 0 || |counts.order2[p]| == Order2Sizes(reg)(p))
  }

  /** After `initializeCounts`, every event `findEvents` emits has its counter. */
  lemma CounterAfterInitialize(ctx: ReactionContext, acc: Acceptance, data: seq<Entry>, types: seq<nat>,
                               counts0: Counts, counts: Counts, e: Event)
    requires SymmetricRegistry(ctx.reactions) && CountsFit(ctx.reactions, counts0)
    requires forall i | 0 <= i < |data| :: data[i].ptype in types
    requires ResetOn(counts0.order1, counts.order1, (set t | t in types), Order1Sizes(ctx.reactions))
    requires ResetOn(counts0.order2, counts.order2, VisitedPairs(types), Order2Sizes(ctx.reactions))
    requires FoundEventValid(ctx, acc, data, e)
    ensures HasCounter(counts, e)
  {
    var reg := ctx.reactions;
    assert e.t1 in types;
    if e.nEducts != 1 {
      var key := PairKey(e.t1, e.t2);
      assert e.t2 in types;
      assert key in VisitedPairs(types);
      assert reg.order2ByType(key.0, key.1) == reg.order2ByType(e.t1, e.t2);
      assert Order2Sizes(reg)(key) > 0;
    }
  }

  /** Any permutation of the events `findEvents` emits can be executed and,
      when counting, finds its counters. */
  lemma ShuffledExecutable(ctx: ReactionContext, acc: Acceptance, data: seq<Entry>, record: bool, types: seq<nat>,
                           counts0: Counts, counts: Counts, found: seq<Event>, shuffled: seq<Event>)
    requires AllFoundValid(ctx, acc, data, found, 0, |data|) && multiset(shuffled) == multiset(found)
    requires record ==> SymmetricRegistry(ctx.reactions) && CountsFit(ctx.reactions, counts0)
    requires record ==> forall i | 0 <= i < |data| :: data[i].ptype in types
    requires record ==> ResetOn(counts0.order1, counts.order1, (set t | t in types), Order1Sizes(ctx.reactions))
    requires record ==> ResetOn(counts0.order2, counts.order2, VisitedPairs(types), Order2Sizes(ctx.reactions))
    ensures AllExecutable(ctx, |data|, record, counts, shuffled)
  {
    forall i | 0 <= i < |shuffled|
      ensures Executable(ctx, |data|, shuffled[i]) && (record ==> HasCounter(counts, shuffled[i]))
    {
      assert shuffled[i] in multiset(found);
      var k :| 0 <= k < |found| && found[k] == shuffled[i];
      assert FoundEventValid(ctx, acc, data, found[k]);
      if record {
        CounterAfterInitialize(ctx, acc, data, types, counts0, counts, found[k]);
      }
    }
  }

  /** `perform` without the reaction records: initialise the counts when
      counting, gather the events of all chunks with the approximated rate,
      shuffle them (`shuffle` is any permutation) and execute them; the
      buffers of new and decayed entries are returned instead of being
      handed to the neighbour list. */
  method Perform(ctx: ReactionContext, data: array<Entry>, nl: seq<seq<nat>>, nThreads: nat,
                 timeStep: real, draw: Event -> real, exp: real -> real,
                 shuffle: seq<Event> -> seq<Event>, n3: nat -> Vec3, displace: (Vec3, Vec3) -> Vec3,
                 record: bool, types: seq<nat>, counts: Counts, nextId: nat)
    returns (newEntries: seq<Particle>, decayed: seq<nat>, nextId': nat, counts': Counts, ghost initCounts: Counts)
    requires ValidContext(ctx) && 1 <= nThreads && NeighborListFits(data[..], nl)
    requires forall evs: seq<Event> :: multiset(shuffle(evs)) == multiset(evs)
    requires record ==> SymmetricRegistry(ctx.reactions) && CountsFit(ctx.reactions, counts)
    requires record ==> forall i | 0 <= i < data.Length :: data[i].ptype in types
    modifies data
    ensures record ==> ResetOn(counts.order1, initCounts.order1, (set t | t in types), Order1Sizes(ctx.reactions))
    ensures record ==> ResetOn(counts.order2, initCounts.order2, VisitedPairs(types), Order2Sizes(ctx.reactions))
    ensures !record ==> initCounts == counts
    ensures var evs := shuffle(FoundIn(ctx, Acceptance(timeStep, true, draw, exp), old(data[..]), nl, 0, data.Length));
      && AllExecutable(ctx, data.Length, record, initCounts, evs)
      && ExecState(ReactionState(data[..], newEntries, decayed, nextId'), counts')
         == Run(ctx, evs, n3, displace, record, ExecState(ReactionState(old(data[..]), [], [], nextId), initCounts))
  {
    var current := counts;
    if record {
      current := InitializeCounts(counts, types, ctx.reactions);
    }
    initCounts := current;
    var acc := Acceptance(timeStep, true, draw, exp);
    var found := GatherAll(ctx, data[..], nl, nThreads, timeStep, draw, exp);
    var shuffled := shuffle(found);
    FoundInValid(ctx, acc, data[..], nl, 0, data.Length);
    ShuffledExecutable(ctx, acc, data[..], record, types, counts, current, found, shuffled);
    var events := new Event[|shuffled|](i requires 0 <= i < |shuffled| => shuffled[i]);
    assert events[..] == shuffled;
    newEntries, decayed, nextId', counts' := Execute(ctx, data, events, n3, displace, record, current, nextId);
  }
}
