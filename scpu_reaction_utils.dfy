/** The single-CPU kernel's `performReaction`.  Unlike the CPU kernel it
    keeps the ids of converted entries and lets the fused entry 1 carry the
    fusion product, decaying only entry 2. */
module ScpuReactionUtils {
  import opened Vectors
  import opened Particles
  import CpuReactionUtils

  /** The fusion placement as the single-CPU code writes it: when entry 1 is
      not the first educt it moves by weight 1 AWAY from entry 2. */
  function ScpuFusionPositionAsWritten(pos1: Vec3, pos2: Vec3, type1: nat, r: Reaction): Vec3
    requires |r.educts| >= 1
  {
    if r.educts[0] == type1 then pos1.Plus(pos2.Minus(pos1).Scale(r.weight1))
    else pos1.Plus(pos1.Minus(pos2).Scale(r.weight1))
  }

  /** A fusion of type 0 with type 1 into type 2, with weights 1/2. */
  function ExampleFusion(): (r: Reaction)
    ensures r.kind == Fusion && r.WellFormed() && r.educts == [0, 1] && r.weight1 == 0.5 && r.weight2 == 0.5
  {
    Reaction(Fusion, [0, 1], [2], 1.0, 1.0, 0.0, 0.5, 0.5)
  }

  /** `p + w (q - r)` component by component; with literal arguments this
      leaves only products of constants for the solver. */
  lemma AffineStep(p: Vec3, q: Vec3, r: Vec3, w: real)
    ensures p.Plus(q.Minus(r).Scale(w)) == Vec3(p.x + w * (q.x - r.x), p.y + w * (q.y - r.y), p.z + w * (q.z - r.z))
  {
  }

  /** Type 0 at 2 as entry 1, type 1 at 0 as entry 2: the product lands
      half way, at 1. */
  lemma AsWrittenTypeZeroFirst()
    ensures ScpuFusionPositionAsWritten(Vec3(2.0, 0.0, 0.0), Vec3(0.0, 0.0, 0.0), 0, ExampleFusion()) == Vec3(1.0, 0.0, 0.0)
  {
    AffineStep(Vec3(2.0, 0.0, 0.0), Vec3(0.0, 0.0, 0.0), Vec3(2.0, 0.0, 0.0), ExampleFusion().weight1);
  }

  /** The same pair with the type-1 particle as entry 1: as written, the
      product lands at -1, outside the segment between the educts, so the
      placement depends on which educt happens to be entry 1. */
  lemma ScpuFusionAsWrittenMisplaces()
    ensures ScpuFusionPositionAsWritten(Vec3(0.0, 0.0, 0.0), Vec3(2.0, 0.0, 0.0), 1, ExampleFusion()) == Vec3(-1.0, 0.0, 0.0)
  {
    AffineStep(Vec3(0.0, 0.0, 0.0), Vec3(0.0, 0.0, 0.0), Vec3(2.0, 0.0, 0.0), ExampleFusion().weight1);
  }

  /** With the CPU kernel's placement the type-1-first order also lands at 1. */
  lemma CorrectedTypeOneFirst()
    ensures CpuReactionUtils.FusionPosition(Vec3(0.0, 0.0, 0.0), Vec3(2.0, 0.0, 0.0), 1, ExampleFusion()) == Vec3(1.0, 0.0, 0.0)
  {
    AffineStep(Vec3(0.0, 0.0, 0.0), Vec3(2.0, 0.0, 0.0), Vec3(0.0, 0.0, 0.0), ExampleFusion().weight2);
  }

  /** The outcome of the single-CPU `performReaction`, with the fusion
      placement corrected to the CPU kernel's (weight 2 towards entry 2). */
  function ScpuOutcome(ctx: ReactionContext, s: ReactionState, idx1: nat, idx2: nat, r: Reaction, n3: Vec3): ReactionState
    requires idx1 < |s.entries| && idx2 < |s.entries| && r.WellFormed() && ValidBox(ctx.periodic, ctx.box)
  {
    var e1 := s.entries[idx1];
    var e2 := s.entries[idx2];
    match r.kind
    case Decay => s.(decayed := s.decayed + [idx1])
    case Conversion => s.(entries := s.entries[idx1 := e1.(ptype := r.products[0])])
    case Enzymatic =>
      if e1.ptype == r.educts[1] then s.(entries := s.entries[idx2 := e2.(ptype := r.products[0])])
      else s.(entries := s.entries[idx1 := e1.(ptype := r.products[0])])
    case Fission =>
      var p := Particle(e1.pos.Minus(n3.Scale(r.weight2 * r.productDistance)), r.products[1], s.nextId);
      var moved := e1.(ptype := r.products[0],
                       pos := ApplyPBC(e1.pos.Plus(n3.Scale(r.weight1 * r.productDistance)), ctx.periodic, ctx.box));
      s.(entries := s.entries[idx1 := moved], newEntries := s.newEntries + [p], nextId := s.nextId + 1)
    case Fusion =>
      var fused := e1.(pos := ApplyPBC(CpuReactionUtils.FusionPosition(e1.pos, e2.pos, e1.ptype, r), ctx.periodic, ctx.box),
                       ptype := r.products[0]);
      s.(entries := s.entries[idx1 := fused], decayed := s.decayed + [idx2])
  }

  /** `performReaction` of the single-CPU kernel on the particle table. */
  method ScpuPerformReaction(ctx: ReactionContext, data: array<Entry>, idx1: nat, idx2: nat,
                             newEntries: seq<Particle>, decayed: seq<nat>, nextId: nat, r: Reaction, n3: Vec3)
    returns (newEntries': seq<Particle>, decayed': seq<nat>, nextId': nat)
    requires idx1 < data.Length && idx2 < data.Length && r.WellFormed() && ValidBox(ctx.periodic, ctx.box)
    modifies data
    ensures ReactionState(data[..], newEntries', decayed', nextId')
         == ScpuOutcome(ctx, ReactionState(old(data[..]), newEntries, decayed, nextId), idx1, idx2, r, n3)
  {
    newEntries', decayed', nextId' := newEntries, decayed, nextId;
    ghost var s0 := ReactionState(data[..], newEntries, decayed, nextId);
    var entry1 := data[idx1];
    assert entry1 == s0.entries[idx1];
    match r.kind {
      case Decay =>
        decayed' := decayed' + [idx1];
      case Conversion =>
        data[idx1] := entry1.(ptype := r.products[0]);
      case Enzymatic =>
        if entry1.ptype == r.educts[1] {
          // entry 1 is the catalyst
          data[idx2] := data[idx2].(ptype := r.products[0]);
        } else {
          // entry 2 is the catalyst
          data[idx1] := entry1.(ptype := r.products[0]);
        }
      case Fission =>
        var p := Particle(entry1.pos.Minus(n3.Scale(r.weight2 * r.productDistance)), r.products[1], nextId');
        nextId' := nextId' + 1;
        newEntries' := newEntries' + [p];
        var moved := entry1.pos.Plus(n3.Scale(r.weight1 * r.productDistance));
        var fixed := FixPosition(moved, ctx.periodic, ctx.box);
        data[idx1] := entry1.(ptype := r.products[0], pos := fixed);
        ghost var t := ScpuOutcome(ctx, s0, idx1, idx2, r, n3);
        assert t.newEntries[|newEntries|] == p;
        assert fixed == ApplyPBC(s0.entries[idx1].pos.Plus(n3.Scale(r.weight1 * r.productDistance)), ctx.periodic, ctx.box);
        assert t.entries[idx1].pos == fixed;
        assert t.entries[idx1].ptype == r.products[0];
        assert t.entries[idx1] == data[idx1];
        assert t.entries == data[..];
      case Fusion =>
        var e2Pos := data[idx2].pos;
        var fused := CpuReactionUtils.FusionPosition(entry1.pos, e2Pos, entry1.ptype, r);
        var fixed := FixPosition(fused, ctx.periodic, ctx.box);
        data[idx1] := entry1.(pos := fixed, ptype := r.products[0]);
        decayed' := decayed' + [idx2];
        assert e2Pos == s0.entries[idx2].pos;
        ghost var t := ScpuOutcome(ctx, s0, idx1, idx2, r, n3);
        assert t.entries == data[..];
    }
  }

  /** A decay removes entry 1 and a fusion entry 2 (entry 1 carries the
      product); no other reaction removes anything.  Only a fission creates
      a new particle, nothing but the reacting entries changes, and no
      entry's id changes. */
  lemma ScpuOutcomeFootprint(ctx: ReactionContext, s: ReactionState, idx1: nat, idx2: nat, r: Reaction, n3: Vec3)
    requires idx1 < |s.entries| && idx2 < |s.entries| && r.WellFormed() && ValidBox(ctx.periodic, ctx.box)
    ensures var t := ScpuOutcome(ctx, s, idx1, idx2, r, n3);
      && |t.entries| == |s.entries|
      && (forall j | 0 <= j < |s.entries| :: t.entries[j].id == s.entries[j].id)
      && (forall j | 0 <= j < |s.entries| && j != idx1 && j != idx2 :: t.entries[j] == s.entries[j])
      && (r.kind == Decay ==> t.decayed == s.decayed + [idx1] && t.entries == s.entries)
      && (r.kind == Fusion ==> t.decayed == s.decayed + [idx2] && t.entries[idx1].ptype == r.products[0])
      && (r.kind != Decay && r.kind != Fusion ==> t.decayed == s.decayed)
      && (r.kind == Fission <==> |t.newEntries| == |s.newEntries| + 1)
      && (r.kind != Fission ==> t.newEntries == s.newEntries)
  {
  }

  /** Corrected placement: for two different educt types and weights that
      sum to one, the fused entry ends up at the same place whichever educt
      is entry 1. */
  lemma ScpuFusionOrderIndependent(ctx: ReactionContext, s: ReactionState, i: nat, j: nat, r: Reaction, n3: Vec3)
    requires i < |s.entries| && j < |s.entries| && r.kind == Fusion && r.WellFormed() && ValidBox(ctx.periodic, ctx.box)
    requires s.entries[i].ptype == r.educts[0] && s.entries[j].ptype != r.educts[0]
    requires r.weight1 + r.weight2 == 1.0
    ensures ScpuOutcome(ctx, s, i, j, r, n3).entries[i].pos == ScpuOutcome(ctx, s, j, i, r, n3).entries[j].pos
  {
    CpuReactionUtils.FusionPositionOrderIndependent(s.entries[i].pos, s.entries[j].pos, s.entries[i].ptype, s.entries[j].ptype, r);
  }

  /** The single-CPU fused entry sits where the CPU kernel places its new
      fusion product, with the same type. */
  lemma ScpuFusionMatchesCpu(ctx: ReactionContext, s: ReactionState, idx1: nat, idx2: nat, r: Reaction, n3: Vec3,
                             displace: (Vec3, Vec3) -> Vec3)
    requires idx1 < |s.entries| && idx2 < |s.entries| && r.kind == Fusion && r.WellFormed() && ValidBox(ctx.periodic, ctx.box)
    ensures var cpu := CpuReactionUtils.CpuOutcome(ctx, s, idx1, idx2, r, n3, displace);
      var scpu := ScpuOutcome(ctx, s, idx1, idx2, r, n3);
      && |cpu.newEntries| == |s.newEntries| + 1
      && scpu.entries[idx1].pos == cpu.newEntries[|s.newEntries|].pos
      && scpu.entries[idx1].ptype == cpu.newEntries[|s.newEntries|].ptype
  {
  }
}
