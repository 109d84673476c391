/** Topology reactions: a reaction builds a recipe for a topology, turns
    every step into an action and runs the actions as a small transaction.
    A failing action either propagates its error or has the completed
    actions undone; afterwards the topology is checked according to the
    reaction's mode, and a topology that fell apart may be split into its
    connected components.

    The topology is a type parameter `S`.  What the kernel and the graph
    provide is passed in as functions: making an action from a step,
    connectivity, connected components, the particle types of the vertices
    with their flavour test, and reconfiguration (force field and reaction
    rates) after a successful reaction. */
module TopologyReactions {
  import opened Wrappers
  import opened Recipes

  /** The result of executing an action: the new topology, or a failure
      (a structural error) together with the topology the action left. */
  datatype Outcome<S> = Done(state: S) | Failed(state: S)

  datatype Action<!S> = Action(execute: S -> Outcome<S>, undo: S -> S)

  datatype ReactionKernel<!S> = ReactionKernel(
    makeAction: Op -> Action<S>,
    isConnected: S -> bool,
    components: S -> seq<S>,
    vertexTypes: S -> seq<nat>,
    isTopologyFlavored: nat -> bool,
    configure: S -> S)

  /** A reaction either throws, leaving the topology in `state`, or
      finishes with the topology in `state` and, when it split, the child
      topologies. */
  datatype ReactionResult<S> = Raised(state: S) | Finished(state: S, children: seq<S>)

  /** A graph splits into at least two components whenever it is not connected. */
  ghost predicate SplitsWhenDisconnected<S(!new)>(kernel: ReactionKernel<S>) {
    forall s :: !kernel.isConnected(s) ==> |kernel.components(s)| >= 2
  }

  function Actions<S>(steps: seq<Op>, makeAction: Op -> Action<S>): seq<Action<S>> {
    seq(|steps|, i requires 0 <= i < |steps| => makeAction(steps[i]))
  }

  datatype RunResult<S> = RunResult(state: S, failedAt: Option<nat>)

  /** Executes `actions[i..]` in order, stopping at the first failure. */
  function RunFrom<S>(actions: seq<Action<S>>, i: nat, s: S): (r: RunResult<S>)
    requires i <= |actions|
    ensures r.failedAt.Some? ==> i <= r.failedAt.value < |actions|
    decreases |actions| - i
  {
    if i == |actions| then RunResult(s, None)
    else match actions[i].execute(s)
      case Done(t) => RunFrom(actions, i + 1, t)
      case Failed(t) => RunResult(t, Some(i))
  }

  /** Undoes `actions[k-1]`, then `actions[k-2]`, down to `actions[0]`. */
  function UndoDownFrom<S>(actions: seq<Action<S>>, k: nat, s: S): S
    requires k <= |actions|
  {
    if k == 0 then s else UndoDownFrom(actions, k - 1, actions[k - 1].undo(s))
  }

  /** The rollback after action `failedAt` failed, as written: the failing
      action is undone together with all before it, unless it is the first,
      in which case nothing is undone. */
  function RollbackAsWritten<S>(actions: seq<Action<S>>, failedAt: nat, s: S): S
    requires failedAt < |actions|
  {
    if failedAt != 0 then UndoDownFrom(actions, failedAt + 1, s) else s
  }

  /** The rollback after action `failedAt` failed: the completed actions
      are undone, last first. */
  function Rollback<S>(actions: seq<Action<S>>, failedAt: nat, s: S): S
    requires failedAt <= |actions|
  {
    UndoDownFrom(actions, failedAt, s)
  }

  ghost predicate AllTopologyFlavored<S>(kernel: ReactionKernel<S>, s: S) {
    forall i | 0 <= i < |kernel.vertexTypes(s)| :: kernel.isTopologyFlavored(kernel.vertexTypes(s)[i])
  }

  /** What executing a reaction does, for the mode bits `raises` and
      `expects` (expect connected) and the recipe `steps`. */
  ghost function ReactionOutcome<S(!new)>(raises: bool, expects: bool, steps: seq<Op>, kernel: ReactionKernel<S>, s0: S): (r: ReactionResult<S>)
    ensures steps == [] ==> r == Finished(s0, [])
    ensures r.Raised? ==> raises
    ensures r.Finished? && r.children != [] ==>
              && !expects
              && var run := RunFrom(Actions(steps, kernel.makeAction), 0, s0);
                 run.failedAt.None? && !kernel.isConnected(run.state) && r.state == run.state
                 && r.children == kernel.components(run.state)
                 && (SplitsWhenDisconnected(kernel) ==> |r.children| >= 2)
  {
    if steps == [] then Finished(s0, [])
    else
      var actions := Actions(steps, kernel.makeAction);
      var run := RunFrom(actions, 0, s0);
      if run.failedAt.Some? then
        if raises then Raised(run.state) else Finished(Rollback(actions, run.failedAt.value, run.state), [])
      else if expects then
        if kernel.isConnected(run.state) && AllTopologyFlavored(kernel, run.state) then Finished(kernel.configure(run.state), [])
        else if raises then Raised(run.state)
        else Finished(UndoDownFrom(actions, |actions|, run.state), [])
      else if !kernel.isConnected(run.state) then Finished(run.state, kernel.components(run.state))
      else Finished(kernel.configure(run.state), [])
  }

  /** An action whose undo inverts a successful execution and whose failure
      leaves the topology as it was. */
  ghost predicate Reversible<S(!new)>(a: Action<S>) {
    forall s :: (a.execute(s).Done? ==> a.undo(a.execute(s).state) == s) && (a.execute(s).Failed? ==> a.execute(s).state == s)
  }

  /** Running reversible actions from `i` on and then undoing everything
      that completed leads back to where undoing the first `i` actions leads. */
  lemma {:induction false} RunThenUndo<S(!new)>(actions: seq<Action<S>>, i: nat, t: S, s0: S)
    requires i <= |actions|
    requires forall k | 0 <= k < |actions| :: Reversible(actions[k])
    requires UndoDownFrom(actions, i, t) == s0
    ensures RunFrom(actions, i, t).failedAt.None? ==> UndoDownFrom(actions, |actions|, RunFrom(actions, i, t).state) == s0
    ensures RunFrom(actions, i, t).failedAt.Some? ==> Rollback(actions, RunFrom(actions, i, t).failedAt.value, RunFrom(actions, i, t).state) == s0
    decreases |actions| - i
  {
    if i < |actions| {
      assert Reversible(actions[i]);
      match actions[i].execute(t)
      case Done(u) =>
        assert UndoDownFrom(actions, i + 1, u) == UndoDownFrom(actions, i, actions[i].undo(u));
        RunThenUndo(actions, i + 1, u, s0);
      case Failed(u) =>
    }
  }

  /** The transaction property: in rollback mode, with reversible actions,
      a reaction that fails or leaves an invalid topology gives back the
      topology it started from, and never throws. */
  lemma TransactionRestores<S(!new)>(expects: bool, steps: seq<Op>, kernel: ReactionKernel<S>, s0: S)
    requires forall k | 0 <= k < |steps| :: Reversible(kernel.makeAction(steps[k]))
    ensures ReactionOutcome(false, expects, steps, kernel, s0).Finished?
    ensures var run := RunFrom(Actions(steps, kernel.makeAction), 0, s0);
            run.failedAt.Some? || (expects && !(kernel.isConnected(run.state) && AllTopologyFlavored(kernel, run.state)))
            ==> ReactionOutcome(false, expects, steps, kernel, s0) == Finished(s0, [])
  {
    var actions := Actions(steps, kernel.makeAction);
    RunThenUndo(actions, 0, s0, s0);
  }

  // ---------------------------------------------------------------------
  // The rollback as written, on a graph given by its edge set.

  type Edges = set<(nat, nat)>

  function AddEdge(e: (nat, nat), g: Edges): Outcome<Edges> {
    if e in g then Failed(g) else Done(g + {e})
  }

  function RemoveEdge(e: (nat, nat), g: Edges): Outcome<Edges> {
    if e in g then Done(g - {e}) else Failed(g)
  }

  /** Adding an edge that is already present fails; undo removes the edge. */
  function AddEdgeAction(e: (nat, nat)): Action<Edges> {
    Action(g => AddEdge(e, g), g => g - {e})
  }

  /** Removing an edge that is not present fails; undo adds the edge back. */
  function RemoveEdgeAction(e: (nat, nat)): Action<Edges> {
    Action(g => RemoveEdge(e, g), g => g + {e})
  }

  lemma EdgeActionsReversible(e: (nat, nat))
    ensures Reversible(AddEdgeAction(e)) && Reversible(RemoveEdgeAction(e))
  {
    forall g: Edges
      ensures AddEdgeAction(e).execute(g).Done? ==> AddEdgeAction(e).undo(AddEdgeAction(e).execute(g).state) == g
    {
      if e !in g {
        assert (g + {e}) - {e} == g;
      }
    }
    forall g: Edges
      ensures RemoveEdgeAction(e).execute(g).Done? ==> RemoveEdgeAction(e).undo(RemoveEdgeAction(e).execute(g).state) == g
    {
      if e in g {
        assert (g - {e}) + {e} == g;
      }
    }
  }

  /** Adding edge (1,2) and then removing the absent edge (3,4): the second
      action fails, and the rollback as written undoes it too, inserting the
      edge it never removed.  Both actions are reversible, and undoing only
      the completed action restores the empty graph. */
  lemma RollbackAsWrittenAddsEdge()
    ensures var actions := [AddEdgeAction((1, 2)), RemoveEdgeAction((3, 4))];
            var run := RunFrom(actions, 0, {});
            && Reversible(actions[0]) && Reversible(actions[1])
            && run == RunResult({(1, 2)}, Some(1))
            && RollbackAsWritten(actions, 1, run.state) == {(3, 4)}
            && Rollback(actions, 1, run.state) == {}
  {
    var add, remove := AddEdgeAction((1, 2)), RemoveEdgeAction((3, 4));
    var actions := [add, remove];
    EdgeActionsReversible((1, 2));
    EdgeActionsReversible((3, 4));
    var empty: Edges := {};
    assert empty + {(1, 2)} == {(1, 2)};
    assert add.execute(empty) == Done({(1, 2)});
    assert remove.execute({(1, 2)}) == Failed({(1, 2)});
    assert RunFrom(actions, 1, {(1, 2)}) == RunResult({(1, 2)}, Some(1));
    assert remove.undo({(1, 2)}) == {(1, 2), (3, 4)};
    assert add.undo({(1, 2), (3, 4)}) == {(3, 4)};
    assert add.undo({(1, 2)}) == {};
  }

  // ---------------------------------------------------------------------

  /** The two mode bits: bit 0 set means raise (clear: roll back), bit 1
      set means expect connected (clear: create child topologies). */
  class Mode {
    var flags: bv2

    constructor ()
      ensures flags == 0
    {
      flags := 0;
    }

    method Raise()
      modifies this
      ensures flags & 1 == 1 && flags & 2 == old(flags) & 2
    {
      flags := flags | 1;
    }

    method Rollback()
      modifies this
      ensures flags & 1 == 0 && flags & 2 == old(flags) & 2
    {
      flags := flags & 2;
    }

    method ExpectConnected()
      modifies this
      ensures flags & 2 == 2 && flags & 1 == old(flags) & 1
    {
      flags := flags | 2;
    }

    method CreateChildren()
      modifies this
      ensures flags & 2 == 0 && flags & 1 == old(flags) & 1
    {
      flags := flags & 1;
    }
  }

  class TopologyReaction<S(!new)> {
    const reactionFunction: S -> seq<Op>
    const rateFunction: S -> real
    const mode: Mode

    /** A new reaction rolls back and creates child topologies. */
    constructor (reactionFunction: S -> seq<Op>, rateFunction: S -> real)
      ensures this.reactionFunction == reactionFunction && this.rateFunction == rateFunction
      ensures fresh(mode) && RollsBackIfInvalid() && CreatesChildTopologiesAfterReaction()
    {
      this.reactionFunction := reactionFunction;
      this.rateFunction := rateFunction;
      mode := new Mode();
    }

    /** A reaction whose rate is the same for every topology. */
    constructor ConstantRate(reactionFunction: S -> seq<Op>, rate: real)
      ensures this.reactionFunction == reactionFunction && forall t :: Rate(t) == rate
      ensures fresh(mode) && RollsBackIfInvalid() && CreatesChildTopologiesAfterReaction()
    {
      this.reactionFunction := reactionFunction;
      this.rateFunction := _ => rate;
      mode := new Mode();
    }

    /** A copy shares the functions and has its own mode with the same bits. */
    method Copy() returns (c: TopologyReaction<S>)
      ensures fresh(c) && fresh(c.mode) && c.mode.flags == mode.flags
      ensures c.reactionFunction == reactionFunction && c.rateFunction == rateFunction
    {
      c := new TopologyReaction(reactionFunction, rateFunction);
      if RaisesIfInvalid() { c.RaiseIfInvalid(); }
      if ExpectsConnectedAfterReaction() { c.ExpectConnectedAfterReaction(); }
    }

    function Rate(t: S): real {
      rateFunction(t)
    }

    function Operations(t: S): seq<Op> {
      reactionFunction(t)
    }

    predicate RaisesIfInvalid()
      reads mode
    {
      mode.flags & 1 == 1
    }

    predicate RollsBackIfInvalid()
      reads mode
    {
      !RaisesIfInvalid()
    }

    predicate ExpectsConnectedAfterReaction()
      reads mode
    {
      mode.flags & 2 == 2
    }

    predicate CreatesChildTopologiesAfterReaction()
      reads mode
    {
      !ExpectsConnectedAfterReaction()
    }

    /** Each setter changes its own flag and leaves the other alone. */
    method RaiseIfInvalid()
      modifies mode
      ensures RaisesIfInvalid() && !RollsBackIfInvalid()
      ensures ExpectsConnectedAfterReaction() == old(ExpectsConnectedAfterReaction())
    {
      mode.Raise();
    }

    method RollBackIfInvalid()
      modifies mode
      ensures RollsBackIfInvalid() && !RaisesIfInvalid()
      ensures ExpectsConnectedAfterReaction() == old(ExpectsConnectedAfterReaction())
    {
      mode.Rollback();
    }

    method ExpectConnectedAfterReaction()
      modifies mode
      ensures ExpectsConnectedAfterReaction() && !CreatesChildTopologiesAfterReaction()
      ensures RaisesIfInvalid() == old(RaisesIfInvalid())
    {
      mode.ExpectConnected();
    }

    method CreateChildTopologiesAfterReaction()
      modifies mode
      ensures CreatesChildTopologiesAfterReaction() && !ExpectsConnectedAfterReaction()
      ensures RaisesIfInvalid() == old(RaisesIfInvalid())
    {
      mode.CreateChildren();
    }

    /** The flavour check after a reaction: `valid` is cleared when some
        vertex is not topology flavoured; every vertex is looked at. */
    static method CheckFlavors(types: seq<nat>, isTopologyFlavored: nat -> bool, valid: bool) returns (valid': bool)
      ensures valid' <==> valid && forall i | 0 <= i < |types| :: isTopologyFlavored(types[i])
    {
      valid' := valid;
      for i := 0 to |types|
        invariant valid' <==> valid && forall j | 0 <= j < i :: isTopologyFlavored(types[j])
      {
        if !isTopologyFlavored(types[i]) {
          valid' := false;
        }
      }
    }

    /** Executes the reaction on `topology` as the transaction described by
        `ReactionOutcome`, in the current mode. */
    method Execute(topology: S, kernel: ReactionKernel<S>) returns (r: ReactionResult<S>)
      ensures r == ReactionOutcome(RaisesIfInvalid(), ExpectsConnectedAfterReaction(), Operations(topology), kernel, topology)
    {
      var steps := Operations(topology);
      if steps == [] {
        return Finished(topology, []);
      }
      var actions: seq<Action<S>> := [];
      for i := 0 to |steps|
        invariant |actions| == i && forall j | 0 <= j < i :: actions[j] == kernel.makeAction(steps[j])
      {
        actions := actions + [kernel.makeAction(steps[i])];
      }
      assert actions == Actions(steps, kernel.makeAction);

      // perform the reaction
      var state := topology;
      var exceptionOccurred := false;
      var it := 0;
      while it < |actions|
        invariant 0 <= it <= |actions|
        invariant !exceptionOccurred && RunFrom(actions, it, state) == RunFrom(actions, 0, topology)
      {
        var outcome := actions[it].execute(state);
        state := outcome.state;
        if outcome.Failed? {
          assert RunFrom(actions, 0, topology) == RunResult(state, Some(it));
          exceptionOccurred := true;
          break;
        }
        it := it + 1;
      }
      if exceptionOccurred {
        if RaisesIfInvalid() {
          return Raised(state);
        }
        // undo the completed actions, last first
        ghost var failed := state;
        var j := it;
        while j > 0
          invariant 0 <= j <= it
          invariant UndoDownFrom(actions, j, state) == Rollback(actions, it, failed)
        {
          j := j - 1;
          state := actions[j].undo(state);
        }
        return Finished(state, []);
      }

      // post reaction
      if ExpectsConnectedAfterReaction() {
        var valid := true;
        if !kernel.isConnected(state) {
          valid := false;
        }
        valid := CheckFlavors(kernel.vertexTypes(state), kernel.isTopologyFlavored, valid);
        if !valid {
          if RollsBackIfInvalid() {
            ghost var reacted := state;
            var k := |actions|;
            while k > 0
              invariant 0 <= k <= |actions|
              invariant UndoDownFrom(actions, k, state) == UndoDownFrom(actions, |actions|, reacted)
            {
              k := k - 1;
              state := actions[k].undo(state);
            }
            return Finished(state, []);
          } else {
            return Raised(state);
          }
        }
        return Finished(kernel.configure(state), []);
      } else {
        if !kernel.isConnected(state) {
          return Finished(state, kernel.components(state));
        }
        return Finished(kernel.configure(state), []);
      }
    }
  }
}
