/** The data shared by the reaction machinery: particle entries, reactions
    registered per type (or type pair), and the reaction events gathered in
    one step.  Event.h, the reaction classes and the particle data classes
    are not part of this model; their fields are the ones the core reads. */
module Particles {
  import opened Vectors

  /** An entry of the particle table. */
  datatype Entry = Entry(pos: Vec3, force: Vec3, ptype: nat, id: nat, deactivated: bool)

  /** A particle created by a reaction (an element of `newEntries`). */
  datatype Particle = Particle(pos: Vec3, ptype: nat, id: nat)

  datatype ReactionKind = Conversion | Fusion | Fission | Enzymatic | Decay

  datatype Reaction = Reaction(
    kind: ReactionKind,
    educts: seq<nat>,
    products: seq<nat>,
    rate: real,
    eductDistanceSquared: real,
    productDistance: real,
    weight1: real,
    weight2: real)
  {
    /** The educts and products that the outcome of this kind reads exist. */
    predicate WellFormed() {
      match kind
      case Decay => true
      case Conversion => |products| >= 1
      case Enzymatic => |educts| >= 2 && |products| >= 1
      case Fission => |products| >= 2
      case Fusion => |educts| >= 1 && |products| >= 1
    }
  }

  /** `order1_by_type` and `order2_by_type` of the context's reaction registry. */
  datatype ReactionRegistry = ReactionRegistry(
    order1ByType: nat -> seq<Reaction>,
    order2ByType: (nat, nat) -> seq<Reaction>)

  /** Every registered reaction is well formed. */
  ghost predicate ValidRegistry(reg: ReactionRegistry) {
    && (forall t: nat, k: nat | k < |reg.order1ByType(t)| :: reg.order1ByType(t)[k].WellFormed())
    && (forall t1: nat, t2: nat, k: nat | k < |reg.order2ByType(t1, t2)| :: reg.order2ByType(t1, t2)[k].WellFormed())
  }

  /** What the reaction code reads from the kernel context: the reactions
      and the simulation box that `getDistSquaredFun` and `getPBCFun` use. */
  datatype ReactionContext = ReactionContext(reactions: ReactionRegistry, periodic: Periodic, box: Box)

  ghost predicate ValidContext(ctx: ReactionContext) {
    ValidRegistry(ctx.reactions) && ValidBox(ctx.periodic, ctx.box)
  }

  /** The neighbour list has one row per entry, names only existing entries
      and never lists an entry as its own neighbour. */
  predicate NeighborListFits(data: seq<Entry>, nl: seq<seq<nat>>) {
    |nl| == |data| && forall i, j | 0 <= i < |nl| && 0 <= j < |nl[i]| :: nl[i][j] < |data| && nl[i][j] != i
  }

  /** A reaction event: order (`nEducts`), number of products, participant
      indices, rate, cumulative rate (also the conflict sentinel of the
      uncontrolled approximation), index of the reaction within the list of
      its type(s), and participant types. */
  datatype Event = Event(
    nEducts: nat,
    nProducts: nat,
    idx1: nat,
    idx2: nat,
    rate: real,
    cumulativeRate: real,
    reactionIdx: nat,
    t1: nat,
    t2: nat)

  /** The particle indices an event consumes when it is executed. */
  function Participants(e: Event): set<nat> {
    if e.nEducts == 1 then {e.idx1} else {e.idx1, e.idx2}
  }

  /** Whether one of the event's two indices lies in `s`. */
  predicate Touches(e: Event, s: set<nat>) {
    e.idx1 in s || e.idx2 in s
  }

  /** The state that `performReaction` changes: the entries of the particle
      table, the buffers of new and decayed entries, and the global id
      counter behind `Particle::nextId`. */
  datatype ReactionState = ReactionState(
    entries: seq<Entry>, newEntries: seq<Particle>, decayed: seq<nat>, nextId: nat)

  /** All ids handed out so far are below the counter. */
  predicate IdsBelowCounter(s: ReactionState) {
    && (forall i | 0 <= i < |s.entries| :: s.entries[i].id < s.nextId)
    && (forall i | 0 <= i < |s.newEntries| :: s.newEntries[i].id < s.nextId)
  }
}
