# ReaDDy core, modelled in Dafny

ReaDDy is a particle-based reaction-diffusion simulator. This project models:

- **Geometry.** The `Vec3` helpers: periodic wrapping (`fixPosition`, `applyPBC`), minimum-image differences and squared distances (`vectors.dfy`).
- **Particle bookkeeping.**
  - Ordered index pairs (`particle_index_pair.dfy`).
  - The particle type registry (`particle_type_registry.dfy`).
  - The kernel context's `kBT`, box size and periodicity (`kernel_context.dfy`).
- **The CPU reaction handler, as an uncontrolled approximation** (`uncontrolled_approximation.dfy`).
  - It gathers candidate events chunk by chunk over the particle data and the neighbour list.
  - It shuffles them, then executes them in order, skipping every event whose educts were already consumed.
  - It counts executed reactions per type and type pair.
  - Shared pieces are in `reaction_utils.dfy`, `chunks.dfy` and `reaction_counts.dfy`.
- **Reaction outcomes** (decay, conversion, fusion, fission, enzymatic), for both the CPU kernel (`reaction_utils.dfy`) and the single-CPU kernel (`scpu_reaction_utils.dfy`).
- **The CPU compartments program**, which converts particle types inside user-defined regions (`compartments.dfy`).
- **The dense kernel's observables** (`dense_observables.dfy`): positions, histogram along an axis, particle numbers, forces, particles.
- **Topologies** (`topology.dfy`): bonded, angle and torsion potential registration, and index permutation.
- **Reaction recipes** (`recipe.dfy`).
- **The CPU change-particle-type topology action** (`topology_actions.dfy`).
- **The structural topology reaction** (`topology_reaction.dfy`).
  - It runs a recipe's actions as a transaction, with the raise/roll-back and expect-connected/create-children modes.
  - It splits a topology into its connected components.

Modelling conventions:

- **Floating point.** Floating-point quantities are `real`.
- **Randomness.** Random draws (uniform, exponential, normal 3-vectors, shuffling) and the CPU kernel's fission displacement helper are function parameters, so every property holds for any draw. The fusion placement is computed, by `CpuReactionUtils.FusionPosition`.
- **Objects with state.** An object whose state the source updates in place is a `class` with `modifies` clauses. Examples are the kernel context, the registry, observables, topologies, recipes, actions and reactions.
- **Arrays.** Particle data that the reaction handler updates in place is an `array<Entry>`.
- **Threads.** Worker threads are run one after another in chunk order.

## Model

| member | source | states |
|---|---|---|
| Vectors.DotSymmetric | include/readdy/model/Vec3.h:107-109 | the scalar product is symmetric |
| Vectors.DotSelfNonNegative | include/readdy/model/Vec3.h:107-109 | a vector's scalar product with itself is never negative |
| Vectors.WrapInRange | include/readdy/model/Vec3.h:122-127 | every wrapped coordinate lies in [-d/2, d/2), whatever its starting value |
| Vectors.WrapFixesInside | include/readdy/model/Vec3.h:122-127 | a coordinate already inside the box is left unchanged |
| Vectors.WrapIdempotent | include/readdy/model/Vec3.h:122-127 | wrapping twice is the same as wrapping once |
| Vectors.ApplyPBCProperties | include/readdy/model/Vec3.h:132-175 | the result lies in the box on every periodic axis; non-periodic axes are untouched |
| Vectors.ApplyPBCIdempotent | include/readdy/model/Vec3.h:132-175 | applying periodic boundaries twice equals applying them once |
| Vectors.FixPosition | include/readdy/model/Vec3.h:119-130 | the in-place per-axis fix yields exactly the periodic image and lies in the box |
| Vectors.NearestProperties | include/readdy/model/Vec3.h:177-194 | the corrected component differs from the raw one by 0 or ±d, and lies in (-d/2, d/2] when the raw one lies in (-d, d] |
| Vectors.ShortestDifferenceNonPeriodic | include/readdy/model/Vec3.h:177-194 | without periodic axes the shortest difference is the plain difference |
| Vectors.DistSquared | include/readdy/model/Vec3.h:196-201 | a squared distance is never negative |
| Vectors.NearestSquareSymmetric | include/readdy/model/Vec3.h:181-192 | the minimum-image component has the same square in both directions |
| Vectors.DistSquaredSymmetric | include/readdy/model/Vec3.h:196-201 | the periodic squared distance is symmetric in its two points |
| ParticleIndexPairs.MakePair | kernels/cpu/include/readdy/kernel/cpu/model/ParticleIndexPair.h:45-55 | construction succeeds iff the two indices differ; the pair is ordered and holds the same two indices; otherwise it is an error |
| ParticleIndexPairs.MakePairSymmetric | kernels/cpu/include/readdy/kernel/cpu/model/ParticleIndexPair.h:45-55 | constructing from (a, b) or (b, a) gives the same pair |
| ParticleIndexPairs.Equal | kernels/cpu/include/readdy/kernel/cpu/model/ParticleIndexPair.h:64-66 | component-wise comparison holds iff the pairs are equal |
| ParticleIndexPairs.EqualPairsHashEqually | kernels/cpu/include/readdy/kernel/cpu/model/ParticleIndexPair.h:57-66 | pairs that compare equal hash equally |
| ParticleIndexPairs.SwappedConstructionAgrees | kernels/cpu/include/readdy/kernel/cpu/model/ParticleIndexPair.h:45-66 | swapped constructions compare equal and hash equally |
| KernelContexts.KernelContext.constructor | readdy2/main/model/KernelContext.cpp:16-20 | a fresh context has kBT 0, a zero box and no periodic axis |
| KernelContexts.KernelContext.Copy | readdy2/main/model/KernelContext.cpp:49 | a copy holds the same kBT, box size and periodicity |
| KernelContexts.KernelContext.SetKBT | readdy2/main/model/KernelContext.cpp:27-29 | sets kBT and leaves the rest unchanged |
| KernelContexts.KernelContext.SetBoxSize | readdy2/main/model/KernelContext.cpp:31-33 | sets the box size and leaves the rest unchanged |
| KernelContexts.KernelContext.SetPeriodicBoundary | readdy2/main/model/KernelContext.cpp:35-37 | sets the periodicity and leaves the rest unchanged |
| KernelContexts.KernelContext.Assign | readdy2/main/model/KernelContext.cpp:51-54 | after assignment the target holds the source's values and the source is unchanged |
| KernelContexts.SettersRoundTrip | readdy2/main/model/KernelContext.cpp:23-47 | example: after setting all three fields to fixed values, every getter returns what its setter stored (the general facts are in the setters' contracts) |
| KernelContexts.CopyIsIndependent | readdy2/main/model/KernelContext.cpp:49 | example: a copy starts with the source's kBT, and changing the copy leaves the source's kBT and box as they were (the general fact is in `Copy`'s contract) |
| KernelContexts.AssignmentIsIndependent | readdy2/main/model/KernelContext.cpp:51-54 | example: an assigned context takes the source's periodicity, and changing its kBT leaves the source's kBT alone (the general fact is in `Assign`'s contract) |
| ParticleTypeRegistries.ParticleTypeRegistry.constructor | readdy/main/model/ParticleTypeRegistry.cpp:87-94 | a new registry is empty and its id counter starts at 0 |
| ParticleTypeRegistries.ParticleTypeRegistry.Add | readdy/main/model/ParticleTypeRegistry.cpp:87-94 | the counter and type count grow by one and the info is stored under the old counter; a new name maps to that id, while an existing name keeps its old id |
| ParticleTypeRegistries.ParticleTypeRegistry.IdOf | readdy/main/model/ParticleTypeRegistry.cpp:96-98 | the id is found iff the name is registered, and it names that type |
| ParticleTypeRegistries.ParticleTypeRegistry.InfoOf | readdy/main/model/ParticleTypeRegistry.cpp:48-50 | info is found iff the id is registered, and it carries that id |
| ParticleTypeRegistries.ParticleTypeRegistry.InfoOfName | readdy/main/model/ParticleTypeRegistry.cpp:44-46 | info is found iff the name is registered, and it carries that name |
| ParticleTypeRegistries.ParticleTypeRegistry.RadiusOf | readdy/main/model/ParticleTypeRegistry.cpp:71-73 | a radius is found iff the id's info is found |
| ParticleTypeRegistries.ParticleTypeRegistry.RadiusOfName | readdy/main/model/ParticleTypeRegistry.cpp:75-77 | found iff the name is registered, and then agrees with the radius of the name's id |
| ParticleTypeRegistries.ParticleTypeRegistry.DiffusionConstantOf | readdy/main/model/ParticleTypeRegistry.cpp:79-81 | a diffusion constant is found iff the id's info is found |
| ParticleTypeRegistries.ParticleTypeRegistry.DiffusionConstantOfName | readdy/main/model/ParticleTypeRegistry.cpp:83-85 | found iff the name is registered, and then agrees with the diffusion constant of the name's id |
| ParticleTypeRegistries.ParticleTypeRegistry.NameOf | readdy/main/model/ParticleTypeRegistry.cpp:56-61 | the name whose id matches, or "" when none does |
| ParticleTypeRegistries.ParticleTypeRegistry.TypesFlat | readdy/main/model/ParticleTypeRegistry.cpp:63-69 | one entry per registered name, each a mapped id, and every mapped id appears |
| ParticleTypeRegistries.RegisterTwice | readdy/main/model/ParticleTypeRegistry.cpp:87-94 | example: registering a name twice keeps id 0 for it, yet counts two types; the info under id 0 is the first registration's (the general fact is in `Add`'s contract) |
| ParticleTypeRegistries.UnknownNameFails | readdy/main/model/ParticleTypeRegistry.cpp:96-98 | example: looking up an unregistered name fails (the general fact is in `IdOf`'s contract) |
| CpuReactionUtils.AcceptanceMonotoneInRate | kernels/cpu/include/readdy/kernel/cpu/actions/reactions/ReactionUtils.h:57-64 | an event accepted at one rate is accepted at any higher rate, for the same draw |
| CpuReactionUtils.ApproximationAcceptsMore | kernels/cpu/include/readdy/kernel/cpu/actions/reactions/ReactionUtils.h:57-69 | the approximated acceptance rate·dt accepts whenever the exact 1 - exp(-rate·dt) does |
| CpuReactionUtils.AccumulateSnoc | kernels/cpu/include/readdy/kernel/cpu/actions/reactions/ReactionUtils.h:89-94 | appending a candidate appends one event carrying the new running total |
| CpuReactionUtils.CandidatesSnoc | kernels/cpu/include/readdy/kernel/cpu/actions/reactions/ReactionUtils.h:80-124 | the candidates of a longer prefix extend those of the shorter one by the new entry's candidates |
| CpuReactionUtils.GatherOrder1 | kernels/cpu/include/readdy/kernel/cpu/actions/reactions/ReactionUtils.h:85-97 | appends one event per order-1 reaction of the entry's type, with running cumulative rates |
| CpuReactionUtils.GatherPair | kernels/cpu/include/readdy/kernel/cpu/actions/reactions/ReactionUtils.h:103-118 | appends one event per order-2 reaction of the pair within its educt distance |
| CpuReactionUtils.GatherNeighbors | kernels/cpu/include/readdy/kernel/cpu/actions/reactions/ReactionUtils.h:99-122 | appends pair events only for active neighbours with a larger index |
| CpuReactionUtils.GatherEntry | kernels/cpu/include/readdy/kernel/cpu/actions/reactions/ReactionUtils.h:80-123 | appends the entry's order-1 then order-2 candidates, and nothing for a deactivated entry |
| CpuReactionUtils.GatherEvents | kernels/cpu/include/readdy/kernel/cpu/actions/reactions/ReactionUtils.h:76-126 | returns all candidates of all entries, with their cumulative rates |
| CpuReactionUtils.Order1CandidatesValid | kernels/cpu/include/readdy/kernel/cpu/actions/reactions/ReactionUtils.h:85-97 | each order-1 candidate names an order-1 reaction of its educt's type |
| CpuReactionUtils.Order2CandidatesValid | kernels/cpu/include/readdy/kernel/cpu/actions/reactions/ReactionUtils.h:103-118 | each pair candidate names a reaction of that type pair, within educt distance |
| CpuReactionUtils.NeighborCandidatesValid | kernels/cpu/include/readdy/kernel/cpu/actions/reactions/ReactionUtils.h:99-122 | each neighbour candidate involves two active particles, the first of strictly smaller index than the second, so they are distinct |
| CpuReactionUtils.CandidatesValid | kernels/cpu/include/readdy/kernel/cpu/actions/reactions/ReactionUtils.h:80-124 | every gathered candidate is valid for the data |
| CpuReactionUtils.AccumulateRunningTotals | kernels/cpu/include/readdy/kernel/cpu/actions/reactions/ReactionUtils.h:89-116 | each event's cumulative rate is the sum of the rates up to and including it |
| CpuReactionUtils.SumRatesPrefixGrows | kernels/cpu/include/readdy/kernel/cpu/actions/reactions/ReactionUtils.h:89-116 | with positive rates the sum over a longer prefix is strictly larger |
| CpuReactionUtils.AccumulateIncreasing | kernels/cpu/include/readdy/kernel/cpu/actions/reactions/ReactionUtils.h:89-116 | with positive rates the cumulative rates strictly increase, stay within (alpha, alpha + total], and the last equals alpha + total |
| CpuReactionUtils.GatheredEventsProperties | kernels/cpu/include/readdy/kernel/cpu/actions/reactions/ReactionUtils.h:76-126 | gathered events are valid and their cumulative rates are running totals |
| CpuReactionUtils.FusionPositionOrderIndependent | kernels/cpu/include/readdy/kernel/cpu/actions/reactions/ReactionUtils.h:186-200 | the fusion product lands at the same place whichever educt comes first |
| CpuReactionUtils.PerformReaction | kernels/cpu/include/readdy/kernel/cpu/actions/reactions/ReactionUtils.h:128-202 | the in-place update of the data, new entries, decayed list and id counter equals the reaction's outcome |
| CpuReactionUtils.CpuOutcomeKeepsIdsFresh | kernels/cpu/include/readdy/kernel/cpu/actions/reactions/ReactionUtils.h:143-201 | ids stay below the counter and unique after any reaction outcome |
| CpuReactionUtils.RenewIdKeepsUnique | kernels/cpu/include/readdy/kernel/cpu/actions/reactions/ReactionUtils.h:150 | replacing an id with the fresh counter value keeps ids unique |
| CpuReactionUtils.AppendFreshKeepsUnique | kernels/cpu/include/readdy/kernel/cpu/actions/reactions/ReactionUtils.h:166-167 | appending a particle with the fresh counter id keeps ids unique |
| CpuReactionUtils.CpuOutcomeFootprint | kernels/cpu/include/readdy/kernel/cpu/actions/reactions/ReactionUtils.h:143-201 | a reaction changes only its educts' entries, and deactivates exactly the consumed ones |
| ScpuReactionUtils.AsWrittenTypeZeroFirst | include/readdy/kernel/singlecpu/actions/SCPUReactionUtils.h:87-88 | with the first educt type at 2 as entry 1 and the second at 0, the code as written places the product at 1, midway |
| ScpuReactionUtils.ScpuFusionAsWrittenMisplaces | include/readdy/kernel/singlecpu/actions/SCPUReactionUtils.h:89-91 | with the educts swapped (second type at 0 as entry 1, first type at 2), the code as written places the product at -1, outside both |
| ScpuReactionUtils.CorrectedTypeOneFirst | include/readdy/kernel/singlecpu/actions/SCPUReactionUtils.h:89-91 | the corrected placement puts the product of the swapped example at 1, midway |
| ScpuReactionUtils.ScpuPerformReaction | include/readdy/kernel/singlecpu/actions/SCPUReactionUtils.h:46-98 | the update of the data, new entries and removed list equals the single-CPU outcome, with a fusion product placed by the corrected placement (see Findings), not by the else-branch as written |
| ScpuReactionUtils.ScpuOutcomeFootprint | include/readdy/kernel/singlecpu/actions/SCPUReactionUtils.h:49-96 | only the educts' entries change and no id changes; a decay removes entry 1, a fusion removes entry 2 and gives entry 1 the product type, and no other reaction removes anything; only a fission creates a particle |
| ScpuReactionUtils.ScpuFusionOrderIndependent | include/readdy/kernel/singlecpu/actions/SCPUReactionUtils.h:83-96 | with the corrected placement the product position does not depend on educt order |
| ScpuReactionUtils.ScpuFusionMatchesCpu | include/readdy/kernel/singlecpu/actions/SCPUReactionUtils.h:83-96 | the corrected single-CPU fusion places the product where the CPU kernel does |
| ReactionCounts.PairKey | readdy/main/model/observables/ReactionCounts.cpp:201-207 | the key of a type pair is ordered and holds the same two types |
| ReactionCounts.PairKeySymmetric | readdy/main/model/observables/ReactionCounts.cpp:201-207 | both orders of a type pair give the same key |
| ReactionCounts.ResetVector | readdy/main/model/observables/ReactionCounts.cpp:194-199 | every count becomes zero; a non-empty vector keeps its length, an absent or empty one gets the registry size |
| ReactionCounts.ResetVectorStable | readdy/main/model/observables/ReactionCounts.cpp:194-199 | resetting twice equals resetting once |
| ReactionCounts.ResetOnStep | readdy/main/model/observables/ReactionCounts.cpp:184-216 | resetting one more key keeps the reset-on-a-set relation |
| ReactionCounts.InitializePairCounts | readdy/main/model/observables/ReactionCounts.cpp:201-214 | every visited type pair's vector is zeroed with its registry size; all other keys are unchanged |
| ReactionCounts.InitializeCounts | readdy/main/model/observables/ReactionCounts.cpp:184-216 | zeroes exactly the order-1 vectors of the types and the order-2 vectors of their pairs |
| ReactionCounts.ResetOnResult | readdy/main/model/observables/ReactionCounts.cpp:184-216 | the keys are the old ones plus the visited keys with reactions; those hold only zeros, and new ones have the registry's size |
| ReactionCounts.AssignVectors | readdy/main/model/observables/ReactionCounts.cpp:113-126 | succeeds iff every source key already exists in the result; then copies those vectors and keeps the other keys |
| ReactionCounts.AssignCountsToResult | readdy/main/model/observables/ReactionCounts.cpp:109-128 | for both orders, succeeds iff the kernel's keys exist in the result; then the result holds the kernel's counts and keeps the rest |
| ReactionCounts.CountingContext.constructor | readdy/main/model/observables/ReactionCounts.cpp:71-77 | holds the given recording setting |
| ReactionCounts.CountingContext.Initialize | readdy/main/model/observables/ReactionCounts.cpp:71-77 | recording is switched on afterwards, whatever it was before |
| Chunks.ChunkStartIsMultiple | kernels/cpu/src/actions/reactions/CPUUncontrolledApproximation.cpp:141-163 | each chunk starts at a multiple of the chunk size |
| Chunks.ChunkStartBounds | kernels/cpu/src/actions/reactions/CPUUncontrolledApproximation.cpp:141-163 | consecutive chunk starts are ordered and within the data, one chunk size apart except before the last end |
| UncontrolledApproximation.FindOrder1 | kernels/cpu/src/actions/reactions/CPUUncontrolledApproximation.cpp:73-85 | appends exactly the accepted order-1 events of the entry |
| UncontrolledApproximation.FindPair | kernels/cpu/src/actions/reactions/CPUUncontrolledApproximation.cpp:94-105 | appends exactly the accepted pair events within educt distance |
| UncontrolledApproximation.FindNeighbors | kernels/cpu/src/actions/reactions/CPUUncontrolledApproximation.cpp:87-107 | appends the accepted pair events with every neighbour whose index is not below the entry's; the neighbour's activity is not tested |
| UncontrolledApproximation.FindEvents | kernels/cpu/src/actions/reactions/CPUUncontrolledApproximation.cpp:60-113 | a worker returns exactly the accepted events of its index range |
| UncontrolledApproximation.FoundOrder1Valid | kernels/cpu/src/actions/reactions/CPUUncontrolledApproximation.cpp:73-85 | every found order-1 event names a reaction of its educt's type |
| UncontrolledApproximation.FoundPairValid | kernels/cpu/src/actions/reactions/CPUUncontrolledApproximation.cpp:94-105 | every found pair event names a reaction of the pair's types, within educt distance |
| UncontrolledApproximation.FoundNeighborsValid | kernels/cpu/src/actions/reactions/CPUUncontrolledApproximation.cpp:87-107 | found neighbour events have the active entry as first educt and a neighbour of strictly larger index as second, so the two are distinct; the neighbour's activity is not stated, as the search does not test it |
| UncontrolledApproximation.FoundInValid | kernels/cpu/src/actions/reactions/CPUUncontrolledApproximation.cpp:60-113 | every event found in a range is valid for the data |
| UncontrolledApproximation.NoEventsOfDeactivated | kernels/cpu/src/actions/reactions/CPUUncontrolledApproximation.cpp:66-72 | no event is found for a deactivated particle |
| UncontrolledApproximation.FoundInSplit | kernels/cpu/src/actions/reactions/CPUUncontrolledApproximation.cpp:141-181 | the events of a range are those of its two halves, in order |
| UncontrolledApproximation.FindChunk | kernels/cpu/src/actions/reactions/CPUUncontrolledApproximation.cpp:149-162 | one worker's result is exactly the events of the entries in its chunk |
| UncontrolledApproximation.FindInChunks | kernels/cpu/src/actions/reactions/CPUUncontrolledApproximation.cpp:141-165 | each chunk's worker result is the events found in that chunk |
| UncontrolledApproximation.CollectChunks | kernels/cpu/src/actions/reactions/CPUUncontrolledApproximation.cpp:167-181 | concatenating the chunks' results gives the events of the whole data |
| UncontrolledApproximation.CollectStep | kernels/cpu/src/actions/reactions/CPUUncontrolledApproximation.cpp:175-180 | appending one more chunk's result extends the collected range by that chunk |
| UncontrolledApproximation.GatherAll | kernels/cpu/src/actions/reactions/CPUUncontrolledApproximation.cpp:129-181 | the parallel gather returns the same events as one sequential pass |
| UncontrolledApproximation.Mark | kernels/cpu/src/actions/reactions/CPUUncontrolledApproximation.cpp:211-215 | marking changes only the event's cumulative rate, setting it to 1.0 when the event shares an educt with the consumed set; afterwards the cumulative rate is zero iff the event fires |
| UncontrolledApproximation.MarkTwice | kernels/cpu/src/actions/reactions/CPUUncontrolledApproximation.cpp:211-215 | marking by two sets equals marking by their union |
| UncontrolledApproximation.ConsumedSnoc | kernels/cpu/src/actions/reactions/CPUUncontrolledApproximation.cpp:192-239 | an event adds its educts to the consumed set iff it fires |
| UncontrolledApproximation.ConsumedByFired | kernels/cpu/src/actions/reactions/CPUUncontrolledApproximation.cpp:192-239 | a particle is consumed iff some fired event has it as an educt |
| UncontrolledApproximation.ConsumedGrows | kernels/cpu/src/actions/reactions/CPUUncontrolledApproximation.cpp:192-239 | the consumed set only grows along the event list |
| UncontrolledApproximation.FiredIff | kernels/cpu/src/actions/reactions/CPUUncontrolledApproximation.cpp:194 | an event fires iff it shares no educt with any earlier fired event |
| UncontrolledApproximation.ExecutedDisjoint | kernels/cpu/src/actions/reactions/CPUUncontrolledApproximation.cpp:192-239 | two executed events never share a particle |
| UncontrolledApproximation.CountEvent | kernels/cpu/src/actions/reactions/CPUUncontrolledApproximation.cpp:207-230 | recording increments exactly the executed reaction's counter, for its order and type key |
| UncontrolledApproximation.Fire | kernels/cpu/src/actions/reactions/CPUUncontrolledApproximation.cpp:194-237 | firing keeps the data length and the counts' shape |
| UncontrolledApproximation.Run | kernels/cpu/src/actions/reactions/CPUUncontrolledApproximation.cpp:192-239 | running the event list keeps the data length and the counts' shape |
| UncontrolledApproximation.MarkLater | kernels/cpu/src/actions/reactions/CPUUncontrolledApproximation.cpp:211-215 | later events sharing an educt with the fired one get cumulative rate 1.0, the skip marker; all other events are unchanged |
| UncontrolledApproximation.RunSnoc | kernels/cpu/src/actions/reactions/CPUUncontrolledApproximation.cpp:192-239 | running one more event fires it iff it is not yet consumed |
| UncontrolledApproximation.ExecuteStep | kernels/cpu/src/actions/reactions/CPUUncontrolledApproximation.cpp:193-238 | one loop iteration keeps the arrays and state equal to the specified run |
| UncontrolledApproximation.Execute | kernels/cpu/src/actions/reactions/CPUUncontrolledApproximation.cpp:186-239 | the events end up marked by what was consumed before them, and the state equals the specified run |
| UncontrolledApproximation.CounterAfterInitialize | kernels/cpu/src/actions/reactions/CPUUncontrolledApproximation.cpp:125-127 | after count initialisation every found event has a counter |
| UncontrolledApproximation.ShuffledExecutable | kernels/cpu/src/actions/reactions/CPUUncontrolledApproximation.cpp:183-184 | any permutation of the found events is executable |
| UncontrolledApproximation.Perform | kernels/cpu/src/actions/reactions/CPUUncontrolledApproximation.cpp:115-243 | counts are reset when recording and untouched otherwise; the result is the run of the shuffled found events |
| Compartments.WithConversion | kernels/cpu/src/programs/Compartments.cpp:38-46 | the compartment gains the conversion unless it already converts that type, in which case nothing changes; all other entries are kept |
| Compartments.FirstConversionWins | kernels/cpu/src/programs/Compartments.cpp:38-46 | registering a conversion for a type that is already converted keeps the first target |
| Compartments.ConvertTypeIgnoresEmpty | kernels/cpu/src/programs/Compartments.cpp:17-32 | the empty conversion maps that lookups insert never change a converted type |
| Compartments.NoConversionKeepsType | kernels/cpu/src/programs/Compartments.cpp:22-28 | a type that no containing compartment converts is unchanged |
| Compartments.ConvertedChangesOnlyType | kernels/cpu/src/programs/Compartments.cpp:20-31 | conversion changes only the type, and leaves a deactivated entry unchanged |
| Compartments.CompartmentsProgram.constructor | kernels/cpu/src/programs/Compartments.cpp:15 | starts with no compartments and no conversions |
| Compartments.CompartmentsProgram.RegisterCompartment | kernels/cpu/src/programs/Compartments.cpp:34-36 | appends the compartment and leaves the conversions unchanged |
| Compartments.CompartmentsProgram.RegisterConversion | kernels/cpu/src/programs/Compartments.cpp:38-46 | fails iff the compartment does not exist; otherwise adds the conversion without overriding an existing one for that type |
| Compartments.CompartmentsProgram.RegisterConversionByName | kernels/cpu/src/programs/Compartments.cpp:48-58 | succeeds iff both names are known and the compartment exists, registering their ids; otherwise nothing changes |
| Compartments.CompartmentsProgram.ConvertEntry | kernels/cpu/src/programs/Compartments.cpp:22-28 | returns the type after every containing compartment's conversion, in compartment order; conversions only gain empty maps |
| Compartments.CompartmentsProgram.Execute | kernels/cpu/src/programs/Compartments.cpp:17-32 | every entry is replaced by its converted version; compartments are unchanged and conversions only gain empty maps |
| DenseObservables.SelectedIndices | kernels/cpu_dense/src/observables/CPUDObservables.cpp:57-61 | returns strictly increasing indices of counted particles |
| DenseObservables.SelectedIndicesComplete | kernels/cpu_dense/src/observables/CPUDObservables.cpp:57-61 | every counted particle's index is selected |
| DenseObservables.PositionsAndForcesOfSelected | kernels/cpu_dense/src/observables/CPUDObservables.cpp:57-61 | reported positions and forces are those of the selected particles, in data order |
| DenseObservables.UnfilteredReportsAll | kernels/cpu_dense/src/observables/CPUDObservables.cpp:54-55 | with no type filter every particle is reported |
| DenseObservables.PositionsObservable.constructor | kernels/cpu_dense/src/observables/CPUDObservables.cpp:47-49 | stores the type filter and starts with an empty result |
| DenseObservables.PositionsObservable.Evaluate | kernels/cpu_dense/src/observables/CPUDObservables.cpp:51-63 | the result is the positions of the counted particles in data order |
| DenseObservables.UpperBound | kernels/cpu_dense/src/observables/CPUDObservables.cpp:93 | every border before the result is at most x, and the border at the result is above x |
| DenseObservables.UpperBoundSplits | kernels/cpu_dense/src/observables/CPUDObservables.cpp:93 | on sorted borders the result is exactly the number of borders at most x |
| DenseObservables.Bin | kernels/cpu_dense/src/observables/CPUDObservables.cpp:93-98 | the bin is -1 (outside) or a valid index |
| DenseObservables.AddToBin | kernels/cpu_dense/src/observables/CPUDObservables.cpp:96-98 | adding to a bin keeps the histogram's length |
| DenseObservables.HistogramOf | kernels/cpu_dense/src/observables/CPUDObservables.cpp:86-104 | a histogram has exactly one count per bin |
| DenseObservables.AddHistograms | kernels/cpu_dense/src/observables/CPUDObservables.cpp:123-130 | merging adds the counts bin by bin |
| DenseObservables.HistogramSplit | kernels/cpu_dense/src/observables/CPUDObservables.cpp:106-130 | the histogram of concatenated data is the sum of the parts' histograms |
| DenseObservables.TotalAddToBin | kernels/cpu_dense/src/observables/CPUDObservables.cpp:96-98 | adding to a valid bin raises the total by one |
| DenseObservables.HistogramTotalBounded | kernels/cpu_dense/src/observables/CPUDObservables.cpp:86-104 | the histogram never holds more counts than particles |
| DenseObservables.HistogramAlongAxis.constructor | kernels/cpu_dense/src/observables/CPUDObservables.cpp:65-71 | stores the borders, counted types and axis, with a zero result |
| DenseObservables.HistogramAlongAxis.Worker | kernels/cpu_dense/src/observables/CPUDObservables.cpp:86-104 | a worker's histogram is that of its data range |
| DenseObservables.HistogramAlongAxis.Merge | kernels/cpu_dense/src/observables/CPUDObservables.cpp:123-130 | merging adds a worker's histogram to the result |
| DenseObservables.HistogramAlongAxis.RunWorkers | kernels/cpu_dense/src/observables/CPUDObservables.cpp:106-121 | each chunk's histogram is that of its data range |
| DenseObservables.HistogramAlongAxis.MergeStep | kernels/cpu_dense/src/observables/CPUDObservables.cpp:123-130 | merging one more chunk extends the covered data by that chunk |
| DenseObservables.HistogramAlongAxis.Evaluate | kernels/cpu_dense/src/observables/CPUDObservables.cpp:73-131 | the result is zeroed first, then equals the histogram of all counted particles, with the previous result's size |
| DenseObservables.FirstIndex | kernels/cpu_dense/src/observables/CPUDObservables.cpp:146 | the index of the type's first occurrence, or the length when absent |
| DenseObservables.NCounts | kernels/cpu_dense/src/observables/CPUDObservables.cpp:138-153 | one count per requested type |
| DenseObservables.NCountsCharacterised | kernels/cpu_dense/src/observables/CPUDObservables.cpp:141-151 | each count is the number of particles of that type, with duplicate types counted at their first position |
| DenseObservables.NParticlesObservable.constructor | kernels/cpu_dense/src/observables/CPUDObservables.cpp:134-136 | stores the requested types and starts with an empty result |
| DenseObservables.NParticlesObservable.Evaluate | kernels/cpu_dense/src/observables/CPUDObservables.cpp:138-153 | with no types the result is the particle total, otherwise the per-type counts |
| DenseObservables.ForcesObservable.constructor | kernels/cpu_dense/src/observables/CPUDObservables.cpp:155-157 | stores the type filter and starts with an empty result |
| DenseObservables.ForcesObservable.IsCounted | kernels/cpu_dense/src/observables/CPUDObservables.cpp:169-174 | the loop finds the type iff it is in the filter |
| DenseObservables.ForcesObservable.Evaluate | kernels/cpu_dense/src/observables/CPUDObservables.cpp:159-177 | the result is the forces of the counted particles in data order |
| DenseObservables.ParticlesObservable.constructor | kernels/cpu_dense/src/observables/CPUDObservables.cpp:180-181 | starts with three empty result columns |
| DenseObservables.ParticlesObservable.Evaluate | kernels/cpu_dense/src/observables/CPUDObservables.cpp:183-199 | the three columns hold every particle's type, id and position, aligned by index |
| Topologies.NewBondConfiguration | readdy/main/model/topologies/potentials/BondedPotential.cpp:84-85 | holds the given indices, force constant and length |
| Topologies.FirstBondError | readdy/main/model/topologies/potentials/BondedPotential.cpp:58-65 | no error iff every bond's indices are in bounds, else the message of the first offending index |
| Topologies.NewHarmonicBondPotential | readdy/main/model/topologies/potentials/BondedPotential.cpp:55-66 | succeeds iff every bond's indices are below the topology's particle count, keeping the owner and bonds |
| Topologies.PermutedIdentity | readdy/main/model/topologies/Topology.cpp:88-92 | the identity permutation changes nothing |
| Topologies.PermutedCompose | readdy/main/model/topologies/Topology.cpp:88-92 | permuting twice equals permuting once by the composed permutation |
| Topologies.Topology.constructor | readdy/main/model/topologies/Topology.cpp:40-41 | holds the given particles and no potentials |
| Topologies.Topology.AddAnglePotential | readdy/main/model/topologies/Topology.cpp:67-72 | appends the potential iff this topology owns it, else an error; other lists unchanged |
| Topologies.Topology.AddTorsionPotential | readdy/main/model/topologies/Topology.cpp:74-79 | appends the potential iff this topology owns it, else an error; other lists unchanged |
| Topologies.Topology.AddBondedPotential | readdy/main/model/topologies/Topology.cpp:81-86 | appends the potential iff this topology owns it, else an error; other lists unchanged |
| Topologies.Topology.PermuteIndices | readdy/main/model/topologies/Topology.cpp:88-92 | every particle index is replaced by its image under the permutation |
| Recipes.Separation | readdy/main/model/topologies/reactions/Recipe.cpp:74-79 | one edge removal per neighbour of the vertex, in order |
| Recipes.Recipe.constructor | readdy/main/model/topologies/reactions/Recipe.cpp:45 | a new recipe has no steps |
| Recipes.Recipe.ChangeParticleType | readdy/main/model/topologies/reactions/Recipe.cpp:47-50 | appends one type-change step and returns the recipe |
| Recipes.Recipe.ChangeParticleTypeOfLabel | readdy/main/model/topologies/reactions/Recipe.cpp:41-43 | appends a type-change step for the labelled vertex |
| Recipes.Recipe.AddEdge | readdy/main/model/topologies/reactions/Recipe.cpp:52-55 | appends one edge-addition step and returns the recipe |
| Recipes.Recipe.AddEdgeOfLabels | readdy/main/model/topologies/reactions/Recipe.cpp:57-61 | appends an edge-addition step between the labelled vertices |
| Recipes.Recipe.RemoveEdge | readdy/main/model/topologies/reactions/Recipe.cpp:63-66 | appends one edge-removal step and returns the recipe |
| Recipes.Recipe.RemoveEdgeOfLabels | readdy/main/model/topologies/reactions/Recipe.cpp:68-72 | appends an edge-removal step between the labelled vertices |
| Recipes.Recipe.SeparateVertex | readdy/main/model/topologies/reactions/Recipe.cpp:74-79 | appends a removal of every edge of the vertex |
| TopologyActions.Swapped | kernels/cpu/include/readdy/kernel/cpu/model/topologies/CPUTopologyActions.h:143-147 | the vertex and entry take the stored previous type, and the previous type becomes the entry's old type |
| TopologyActions.RepeatedExecution | kernels/cpu/include/readdy/kernel/cpu/model/topologies/CPUTopologyActions.h:143-151 | an odd number of executions equals one swap; an even number restores the entry and previous type, and brings the vertex in line with the entry |
| TopologyActions.CpuChangeParticleType.constructor | kernels/cpu/include/readdy/kernel/cpu/model/topologies/CPUTopologyActions.h:140-141 | stores the target type as the value to swap in |
| TopologyActions.CpuChangeParticleType.Execute | kernels/cpu/include/readdy/kernel/cpu/model/topologies/CPUTopologyActions.h:143-147 | succeeds iff the vertex belongs to the topology; then swaps the types, changing only that entry's type |
| TopologyActions.CpuChangeParticleType.Undo | kernels/cpu/include/readdy/kernel/cpu/model/topologies/CPUTopologyActions.h:149-151 | undo performs the same swap as execute, with the same success condition and footprint |
| TopologyReactions.RunFrom | readdy/main/model/topologies/reactions/TopologyReaction.cpp:106-117 | a failure is reported at an index within the actions that were run |
| TopologyReactions.ReactionOutcome | readdy/main/model/topologies/reactions/TopologyReaction.cpp:92-177 | an empty recipe leaves the topology alone; raising only in raise mode; children only in create-children mode, after a successful run on a disconnected graph, as its components |
| TopologyReactions.RunThenUndo | readdy/main/model/topologies/reactions/TopologyReaction.cpp:118-124 | for reversible actions, undoing all of them after a full run, or the completed ones after a failure, restores the state before the run |
| TopologyReactions.TransactionRestores | readdy/main/model/topologies/reactions/TopologyReaction.cpp:145-151 | in roll-back mode a failed or disallowed reaction leaves the topology as it was |
| TopologyReactions.RollbackAsWrittenAddsEdge | readdy/main/model/topologies/reactions/TopologyReaction.cpp:118-124 | the rollback as written leaves an edge that was never in the graph |
| TopologyReactions.Mode.constructor | include/readdy/model/topologies/reactions/TopologyReaction.h:58-70 | both flags start cleared |
| TopologyReactions.Mode.Raise | readdy/main/model/topologies/reactions/TopologyReaction.cpp:180-182 | sets the raise flag and leaves the other flag alone |
| TopologyReactions.Mode.Rollback | readdy/main/model/topologies/reactions/TopologyReaction.cpp:184-186 | clears the raise flag and leaves the other flag alone |
| TopologyReactions.Mode.ExpectConnected | readdy/main/model/topologies/reactions/TopologyReaction.cpp:188-190 | sets the expect-connected flag and leaves the other flag alone |
| TopologyReactions.Mode.CreateChildren | readdy/main/model/topologies/reactions/TopologyReaction.cpp:192-194 | clears the expect-connected flag and leaves the other flag alone |
| TopologyReactions.TopologyReaction.constructor | readdy/main/model/topologies/reactions/TopologyReaction.cpp:44-46 | a new reaction rolls back and creates children |
| TopologyReactions.TopologyReaction.ConstantRate | readdy/main/model/topologies/reactions/TopologyReaction.cpp:89-90 | the rate function returns the given rate for every topology |
| TopologyReactions.TopologyReaction.Copy | include/readdy/model/topologies/reactions/TopologyReaction.h:83-89 | a copy has the same functions and mode flags in a fresh mode object |
| TopologyReactions.TopologyReaction.RaiseIfInvalid | readdy/main/model/topologies/reactions/TopologyReaction.cpp:61-63 | afterwards the reaction raises, and the connectivity mode is unchanged |
| TopologyReactions.TopologyReaction.RollBackIfInvalid | readdy/main/model/topologies/reactions/TopologyReaction.cpp:69-71 | afterwards the reaction rolls back, and the connectivity mode is unchanged |
| TopologyReactions.TopologyReaction.ExpectConnectedAfterReaction | readdy/main/model/topologies/reactions/TopologyReaction.cpp:77-79 | afterwards the reaction expects connectivity, and the failure mode is unchanged |
| TopologyReactions.TopologyReaction.CreateChildTopologiesAfterReaction | readdy/main/model/topologies/reactions/TopologyReaction.cpp:85-87 | afterwards the reaction creates children, and the failure mode is unchanged |
| TopologyReactions.TopologyReaction.CheckFlavors | readdy/main/model/topologies/reactions/TopologyReaction.cpp:135-144 | the result stays valid iff it was valid and every component is topology-flavoured |
| TopologyReactions.TopologyReaction.Execute | readdy/main/model/topologies/reactions/TopologyReaction.cpp:92-177 | the result is the specified reaction outcome, with roll-back of the completed actions |

## Left out

- Threads and their synchronisation: workers run sequentially in chunk order, and their futures are read in that same order.
- The random number generator: uniform and exponential draws, normal 3-vectors, the shuffle and the fission displacement are parameters. The shuffle is only required to return a permutation.
- Floating-point rounding: all real-valued quantities are exact `real`s.
- Reaction records:
  - `recordReactionsWithPositions` and the records written by `performReaction`, which feed an observable that is not part of this model;
  - energy and force computation, potentials' own evaluation, and angle and torsion potential contents.
- Neighbour list: it is an input that never lists an entry as its own neighbour. Its construction and its update after reactions (`nl.updateData`) are not part of this model; `Perform` returns the new and decayed entries instead of updating it.
- HDF5 I/O of observables: `append`, `flush`, `initializeDataSet`, `writeCountsToDataSets`, and logging.
- Hash combining: the combine step of `boost::hash_combine` is a parameter of `ParticleIndexPairs.HashValue`.
- Global id counter: `Particle::nextId` is threaded through as a natural number.
- Unordered containers: iteration order in `name_of` and `types_flat` is left open; only the set of results is stated.
- `UncontrolledApproximation.Execute` requires every event to have a counter. In the source, `.at` throws when it does not; `Perform` discharges this from the count initialisation.
- `ReactionCounts.PairKey` assumes the kernel keys order-2 counts by the sorted type pair, as `ReactionCounts.cpp` does.
- `DenseObservables.PositionsObservable.Evaluate`: with an empty filter the dense kernel calls `getParticlePositions`, which is not part of this model. It is taken to return all positions in data order.
- `DenseObservables.HistogramAlongAxis.Evaluate` takes the result size from the caller, since the base class that sizes it is not part of this model.
- `DenseObservables.UpperBound` is `std::upper_bound`, which needs sorted borders. `UpperBoundSplits` states its meaning only for sorted borders.
- `Topologies.NewHarmonicBondPotential` returns error messages without the offending index number.
- `Recipes.Recipe.ChangeParticleTypeOfLabel`: vertex lookup by label is a total function of the graph view. The graph's own label resolution and its error for an unknown label are not part of this model.
- The topology graph, the action factory, `GraphTopology::configure` and `updateReactionRates`:
  - these are fields of the reaction kernel value;
  - connectivity and connected components are given by the kernel, not computed.
- `ScpuReactionUtils.ScpuPerformReaction` places a fusion product with the corrected placement, e1 + weight2·(e2 − e1) (see Findings). It does not reproduce the else-branch as written at SCPUReactionUtils.h:89-91, which `ScpuFusionPositionAsWritten` models on its own.
- `TopologyReactions.TopologyReaction.Execute` rolls back only the completed actions, the corrected behaviour (see Findings). It does not reproduce the code as written.
- Compartment geometry: a compartment is only its membership predicate on positions.
- The default constructor of the particle type registry is not shown in the source. An empty registry with counter 0 is assumed.

## Findings

| source | as written | input that shows it | evidently intended | confidence | as-written member | corrected member |
|---|---|---|---|---|---|---|
| include/readdy/kernel/singlecpu/actions/SCPUReactionUtils.h:89-91 | when entry 1 has the second educt type, the product is placed at e1 + weight1·(e1 − e2) | weights 1/2 each, the second-type particle at 0 as entry 1 and the first-type particle at 2 as entry 2: product at −1, outside both educts | e1 + weight2·(e2 − e1), as the CPU kernel does, giving 1 | not executed; high | ScpuReactionUtils.ScpuFusionAsWrittenMisplaces | ScpuReactionUtils.ScpuFusionOrderIndependent |
| readdy/main/model/topologies/reactions/TopologyReaction.cpp:118-124 | after action k > 0 throws, undo runs on actions k, k−1, …, 0, including the failed one; after action 0 throws nothing is undone | add edge (1,2) to an empty graph, then remove the absent edge (3,4), which fails: the rollback re-adds (3,4) and the graph ends as {(3,4)} instead of {} | undo only the completed actions k−1, …, 0 | not executed; medium, as the graph's own undo behaviour is not part of this model | TopologyReactions.RollbackAsWrittenAddsEdge | TopologyReactions.TransactionRestores |
