# Reachability analysis, JFR GC events, LLVM string reads and parser results

This Dafny project models four pieces of the GraalVM sources and proves properties of the models.

**`reachability.dfy`, module `Reachability`: the summary-based reachability analysis of Native Image.** The analysis keeps one-way flags per type (reachable, instantiated, in heap), per method (invoked, implementation-invoked, root) and per field (accessed, read, written). Class `Analysis` holds these flags as sets that its methods update in place.

A `mark*` call sets a flag. When the flag goes from unset to set, it posts a handler task to the executor:

- `onTypeInstantiated` resolves every invoked virtual method of every supertype against the new type.
- `onMethodInvoked` resolves the method against every instantiated subtype. A static method becomes implementation-invoked itself.
- `onMethodImplementationInvoked` applies the method's summary through `processSummary` and records it.

`finish` drains the executor. `runAnalysis` alternates draining with the end-condition callback. It gives up after 1000 iterations, and it fails when the callback ends the analysis after the universe grew.

The executor is a set of pending tasks in no order. A draining run picks any of them, so the proofs cover every schedule of the concurrent executor. The ghost sets `posted` and `completed` give exactly-once posting (`TasksMatch`): an `onTypeInstantiated` or `onMethodImplementationInvoked` task is posted iff its flag is set, and an `onMethodInvoked` task iff its method is dispatched, that is, made invoked through `markMethodInvoked`.

Two invariants hold between any two steps:

- `DispatchPending`: every (instantiated type, dispatched method) pair is resolved, or one of its two tasks is pending.
- `SummariesPending`: every implementation-invoked method has its summary applied, or its provider failed, or its task is pending.

The analysis invariant `Valid` also requires every invoked method to be dispatched. When nothing is pending, the two invariants are the closure (`Quiescent`), and `Finish` and `RunAnalysis` state it on return for every invoked method.

`addRootMethod` as written sets a root method's invoked flag with `registerAsInvoked`, which posts no `onMethodInvoked` task. A subtype instantiated before the root was added is then never resolved against it (see "## Findings"). `AddRootMethod` models the code as written and `RootMethodAfterSubtype` shows the missed override. The rest of the model, `registerForeignCall` and the callback's root methods included, adds roots through `AddRootMethodDispatched`, which uses `markMethodInvoked`.

The collaborators the analysis calls are total functions in a `Program` value:

- the summary provider;
- `resolveConcreteMethod`;
- the host VM's foreign-call lookup;
- the constant-tracking policy;
- supertypes and instance fields;
- `getInvokedMethods` of a type: the invoked methods that the type declares;
- `getInstantiatedSubtypes` of a class: the instantiated types that have the class among their supertypes.

The constants `processSummary` registers with the universe are the `embeddedRoots` of the analysis, each paired with the method that embeds it.

**`jfr.dfy`, module `JfrGCEvents`: JFR garbage-collection events of the serial collector.**

- A nesting depth of GC phases, kept in 0..4.
- The mapping from a phase level to one of five GCPhasePause event types.
- The field layout of the GarbageCollection and GCPhasePause records.

The JFR writer is a sequence of records. A reader function for each record kind proves the layout round-trips. Java `long` subtraction wraps, and the model writes that out.

**`readnstring.dfy`, module `ReadNString`: the `truffle_read_n_string` intrinsic of the LLVM interpreter.**

- The address path reads `max(n, 0)` bytes of native memory, a map from addresses to bytes, as unsigned characters.
- The foreign-object path fills a `char[n]` from foreign reads. It fails with `IllegalStateException` on the first failed read and with `NegativeArraySizeException` for a negative `n`.
- Any other argument pair raises `IllegalArgumentException`.

**`parserresult.dfy`, module `ParserResult`: the record a bitcode parse produces.** Its fields are final, except the write-once `dependencies`. `symbolTableSize` is the Java `int` sum of the four symbol-list sizes.

`wrappers.dfy` holds `Option` and `Result`.

## Model

| member | source | states |
|---|---|---|
| Reachability.Summary.WithoutMethods | substratevm/src/com.oracle.graal.reachability/src/com/oracle/graal/reachability/ReachabilityAnalysis.java:429 | the summary `processGraph` processes has both method lists empty and every other list unchanged |
| Reachability.Program.AllInstanceFields | substratevm/src/com.oracle.graal.reachability/src/com/oracle/graal/reachability/ReachabilityAnalysis.java:111 | the instance fields with superclasses contain the type's declared fields and every field of the superclass's list |
| Reachability.RootClassTypesUpward | substratevm/src/com.oracle.graal.reachability/src/com/oracle/graal/reachability/ReachabilityAnalysis.java:87-105 | the types `addRootClass` marks contain the type itself and, when requested, its array class; they are closed under superclass |
| Reachability.FirstNamed | substratevm/src/com.oracle.graal.reachability/src/com/oracle/graal/reachability/ReachabilityAnalysis.java:111-119 | a found field lies in the list and has the name; nothing is found iff no field in the list has the name |
| Reachability.FirstNamedSkips | substratevm/src/com.oracle.graal.reachability/src/com/oracle/graal/reachability/ReachabilityAnalysis.java:111-118 | the lookup loop returns the first field with the name: a prefix without it can be skipped |
| Reachability.PostedInUniverse | substratevm/src/com.oracle.graal.reachability/src/com/oracle/graal/reachability/ReachabilityAnalysis.java:246-252 | every task posted for a flag of the universe is one of the finitely many tasks of that universe, so draining ends |
| Reachability.AppliedMonotone | substratevm/src/com.oracle.graal.reachability/src/com/oracle/graal/reachability/ReachabilityAnalysis.java:175-216 | once a summary's effects are present in the flags, setting more flags keeps them present |
| Reachability.Quiescent | substratevm/src/com.oracle.graal.reachability/src/com/oracle/graal/reachability/ReachabilityAnalysis.java:313-319 | with no task pending, the two pending invariants are the dispatch closure and the summary closure |
| Reachability.TaskCompleted | substratevm/src/com.oracle.graal.reachability/src/com/oracle/graal/reachability/ReachabilityAnalysis.java:254-292 | running a pending handler and retiring its task keeps every pair resolved or pending and every summary applied or pending |
| Reachability.PostingKeeps | substratevm/src/com.oracle.graal.reachability/src/com/oracle/graal/reachability/ReachabilityAnalysis.java:122-133 | setting flags and posting their tasks, with no task retired, keeps both pending invariants |
| Reachability.Analysis.constructor | substratevm/src/com.oracle.graal.reachability/src/com/oracle/graal/reachability/ReachabilityAnalysis.java:77-83 | a new analysis has no flag set, no summary and no pending task, and satisfies the invariant |
| Reachability.Analysis.MarkTypeReachable | substratevm/src/com.oracle.graal.reachability/src/com/oracle/graal/reachability/ReachabilityAnalysis.java:233-237 | the type becomes reachable; the result is true iff it was not reachable before |
| Reachability.Analysis.MarkTypeInstantiated | substratevm/src/com.oracle.graal.reachability/src/com/oracle/graal/reachability/ReachabilityAnalysis.java:245-252 | the type becomes instantiated; it returns true and posts `onTypeInstantiated` (never posted before) iff it was not instantiated, and otherwise posts nothing |
| Reachability.Analysis.MarkTypeInHeap | substratevm/src/com.oracle.graal.reachability/src/com/oracle/graal/reachability/ReachabilityAnalysis.java:239-243 | the type becomes both instantiated and in-heap, so in-heap implies instantiated; the instantiation task is posted only on the first transition |
| Reachability.Analysis.MarkMethodInvoked | substratevm/src/com.oracle.graal.reachability/src/com/oracle/graal/reachability/ReachabilityAnalysis.java:270-275 | the method becomes invoked; `onMethodInvoked` is posted, for the first time, iff it was not invoked |
| Reachability.Analysis.MarkMethodImplementationInvoked | substratevm/src/com.oracle.graal.reachability/src/com/oracle/graal/reachability/ReachabilityAnalysis.java:139-150 | an absent method changes nothing; otherwise the method becomes implementation-invoked, and its handler is posted, for the first time, iff it was not |
| Reachability.Analysis.RegisterAsInvoked | substratevm/src/com.oracle.graal.reachability/src/com/oracle/graal/reachability/ReachabilityAnalysis.java:130 | the method becomes invoked and no other flag changes; no task is posted, so the method is not dispatched |
| Reachability.Analysis.MarkFieldAccessed | substratevm/src/com.oracle.graal.reachability/src/com/oracle/graal/reachability/ReachabilityAnalysis.java:218-221 | exactly the field is added to the accessed fields |
| Reachability.Analysis.MarkFieldRead | substratevm/src/com.oracle.graal.reachability/src/com/oracle/graal/reachability/ReachabilityAnalysis.java:223-226 | exactly the field is added to the read fields |
| Reachability.Analysis.MarkFieldWritten | substratevm/src/com.oracle.graal.reachability/src/com/oracle/graal/reachability/ReachabilityAnalysis.java:228-231 | exactly the field is added to the written fields |
| Reachability.Analysis.AddRootMethod | substratevm/src/com.oracle.graal.reachability/src/com/oracle/graal/reachability/ReachabilityAnalysis.java:122-133 | as written: returns the method; an existing root changes nothing; otherwise the method becomes a root, invoked through `registerAsInvoked` (so not dispatched) and implementation-invoked, a non-static method's declaring class becomes instantiated, and exactly the tasks of the instantiation and implementation flags newly set are posted |
| Reachability.Analysis.AddRootMethodDispatched | substratevm/src/com.oracle.graal.reachability/src/com/oracle/graal/reachability/ReachabilityAnalysis.java:122-133 | corrected `addRootMethod`: the same new flags as `AddRootMethod`, with every newly invoked method dispatched, so every invoked method stays dispatched |
| Reachability.Analysis.RegisterAsRootMethod | substratevm/src/com.oracle.graal.reachability/src/com/oracle/graal/reachability/ReachabilityAnalysis.java:124 | once the method is invoked, implementation-invoked and, if non-static, its class instantiated, exactly it is added to the roots |
| Reachability.Analysis.RegisterForeignCall | substratevm/src/com.oracle.graal.reachability/src/com/oracle/graal/reachability/ReachabilityAnalysis.java:455-458 | on the corrected root path (`AddRootMethodDispatched`): the flags become exactly those of adding the host VM's target for the descriptor, if there is one, as a root method; with no target nothing changes; every newly invoked method is dispatched |
| Reachability.Analysis.MarkAllInvoked | substratevm/src/com.oracle.graal.reachability/src/com/oracle/graal/reachability/ReachabilityAnalysis.java:176-178 | the invoked methods grow by exactly the listed methods, each newly invoked one dispatched; no other flag changes |
| Reachability.Analysis.MarkInvokedAndImplementationInvoked | substratevm/src/com.oracle.graal.reachability/src/com/oracle/graal/reachability/ReachabilityAnalysis.java:180-182 | the method becomes invoked and implementation-invoked, and no other flag changes |
| Reachability.Analysis.MarkAllImplementationInvoked | substratevm/src/com.oracle.graal.reachability/src/com/oracle/graal/reachability/ReachabilityAnalysis.java:179-183 | the invoked and the implementation-invoked methods each grow by exactly the listed methods; no other flag changes |
| Reachability.Analysis.MarkAllReachable | substratevm/src/com.oracle.graal.reachability/src/com/oracle/graal/reachability/ReachabilityAnalysis.java:184-186 | exactly the listed types are added to the reachable types |
| Reachability.Analysis.MarkAllInstantiated | substratevm/src/com.oracle.graal.reachability/src/com/oracle/graal/reachability/ReachabilityAnalysis.java:187-189 | exactly the listed types are added to the instantiated types |
| Reachability.Analysis.MarkAllRead | substratevm/src/com.oracle.graal.reachability/src/com/oracle/graal/reachability/ReachabilityAnalysis.java:190-192 | exactly the listed fields are added to the read fields |
| Reachability.Analysis.MarkAllWritten | substratevm/src/com.oracle.graal.reachability/src/com/oracle/graal/reachability/ReachabilityAnalysis.java:193-195 | exactly the listed fields are added to the written fields |
| Reachability.Analysis.ScanConstant | substratevm/src/com.oracle.graal.reachability/src/com/oracle/graal/reachability/ReachabilityAnalysis.java:197-207 | a tracked non-null object constant becomes an embedded root of the method and its type becomes instantiated and in the heap; any other constant changes nothing |
| Reachability.TrackedTypesSpec | substratevm/src/com.oracle.graal.reachability/src/com/oracle/graal/reachability/ReachabilityAnalysis.java:196-209 | the types the constant loop puts in the heap are exactly the types of the tracked constants |
| Reachability.TrackedRootsSpec | substratevm/src/com.oracle.graal.reachability/src/com/oracle/graal/reachability/ReachabilityAnalysis.java:196-209 | the embedded roots the constant loop registers are exactly the tracked constants, each with the embedding method |
| Reachability.Analysis.ScanConstants | substratevm/src/com.oracle.graal.reachability/src/com/oracle/graal/reachability/ReachabilityAnalysis.java:196-209 | the embedded roots grow by exactly the tracked non-null object constants, paired with the method; the instantiated and in-heap types grow by exactly those constants' types; no other flag changes |
| Reachability.Analysis.RegisterForeignCalls | substratevm/src/com.oracle.graal.reachability/src/com/oracle/graal/reachability/ReachabilityAnalysis.java:210-212 | on the corrected root path: the flags become exactly those of adding the targets of the listed descriptors as root methods; the embedded roots are unchanged |
| Reachability.Analysis.RegisterSignatureForeignCalls | substratevm/src/com.oracle.graal.reachability/src/com/oracle/graal/reachability/ReachabilityAnalysis.java:213-215 | on the corrected root path: the flags become exactly those of adding the targets of the listed signatures' descriptors as root methods; the embedded roots are unchanged |
| Reachability.Analysis.ProcessMethodUses | substratevm/src/com.oracle.graal.reachability/src/com/oracle/graal/reachability/ReachabilityAnalysis.java:176-183 | the invoked methods grow by exactly the methods of both lists, the implementation-invoked methods by exactly the second list |
| Reachability.Analysis.ProcessUses | substratevm/src/com.oracle.graal.reachability/src/com/oracle/graal/reachability/ReachabilityAnalysis.java:176-195 | the flags become exactly `UsesEffect`: the summary's invoked methods are invoked, its implementation-invoked methods are both, its accessed types reachable, its instantiated types instantiated, its read and written fields carry the matching flag, and nothing else is set |
| Reachability.Analysis.ProcessRegistrations | substratevm/src/com.oracle.graal.reachability/src/com/oracle/graal/reachability/ReachabilityAnalysis.java:196-215 | the flags become exactly `RegistrationsEffect`: the tracked constants' types are instantiated and in the heap and every foreign-call target is a root; the new embedded roots are exactly the tracked constants |
| Reachability.Analysis.ProcessSummary | substratevm/src/com.oracle.graal.reachability/src/com/oracle/graal/reachability/ReachabilityAnalysis.java:175-216 | the flags become exactly `SummaryEffect` of the summary, so every effect of the summary is present (`Applied`) and nothing else is set; the new embedded roots are exactly the tracked constants of the method |
| Reachability.SummaryEffectApplied | substratevm/src/com.oracle.graal.reachability/src/com/oracle/graal/reachability/ReachabilityAnalysis.java:175-216 | the flags `processSummary` sets contain every effect of the summary, including each foreign call's registration, and every flag set before |
| Reachability.Analysis.ResolveOnType | substratevm/src/com.oracle.graal.reachability/src/com/oracle/graal/reachability/ReachabilityAnalysis.java:258-265 | an invoked method declared by a supertype of the type becomes implementation-invoked through its non-null resolution against the type, if it is non-static and has one |
| Reachability.Analysis.ResolveDeclaredOn | substratevm/src/com.oracle.graal.reachability/src/com/oracle/graal/reachability/ReachabilityAnalysis.java:256-266 | the implementation-invoked methods grow by exactly the resolutions against the type of the invoked methods that one supertype declares |
| Reachability.Analysis.OnTypeInstantiated | substratevm/src/com.oracle.graal.reachability/src/com/oracle/graal/reachability/ReachabilityAnalysis.java:254-268 | the implementation-invoked methods grow by exactly the non-null resolutions against the type of the non-static invoked methods its supertypes declare; no other flag changes |
| Reachability.Analysis.OnMethodInvoked | substratevm/src/com.oracle.graal.reachability/src/com/oracle/graal/reachability/ReachabilityAnalysis.java:277-292 | a static method becomes implementation-invoked; for a non-static one, the implementation-invoked methods grow by exactly the non-null resolutions against its instantiated subtypes; no other flag changes |
| Reachability.Analysis.OnMethodImplementationInvoked | substratevm/src/com.oracle.graal.reachability/src/com/oracle/graal/reachability/ReachabilityAnalysis.java:154-173 | with a summary, the flags become exactly its `SummaryEffect`, the summary is recorded and its tracked constants become embedded roots; when the provider fails nothing changes |
| Reachability.Analysis.RunTask | substratevm/src/com.oracle.graal.reachability/src/com/oracle/graal/reachability/ReachabilityAnalysis.java:149 | the new state is exactly the handler's effect for the task (`Effect`); only the handler of a summary registers embedded roots |
| Reachability.EffectHandles | substratevm/src/com.oracle.graal.reachability/src/com/oracle/graal/reachability/ReachabilityAnalysis.java:254-292 | a handler's exact effect does the work its task stands for (`Handled`) and only sets flags |
| Reachability.Analysis.RunPendingTask | substratevm/src/com.oracle.graal.reachability/src/com/oracle/graal/reachability/ReachabilityAnalysis.java:392-398 | running any one pending task keeps the invariant and strictly shrinks the set of tasks not yet completed |
| Reachability.Analysis.Finish | substratevm/src/com.oracle.graal.reachability/src/com/oracle/graal/reachability/ReachabilityAnalysis.java:313-320 | with roots added on the corrected path: returns true with nothing pending, every (instantiated type, invoked method) dispatch pair resolved, every invoked static method implementation-invoked, and every implementation-invoked method's summary applied or failed; the drained flags are appended to the ghost log `drains` |
| Reachability.Analysis.MarkAllAccessed | substratevm/src/com.oracle.graal.reachability/src/com/oracle/graal/reachability/ReachabilityAnalysis.java:89-93 | exactly the listed fields are added to the accessed fields |
| Reachability.Analysis.AddRootClass | substratevm/src/com.oracle.graal.reachability/src/com/oracle/graal/reachability/ReachabilityAnalysis.java:87-105 | returns the type; the type, its superclass chain and (when requested) their array classes become reachable; the chain's declared instance fields become accessed iff `addFields` |
| Reachability.Analysis.AddRootField | substratevm/src/com.oracle.graal.reachability/src/com/oracle/graal/reachability/ReachabilityAnalysis.java:107-120 | the class chain becomes reachable; the first instance field with the name becomes accessed and its type is returned; with no such field the result is `FieldNotFound` and no field is accessed |
| Reachability.Analysis.RegisterGraphForeignCalls | substratevm/src/com.oracle.graal.reachability/src/com/oracle/graal/reachability/ReachabilityAnalysis.java:434-453 | the flags become exactly `GraphNodesEffect`: each foreign-call and math-intrinsic node's target is a root, each frame state's method has a reachable declaring class, and nothing else is set |
| Reachability.GraphNodesRegistered | substratevm/src/com.oracle.graal.reachability/src/com/oracle/graal/reachability/ReachabilityAnalysis.java:434-453 | after the node loop every foreign-call and math-intrinsic node's call is registered and every frame state's method has a reachable declaring class |
| Reachability.Analysis.ProcessGraph | substratevm/src/com.oracle.graal.reachability/src/com/oracle/graal/reachability/ReachabilityAnalysis.java:422-432 | when the provider fails, the error is returned and nothing changes; otherwise the flags become exactly those of the graph summary without methods followed by the graph's nodes, and every node is registered |
| Reachability.Analysis.ProcessGraphSummary | substratevm/src/com.oracle.graal.reachability/src/com/oracle/graal/reachability/ReachabilityAnalysis.java:428-431 | the provided summary without methods is applied and then every node is registered; the flags become exactly those two effects in that order |
| Reachability.Analysis.AddRootMethods | substratevm/src/com.oracle.graal.reachability/src/com/oracle/graal/reachability/ReachabilityAnalysis.java:356 | on the corrected root path: the flags become exactly those of adding the callback's root methods, the invariants still hold, and with no root method nothing becomes pending. The pending tasks are unchanged exactly when the roots set no unset instantiated, invoked or implementation-invoked flag (`RootsIdle`) |
| Reachability.Analysis.AddRootMethodsLoop | substratevm/src/com.oracle.graal.reachability/src/com/oracle/graal/reachability/ReachabilityAnalysis.java:356 | on the corrected root path: the flags become exactly those of adding each listed method as a root, every newly invoked method dispatched |
| Reachability.Analysis.RunAnalysis | substratevm/src/com.oracle.graal.reachability/src/com/oracle/graal/reachability/ReachabilityAnalysis.java:327-377 | with roots added on the corrected path. The run drains once per iteration, and its outcome is `OutcomeOver` the flags its drains left (the ghost log `drains`). No iteration before the last ends the run. An iteration ends it when the callback ends the analysis and either grew the universe (consistency failure there), or its roots leave nothing pending and the heap verifier changed nothing (convergence there, with nothing pending and both closures holding). An ending callback whose roots leave tasks pending sends the run on to another drain. When no iteration ends the run, it fails after 1001 drains. The earlier first-ending-iteration clauses, independent of the state, still hold |
| Reachability.Analysis.OuterIteration | substratevm/src/com.oracle.graal.reachability/src/com/oracle/graal/reachability/ReachabilityAnalysis.java:332-375 | one iteration: a drain appended to `drains`, non-convergence past 1000 iterations, and otherwise the run ends there exactly when `EndsAt` holds for the drained flags, with the outcome's kind set by universe growth |
| Reachability.Analysis.AfterDrain | substratevm/src/com.oracle.graal.reachability/src/com/oracle/graal/reachability/ReachabilityAnalysis.java:351-373 | after a drain: the flags become exactly those with the callback's roots, the counters grow by the callback's growth, and the run ends exactly when `EndsAt` holds: consistency failure on growth, convergence with the closures otherwise, and pending tasks continue the run |
| Reachability.OutcomeOverUnique | substratevm/src/com.oracle.graal.reachability/src/com/oracle/graal/reachability/ReachabilityAnalysis.java:327-377 | the drained flags decide the outcome: two runs whose drains agree end the same way after the same number of drains |
| Reachability.RootsPost | substratevm/src/com.oracle.graal.reachability/src/com/oracle/graal/reachability/ReachabilityAnalysis.java:356-369 | with nothing pending, adding root methods leaves the pending tasks unchanged exactly when it sets no unset instantiated, invoked or implementation-invoked flag |
| Reachability.OutcomeDecided | substratevm/src/com.oracle.graal.reachability/src/com/oracle/graal/reachability/ReachabilityAnalysis.java:327-377 | an outcome reached only after iterations that did not surely end the run is decided by the first iteration whose callback ends the analysis: consistency failure on growth, convergence with no growth, no new roots and an unchanged heap, and non-convergence when no callback ends it |
| Reachability.RootMethodAfterSubtype | substratevm/src/com.oracle.graal.reachability/src/com/oracle/graal/reachability/ReachabilityAnalysis.java:122-133 | as written: with class 1 extending class 0 and overriding instance method 0, instantiating class 1 and then adding root method 0 drains the executor with the override never implementation-invoked, so the dispatch closure over invoked methods fails |
| Reachability.RootMethodAfterSubtypeDispatched | substratevm/src/com.oracle.graal.reachability/src/com/oracle/graal/reachability/ReachabilityAnalysis.java:122-133 | corrected: the same steps with `AddRootMethodDispatched` post `onMethodInvoked(0)`, whose handler makes the override implementation-invoked |
| JfrGCEvents.LongSub | substratevm/src/com.oracle.svm.core.genscavenge/src/com/oracle/svm/core/genscavenge/JfrGCEventSupport.java:70 | the Java `long` difference: exact when it fits, equal modulo 2^64 otherwise |
| JfrGCEvents.GarbageCollectionRecord | substratevm/src/com.oracle.svm.core.genscavenge/src/com/oracle/svm/core/genscavenge/JfrGCEventSupport.java:70-84 | the GarbageCollection record is the event id then seven longs: start, the pause `end - start`, the epoch, the GC name id, the cause id, and the pause again as sum and longest pause |
| JfrGCEvents.PhasePauseRecord | substratevm/src/com.oracle.svm.core.genscavenge/src/com/oracle/svm/core/genscavenge/JfrGCEventSupport.java:97-104 | the phase record is the event id, the start, the duration `end - start`, the event thread, the epoch and the phase name |
| JfrGCEvents.GCPhasePauseEvent | substratevm/src/com.oracle.svm.core.genscavenge/src/com/oracle/svm/core/genscavenge/JfrGCEventSupport.java:114-128 | an event type iff the level is 0..4, never the GarbageCollection type; any other level is an error |
| JfrGCEvents.PhasePauseEventRoundTrip | substratevm/src/com.oracle.svm.core.genscavenge/src/com/oracle/svm/core/genscavenge/JfrGCEventSupport.java:114-125 | the level can be recovered from the event type chosen for it |
| JfrGCEvents.PhasePauseEventsDistinct | substratevm/src/com.oracle.svm.core.genscavenge/src/com/oracle/svm/core/genscavenge/JfrGCEventSupport.java:114-125 | two levels map to the same event type iff they are equal |
| JfrGCEvents.PhasePauseEventsOnto | substratevm/src/com.oracle.svm.core.genscavenge/src/com/oracle/svm/core/genscavenge/JfrGCEventSupport.java:114-125 | every phase event type is the event of some level 0..4 |
| JfrGCEvents.GarbageCollectionRoundTrip | substratevm/src/com.oracle.svm.core.genscavenge/src/com/oracle/svm/core/genscavenge/JfrGCEventSupport.java:69-83 | the record reads back as start, pause, epoch, GC name and cause, with the sum of pauses and the longest pause equal to the pause `end - start` |
| JfrGCEvents.PhasePauseRoundTrip | substratevm/src/com.oracle.svm.core.genscavenge/src/com/oracle/svm/core/genscavenge/JfrGCEventSupport.java:93-103 | a phase record reads back with the level its event type was chosen for, its start, its duration, the epoch and the name |
| JfrGCEvents.RecordKindsDisjoint | substratevm/src/com.oracle.svm.core.genscavenge/src/com/oracle/svm/core/genscavenge/JfrGCEventSupport.java:76-103 | no record reads as both a GarbageCollection and a GCPhasePause event |
| JfrGCEvents.GCEventSupport.constructor | substratevm/src/com.oracle.svm.core.genscavenge/src/com/oracle/svm/core/genscavenge/JfrGCEventSupport.java:54-56 | a new emitter is at depth 0 with nothing written |
| JfrGCEvents.GCEventSupport.PushPhase | substratevm/src/com.oracle.svm.core.genscavenge/src/com/oracle/svm/core/genscavenge/JfrGCEventSupport.java:131-134 | below depth 4, the depth grows by exactly one and stays in 0..4 |
| JfrGCEvents.GCEventSupport.PopPhase | substratevm/src/com.oracle.svm.core.genscavenge/src/com/oracle/svm/core/genscavenge/JfrGCEventSupport.java:136-140 | above depth 0, the depth shrinks by one and the new depth, in 0..3, is returned |
| JfrGCEvents.GCEventSupport.StartGCPhasePause | substratevm/src/com.oracle.svm.core.genscavenge/src/com/oracle/svm/core/genscavenge/JfrGCEventSupport.java:62-65 | pushes a phase and returns the current ticks |
| JfrGCEvents.GCEventSupport.EmitGarbageCollectionEvent | substratevm/src/com.oracle.svm.core.genscavenge/src/com/oracle/svm/core/genscavenge/JfrGCEventSupport.java:68-86 | appends the GarbageCollection record iff recording with the event enabled, and otherwise writes nothing |
| JfrGCEvents.GCEventSupport.EmitGCPhasePauseEvent | substratevm/src/com.oracle.svm.core.genscavenge/src/com/oracle/svm/core/genscavenge/JfrGCEventSupport.java:89-106 | pops a phase, picks the event type of the new depth, and appends the phase record iff recording with that type enabled |
| JfrGCEvents.GCEventSupport.TimedPhasePause | substratevm/src/com.oracle.svm.core.genscavenge/src/com/oracle/svm/core/genscavenge/JfrGCEventSupport.java:62-91 | a start followed by an emit leaves the depth unchanged and reports the phase with the event type of the depth before the push |
| JfrGCEvents.DeepestPhaseEvent | substratevm/src/com.oracle.svm.core.genscavenge/src/com/oracle/svm/core/genscavenge/JfrGCEventSupport.java:131-140 | a level `popPhase` can return has an event type, and that type is never the Level4 one |
| ReadNString.ByteChar | projects/com.oracle.truffle.llvm.nodes/src/com/oracle/truffle/llvm/nodes/intrinsics/interop/LLVMTruffleReadNString.java:67 | the character's code is the byte's unsigned value, below 256 |
| ReadNString.CharsSpec | projects/com.oracle.truffle.llvm.nodes/src/com/oracle/truffle/llvm/nodes/intrinsics/interop/LLVMTruffleReadNString.java:66-69 | the string of `count` bytes has length `count`, and character `i` is the unsigned byte at `ptr + i` |
| ReadNString.CharsFrame | projects/com.oracle.truffle.llvm.nodes/src/com/oracle/truffle/llvm/nodes/intrinsics/interop/LLVMTruffleReadNString.java:62-70 | only addresses `ptr .. ptr + count - 1` are read: memories agreeing there give the same string |
| ReadNString.GetString | projects/com.oracle.truffle.llvm.nodes/src/com/oracle/truffle/llvm/nodes/intrinsics/interop/LLVMTruffleReadNString.java:62-71 | the loop builds the string of the `max(n, 0)` bytes from `ptr` |
| ReadNString.GetStringResult | projects/com.oracle.truffle.llvm.nodes/src/com/oracle/truffle/llvm/nodes/intrinsics/interop/LLVMTruffleReadNString.java:64-70 | the result has length `max(n, 0)`, is empty for `n <= 0`, and character `i` is the byte at `ptr + i` |
| ReadNString.ForeignCharsSpec | projects/com.oracle.truffle.llvm.nodes/src/com/oracle/truffle/llvm/nodes/intrinsics/interop/LLVMTruffleReadNString.java:80-90 | the foreign reads give a string iff every read succeeds; then character `i` is the byte read at `offset + i` |
| ReadNString.ForeignCharsFailurePersists | projects/com.oracle.truffle.llvm.nodes/src/com/oracle/truffle/llvm/nodes/intrinsics/interop/LLVMTruffleReadNString.java:82-87 | a failed read fails every longer run of reads: there is no partial string |
| ReadNString.Interop | projects/com.oracle.truffle.llvm.nodes/src/com/oracle/truffle/llvm/nodes/intrinsics/interop/LLVMTruffleReadNString.java:73-92 | the loop over `char[n]` yields the foreign string, `IllegalState` on a failed read, `NegativeArraySize` for `n < 0` |
| ReadNString.InteropOutcomes | projects/com.oracle.truffle.llvm.nodes/src/com/oracle/truffle/llvm/nodes/intrinsics/interop/LLVMTruffleReadNString.java:79-91 | each of the three outcomes holds iff its condition does; a string has `n` characters, each the unsigned byte read at `offset + i` |
| ReadNString.Fallback | projects/com.oracle.truffle.llvm.nodes/src/com/oracle/truffle/llvm/nodes/intrinsics/interop/LLVMTruffleReadNString.java:94-100 | any other argument pair ends with `IllegalArgument` |
| ReadNString.Execute | projects/com.oracle.truffle.llvm.nodes/src/com/oracle/truffle/llvm/nodes/intrinsics/interop/LLVMTruffleReadNString.java:55-100 | an address with an int reads memory; an object with an int reads the object; exactly the other pairs raise `IllegalArgument` |
| ParserResult.IntWrap | sulong/projects/com.oracle.truffle.llvm.parser/src/com/oracle/truffle/llvm/parser/LLVMParserResult.java:63 | the Java `int` value of an integer: exact when it fits, equal modulo 2^32 otherwise |
| ParserResult.SymbolCount | sulong/projects/com.oracle.truffle.llvm.parser/src/com/oracle/truffle/llvm/parser/LLVMParserResult.java:63 | the sum of the four list sizes, as a Java `int` |
| ParserResult.LLVMParserResult.constructor | sulong/projects/com.oracle.truffle.llvm.parser/src/com/oracle/truffle/llvm/parser/LLVMParserResult.java:51-64 | every final field, and so every getter, holds the argument given; the symbol table size is the lists' total; dependencies are unset |
| ParserResult.LLVMParserResult.GetSymbolTableSize | sulong/projects/com.oracle.truffle.llvm.parser/src/com/oracle/truffle/llvm/parser/LLVMParserResult.java:99-101 | the size recorded at construction, the sum of the four list sizes |
| ParserResult.LLVMParserResult.SetDependencies | sulong/projects/com.oracle.truffle.llvm.parser/src/com/oracle/truffle/llvm/parser/LLVMParserResult.java:103-106 | allowed only while unset; afterwards the dependencies are the given list and nothing else changes |
| ParserResult.SymbolTableSizeIsTotal | sulong/projects/com.oracle.truffle.llvm.parser/src/com/oracle/truffle/llvm/parser/LLVMParserResult.java:63 | below 2^31 symbols, the size is exactly the total length of the four lists and is non-negative |

## Left out

- The ForkJoin executor, the concurrent maps and thread safety. Pending tasks form a set, and `Finish` runs them one at a time in any order. Each handler takes the set it iterates over when its loop reaches that set.
- The `Reason`/`InvokeReason` chains, the timers, debug indentation, and the lines printed to standard output or error, including the stack trace of a null method. These are diagnostics only.
- `markMethodSignatureReachable` returns at once, so it has no effect and is not modelled.
- `forceUnsafeUpdate` and `registerAsJNIAccessed` are empty, and are not modelled.
- `getAllSynchronizedTypeState`, `cleanupAfterAnalysis`, `postTask` and `printTimers` are not modelled. The first depends on points-to type flows that are not part of this model.
- The collaborator lookups are functions given with the `Program`. The `instanceof`/cast helpers `assertReachabilityAnalysisMethod` and `analysisMethod` are identities.
- A failure of the summary provider is "no summary": nothing is processed or recorded. An exception thrown midway through `processSummary` would leave part of its effects; that case is not modelled.
- `method.setSummary` and `summaries.put` record the same summary. The model keeps only the map.
- `universe.setAnalysisDataValid` in `finish` and `executor.init` are not modelled.
- Reachability.Analysis.RunAnalysis: the heap verifier is a per-iteration boolean oracle that posts no task.
- Reachability.Analysis.RunAnalysis: the universe tables are counters that the callback grows. The callback's other effects are reduced to the root methods it registers.
- The universe of types, methods and fields is fixed and finite. Every mark requires its element to belong to it, which also bounds the drain.
- `registerAsAllocated`, `registerAsImplementationInvoked` and the other `register*` calls belong to classes that are not part of this model. Each sets only its own flag here; in-heap implies instantiated is the one coupling the shown code establishes.
- Reachability.Analysis.RegisterForeignCall: adds the host VM's target through the corrected `AddRootMethodDispatched`, unlike the `addRootMethod` call at line 457, so the target's `onMethodInvoked` task is posted; `RegisterForeignCalls`, `RegisterSignatureForeignCalls` and `RegisterGraphForeignCalls` inherit this.
- Reachability.Analysis.AddRootMethods: the callback's root methods are added through the corrected `AddRootMethodDispatched`, unlike the `addRootMethod` calls the callback makes at line 356. The closures that `Finish` and `RunAnalysis` state hold for this corrected program.
- Reachability.Analysis.AddRootMethod: the root flag is set after the other flags, not first as at line 124. No task runs in between, so the state after the call is the same.
- Reachability.Analysis.ProcessGraph: an exception from `processSummary` itself, after the provider gave a summary, is not modelled; the provider's own failure is.
- Reachability.Analysis.Finish: states that the flags are closed under the analysis rules, not that they are the least such flags.
- JfrGCEvents: the tick clock, the recording state and the enabled switches are inputs. `getTicks` only reads the clock, so it is not modelled.
- JfrGCEvents: the thread-local native buffer and the `Uninterruptible` annotations are not modelled, and neither are `JfrGCEventFeature` and the `ImageSingletons` registration.
- JfrGCEvents: the event-thread field is a marker. Event ids are the event types themselves. The GC epoch, the GC name id and the cause id are `long` values given as inputs.
- JfrGCEvents.GCEventSupport.PushPhase: the Java `assert` is a precondition. With assertions disabled the depth could pass 4; that is not modelled.
- JfrGCEvents.GCEventSupport.PopPhase: the Java `assert` that the depth is positive is a precondition. With assertions disabled, `popPhase` at depth 0 would return -1 and the event lookup would throw; that is not modelled.
- ReadNString.GetString: reads of unmapped native memory are excluded by a precondition. The 64-bit wrap-around of `ptr + i` and `offset + i` is not modelled.
- ReadNString.Interop: the foreign read and its `ForeignToLLVM` conversion to a byte form one partial function. A failing conversion is not modelled.
- ParserResult: `toString` depends on the runtime's library object, which is not part of this model. The element types of the lists are type parameters.
- ParserResult: the four symbol lists are Java `List` references that callers share and could mutate, which would make the recorded `symbolTableSize` differ from the list sizes. The model holds them as immutable sequences, so this aliasing is not captured.
- ParserResult.LLVMParserResult.SetDependencies: the Java `assert` that the dependencies are unset is a precondition, and a `null` list, which Java accepts, is not modelled: the argument is always a list.

## Findings

| source | as written | input that shows it | evidently intended | confidence | as-written member | corrected member |
|---|---|---|---|---|---|---|
| substratevm/src/com.oracle.graal.reachability/src/com/oracle/graal/reachability/ReachabilityAnalysis.java:130 | `addRootMethod` makes the root invoked with `registerAsInvoked`, which posts no `onMethodInvoked` task, so the root is never resolved against subtypes instantiated before it, and a later `markMethodInvoked` returns early because the flag is already set | class 1 extends class 0 and overrides instance method 0; instantiate class 1, drain, then add method 0 as a root and drain: the override, method 1, is never implementation-invoked | make the root invoked through `markMethodInvoked`, so that `onMethodInvoked` runs for it like for any other invoked method and the closure holds for every invoked method | medium, not executed; `registerAsInvoked` is not part of this model | Reachability.RootMethodAfterSubtype | Reachability.Analysis.AddRootMethodDispatched |
