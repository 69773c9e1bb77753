# Ruju: a model with proofs

Ruju is a Rust rewrite of the Julia runtime with a small ahead-of-time compiler. This project models the
parts of it whose correctness is hardest to see and proves what they are for. Every proof is for all inputs,
all runs or all reachable states; nothing is bounded except where the source itself takes a bound.

**The collector.** `GcModel` is the generational collector over an abstract heap: two state bits per object, a
remembered set, and runs that interleave allocation, barriered stores, rooting and collections. `GcPages`,
`GcState`, `GcOps`, `GcSpace`, `GcMark`, `GcMarking`, `GcSweep` and `GcBigs` are the pooled heap: pages with free
lists threaded through headers and a bump cursor, size-class queues, released pages, big blocks, flags and
counts; `GcExtents` is about the bytes each object has to itself. `Collectors` is the collector that updates all this in place, each method proved to be a step of
the abstract model. `Runtimes` is a mutator with its root stack over it, whose steps form a run of the model.
An object is named by the offset of its header; its references are its type and then its fields.

**The compiler's back end.** `Cfgs`, `Rpo`, `Dominators` and `Shapes` analyse a control-flow graph;
`Relooper`, `Walkers`, `Structured` and `FlatCode` turn it into nested loops, blocks and branches (Ramsey,
"Beyond Relooper", ICFP 2022) and show that these, and the flat list they are emitted as, mean the same
(section 4.4.5 of the WebAssembly Core Specification 1.0). `Fixtures` is the SSA program, `IrRuns` its meaning on its nodes, `Wasm` the target
machine with its program counter, operand stack and label stack, `Emit`, `Compile`, `Emitters` and `Pipeline`
the emission of statements, φ-moves, control and the shadow stack frame; `Instructions` proves, end to end, that
the instruction list `Pipeline.EmitFunction` returns computes what the SSA program says.

**Lowering and interpreting.** `Sources` gives the meaning of structured source with exceptions, `Interps`
the flat code and its machine, `Lowerings` the translation; `Simulation`, `StmtSimulation` and `Programs`
prove that they agree in both directions. `Variables` is about variables a program
does not name and programs run in turn. `Lowerers` and `Evaluators` are the lowerer and the loop as they work in
place.

**The union-decision machine.** `UnionStates` is the lazily grown bit counter in 32-bit words, `Decisions`
the argument that counting up misses nothing, `UnionSearch` the two nested driver loops and the traversals,
`GroundTypes` the structural definition of subtyping and how far they decide it, `UnionLimits` the inputs on
which they do not.

**Companions.** `Arrays` (growth with its amortised bound), `Unions` (normalizing a union), `Layouts`
(struct layout and field access).

Where code and comments differ the code is followed: `object::alloc` is documented to return zero-filled data
but writes only the header, so a new object's references are taken from its caller.

## Model

| member | source | states |
|---|---|---|
| `GcModel.SetRefKeepsInv` | runtime/src/gc.rs:617-633 | a barriered store keeps the whole invariant: queued exactly when remembered, once; old-marked objects refer only to objects with the mark bit; everything with the mark bit lies in a closed allocated set; nothing is marked after a full collection |
| `GcModel.NewObjectKeepsInv` | runtime/src/object.rs:92-116 | allocation keeps it; the new object joins the set the mutator may go on using |
| `GcModel.MarkedIsClosed` | runtime/src/gc.rs:745-777 | after marking, the marked objects are closed under references, although old-marked objects are skipped and never traced |
| `GcModel.CollectKeepsInv` | runtime/src/gc.rs:924-967 | a quick or full collection keeps the invariant, with the marked set as the new closed set |
| `GcModel.ReachableSurvives` | runtime/src/gc.rs:745-777 | everything the roots reach survives a collection with its references unchanged |
| `GcModel.FullLeavesOld` | runtime/src/gc.rs:906-941 | after a full collection every survivor is OLD and the remembered set is empty |
| `GcModel.SurvivorAges` | runtime/src/gc.rs:788-941 | the state a survivor gets: old after a full collection; after a quick one a young object is old, a promoted one stays promoted, an old one is promoted or queued if the roots reach it and only if the roots or the remembered set do, a remembered one is promoted or queued again |
| `GcModel.YoungGarbageGoes` | runtime/src/gc.rs:796-905 | a quick or full collection frees every young object that neither the roots nor the remembered objects reach |
| `GcModel.NextIsExact` | runtime/src/gc.rs:745-777 | the collection after a full one, quick or full, leaves exactly the objects the roots reach |
| `GcModel.RunIsGood` | runtime/src/gc.rs:617-967 | the invariant holds in every state of every run from the empty heap, under any interleaving of allocation, stores, rooting, unrooting and collections |
| `GcModel.RunIsSafe` | runtime/src/gc.rs:617-967 | in every run nothing the roots reach is freed by any step, and collections leave its references alone |
| `GcModel.RunKeepsQueue` | runtime/src/gc.rs:617-633 | in every state of every run state 1 means remembered, without duplicates, and state-3 objects have only children with the mark bit |
| `GcModel.RunIsExactAfterFull` | runtime/src/gc.rs:906-941 | in every run, after a full collection and any mutator steps, the next collection leaves allocated exactly what the roots reach |
| `GcPages.TakeCellOk` | runtime/src/gc.rs:553-571 | taking a cell, from the free list or the cursor, gives one that held no object, aligned and inside the page, and keeps the page consistent |
| `GcPages.PageCounts` | runtime/src/gc.rs:238-266 | on a consistent page live and free counts add up to the capacity |
| `GcPages.ResetPageOk` | runtime/src/gc.rs:492-503 | a reset page is consistent whatever stale headers it holds, and has room |
| `GcPages.FreeCellIsClean` | runtime/src/gc.rs:476-484 | a free cell, whose header holds a link, reads as clean, so a sweep never takes it for a survivor |
| `GcPages.MarkedCellsAreObjects` | runtime/src/gc.rs:836-841 | the cells below the cursor that read as marked are exactly the marked objects of the page |
| `GcPages.WalkPage` | runtime/src/gc.rs:829-854 | the walk of a page keeps exactly the marked objects, moves their states on, threads all other cells onto a free list without repetition and counts both |
| `GcPages.WalkedPageOk` | runtime/src/gc.rs:857-867 | the walked page with its new counts is consistent again |
| `GcMark.MarkRestore` | runtime/src/gc.rs:755-761 | restoring a remembered object to state 3, tracing it and remembering it again if it has a young child keeps the mark invariant |
| `GcMark.MarkVisit` | runtime/src/gc.rs:766-775 | marking and tracing an unmarked work item keeps the mark invariant |
| `GcMark.MarkDone` | runtime/src/gc.rs:745-777 | with no work left the phase has marked the roots and all children of scanned objects, nothing unreached, and rebuilt the remembered set |
| `GcOps.StoreKeepsValid` | runtime/src/object.rs:131-136 | on the pooled heap a barriered store keeps all structure and is the model's store |
| `GcOps.TakenIsNew` | runtime/src/gc.rs:553-571 | the cell taken for a new object is no object of any page and no big object |
| `GcOps.AllocOnPageKeepsValid` | runtime/src/gc.rs:553-571 | taking a cell and writing its header keeps pages, queues, flags and counts right and is the model's allocation |
| `GcSpace.PopQueue` | runtime/src/gc.rs:518-524 | dropping an exhausted page from its queue keeps every page with room queued |
| `GcSpace.EmptyQueueIsFull` | runtime/src/gc.rs:517-525 | a class whose queue is empty has no page with room |
| `GcSpace.RecycleKeepsValid` | runtime/src/gc.rs:525-551 | a released page joins a class: structure kept, no object gained or lost |
| `GcSpace.FreshKeepsValid` | runtime/src/gc.rs:529-551 | a page carved from the region lies apart from all pages and blocks and keeps the table sorted |
| `GcSpace.RoomInFreeBlock` | runtime/src/gc.rs:449-454 | a free block recorded at the requested size stays apart from every page and block |
| `GcSpace.RoomInRegion` | runtime/src/region.rs:63-71 | fresh space lies apart from every page and block |
| `GcSpace.AllocBigKeepsValid` | runtime/src/gc.rs:449-465 | a big object is new and its allocation keeps the structure and is the model's allocation |
| `GcMarking.StartMarking` | runtime/src/gc.rs:745-755 | what page flags say between collections is what marking needs at its start |
| `GcMarking.NoteFlags` | runtime/src/gc.rs:598-608 | after a full sweep `nold` counts exactly the old objects marked on the page; a young mark sets `has_young` |
| `GcMarking.StateRestore` | runtime/src/gc.rs:755-761 | the restore step on headers is the abstract restore step |
| `GcMarking.StateVisit` | runtime/src/gc.rs:766-775 | the visit step on headers, pages and the remembered set is the abstract visit step |
| `GcSweep.ReleaseSwept` | runtime/src/gc.rs:807-816 | a page on which nothing was marked holds no survivor |
| `GcSweep.SkipSwept` | runtime/src/gc.rs:819-823 | skipping a page with no young cell and a settled old count loses nothing and leaves no young garbage; after a full sweep `prev_nold == nold` only when every object on the page is marked |
| `GcSweep.WalkSwept` | runtime/src/gc.rs:836-867 | a walked page has the marked objects as survivors and flags that are right for the next cycle |
| `GcSweep.SweepNext` | runtime/src/gc.rs:796-874 | sweeping one page disturbs no other page and no big object |
| `GcSweep.ReleasePools` | runtime/src/gc.rs:808-814 | releasing a page keeps the queues and the list of released pages exact |
| `GcBigs.BlocksAfter` | runtime/src/gc.rs:886-917 | no big block is lost or duplicated by the sweep |
| `GcBigs.BigsLeft` | runtime/src/gc.rs:886-917 | exactly the marked big objects are left, settled ones included |
| `GcBigs.SweptValid` | runtime/src/gc.rs:788-922 | after the whole sweep the heap is consistent for the mutator |
| `GcBigs.SweptAbs` | runtime/src/gc.rs:788-922 | on the abstract heap the sweep frees only unmarked objects, the young ones always and all of them when it or the one before is full, and moves states on |
| `GcBigs.RequeuedIsAfterSweep` | runtime/src/gc.rs:931-941 | sweep and requeue together are the model's sweep |
| `GcBigs.LiveIsCount` | runtime/src/gc.rs:433-435 | `live` is the number of allocated objects |
| `SizeClasses.SizeClass` | runtime/src/gc.rs:440-443 | the smallest class that holds the size, among all classes; none exactly above 2032 |
| `SizeClasses.ClassIsGood` | runtime/src/gc.rs:218-225 | every class a header-carrying allocation can get is a multiple of eight that fits a page |
| `Collectors.PageOf` | runtime/src/gc.rs:576-593 | the binary search gives what a linear search gives: the page in use that covers the offset, or none |
| `Collectors.Collector.constructor` | runtime/src/gc.rs:366-382 | the reset heap is consistent and empty |
| `Collectors.Collector.QueueRoot` | runtime/src/gc.rs:630-633 | the parent becomes queued and is appended to the remembered set |
| `Collectors.Collector.SetField` | runtime/src/object.rs:131-136 | the store, with its barrier, is the model's store, keeps the heap consistent and every object its bytes |
| `Collectors.Collector.PoolFor` | runtime/src/gc.rs:468-474 | the pool of the class, appended only when there is none |
| `Collectors.Collector.QueuedPage` | runtime/src/gc.rs:517-524 | a queued page with room; without one, no page of the class has room |
| `Collectors.Collector.RecycledPage` | runtime/src/gc.rs:525-551 | a released page is reset for the class: it is a page of that class with room, and no object moves or changes size |
| `Collectors.Collector.CarvedPage` | runtime/src/gc.rs:529-551 | a fresh page inside the region: it is a page of that class with room, and no object moves or changes size |
| `Collectors.Collector.FindPage` | runtime/src/gc.rs:517-551 | a page with room whose cells have the size asked for, or none exactly when the class has no room, no page is released and none can be carved; no object moves or changes size |
| `Collectors.Collector.TakeOnPage` | runtime/src/gc.rs:553-571 | the exact new state when a cell is taken |
| `Collectors.Collector.FirstFit` | runtime/src/gc.rs:449-461 | the first large enough free block, else fresh space, apart from everything; null exactly when neither exists |
| `Collectors.Collector.BigAlloc` | runtime/src/gc.rs:449-465 | a new big object recorded with its size rounded up, or null exactly when there is no room |
| `Collectors.Collector.Alloc` | runtime/src/object.rs:92-116 | a new object distinct from all others with the given type and references, or null exactly when there is no room; its bytes hold header and data and are the smallest class or block that does; every other object keeps its references and its bytes |
| `Collectors.Collector.AnyYoung` | runtime/src/gc.rs:727-735 | whether some reference is to an object without the old bit |
| `Collectors.Collector.MarkObject` | runtime/src/gc.rs:598-608 | sets the mark bit and notes it on the page that holds the object, if one does |
| `Collectors.Collector.RestoreObject` | runtime/src/gc.rs:755-761 | one turn of the loop over the remembered set |
| `Collectors.Collector.MarkRest` | runtime/src/gc.rs:762-776 | the work list is worked off; it ends because each visit marks an unmarked object |
| `Collectors.Collector.Mark` | runtime/src/gc.rs:745-777 | the loops over the remembered set and the work list have the effect of the abstract mark phase, and move no object |
| `Collectors.Collector.Enqueue` | runtime/src/gc.rs:868-873 | the page is queued for its class exactly when it was not |
| `Collectors.Collector.ReleasePage` | runtime/src/gc.rs:807-816 | the page is released and leaves its queue |
| `Collectors.Collector.WalkAndQueue` | runtime/src/gc.rs:824-873 | the page is swept by walking it, and queued if anything was freed |
| `Collectors.Collector.SweepPage` | runtime/src/gc.rs:796-874 | one page is released, skipped or walked; its survivors are counted |
| `Collectors.Collector.SweepPages` | runtime/src/gc.rs:796-874 | all pages are swept and their survivors summed |
| `Collectors.Collector.SweepYoungBigs` | runtime/src/gc.rs:886-905 | young big objects stay young as old, settle or are freed by their state; survivors are counted |
| `Collectors.Collector.MergeOldBigs` | runtime/src/gc.rs:906-913 | settled big objects become old and join the young list |
| `Collectors.Collector.Sweep` | runtime/src/gc.rs:788-922 | the whole sweep |
| `Collectors.Collector.Requeue` | runtime/src/gc.rs:935-941 | remembered objects are queued again |
| `Collectors.Collector.Collect` | runtime/src/gc.rs:924-967 | a collection on the pooled heap is a collection of the model, keeps the heap consistent and each survivor its bytes, lets the mutator go on with all the roots reach, and returns the number of objects reclaimed, which never underflows |
| `GcExtents.ExtentInside` | runtime/src/gc.rs:238-266 | an object's bytes lie inside one page, between its start and its cursor, or apart from every page, and inside the region |
| `GcExtents.ExtentsApart` | runtime/src/gc.rs:509-572 | the bytes of two objects, of any classes or big, have none in common |
| `GcExtents.ExtentMeetsNoFree` | runtime/src/gc.rs:268-308 | they have none in common with a free cell or a free block either |
| `GcExtents.KeepsExtent` | runtime/src/gc.rs:509-572 | taking cells, pages and blocks leaves older objects their bytes |
| `GcExtents.LeftKeepsExtent` | runtime/src/gc.rs:788-922 | so does a sweep for those it leaves |
| `Runtimes.BytesAreOwn` | runtime/src/gc.rs:229-308 | in every consistent heap, so in every state of a run: an object's bytes are inside its page or block and the region, apart from every other object, every free cell and every free block |
| `Runtimes.Runtime.Alloc` | runtime/src/gc.rs:509-572 | one attempt of the mutator: null exactly when there is no room, with no object changed; otherwise a new object, as a step of a run of the model, in the smallest class or block that holds header and data, while all others keep their bytes |
| `Runtimes.Runtime.AllocObject` | runtime/src/object.rs:92-116 | an attempt, preceded by a collection when the heap has reached its target and followed, under exhaustion, by a quick collection, an attempt, a full collection and an attempt: nothing the roots reach is lost, changed or resized on the way, the new object is none of it and has room for header and data, null means no room remained after the full collection, and no collection is run that is not called for |
| `Runtimes.SparedTwice` | runtime/src/object.rs:97-107 | what the roots reach is still reached, with its references and its bytes, after one collection and so after several |
| `Runtimes.Runtime.SetField` | runtime/src/object.rs:131-136 | its store replaces that one reference and is a step of that run; no object changes its bytes |
| `Runtimes.Runtime.PushRoot` | runtime/src/gc.rs:125-129 | a root is pushed: a step of that run |
| `Runtimes.Runtime.PopRoot` | runtime/src/gc.rs:144-147 | the last root is popped: a step of that run |
| `Runtimes.Runtime.Collect` | runtime/src/gc.rs:924-967 | after a collection everything the roots reach is allocated, on no free list, no released page and in no free block, with its references and bytes unchanged; young survivors are reached from roots or remembered objects, all survivors when the one before was full; each survivor has the state its age calls for |
| `Runtimes.AllocatedIsInUse` | runtime/src/gc.rs:268-308 | in a consistent heap an object is on no free list, no released page and in no free block |
| `Runtimes.PageIsExact` | runtime/src/gc.rs:229-266 | live and free counts add up to capacity, the free count is list plus virgin cells, the list repeats nothing and holds no object, a page with room is queued, `live` is the number of objects |
| `Rpo.ReversePostorder` | aotc/src/relooper.rs:223-245 | the depth-first search lists exactly the reachable blocks, once each, entry first, each later block entered from an earlier one, and each retreating edge closed by an ascent |
| `Dominators.Intersect` | aotc/src/relooper.rs:274-284 | the climbs end at the nearest common ancestor |
| `Dominators.MeetOfPreds` | aotc/src/relooper.rs:257-264 | the meet of the defined predecessors |
| `Dominators.Pass` | aotc/src/relooper.rs:256-269 | a pass that changes something lowers a measure; one that changes nothing has found the dominator tree |
| `Dominators.Idoms` | aotc/src/relooper.rs:249-272 | the iteration ends, with every block's true immediate dominator |
| `Dominators.SettledIsDominatorTree` | aotc/src/relooper.rs:249-272 | a fixed point above all dominators is the dominator tree |
| `Dominators.DominatesBlock` | aotc/src/relooper.rs:286-297 | the walk up the tree decides path dominance |
| `Shapes.BadEdgeIsIrreducible` | aotc/src/relooper.rs:87-100 | a retreating edge whose target does not dominate its source makes the graph irreducible, whatever the order |
| `Shapes.GoodEdgesAreReducible` | aotc/src/relooper.rs:87-100 | if all retreating edges go to dominators the graph is reducible |
| `Shapes.CheckEdges` | aotc/src/relooper.rs:91-100 | marks loop headers or reports an edge that breaks reducibility |
| `Shapes.FindMerges` | aotc/src/relooper.rs:101-106 | merge nodes are those with two forward in-edges |
| `Shapes.BuildChildren` | aotc/src/relooper.rs:108-116 | children of each block in the dominator tree, sorted by position |
| `Shapes.NewShape` | aotc/src/relooper.rs:75-119 | accepts exactly the reducible graphs all of whose blocks are reachable, and then the shape is the true one |
| `Relooper.InlineTargetIsChild` | aotc/src/relooper.rs:205-209 | each inlined target has the branching block as its immediate dominator |
| `Relooper.MergeParentDominates` | aotc/src/relooper.rs:156-164 | the parent of a merge node dominates every block that branches forward to it |
| `Relooper.WalkSucceeds` | aotc/src/relooper.rs:122-220 | the walk of an accepted graph never reports a missing branch target |
| `Relooper.WalkEmitsEveryBlock` | aotc/src/relooper.rs:126-210 | a block's statements are emitted two to the n times, where n counts the conditional branches that place it, or a dominator of it, inline from both their arms |
| `Relooper.WalkEmitsEveryBlockOnce` | aotc/src/relooper.rs:171-209 | every block is emitted exactly once if and only if no conditional branch places one block inline from both its arms |
| `Relooper.EmitsTwice` | aotc/src/emit.rs:316-327 | a graph from such edge lists is accepted and its second block is emitted twice |
| `Walkers.Walker.Run` | aotc/src/relooper.rs:122-124 | the walk with its frame stack leaves the stack as it was and emits the flattened tree |
| `Walkers.Walker.WalkTree` | aotc/src/relooper.rs:126-147 | opens a loop frame for a header and closes it again |
| `Walkers.Walker.WalkNode` | aotc/src/relooper.rs:149-185 | one block frame per merge child, the last outermost |
| `Walkers.Walker.WalkBranch` | aotc/src/relooper.rs:187-210 | a branch to the right frame, or the target inline |
| `Walkers.Walker.FindFrame` | aotc/src/relooper.rs:212-219 | the depth of the innermost such frame |
| `Structured.CodeFollowsGraph` | aotc/src/relooper.rs:126-210 | for every meaning of the leaves: the emitted code visits the blocks the graph visits with the same states, never falls off its end, and a run with too little fuel has followed the graph, to the same state, for more blocks than the fuel |
| `Structured.GraphFollowedByCode` | aotc/src/relooper.rs:126-210 | every terminating run of the graph is a terminating run of the code |
| `Structured.HaltIsFinal` | aotc/src/relooper.rs:126-210 | a halted run is the same at every later count |
| `FlatCode.SkipsCode` | aotc/src/relooper.rs:126-185 | opens and closes balance: looking for a matching close passes over any emitted piece of code |
| `FlatCode.Follows` | aotc/src/relooper.rs:126-210 | a machine with a program counter and a label stack, run on the flat list of events, does what the nested code does |
| `FlatCode.FlatFollowsGraph` | aotc/src/relooper.rs:126-210 | for every meaning of the leaves the flat list of events stops where the graph halts, with the same state and blocks, never runs into what follows it, and with any fuel has otherwise gone further than the fuel, to the graph's state |
| `Emit.TablesAreInjective` | aotc/src/emit.rs:345-383 | statements have their own locals and slots, below the helper locals and the frame size |
| `Emit.SetRuns` | aotc/src/emit.rs:150-165 | storing a result updates its local and mirrors a reference in its shadow slot |
| `Emit.StmtRuns` | aotc/src/emit.rs:181-228 | each statement's code has the effect of the statement on values, world and shadow slots |
| `Emit.EdgeRuns` | aotc/src/emit.rs:230-258 | where emission accepts an edge, its sequential φ-moves have the effect of the simultaneous assignment |
| `Compile.PassedIsEdge` | aotc/src/emit.rs:230-241 | the edge's effect is that each φ of the target takes the value its node lists for the block left |
| `Compile.HazardIs` | aotc/src/emit.rs:242-253 | an edge is refused exactly when some φ there takes, from the block left, a φ of the same block |
| `Compile.NextIsFollowing` | aotc/src/emit.rs:329-343 | the block control goes to is the one the last node of the block names: the destination of a goto, the next block when the condition of a goto-if-not holds and its destination when not, the successor listed for any other node, none for a return |
| `Compile.IrIsGraph` | aotc/src/emit.rs:316-343 | so the runs of the graph with its terminators are the runs of the SSA program, defined on its nodes alone |
| `Emit.ShadowIsRefs` | aotc/src/emit.rs:150-165 | whenever the machine represents an SSA state, the shadow stack is the outer frames' slots followed by the current value of every reference local, 0 if never assigned |
| `Fixtures.RefIsShown` | aotc/src/emit.rs:345-366 | those are the values of all statements that produce a reference, φs included |
| `Emit.ReturnRuns` | aotc/src/emit.rs:281-298 | a return pushes the result, restores the shadow top, leaves outer slots untouched and every parameter and SSA local at its value |
| `Emit.PrologueRuns` | aotc/src/emit.rs:397-423 | after the prologue the machine represents the initial state, slots zeroed |
| `Instructions.EndIsLaid` | aotc/src/emit.rs:168-179 | in the emitted instructions the `end` that matches from any point is the one emitted for the close that matches in the walk |
| `Instructions.ElseIsLaid` | aotc/src/emit.rs:277-279 | the same for the `else` of an if |
| `Instructions.EventMatched` | aotc/src/emit.rs:168-299 | whatever the walk asks for, running the instructions emitted for it moves program counter, label stack and operand stack as the walk's frames prescribe, computes the SSA state it prescribes and starts on no other block's statements |
| `Instructions.RunMatched` | aotc/src/emit.rs:168-299 | so for whole runs of the event list, and the instructions run are no fewer but for events that leave none |
| `Instructions.EmittedFollowsIr` | aotc/src/emit.rs:385-470 | the emitted function, prologue, body and trailing trap, under a program counter, an operand stack and a label stack: for any allowance it has returned what the SSA program returns, or is still going after more steps than the allowance and represents the SSA state after more blocks than the allowance; the blocks it has started on are those of the SSA run, in order |
| `Instructions.EmittedNeverTraps` | aotc/src/emit.rs:462-470 | no step of any call traps: no instruction is stuck, no branch misses its label, the trailing trap is never reached |
| `Instructions.EmittedReturnsIffIrHalts` | aotc/src/emit.rs:385-470 | a call returns exactly when the SSA program halts |
| `Instructions.EmittedReturnsIrResult` | aotc/src/emit.rs:385-470 | then it returns its result, with its world, every parameter and SSA local at its SSA value, the shadow top back at its entry value and the callers' slots untouched, after starting on the same blocks |
| `Instructions.EmittedComputesIr` | aotc/src/emit.rs:303-470 | all of this, the blocks started on included, for every host, caller, memory and arguments, against the SSA program as its nodes define it |
| `Emitters.BuildTables` | aotc/src/emit.rs:345-383 | the loop that assigns locals and slots computes the tables, and fails exactly on a value of unsupported type |
| `Emitters.FnEmitter.StoreSsa` | aotc/src/emit.rs:150-165 | appends the store of a result |
| `Emitters.FnEmitter.BlockStmts` | aotc/src/emit.rs:181-228 | appends a block's statements |
| `Emitters.FnEmitter.CheckHazard` | aotc/src/emit.rs:230-253 | fails exactly when a move reads a φ of the target block |
| `Emitters.FnEmitter.EdgeMoves` | aotc/src/emit.rs:230-258 | appends the φ-moves of an edge |
| `Emitters.FnEmitter.Ret` | aotc/src/emit.rs:281-298 | appends a return |
| `Emitters.FnEmitter.OnEvents` | aotc/src/emit.rs:168-299 | appends, for the events of the walk, the code whose runs are described above, or records a failure |
| `Pipeline.EmitFunction` | aotc/src/emit.rs:303-470 | a typed method is accepted exactly when its graph is reducible, all blocks are reachable and no edge has a φ that reads a φ of its own block; every call of the returned instruction list never traps, returns exactly when the SSA program, run on its nodes, halts, and returns its result after starting on the same blocks |
| `Lowerings.StmtNames` | runtime/src/frontend.rs:680-688 | lowering renumbers no variable and never shares a slot |
| `Simulation.ExprSim` | runtime/src/frontend.rs:695-710 | an expression's code computes its value or raises its exception at the innermost handler, and touches no variable |
| `StmtSimulation.AssignSim` | runtime/src/frontend.rs:752-757 | assignment |
| `StmtSimulation.IfSim` | runtime/src/frontend.rs:789-800 | the branch taken and the jump over the other |
| `StmtSimulation.WhileSim` | runtime/src/frontend.rs:801-810 | every repetition of the loop, and a step of the machine for each |
| `StmtSimulation.TrySim` | runtime/src/frontend.rs:811-836 | a raised exception is bound and handled; on either path the handler and exception stacks end as they were |
| `StmtSimulation.HandlerSim` | runtime/src/interp.rs:357-374 | the handler from the point where the exception lands, whatever was left on the exception stack above it |
| `StmtSimulation.FinallySim` | runtime/src/frontend.rs:765-780 | the cleanup on both paths |
| `StmtSimulation.CleanupSim` | runtime/src/interp.rs:589-601 | when the cleanup completes, the interrupted exception is raised again even if the cleanup caught others |
| `StmtSimulation.BlockSim` | runtime/src/frontend.rs:742-748 | a block and the operand that holds its value |
| `StmtSimulation.StmtSim` | runtime/src/frontend.rs:750-836 | every statement: normal completion leaves handler and exception stacks exactly as found and the variables as the source says; an exception is at its handler; fuel exhausted keeps the machine going |
| `Programs.SourceIsMatched` | runtime/src/frontend.rs:864-880 | every terminating source program is matched by the interpreter: same value or uncaught exception, same variables, exception stack as it was |
| `Programs.MachineIsMatched` | runtime/src/interp.rs:339-664 | whenever the interpreter stops it has finished, never stuck, and the source ends the same way |
| `Programs.DivergeTogether` | runtime/src/interp.rs:339-664 | the source runs forever exactly when the interpreter does |
| `Programs.CanSeed` | runtime/src/interp.rs:344-348 | a starting frame exists for every program and environment |
| `Lowerers.Lower.constructor` | runtime/src/frontend.rs:864-869 | an empty lowerer |
| `Lowerers.Lower.SlotFor` | runtime/src/frontend.rs:680-688 | the variable's slot, new on first use |
| `Lowerers.Lower.Patch` | runtime/src/frontend.rs:856-861 | gives a jump its target |
| `Lowerers.Lower.Expression` | runtime/src/frontend.rs:695-710 | appends an expression's code |
| `Lowerers.Lower.Statements` | runtime/src/frontend.rs:742-748 | appends a block |
| `Lowerers.Lower.Statement` | runtime/src/frontend.rs:750-836 | appends a statement with its jumps patched |
| `Lowerers.Lower.LowerIfStmt` | runtime/src/frontend.rs:789-800 | two patched jumps give the branches their targets |
| `Lowerers.Lower.LowerWhileStmt` | runtime/src/frontend.rs:801-810 | the patched exit and the jump back |
| `Lowerers.Lower.LowerTryStmt` | runtime/src/frontend.rs:811-836 | region, bound handler, and the pop of its exception |
| `Lowerers.Lower.LowerFinallyStmt` | runtime/src/frontend.rs:765-780 | the cleanup twice, the second before a rethrow |
| `Lowerers.LowerSource` | runtime/src/frontend.rs:864-880 | a program's code and slots |
| `Evaluators.Evaluator.StepOnce` | runtime/src/interp.rs:375-664 | one turn of the loop is one step of the machine |
| `Evaluators.Evaluator.Divert` | runtime/src/interp.rs:357-374 | to the innermost handler, or out of the frame |
| `Evaluators.Evaluator.Run` | runtime/src/interp.rs:350-664 | the loop is the machine run |
| `Evaluators.Seed` | runtime/src/frontend.rs:930-936 | each variable in its slot |
| `Evaluators.Flush` | runtime/src/frontend.rs:937-946 | variables with a value are written back, others keep their binding |
| `Evaluators.EvalSource` | runtime/src/frontend.rs:923-950 | a source program through lowering, seeding and the loop gives the source's answer, and on success every global is the final variable, or what it was if the program leaves it null or does not name it; on failure no global changes; there is no answer exactly when the run from the seeded frame needs more turns than the limit |
| `Evaluators.EvalInTurn` | runtime/src/frontend.rs:923-950 | two programs evaluated in turn, each seeing the other's globals, end with the value, where the second is not empty, and the globals of the one program made of both, unless a variable that had a value is left null |
| `Variables.ProgramKeeps` | runtime/src/frontend.rs:926-936 | a program does not touch a variable it does not name |
| `Variables.BlockAlike` | runtime/src/frontend.rs:930-946 | a program cannot tell an unset variable from a null one |
| `Variables.AppendRuns` | runtime/src/frontend.rs:742-748 | a program made of two runs the first and then, if it completes, the second |
| `Evaluators.EnoughTurns` | runtime/src/frontend.rs:923-950 | a source run that ends has a number of turns from which on every limit gives an answer |
| `UnionStates.GetPut` | runtime/src/subtype.rs:143-159 | setting a bit of the word store changes that bit and no other, growing it as needed |
| `UnionStates.UnionState.PickDecision` | runtime/src/subtype.rs:271-284 | reads the bit at the cursor or discovers a 0 there; a 0 becomes the deepest open choice |
| `UnionStates.UnionState.Next` | runtime/src/subtype.rs:257-266 | cuts the string at the deepest open choice and turns it; false exactly when there is none |
| `Decisions.OnlyReadBits` | runtime/src/subtype.rs:271-299 | a traversal depends only on the bits it reads |
| `Decisions.NextMissesNone` | runtime/src/subtype.rs:257-284 | every string below the next one is below this one or agrees with it on all bits read |
| `Decisions.FailedBelowNext` | runtime/src/subtype.rs:487-512 | after a failed attempt every right string below the next has failed |
| `Decisions.MatchedBelowNext` | runtime/src/subtype.rs:466-480 | after a successful pass every left string below the next has been matched |
| `UnionSearch.PickElement` | runtime/src/subtype.rs:288-299 | descends a union spine to the arm the bits pick |
| `UnionSearch.Search.Walk` | runtime/src/subtype.rs:514-573 | a traversal of any decision tree reads its bits in order and reaches the answer they lead to |
| `UnionSearch.Search.Sub` | runtime/src/subtype.rs:514-573 | the comparison of ground types, fast paths included, is the traversal of its decision tree |
| `UnionSearch.Search.SubMember` | runtime/src/subtype.rs:555-572 | one member of the left against the right |
| `UnionSearch.Search.SubBase` | runtime/src/subtype.rs:607-674 | two types that are not unions |
| `UnionSearch.Search.WalkChain` | runtime/src/subtype.rs:1328-1336 | climbing the supertypes decides whether a chain of declared supertypes leads from one nominal type to the other |
| `UnionSearch.Search.SubTuple` | runtime/src/subtype.rs:1443-1506 | elements in turn up to the first failure |
| `UnionSearch.Search.ExistsSubtype` | runtime/src/subtype.rs:487-512 | ends, and succeeds exactly when some right string leads to a true leaf under the present left string |
| `UnionSearch.Search.ForallExistsSubtype` | runtime/src/subtype.rs:466-480 | ends, and is true exactly when for every left bit string some right bit string reaches a true leaf, for every finite decision tree |
| `GroundTypes.EgalIsEqual` | runtime/src/subtype.rs:2194-2243 | obvious equality is equality |
| `GroundTypes.InUnionIsBelow` | runtime/src/subtype.rs:2248-2258 | obvious membership implies subtyping |
| `GroundTypes.NominalBelowIsChain` | runtime/src/subtype.rs:1328-1336 | a nominal type is below exactly those that a chain of declared supertypes leads to |
| `GroundTypes.WinsAllIsForallExists` | runtime/src/subtype.rs:466-512 | when left choices come first, the two loops decide "every left choice, some right choice" |
| `GroundTypes.BelowIsAnswered` | runtime/src/subtype.rs:466-573 | on all ground types and whatever the fast paths recognise, a left type structurally below the right one is answered so |
| `GroundTypes.TreeDecidesBelow` | runtime/src/subtype.rs:466-573 | where no left union is met after a right choice, the query holds exactly when every left member is structurally below some choice of right arms |
| `GroundTypes.SpineIsLeftFirst` | runtime/src/subtype.rs:515-543 | which is so when left unions are on the spine |
| `GroundTypes.PlainIsLeftFirst` | runtime/src/subtype.rs:551-567 | and when the right type has no unions |
| `UnionLimits.BelowIsCovered` | runtime/src/subtype.rs:466-573 | what is structurally below is below for every choice of the left unions' arms |
| `UnionLimits.AnswersMoreThanStructure` | runtime/src/subtype.rs:466-573 | a tuple of a union against the union of the tuples: answered, and below for every choice, though not by structure |
| `UnionLimits.AnswersTooMuch` | runtime/src/subtype.rs:515-613 | with a left union met after a right choice that skips another, a query is answered that fails for one choice of left arms |
| `UnionLimits.AnswersTooLittle` | runtime/src/subtype.rs:515-613 | and one is refused that holds for every choice |
| `GroundTypes.BelowTransitive` | runtime/src/subtype.rs:466-573 | structural subtyping is transitive, through unions on either side and inside tuples |
| `UnionSearch.Subtype` | runtime/src/subtype.rs:378-387 | the whole query, on all ground types: it never misses what is structurally below, and decides it where no left union is met after a right choice; between nominal types it holds exactly along chains of declared supertypes |
| `Arrays.GrowthPays` | runtime/src/array.rs:111-122 | six times the capacity pays for every copy so far and the next |
| `Arrays.GrowthIs` | runtime/src/array.rs:111-119 | a capacity grows to four, then to the whole part of three halves of it below 48 and of six fifths from there |
| `Arrays.GrowArray.constructor` | runtime/src/array.rs:66-81 | an array of zero cells |
| `Arrays.GrowArray.Get` | runtime/src/array.rs:85-90 | the element, or a bounds error |
| `Arrays.GrowArray.Put` | runtime/src/array.rs:93-98 | replaces one element, or a bounds error |
| `Arrays.GrowArray.Reallocate` | runtime/src/memory.rs:204-215 | the live prefix in a fresh zeroed buffer |
| `Arrays.GrowArray.GrowEnd` | runtime/src/array.rs:104-134 | appends zero cells; the buffer is kept if it is large enough and otherwise grows by that rule, or to the length asked for if that is more; fails, changing nothing, exactly when the size does not fit or the buffer is refused; total copying stays within six times the capacity |
| `Arrays.GrowArray.DelEnd` | runtime/src/array.rs:138-148 | drops the tail and zeroes it, or a bounds error |
| `Arrays.GrowArray.Push` | runtime/src/array.rs:152-157 | appends one element |
| `Arrays.GrowArray.CopiesAreLinear` | runtime/src/array.rs:104-134 | all copying so far is linear in the greatest length the array has had |
| `Arrays.PushAll` | runtime/src/array.rs:152-157 | pushes from empty give the sequence pushed, at a linear number of cells copied |
| `Unions.Flatten` | runtime/src/types.rs:888-895 | the leaves of a union spine in order |
| `Unions.DropCovered` | runtime/src/types.rs:851-867 | everything but bottom stays covered by something kept, and nothing kept has a reason to go |
| `Unions.KeptIsAntichain` | runtime/src/types.rs:851-873 | no survivor is below another, equal ones included |
| `Unions.AntichainIsDistinct` | runtime/src/types.rs:879-880 | survivors are distinct, so removing duplicates removes none |
| `Unions.BuildUnion` | runtime/src/types.rs:899-910 | a right-nested union with these members |
| `Unions.UnionOf` | runtime/src/types.rs:840-885 | for any comparison that is a preorder of the components with bottom least: members come from the parts, none is below another, every component but bottom is below one, and they are sorted by any strict order given; bottom exactly when there is no other component |
| `Unions.BelowIsPreorder` | runtime/src/types.rs:1234-1236 | whatever agrees with structural subtyping on the components is such a preorder |
| `Unions.Answers` | runtime/src/types.rs:856-867 | the subtype engine's answers for all pairs of components, each agreeing with structural subtyping |
| `Unions.GroundUnionOf` | runtime/src/types.rs:840-885 | with the engine's answers the result is the least upper bound of the parts |
| `Layouts.LayoutIsSound` | runtime/src/types.rs:1310-1331 | fields are aligned, in order, disjoint and inside a size that is a multiple of the struct's alignment |
| `Layouts.NestedIsSound` | runtime/src/types.rs:1276-1302 | parts of nested inline structs, at any depth, are aligned and inside wherever an aligned copy is placed |
| `Layouts.FieldHolds` | runtime/src/types.rs:1276-1302 | a primitive has its own size and that alignment within 1 and 8; a struct whose layout holds no reference has that layout's size and alignment; anything else is a reference of four bytes |
| `Layouts.LayoutHolds` | runtime/src/types.rs:1310-1331 | each field is at the least multiple of its alignment after the field before, and the size is the least multiple of the greatest alignment after the last |
| `Layouts.PointersAreReferences` | runtime/src/types.rs:1323-1325 | the pointer list is exactly the reference fields |
| `Layouts.ComputeFieldOffsets` | runtime/src/types.rs:1310-1331 | the loop computes exactly that layout, with each field's size and kind, and the list of the reference fields' offsets in order |
| `Layouts.Instance.SetField` | runtime/src/types.rs:1445-1458 | the field set reads as the new value, every other as before |
| `Layouts.Instance.GetField` | runtime/src/types.rs:1464-1492 | reads the field's bytes |

## Left out

- Collectors.Collector.Alloc: takes the new object's references from its caller, because the source writes only the header and the caller fills the fields in before the next collection; collecting and retrying on exhaustion is `Runtimes.Runtime.AllocObject`.
- Collectors.Collector.Collect: takes the roots as a list; which runtime structures supply them is not modelled, nor is the policy that chooses quick or full.
- Runtimes.Runtime.Alloc: the mutator uses only objects it could reach after the last collection or has allocated since; which Rust callers root what is not modelled.
- Runtimes.Runtime.AllocObject: whether the runtime is bootstrapped, the heap is at its target and the next collection is full are parameters, because the policy that computes them is not modelled; what the caller will put into the object is rooted across the call.
- GcSpace.RoomInFreeBlock: states that blocks stay apart, not that bytes are conserved, because a recycled block is recorded at the requested size.
- Heap sizes in bytes, promotion statistics and the count of pages walked: they do not affect which objects live.
- Emit.PrologueRuns: assumes the shadow stack has room for the frame, as the emitted prologue does not test it.
- Emit.StmtRuns: intrinsic arithmetic, allocation and field reads of the runtime are a parameter with their types.
- Pipeline.EmitFunction: takes typed fixtures whose destinations count from one, whose block lists have the edges their terminators have and whose φs lead their blocks; parsing, literal syntax, the boxed wrapper, binary encoding and validation of modules are left out.
- Wasm.StepInsn: memory accesses do not run out of bounds, and blocks and loops have no parameters or results, as in all emitted code.
- Programs.SourceIsMatched: covers literals, variables, operators, `throw`, assignment, `if`, `while`, `try`/`catch`/`finally`; structs, arrays, calls and the parser are left out. Primitive operations are a parameter that may raise.
- Programs.MachineIsMatched: says nothing of the exception stack after an uncaught exception, where entries may remain.
- Evaluators.EvalSource: takes a number of turns, because the loop need not end; `Evaluators.EnoughTurns` says when it suffices. An unassigned variable reads as null.
- Evaluators.EvalInTurn: leaves out runs that set a variable with a value to null, because null is not written back and the old binding stays; values of the source language are not null.
- UnionSearch.Subtype: where a left union lies under a tuple and is met after a right choice, only one half is promised. There the machine decides neither structural subtyping nor its extension to every choice of left arms, because one left bit can stand for different unions under different right choices; `UnionLimits` has the inputs.
- Unions.GroundUnionOf: takes parts whose components hold no unions inside, because on others the engine's answers need not be a preorder; the engine is asked for all pairs first and not in the course of the loops.
- Type variables, `where` types, invariant parameters, varargs and `Type{T}` in the subtype engine, and its lossy heuristics.
- Unions.UnionOf: takes the comparison that orders members as a parameter; the source's comparison ties distinct members, and the order among tied ones is not stated.
- Layouts.ComputeFieldOffsets: takes primitive sizes whose alignment is a power of two, as all primitive types have, and models masking as rounding up; 32-bit overflow of offsets is not modelled.
- Arrays.GrowArray.Push: elements are of the array's type; a wrongly typed element would grow the array before its store fails.
- Machine integers are unbounded in the heap and lowering models; offsets stay below the region's size by proof, and counts below the number of cells.
