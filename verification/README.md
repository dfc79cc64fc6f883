# Halide's lowering passes: a verified model

Halide turns a pipeline of pure function definitions ("Funcs") and a schedule into loops. This project
models five of the passes that do it and proves what each is for.

* **Bounds** (`src/Interval.cpp`, `src/Bounds.cpp`, `src/BoundsInference.cpp`, `src/ClampUnsafeAccesses.cpp`).
  An abstract interpreter with symbolic ends: the interval an expression lies in, the box of points of
  every Func that a statement touches, the region on which each Func of a pipeline is computed, the
  values a Func can take, and the clamps that keep garbage in memory from reaching an index.
  Expressions are 32-bit integers (which the compiler takes never to overflow) and booleans. A theorem
  speaks of two worlds: the run, which gives the loop and let variables their values, and the outer
  world, in which the ends of intervals are evaluated. The prover, the simplifier and the equation
  solver are parameters of which only soundness is asked.
* **Common subexpression elimination** (`src/CSE.cpp`). Removing lets, numbering values by their last
  child, counting uses and rebuilding with lets, on a graph of shared nodes.
* **Async producers** (`src/AsyncProducers.cpp`). Ring buffers, widened acquires, and the split of a
  loop nest into a producer and a consumer that run as a transition system over semaphores.
* **Atomic updates** (`src/AddAtomicMutex.cpp`, `src/AssociativeOpsTable.cpp`). Which updates keep a lock - those of
  tuples - the index an update stores to, the lock for that index around it, and what any number of tasks that
  run such updates access by access leave in memory.
* **Loop splitting** (`src/ApplySplit.cpp`). Splits, fuses and renames with all their tails, what the
  definitions and bounds they produce compute, and what a whole list of them stores.

Where the source changes things step by step (the visitors, the mutators, `apply_split`, the loops of
bounds inference) there are classes and methods, each proved equal to a function of its inputs and of
the old state; the theorems are about those functions.

## How the files fit together

| files | what is there |
|---|---|
| `IR`, `Interval`, `BoundsRules`, `Bounds`, `BoundsVisitor` | expressions, intervals, one rule per operator, the interpreter and its soundness |
| `BoundsTight`, `BoundsFree` | ends that are reached; names the ends mention |
| `Box`, `Stmt`, `BoxesTouched`, `TrimOrder`, `BoxesVisitor`, `BoxesFilter` | boxes, statements, the visitor of statements, what is done to them before |
| `BoxesShape`, `BoxesKeep`, `BoxesSound` | well-formed boxes, boxes that only grow, boxes that hold every point touched |
| `BoxesFinish`, `BoxesFree`, `Shadowing` | when the visitor ends well; what its boxes mention; programs on which it is wrong |
| `BoundsInference`, `PipelineSound`, `PipelineValues`, `Pipeline`, `PipelineScoped` | a pipeline computed region by region |
| `FuncValues`, `ClampAccesses`, `PipelineClamped` | values of Funcs, clamped indexing |
| `CseTerms`, `CseGraph`, `CseNumbering`, `CseCounts`, `Cse`, `CseRoundTrip`, `CseSharing`, `Decimal` | common subexpression elimination |
| `AsyncStmt`, `AsyncExpand`, `AsyncFork`, `AsyncSplit`, `AsyncRun`, `AsyncResult`, `RingIndex`, `RingFork`, `RingReads`, `Arith` | async producers |
| `AtomicStmt`, `AtomicVisitors`, `AtomicRun`, `AtomicSerial`, `AtomicResult`, `AtomicUpdates` | atomic updates, one at a time in the order of locking |
| `AtomicTuple`, `AtomicMutexUse`, `AtomicSwap` | updates of tuples, which keep their lock |
| `AtomicOrder`, `AtomicCombine`, `AtomicPair`, `AtomicOps` | updates that combine: when the order of tasks does not matter |
| `ApplySplit`, `SplitOnce`, `SplitRuns`, `SplitNest` | loop splitting |
| `Option` | a value that may be missing |

## Model

In the order of the passes: bounds of expressions, boxes touched by statements, regions of a pipeline, values of
Funcs and clamped indexing, common subexpression elimination, async producers, atomic updates, loop splitting.

| member | source | states |
|---|---|---|
| Intervals.MakeMaxMeaning | src/Interval.cpp:18-41 | the rewrite rules for the larger of two ends keep the meaning: exactly the values above both are above it, exactly those under one are under it |
| Intervals.MakeMinMeaning | src/Interval.cpp:43-66 | the same for the smaller of two ends |
| BoundsRules.AddSound | src/Bounds.cpp:440-478 | the interval built for a sum holds every sum of values held by the operands' intervals |
| BoundsRules.SubSound | src/Bounds.cpp:480-524 | the interval built for a difference holds every difference of values held by the operands' intervals |
| BoundsRules.MulSound | src/Bounds.cpp:526-605 | the interval built for a product, with swapped constants and unknown signs, holds every product of values held by the operands' intervals |
| BoundsRules.DivSound | src/Bounds.cpp:607-722 | the interval built for a Euclidean quotient with x/0 = 0 holds every quotient of values held by the operands' intervals |
| BoundsRules.ModSound | src/Bounds.cpp:724-769 | the interval built for a Euclidean remainder with x%0 = 0 holds every remainder of values held by the operands' intervals |
| BoundsRules.SelectSound | src/Bounds.cpp:1027-1109 | the interval built for a select holds whichever of the two values is selected |
| Bounds.BoundsShape | src/Bounds.cpp:1828-1860 | the ends have the type of the expression, call no Func, and mention no name that the unique-name counter has yet to hand out |
| Bounds.BoundsSound | src/Bounds.cpp:401-1262 | for every well-typed expression, scope and run, every lane's value lies in the interval computed, with the ends evaluated in any outer world that agrees with the run outside the scope; in both the normal and the constant-bound mode |
| Bounds.LetOfSound | src/Bounds.cpp:1680-1746 | the same for a let, whose value's ends get two new names and are put back afterwards: nothing is captured |
| BoundsVisiting.BoundsVisitor.Visit | src/Bounds.cpp:401-1262 | the visitor that overwrites its interval field and pushes and pops its scope computes exactly that interval, and leaves the scope as it was |
| BoundsPrecision.BoundsReached | src/Bounds.cpp:440-1109 | the partner of soundness: where no variable in scope is read twice, both ends of the interval are values the expression takes for some choice of the variables in their intervals |
| BoundsFree.BoundsClosed | src/Bounds.cpp:1680-1746 | no temporary min or max name is left in an interval: the ends mention only free names of the expression outside the scope and names of the scope's and Func bounds' ends |
| Boxes.MergeKeeps | src/Bounds.cpp:1866-1941 | what lies in a dimension of either box lies in that dimension of the merged box, whatever conditions the boxes carry |
| Boxes.BoxCell.MergeFrom | src/Bounds.cpp:1866-1941 | merge_boxes in place: the dimensions, and the condition last, become those of the merged box |
| Boxes.BoxContainsSound | src/Bounds.cpp:2004-2033 | if box_contains answers yes, a point of the inner box lies in the outer one in exactly the dimensions whose outer interval is not plainly empty |
| Boxes.EmptyContainsAll | src/Bounds.cpp:2004-2033 | an outer box whose only dimension is empty is said to contain every inner box of one dimension |
| TrimOrders.TrimOrderMeaning | src/Bounds.cpp:2659-2735 | the search with an explicit stack finds each let that depends on the narrowed variable, directly or through other lets, once, and nothing else |
| BoxesVisiting.BoxesVisitor.Visit | src/Bounds.cpp:2498-3060 | the visitor that updates its boxes, scope, let values, children and nesting counts touches exactly what the function of the statement says, and leaves everything but the boxes as it found it |
| BoxesVisiting.BoxesVisitor.TrimScopePush | src/Bounds.cpp:2659-2735 | narrowing one variable gives every dependent let two new end names, and the scope those names |
| BoxesVisiting.BoxesVisitor.TrimScopePop | src/Bounds.cpp:2740-2783 | leaving the narrowed variable recomputes each dependent let, meets it with what was known before and wraps every box in it |
| BoxesFiltering.Filter.Mutate | src/Bounds.cpp:3076-3171 | the mutator with its relevance flag leaves out what does not concern the Func asked for, chains of lets as a whole, and its flag says whether anything does |
| BoxesFiltering.FilterKeepsTouches | src/Bounds.cpp:3076-3171 | in every run the filtered statement touches exactly the points of the Func asked for that the statement touches |
| BoxesFiltering.SolveIfThenElse.Mutate | src/Bounds.cpp:2061-2128 | the mutator with its stacks of depths solves each condition for the variable bound innermost, and restores them |
| BoxesFiltering.SolvedKeepsTouches | src/Bounds.cpp:2061-2128 | if the solver keeps values and calls, in every run the solved statement touches what the statement touches |
| BoxesFiltering.FindBoxes | src/Bounds.cpp:3074-3253 | the statement is filtered and its conditions solved; calls and stores are visited one after the other and their boxes joined |
| BoxesKeep.TouchStmtKeeps | src/Bounds.cpp:2498-3060 | a box only grows: what a dimension of a box holds before a statement it holds after it, though lets, conditions and loops have rewrapped the box |
| BoxesKeep.PopLetsMoves | src/Bounds.cpp:2740-2783 | moving the boxes out of the renamed lets keeps what they hold |
| BoxesSound.TouchStmtSound | src/Bounds.cpp:2498-3060 | inside any place of a program, each coordinate a run of the statement touches lies in its dimension of the box left behind |
| BoxesSound.BoxesTouchedSound | src/Bounds.cpp:3074-3255 | for every statement in which no name that a visible let's value mentions is bound again, no loop takes a visible let's name and no let's value mentions its own name, and for every run, every point called or stored lies in the box found for that Func, evaluated in the outer world, through lets, conditions that narrow variables, lets that depend on them, and loops |
| BoxesFiltering.PreparedBoxesSound | src/Bounds.cpp:3074-3253 | the same for the boxes found after filtering and solving: they hold every point of the Func asked for that a run of the statement as it was touches |
| BoxesFinishing.BoxesTouchedFinishes | src/Bounds.cpp:2498-3060 | a condition on the program alone under which the visitor ends well: scope intervals and bounds of called Funcs have both ends, and loop ends and let values are built from operations that keep it so |
| BoxesFinishing.TameBoxesSound | src/Bounds.cpp:3074-3255 | for such programs the boxes are found and hold every point touched, with no hypothesis about the outcome |
| BoxesFinishing.UnknownLoopAborts | src/Bounds.cpp:3001-3030 | a loop whose extent has no bound ends the visit with an error |
| BoxesFinishing.LargeLetExactly | src/Bounds.cpp:2580-2610 | of lets whose value has one infinite end and another that is a sum: an infinity becomes the value of a let exactly when the sum has ten variables or more, too many to be put in directly |
| BoxesFree.NothingMadeUpIsLeft | src/Bounds.cpp:2498-2638 | of every box left behind, whether a run touches it or not: its ends mention only free names of the statement outside the scope and names of the given ends, and its condition only the former |
| Shadowing.ReboundExactly | src/Bounds.cpp:2740-2783 | a program that rebinds, inside a let, a name the let's value mentions: its box holds all it stores exactly if the new value is the old one |
| Shadowing.LoopedExactly | src/Bounds.cpp:2740-2783 | a program whose inner loop takes the name of a let around it: its box holds all it stores exactly if the loop's range lies in the narrowed range of the outer variable |
| Shadowing.OwnExactly | src/Bounds.cpp:2498-2638 | a program with a let whose value mentions the let's own name: its box holds all it stores exactly if the narrowed variable's range holds zero |
| Shadowing.NoneIsOk | src/Bounds.cpp:2473-2496 | none of the three is among the statements the soundness theorem speaks of |
| BoundsInference.ComputeStages | src/BoundsInference.cpp:932-1022 | the loop over the stages collects, for each, the boxes its values require of other Funcs |
| BoundsInference.WrapBody | src/BoundsInference.cpp:1195-1220 | the loop that wraps the body puts the lets of later Funcs around those of earlier ones |
| PipelineSound.EndNamesDiffer | src/BoundsInference.cpp:830-837 | Func names have no dot, so the name of a region's end tells Func, argument and end |
| PipelineSound.RequiredCovers | src/BoundsInference.cpp:932-1022 | each coordinate at which a value calls a Func lies in the merged box of that Func, in every world in which the consumer's argument ranges over its region |
| PipelineSound.LetsHoldPoint | src/BoundsInference.cpp:642-670 | running the lets of define_bounds, in their order and with a single point's lower end referring to the upper one, leaves every point of the box between the ends' values |
| PipelineSound.WrapRuns | src/BoundsInference.cpp:440-680 | the wrapped body stores what the body stores in the world the lets make |
| Pipelines.CallsStayInside | src/BoundsInference.cpp:932-1022 | computing a Func at a point of its region calls only earlier Funcs, and these only at points of their regions |
| Pipelines.AskedIsComputed | src/BoundsInference.cpp:1024-1056 | every point asked of an output is in the region computed |
| Pipelines.EvalCallsAgree | src/BoundsInference.cpp:932-1022 | a value depends on memory only where it calls |
| Pipelines.DefinedAsWritten | src/BoundsInference.cpp:853-1056 | the unrestricted meaning of the pipeline satisfies every definition at every point |
| Pipelines.RegionsSuffice | src/BoundsInference.cpp:853-1056 | computing each Func on its region only, over any memory, gives on that region the values of the unrestricted definitions, for Func bounds that hold |
| Pipelines.PipelineComputed | src/BoundsInference.cpp:853-1056 | the same with the Func bounds the compiler finds, of which nothing more is assumed |
| Pipelines.ReadsOnlyComputed | src/BoundsInference.cpp:853-1056 | in the run that computes regions only, each point read while computing a Func lies in the region of an earlier one: nothing undefined is read |
| PipelineScoped.RegionClosed | src/BoundsInference.cpp:440-475 | the region's box mentions parameters and the ends of later Funcs' regions only |
| PipelineScoped.LetsScoped | src/BoundsInference.cpp:642-670 | every let that defines a region's end mentions only parameters, ends defined by lets outside it, or the upper end just defined |
| FuncValues.DefinitionValueBounds | src/Bounds.cpp:3313-3328 | the loop over specializations computes the joined interval |
| FuncValues.ComputeFunctionValueBounds | src/Bounds.cpp:3331-3382 | the loops over Funcs and outputs compute the bounds of each from those before |
| FuncValues.DefinitionHolds | src/Bounds.cpp:3313-3328 | whichever specialization is taken, the value lies in the interval, at any arguments |
| FuncValues.FuncBoundsHold | src/Bounds.cpp:3331-3382 | the bounds collected of Funcs, in any order, hold of every value they take, in every world that leaves alone the names the definitions use |
| ClampAccesses.ClampUnsafeAccesses.Mutate | src/ClampUnsafeAccesses.cpp:61-92 | the mutator, with its flag and its marks on let variables, rewrites as the function says and restores the flag |
| ClampAccesses.ClampHarmless | src/ClampUnsafeAccesses.cpp:61-81 | where Func bounds hold, clamping changes no value |
| ClampAccesses.ClampedMeaning | src/ClampUnsafeAccesses.cpp:61-92 | over any memory, the clamped expression makes exactly the calls - and inside indexing has exactly the values - of the original over memory forced into its bounds, lets included |
| ClampAccesses.ClampExactly | src/ClampUnsafeAccesses.cpp:94-96 | whatever 32 bits memory holds, what reaches an index lies in the Func's bounds exactly if both ends are known or the known one is no limit |
| ClampAccesses.IndexExactly | src/ClampUnsafeAccesses.cpp:61-81 | the same of the point at which the rewritten f(g(0)) calls f |
| ClampAccesses.MinIndexExactly | src/ClampUnsafeAccesses.cpp:61-96 | for f(min(g(0), c)) and a g with a lower end bounds inference finds a bounded index, and the rewritten call stays in it whatever 32 bits memory holds exactly if g has both ends, or its lower end or c is no limit |
| ClampAccesses.ShiftedExactly | src/ClampUnsafeAccesses.cpp:83-92 | a value that reaches an index through two lets is clamped exactly if the inner let does not take the outer one's name |
| PipelineClamped.ClampedReadsStayInside | src/ClampUnsafeAccesses.cpp:61-92 | with anything in memory, computing a clamped value at a point of its region calls only earlier Funcs at points of their regions, if no Func has bounds with one end only and no let's value mentions its own name |
| CseGraph.RemoveLets.Mutate | src/CSE.cpp:188-218 | the mutator over shared nodes returns a node that denotes the tree with its lets removed, and leaves every node it was given as it was |
| CseNumbering.GVN.Mutate | src/CSE.cpp:73-135 | numbering lists the subexpressions in the order of a first visit; the number returned is that of the expression |
| CseNumbering.NumberedExactly | src/CSE.cpp:73-135 | looked up only through the last child, the numbers still stand for exactly the different subexpressions, each once and after its children |
| CseCounts.CountUses | src/CSE.cpp:138-172 | the counting visitor, which does not enter what is already counted, counts for each entry its references from the entries reached |
| CseCounts.UsedAtLeastOnce | src/CSE.cpp:138-172 | whatever can be extracted and occurs is counted at least once |
| Cse.MakeUniqueName | src/CSE.cpp:299-305 | the name chosen is the first of the counter's that is not taken |
| Cse.Replacer.Mutate | src/CSE.cpp:174-186 | replaces from the outside inwards whatever has a name and remembers results |
| Cse.CommonSubexpressionElimination | src/CSE.cpp:262-349 | the whole pass, over the graph, is the function the theorems are about |
| CseRoundTrip.EliminateUndone | src/CSE.cpp:262-349 | for every expression: removing all lets from the result gives the tree that removing all lets from the expression gives |
| CseRoundTrip.EliminateKeepsValue | src/CSE.cpp:262-349 | hence the value is the same in every environment and for every meaning of the operations |
| CseRoundTrip.EliminateTwice | src/CSE.cpp:262-349 | for every expression: running the pass on its own result gives what running it on the expression gives |
| CseRoundTrip.EliminateScoped | src/CSE.cpp:317-344 | every let introduced mentions only earlier ones, and no new name is a free variable of the expression |
| CseSharing.ComputedOnce | src/CSE.cpp:317-344 | in the result each subexpression that should be extracted is computed exactly once |
| CseSharing.LetsUsedTwice | src/CSE.cpp:317-344 | a subexpression gets a let exactly if it is counted twice or more, and its name occurs exactly as often as it was counted |
| AsyncExpanding.ExpandKeepsTrace | src/AsyncProducers.cpp:834-934 | widening acquires leaves the events of every run of every statement as they were |
| AsyncForking.GenerateProducerBody.Mutate | src/AsyncProducers.cpp:118-299 | the mutator that pops semaphores produces the producer's statement and the semaphores left |
| AsyncForking.GenerateConsumerBody.Mutate | src/AsyncProducers.cpp:301-356 | the same for the consumer |
| AsyncSplitting.NestProducer | src/AsyncProducers.cpp:136-175 | round by round the producer's events are an acquire of the ring, what the original writes, and one release for each consume node |
| AsyncSplitting.NestConsumer | src/AsyncProducers.cpp:307-350 | round by round the consumer's events are its acquires, each before what that consume node reads, and a release of the ring |
| AsyncRuns.ConsumerReadsSequentially | src/AsyncProducers.cpp:414-459 | in every interleaving of two tasks of this form whose neighbouring rounds use different slots, the consumer reads what the rounds read one after the other |
| AsyncRuns.NoWriteWhileReading | src/AsyncProducers.cpp:414-459 | no slot is written while its reader has acquired it and not yet released it |
| AsyncRuns.NoOverwrite | src/AsyncProducers.cpp:414-459 | a read and a write of one slot are never both next |
| AsyncRuns.Progress | src/AsyncProducers.cpp:811-812 | until both tasks are done one of them can move |
| AsyncRuns.RaceExactly | src/AsyncProducers.cpp:811-812 | some interleaving ends in a race exactly if two neighbouring rounds, one reading and the other writing, share a slot |
| AsyncResults.ForkedRunIsSequential | src/AsyncProducers.cpp:414-459 | for every nest and every interleaving of its two halves: the reads of the original run, no race, no write while reading, and no deadlock |
| AsyncResults.ForkedRaceExactly | src/AsyncProducers.cpp:414-459 | the halves can race exactly if their slots do not alternate |
| RingIndexes.RingIndex | src/AsyncProducers.cpp:779-788 | the loop that builds the ring index computes the slot of the loop variables |
| RingIndexes.NeighboursDifferExactly | src/AsyncProducers.cpp:779-788 | for any number of loops: rounds that follow each other have different slots exactly under a condition on the loops' mins and extents and the ring's length |
| RingIndexes.FromZeroNeverRepeats | src/AsyncProducers.cpp:779-788 | inner loops from zero and a ring of two or more meet that condition |
| RingIndexes.TwoLoopsExactly | src/AsyncProducers.cpp:779-788 | for two loops the condition is that 1 minus the inner min is no multiple of the ring |
| RingForks.InjectedIsForkable | src/AsyncProducers.cpp:717-831 | adding the ring index to every access of the Func, and the acquire and release around it, gives a nest that can be forked and whose rounds use the copies the index names, through any loops, lets, conditionals, storage and other Funcs' nodes around |
| RingForks.RingBufferedForkIsSequential | src/AsyncProducers.cpp:750-831 | ring buffering and then forking: if neighbouring rounds use different copies, every interleaving reads what the ring-buffered nest reads, with no race and no deadlock |
| RingReads.RingKeepsReads | src/AsyncProducers.cpp:750-831 | ring buffering itself keeps the reads: if what each round reads depends only on what that round has written, the nest with its copies reads what the nest without them reads |
| RingReads.ForkReadsAsBefore | src/AsyncProducers.cpp:750-831 | so every interleaving of the forked nest reads what the nest reads before ring buffering and forking |
| RingForks.RingBufferedRaceExactly | src/AsyncProducers.cpp:750-831 | if every round writes and reads, some interleaving races exactly if two neighbouring rounds use one copy |
| RingForks.RoundsDifferExactly | src/AsyncProducers.cpp:779-788 | where the loops run through the same values whenever they are reached and no condition skips a round, neighbouring rounds use different copies exactly under the condition on the loops' mins and extents and the ring's length |
| RingForks.SteadyRunsThrough | src/AsyncProducers.cpp:779-788 | a condition on the statement alone for that: the loops' ends mention nothing bound on the way to the Func, and nothing on the way is conditional |
| RingForks.LoopsRaceExactly | src/AsyncProducers.cpp:750-831 | hence some interleaving races exactly if that condition fails |
| RingForks.TwoLoopsRaceExactly | src/AsyncProducers.cpp:779-788 | for a Func written and read in two loops, some interleaving races exactly if 1 minus the inner min is a multiple of the ring |
| RingForks.InnerFromOneRaces | src/AsyncProducers.cpp:779-788 | two rows, an inner loop from 1 and a ring of 2: a run that ends in a race |
| AtomicVisitors.CollectProducerStoreNames.Visit | src/AddAtomicMutex.cpp:16-36 | the visitor adds the names of all stores to the producer to its field |
| AtomicVisitors.FindProducerStoreIndex.Visit | src/AddAtomicMutex.cpp:40-87 | the visitor leaves in its field the index of the first store, with the lets it wraps around it |
| AtomicVisitors.CheckAtomicValidity | src/AddAtomicMutex.cpp:92-118 | an update is accepted exactly if the index found mentions no buffer that is stored to |
| AtomicVisitors.AddAtomicMutex | src/AddAtomicMutex.cpp:395-448 | the index goes into a new variable outside, the stores go to that variable, and a lock and an unlock of it go around |
| AtomicStmts.StmtResumed | src/AddAtomicMutex.cpp:395-448 | a statement that can be interrupted after each access, given the answers of a run alone, makes the accesses of that run and leaves the memory that executing it leaves |
| AtomicResults.IndexFound | src/AddAtomicMutex.cpp:40-87 | for updates whose stores use any set of index expressions that read nothing shared, with or without lets that the indices need: evaluated outside, the index found has the value one of the indices has inside, and it reads nothing shared |
| AtomicResults.UpdateIsValid | src/AddAtomicMutex.cpp:92-118 | such updates are accepted |
| AtomicUpdates.LoweredSteps | src/AddAtomicMutex.cpp:252-274 | where all index expressions of an update have one value, the lowered update reads what nobody writes, locks its index, accesses shared buffers at that index only, unlocks, and leaves the memory the original leaves |
| AtomicSerial.Serialisable | src/AddAtomicMutex.cpp:395-448 | for any tasks that keep to this discipline: every complete interleaving is, access by access, a run of the updates one at a time in the order of locking, each once and those of a task in their order |
| AtomicSerial.Progress | src/AddAtomicMutex.cpp:395-448 | until all tasks are done one of them can move |
| AtomicUpdates.UpdatesAreSerialisable | src/AddAtomicMutex.cpp:395-448 | for any number of tasks of any number of lowered updates: every complete interleaving leaves in memory what the updates as written leave one at a time in the order of locking |
| AtomicUpdates.UpdatesProgress | src/AddAtomicMutex.cpp:395-448 | and none gets stuck |
| AtomicOrders.SameInEveryOrder | src/AddAtomicMutex.cpp:395-448 | if each update combines values into the elements of a tuple at its index with an operator for which the order of operands does not matter, all complete interleavings leave the same memory |
| AtomicTuples.TupleExec | src/SplitTuples.cpp:133-310 | the lets and stores that an update of a tuple becomes store each new value, computed before any is stored, at the element's own index |
| AtomicTuples.TupleLoweredExactly | src/AddAtomicMutex.cpp:252-274 | lowering keeps the meaning of a tuple update over all contents of the buffers exactly if the indices of its elements agree |
| AtomicMutexUse.FindAtomicLetBindings.Visit | src/AddAtomicMutex.cpp:124-177 | the visitor with its name of the store around and its let bindings finds exactly the uses of stored buffers through lets |
| AtomicMutexUse.TupleKeepsMutex | src/AddAtomicMutex.cpp:180-207 | a tuple update keeps its mutex exactly if a new value reads one of the tuple's buffers |
| AtomicMutexUse.SingleLosesMutex | src/AddAtomicMutex.cpp:180-207 | a single store, whose value has no lets, does not |
| AtomicCombining.CombinationExec | src/SplitTuples.cpp:133-310 | a tuple update whose new values are a pattern of the table, of the elements at the index and of given values, applies the pattern's operator |
| AtomicCombining.CombinationsAgree | src/AddAtomicMutex.cpp:395-448 | for any number of tasks of such lowered updates and a pattern whose order of operands does not matter, all complete interleavings leave the same memory |
| AtomicPairs.TwoAgreeExactly | src/AddAtomicMutex.cpp:395-448 | of two tasks with one such update each, all complete interleavings leave the same memory exactly if their indices differ or the operator gives the same in both orders on what is there |
| AtomicOps.WrappingSum | src/AssociativeOpsTable.cpp:131-134 | sums of integers that wrap around, signed or not and of any width, are such an operator |
| AtomicOps.WrappingProduct | src/AssociativeOpsTable.cpp:136-139 | so are products that wrap around |
| AtomicOps.Extremes | src/AssociativeOpsTable.cpp:141-149 | so are minima and maxima |
| AtomicOps.WrappingComplexProduct | src/AssociativeOpsTable.cpp:188-194 | so are complex products of wrapping integers, of two elements |
| AtomicOps.PairAddExactly | src/AssociativeOpsTable.cpp:167-172 | the sum of pairs, which the table calls commutative, gives the same in both orders exactly if the two operands' second and first values differ by the same, wrapped |
| AtomicOps.ArgExactly | src/AssociativeOpsTable.cpp:178-186 | maximum and minimum with a place, which the table calls commutative, give the same in both orders exactly if no tie of the operands decides the place |
| AtomicOps.ArgMaxInterleavings | src/AssociativeOpsTable.cpp:178-181 | two tasks that look for a maximum and its place in one element: all complete interleavings agree exactly if no such tie decides |
| AtomicUpdates.LaterLetExactly | src/AddAtomicMutex.cpp:60-67 | an update followed by a let of the index variable's name is lowered to one that stores elsewhere, unless the let's value is the variable's |
| AtomicUpdates.OtherStoreExactly | src/AddAtomicMutex.cpp:252-274 | an update that also stores to another buffer keeps its meaning exactly if both stores have one index |
| AtomicSwaps.SwapKeepsMutex | src/AddAtomicMutex.cpp:180-207 | the update f(x) = {f(x)[1], f(x)[0]}, each element at (x - min) * stride of its own buffer, keeps its mutex |
| AtomicSwaps.SwapLoweredExactly | src/AddAtomicMutex.cpp:252-274 | and lowering keeps its meaning exactly if both buffers put x at the same index |
| AtomicSwaps.StridesDiffer | src/AddAtomicMutex.cpp:252-274 | contents of the buffers on which it does not: x is 1, both buffers start at 0 and have strides 1 and 2 |
| Splits.ApplySplit | src/ApplySplit.cpp:14-163 | the method that updates the alignments and appends to the results refuses exactly the directives the source refuses, and leaves the stated alignments and results |
| SplitPoints.SplitCovers | src/ApplySplit.cpp:27-128 | with every tail, each old value is that of some pair of new loops that stores |
| SplitPoints.SplitOnce | src/ApplySplit.cpp:27-128 | with a tail that guards, blends or divides, a pair that stores does so at an old value, and is the only pair that does |
| SplitPoints.EveryPointStored | src/ApplySplit.cpp:27-163 | for any list of directives, each old point is stored by the new point computed for it |
| SplitPoints.StoredOnce | src/ApplySplit.cpp:27-163 | and with exact tails by no other |
| SplitRuns.DirectiveRunsAs | src/ApplySplit.cpp:53-163 | running the lets, substitutions, predicates and blends produced for one directive does what the directive says |
| SplitNests.AlignmentKept | src/ApplySplit.cpp:27-52 | every recorded alignment divides the extent of its loop, before and after every directive |
| SplitNests.AllBounds | src/ApplySplit.cpp:168-203 | running the lets of the new loops' bounds gives every loop the range the directives say |
| SplitNests.RunsAsDirected | src/ScheduleFunctions.cpp:172-252 | running the results of a whole list, in their order, stores exactly where the directives say |
| SplitNests.NestStoresAsDirected | src/ScheduleFunctions.cpp:172-252 | hence the nest stores at an original point exactly if the directives send the loops there |
| SplitNests.EachPointIsStored | src/ApplySplit.cpp:14-203 | for every list of directives that is not refused the nest stores each original point |
| SplitNests.EachPointIsStoredOnce | src/ApplySplit.cpp:14-203 | with exact tails it stores each original point from one point of its loops only, and nothing else |

## Findings

Properties that the code does not have on all inputs. For each there is a lemma with inputs that show it, and
the exact condition.

| where | what happens | lemma |
|---|---|---|
| src/Bounds.cpp:2740-2783 | a box is too small when a name that a let's value mentions is bound again inside that let and a condition narrows a variable of the value: leaving the condition recomputes the value where the name means something else. With x in [0, 10], `let a = 100; let y = x + a; let a = 0; if (x < 5) f(y) = 0` stores to 102 at x = 2, and the box ends at 4 | Shadowing.ReboundExactly |
| src/Bounds.cpp:2740-2783 | the same when an inner loop takes the name of a let | Shadowing.LoopedExactly |
| src/Bounds.cpp:2498-2638 | the same when a let's value mentions the name the let binds | Shadowing.OwnExactly |
| src/Bounds.cpp:2580-2610 | a let with an infinite end and a large other end makes `Let::make` with an infinity as the value: the box is malformed, with no error raised | BoxesFinishing.LargeLetExactly |
| src/Bounds.cpp:3001-3030 | a loop whose extent has no bound ends with a user error about a cast of a handle: the infinity that stands for the missing end is a handle, and `operator+=` casts it to the type of the sum (src/IROperator.cpp:1654-1659, 1978-1986) | BoxesFinishing.UnknownLoopAborts |
| src/Bounds.cpp:2004-2033 | `box_contains` skips a dimension whose outer interval is empty, because such an interval has neither end, and answers yes | Boxes.EmptyContainsAll, Boxes.BoxContainsSound |
| src/ClampUnsafeAccesses.cpp:94-96 | a Func whose values have one known end is not clamped, although bounds inference used that end to bound the index: of f(min(g(0), 10)) with g at least 0 and no upper end, f is computed on [0, 10], and a negative number in memory reaches the index | ClampAccesses.MinIndexExactly, ClampAccesses.ClampExactly, ClampAccesses.IndexExactly |
| src/ClampUnsafeAccesses.cpp:83-92 | while a let's value is visited the let's own name is still bound, so a use of an outer variable of that name marks the wrong let, and what the outer let reads is not clamped | ClampAccesses.ShiftedExactly |
| src/AsyncProducers.cpp:779-788 | the ring index multiplies by extent minus min: when an inner loop does not start at zero, rounds that follow each other can use one slot, and the two tasks race | RingIndexes.NeighboursDifferExactly, RingForks.LoopsRaceExactly, RingForks.TwoLoopsRaceExactly, RingForks.InnerFromOneRaces |
| src/AddAtomicMutex.cpp:252-274 | every store of an update is given the index of the first one, but elements of a tuple are indexed with the strides of their own buffers, and of the output buffers of a tuple only mins and extents are tied to the first one's, not strides (src/AddImageChecks.cpp:516-545): with other strides the lowered update stores elsewhere | AtomicTuples.TupleLoweredExactly, AtomicSwaps.SwapLoweredExactly, AtomicSwaps.StridesDiffer |
| src/AssociativeOpsTable.cpp:167-186 | the sum of pairs {x0 + y0, x0 + y1} and maximum and minimum with a place are marked commutative, which is what an atomic update is accepted for (src/Func.cpp:504-508), but what is left depends on the order in which tasks get the lock | AtomicOps.PairAddExactly, AtomicOps.ArgExactly, AtomicOps.ArgMaxInterleavings |
| src/AddAtomicMutex.cpp:60-67 | a let that comes after the store, and not around it, is put around the index if it has the name of a variable of the index: the update stores elsewhere. Lowering does not get there, as names are made unique before (src/Lower.cpp:230) | AtomicUpdates.LaterLetExactly |
| src/AddAtomicMutex.cpp:252-274 | a store to another buffer is given the producer's index too. Lowering does not get there, as an atomic node holds the stores of one update (src/SplitTuples.cpp:313-316) | AtomicUpdates.OtherStoreExactly |

## Left out

Bounds:

- Floats, casts, unsigned and narrow integers, shifts and other bit operations, loads, shuffles, vector reductions,
  string and handle values, bounds of parameters, and the intrinsics of `visit(Call)` other than `abs`, `likely` and
  pure calls.
- `simplify`, `can_prove` and `solve_expression` are parameters; that the solver's answer is an equivalent condition
  and the others are sound is assumed. NothingMadeUpIsLeft also assumes that they add no free name, and that no
  given interval is plainly empty.
- `visit(For)` first looks for the loop's own `.loop_min` and `.loop_max` in the scope; the model always takes the
  bounds of the loop's min and extent.
- Predicated `Provide`, the `if_then_else` intrinsic, asserts, `unreachable`, extern stages and buffer copies are not
  statements of the model.
- Children of a variable are kept in the order of insertion and are put back exactly when a let is left; the source
  has sets ordered by name and erases what the let added. A trimmed let's two names are numbered once all trimmed
  lets are known; the source numbers them one by one.
- A malformed end (an infinity where an expression is wanted) is a status of the visit and not a value.
- At its end `boxes_touched` makes ends and conditions free of side effects (`purify_index_math`), which matters for
  divisions by zero only; in the model these have the value 0.
- PreparedBoxesSound assumes that a solved condition makes the calls of the condition. A block whose first part
  became a block is not reassociated.
- BoundsReached: for expressions that read no scoped variable twice, and not for `abs`, quotients, remainders, lets
  and ramps, whose intervals are wider than their values.
- Bounds inference is modelled for pure Funcs computed at the root: no update stages,
  specializations, inner compute levels, explicit bounds, fused groups, extern stages or inlining, no rewriting of
  selects, and the boxes of a Func's consumers are merged in realization order.
- Func value bounds: common subexpression elimination of the ends is part of the simplifier, and impure Funcs have no
  bounds, as is the case for 32-bit values.
- Clamping is modelled for expressions; the Funcs realized inside the current producer are given. A Func without
  bounds, for which the source fails, is left alone. ClampedReadsStayInside: the names in Func bounds are taken to
  differ from those of arguments, regions' ends and lets.
- `box_union`, `box_intersection`, `boxes_overlap` and `span_of_bounds`.

Common subexpression elimination:

- Statements (`CSEEveryExprInStmt`, which bundles the parts of a store) and the identity of operators: an operator is
  a name with a number of arguments, apart from those that decide whether an expression is worth a let.

Async producers:

- Nested async producers are only renamed apart; folding counters, `TightenProducerConsumerNodes`,
  `TightenForkNodes` and `InitializeSemaphores` are not modelled.
- RoundsDifferExactly and LoopsRaceExactly are about loops that run through the same values whenever they are
  reached, with no conditional on the way to the Func; for all other nests RingBufferedForkIsSequential and
  RingBufferedRaceExactly say it of the copies that the rounds use.
- Semaphores are counters: blocking, wake-ups and the thread pool are the steps of a transition system.

Atomic updates:

- The shape of an update: lets that the indices need and that read nothing shared, then stores, conditions and lets
  whose shared loads are at indices of the stores. Operators have two operands, or are a select.
- Where mutexes are allocated, nested atomic nodes, and updates without a mutex, which the code generators make a
  compare-and-swap loop or a read-modify-write of the machine.
- Of the table of associative operators: sums, products, minima and maxima of single values, and of pairs complex
  products, sums and extremes with a place; not the logical, saturating and larger ones.

Loop splitting:

- Names of loops that end like the names of loop bounds are excluded, as the source's naming takes for granted.
- EachPointIsStored: PredicateLoads, RoundUp and ShiftInwards may store a point several times, or round up beyond the
  old extent; of them it is stated that every point is stored.
- `likely_if_innermost` is `likely`; of `promise_clamped` it is assumed that it returns a
  value that is in the promised range.

Not modelled: `Associativity.cpp`, `AlignLoads.cpp`, `CPlusPlusMangle.cpp`, `AutoScheduleUtils.cpp`, and the code
generators.
