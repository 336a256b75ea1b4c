# Wyvern, verified

Wyvern makes the arguments of C and C++ functions lazy.  At a call whose argument is expensive and may
not be needed it cuts the backward slice that computes the argument out of the caller, outlines it as a
*delegate* function, passes a *thunk* instead of the value, and rewrites caller and callee so that every
use of the argument becomes a call through the thunk, which may keep its value.

This project models that transformation in Dafny and proves what it is for: **the program that passes a
thunk does what the program that passes the value did** (`EndToEnd.LazificationPreservesMeaning`), for
every function in the form the passes require, every call, every run and every number of steps, under
conditions that are stated and, where they concern control flow, shown to be exact, each with a function that
violates it.

`dafny verify dfyconfig.toml` checks everything.

## What is modelled

*The fragment.*  `Ir` is SSA form: blocks with phis, instructions and a `br`, `switch`, `ret` or
`unreachable` terminator, phis with their incoming blocks.  `Graphs` states dominance and post-dominance
over paths; a dominator tree is a value that the passes query, `Graphs.ValidTree` says what it must be, and
`Graphs.DominatorTreeExists` that there is one.  `Machine` gives programs a meaning: one step runs a
basic block, operations are left open, memory is a map; `Machine.BranchesLead`, `Machine.PhisAtOnce` and
`Machine.BodyInOrder` say what a step does.

*The slicer.*  `Gates` computes which terminators gate a phi, `Dependences` closes the worklist over
operands and gates, `Attractors` maps blocks to their nearest post-dominator in the slice, `Slices` puts
the three together.

*The outliner.* `Outliner.Delegate` is the new function, filled and rewritten stage by stage as in the original;
`Delegates` says what it must come to, `DomBranches` and `Retargeting` hold the reasoning about the two passes over
branches.  `SliceMeaning`, `Contents`, `Terminators` and `Parameters` say of a finished slice and delegate what they
hold, in terms of the instructions, branches and parameters of the function and of paths through it, and
`ThunkPassing` and `EarlyReturns` do so of the rewritten caller and of the search.  `Rerouting` proves when the
control flow that results is right, `Simulation`, `RunSimulation` and `Delegation` that the delegate then computes the
criterion.

*Thunks.*  `Thunks` is the memory of a thunk and the life it leads, `Memoization` the code that is put around
a delegate to keep its value.

*The rewriting.*  `UseRewriting` and `Lazyfication.Rewriter` are the two loops over the uses of a value,
`Lazyfication.Pass` the pass with its cache of clones.  `Forcing`, `CallByNeed`, `CallerSide`, `HomeBlock` and
`CallerRuns` prove that rewritten code runs in step with the code it came from; `WholeProgram` and `EndToEnd`
join this with the delegate, `Meanings` and `Transfer` show that what they ask of thunk calls and lazy calls can always be
met, and `QuietRuns` says which runs allow a thunk.

*The search.*  `Promising` is the depth-first search for functions that may not use an argument, and the
proof that it looks at just the blocks in which the rewriting places calls.

*The profile.*  `Profile` is the runtime with its shadow stack, `CallTrees` what it counts against the calls
that really happened, `ProfileFile` and `RoundTrip` the file written and read, `Instrumentation` the ids that
link a record to its call.

*Examples.* `Counterexample`, `SearchLoop` and `SwitchGap` are functions the passes accept and get wrong, one for each
condition on control flow below, and `EarlyWrite` is one for the condition on memory; `Crossing` is a function that
shows which of two attractors is taken; `Examples` holds what they share.

## What the theorems assume

Of the function, whatever its run:

* One block returns, every block is reachable and reaches it, and definitions dominate uses: what the
  passes run before slicing establish (`passes/FindLazyfiable.cpp:166-177`).
* The criterion is computed at most once in a run: its block is on no cycle.
* **One outcome** (`Rerouting.OneOutcome`): where the slice leaves a terminator out, every path that goes on into
  the slice meets the same slice block first; a target of a sliced branch meets the slice in one place, and on
  every path if on any.  This is not a matter of course.  Gates take only the nearest dominator the
  predecessor does not post-dominate, so the middle branches of a short-circuit condition are never sliced, and
  `Counterexample.ShortCircuitReturnsWrong` gives the run on which the delegate returns another value than its caller
  computes.  `Rerouting.ControlFlowExact` proves the condition to be exact.
* **Switches are covered** (`Rerouting.SwitchCovered`): the fallback gives a terminator to a block that ended in a
  branch, and to none that ended in a switch.  `Rerouting.TerminatorExact` proves this to be exact, and
  `SwitchGap.SwitchIsNotCovered` gives a function with one outcome for which a block of the delegate ends in nothing.
* **The slice is entered once** (`Rerouting.EntersOnce`): the slice block a run meets first is on no cycle.  The
  original takes for the entry a block that has no predecessor, and dereferences a null pointer if there is none
  (`passes/ProgramSlice.cpp:743-751`).  `Rerouting.EntryExact` proves that, with one outcome and switches
  covered, there is one exactly if the slice is entered once.  `SearchLoop.SearchHasNoEntry` gives a loop with two exits
  for which the other conditions hold and this one does not.

Of the run, and of no other (`WholeProgram.RunAllows`):

* Wherever a use stands that becomes a thunk call, in the caller or in a callee that is passed the thunk, the sliced
  instructions the run had come by compute over the memory of that moment, at the operands they had, what they computed,
  and write nothing.  With memoization this is asked only until the thunk has been called for the first time.
* The calls that are passed the thunk finish, as the callee does when it is run.

`QuietRuns.QuietRunAllows` shows that these hold for every run in which no instruction that is executed, in the caller or in
the calls that get the thunk, writes a location the sliced instructions read.  The original decides this with alias
analysis, for the caller; of what the call itself writes it asks nothing (`passes/ProgramSlice.cpp:498-500`).
`EarlyWrite.WriteComesFirst` shows what becomes of a callee that writes before it uses its argument, and
`EarlyWrite.AllowedExactly` that for this pair of functions the condition is exact.

Of the operations: that a call through a thunk runs the function that was emitted for it, and the lazy form of a call the
clone (`Meanings.Means`).  `EndToEnd.LazifiedCanBeMeant` shows that this can always be had, with memoization and without,
whatever the other operations mean, and `EndToEnd.LazificationIsSound` states the main theorem without assuming it.

Three findings deserve mention.  The count of calls the runtime keeps is the number of calls plus one, as a new
record starts at 1 and is incremented at once; the profile ratio is a little lower than it looks.  A comment
(`passes/ProgramSlice.cpp:266-268`) calls an attractor the first dominator of a block; the code computes the nearest
post-dominator, and this is what is modelled.  And a profile file survives its reader if and only if no function
name has a comma; line breaks in names do no harm.  `RoundTrip.CommaMisread` is a record that comes back as that of
another instruction of another function.

## Model

| member | source | states |
|---|---|---|
| `Graphs.DominatorTreeExists` | passes/ProgramSlice.cpp:78-80 | Every rooted graph has a dominator tree, so what the passes assume of the trees they query can be met; dominance itself is stated over paths. |
| `Graphs.DomAntisym` | passes/ProgramSlice.cpp:39-51 | Two blocks that dominate each other are the same block. |
| `Graphs.PostDomIsFlippedDom` | passes/ProgramSlice.cpp:269-297 | Post-dominance is dominance in the reversed graph, so one notion of tree serves both queries. |
| `Gates.GetController` | passes/ProgramSlice.cpp:39-51 | The walk returns the nearest dominator of the block that the block does not post-dominate, and nothing if there is none. |
| `Gates.ControllerUnique` | passes/ProgramSlice.cpp:39-51 | There is at most one such controller. |
| `Gates.ControllerBranches` | passes/ProgramSlice.cpp:39-69 | A controller has two different successors, in every graph whose blocks all lie between entry and exit: the assertion on unconditional terminators never fires on this path. |
| `Gates.DecidingPredBranches` | passes/ProgramSlice.cpp:84-91 | A predecessor that dominates a block not post-dominating it has two different successors: the assertion never fires on the other path either. |
| `Gates.GetGate` | passes/ProgramSlice.cpp:55-69 | The gate of a block is its terminator; the precondition is the original's assertion, and every caller proves it. |
| `Gates.GateVia` | passes/ProgramSlice.cpp:84-98 | For one predecessor the gate is that predecessor if it decides, else its controller, and in both cases a block with a condition. |
| `Gates.ComputeGates` | passes/ProgramSlice.cpp:74-105 | The gates of every block with several predecessors are exactly the terminators that decide by which predecessor it is entered. |
| `SliceMeaning.GatesSay` | passes/ProgramSlice.cpp:74-105 | Said of dominance alone: no gates for a block with one edge into it; else exactly, for every edge into it, the terminator of its source if that dominates the block and is not post-dominated by it, and otherwise of the nearest dominator of the source that the source does not post-dominate. |
| `Dependences.DataDependences` | passes/ProgramSlice.cpp:112-152 | The worklist ends on every input, although gates are queued without being marked visited, and returns the least set that holds the criterion and is closed under operands and gates, with exactly the parents of its instructions and the incoming blocks of its phis. |
| `Dependences.VisitValue` | passes/ProgramSlice.cpp:121-149 | One turn of the worklist keeps that everything collected is needed, that everything needed is collected or queued, and makes the measure smaller. |
| `Dependences.QueueGates` | passes/ProgramSlice.cpp:143-147 | Gates that were not visited are queued, and stay unvisited. |
| `Dependences.LeastIsUnique` | passes/ProgramSlice.cpp:112-152 | The result does not depend on the order of the queue: two least closed sets are equal. |
| `Dependences.LeastHasUser` | passes/ProgramSlice.cpp:112-152 | Every value collected, except the criterion, is an operand or gate of another collected value. |
| `SliceMeaning.DependencesSay` | passes/ProgramSlice.cpp:112-152 | Said of the instructions: the slice holds all parameters and results any of its instructions reads, the gates of its phis, and nothing that no instruction of it reads or is gated by. |
| `SliceMeaning.DependencesLeast` | passes/ProgramSlice.cpp:112-152 | Every set of values with the criterion in it that is closed in this sense holds the slice. |
| `SliceMeaning.BlocksSay` | passes/ProgramSlice.cpp:126-141 | The slice blocks are those that hold an instruction of the slice, and those from which one of its phis is entered. |
| `Attractors.FindAttractor` | passes/ProgramSlice.cpp:283-294 | The walk up the post-dominator tree finds the nearest post-dominator in the slice if and only if some slice block post-dominates the block. |
| `Attractors.ComputeAttractors` | passes/ProgramSlice.cpp:269-297 | The map is defined at a block exactly if some slice block post-dominates it; it is the block itself if that is in the slice, else the post-dominator that all others of the slice post-dominate. |
| `Attractors.AttractorUnique` | passes/ProgramSlice.cpp:269-297 | A block has at most one attractor. |
| `SliceMeaning.AttractorsSay` | passes/ProgramSlice.cpp:269-297 | Said of post-dominance alone: where an attractor is defined, and that it is a slice block every other such block post-dominates. |
| `Slices.MakeSlice` | passes/ProgramSlice.cpp:154-190 | Gates, dependences, slice blocks and attractors of a criterion, each exact. |
| `Arrivals.TargetRight` | passes/ProgramSlice.cpp:439-464 | Sending a branch target to its attractor is right on every path if and only if every path from it meets the same slice block first, and none avoids the slice once one can meet it. |
| `Arrivals.AlwaysMeansAttractor` | passes/ProgramSlice.cpp:269-297 | A block that meets the slice in one place has an attractor if and only if it cannot avoid the slice. |
| `Arrivals.NearestChildIsFirst` | passes/ProgramSlice.cpp:301-320 | If only one slice block can be met first on leaving a block, any slice block it is the nearest slice dominator of is that block. |
| `SliceFacts.SliceBlockReachesHome` | passes/ProgramSlice.cpp:112-152 | The criterion's block can be reached from every slice block. |
| `SliceFacts.HomeDoesNotEnd` | passes/ProgramSlice.cpp:755-761 | If the criterion's block is on no cycle its terminator is not sliced, so replacing it by a return loses nothing. |
| `SliceFacts.SliceBlockLeadsOn` | passes/ProgramSlice.cpp:301-416 | A slice block without a sliced terminator, other than the criterion's, strictly dominates a slice block or has one among its successors. |
| `Outliner.Delegate.PopulateBlocks` | passes/ProgramSlice.cpp:664-680 | There is one empty clone for every slice block, in the order of the set. |
| `Outliner.Delegate.PopulateBBsWithInsts` | passes/ProgramSlice.cpp:684-694 | Every clone holds exactly the sliced instructions of its block, in order. |
| `Contents.KeptInOrder` | passes/ProgramSlice.cpp:684-694 | Of two stretches of code the sliced instructions of the first are kept, then those of the second. |
| `Contents.KeptIfSliced` | passes/ProgramSlice.cpp:684-694 | A single instruction is kept if and only if it is in the slice. |
| `Contents.CloneHoldsBody` | passes/ProgramSlice.cpp:684-798 | In whatever is built, a clone has its sliced instructions in order, with the same operations; each operand is the original's, or, if that is the k-th parameter of the slice, slot k of the environment. |
| `Contents.CloneHoldsPhis` | passes/ProgramSlice.cpp:684-798 | The same of phis: they take these values, from the clones of the blocks they took them from. |
| `Contents.CloneHoldsTest` | passes/ProgramSlice.cpp:684-798 | The same of the conditions of sliced terminators; a switch keeps its labels. |
| `Outliner.Delegate.ReorganizeUses` | passes/ProgramSlice.cpp:700-720 | After it all incoming blocks of all phis are clones. |
| `Outliner.Delegate.AddDomBranches` | passes/ProgramSlice.cpp:301-320 | Every clone without a terminator that is the nearest slice dominator of some slice block gets a branch to such a block, and nothing else changes. |
| `Outliner.Delegate.ReplaceIncoming` | passes/ProgramSlice.cpp:438-445 | Replacing an incoming block while branches are rerouted changes nothing: no phi names an original block any more. |
| `Outliner.Delegate.RetargetSuccs` | passes/ProgramSlice.cpp:417-475 | Each target of a sliced branch or switch that is a block of the original becomes the clone of its attractor, or the unreachable block if it has none; other targets stay. |
| `Outliner.Delegate.BranchToAttractor` | passes/ProgramSlice.cpp:380-416 | A block that still lacks a terminator gets a branch to the attractor of the false target it had, or of the true one if only that has one; of the only target, if it had one; a switch gets nothing. |
| `Terminators.SlicedBranchLeads` | passes/ProgramSlice.cpp:417-475 | In whatever is built of a slice, a sliced terminator is of the same kind, and each target is the clone of the attractor of the original target, or the unreachable block. |
| `Terminators.UnslicedBranchLeads` | passes/ProgramSlice.cpp:301-416 | A terminator that is not sliced became a branch to a slice block whose nearest slice block above is this one, if the block strictly dominates a slice block; otherwise a branch to the attractor of the false target, or of the true one if only that has one; otherwise nothing. |
| `Terminators.BuiltIsClosed` | passes/ProgramSlice.cpp:348-485 | Every block that is built leads to blocks that are built. |
| `Terminators.DeadIsKept` | passes/ProgramSlice.cpp:373-378 | The unreachable block is there if and only if some sliced terminator has a target without attractor, and holds nothing else. |
| `Crossing.CrossedIsAccepted` | passes/FindLazyfiable.cpp:166-177 | A short-circuit condition whose arms have phis of their own is in the form the passes require. |
| `Crossing.FalseTargetsAreTaken` | passes/ProgramSlice.cpp:382-395 | In every delegate built for the phi behind it, the block that goes to `c` or else to `z` is sent to `z`, and the one that goes to `z` or else to `c` to `c`. |
| `Outliner.Delegate.RerouteBranches` | passes/ProgramSlice.cpp:348-485 | Every clone ends as specified, and the unreachable block is kept if and only if some branch leads there. |
| `Outliner.Delegate.AddReturnValue` | passes/ProgramSlice.cpp:755-764 | The clone of the criterion's block returns the criterion, whatever its terminator was. |
| `Outliner.Delegate.ReorderBlocks` | passes/ProgramSlice.cpp:743-751 | The last block of the layout without predecessors is moved to the front, if there is one; the others keep their order. |
| `Outliner.Delegate.InsertLoadForThunkParams` | passes/ProgramSlice.cpp:768-798 | Loading the parameters one after the other leaves every parameter of the slice replaced by its own slot, starting at 1 or, with memoization, at 3. |
| `Contents.ParameterSlot` | passes/ProgramSlice.cpp:780-796 | The k-th parameter of the slice is read from the k-th slot of the environment, and nothing else is replaced. |
| `Outliner.LoadOneMore` | passes/ProgramSlice.cpp:782-796 | Replacing one more parameter on top of those before is replacing all of them at once. |
| `Outliner.Delegate.Outline` | passes/ProgramSlice.cpp:803-846 | For every slice of every accepted function the stages build, in order, clones of the slice blocks with rerouted terminators and loaded parameters, the criterion's returning. They make a delegate if some block has no predecessor to be the entry; with one outcome, switches covered and the criterion off every cycle, if and only if the slice block met first from the entry is on no cycle. |
| `Parameters.DelegateReadsSlots` | passes/ProgramSlice.cpp:768-798 | No parameter of the sliced function stands in a delegate: it reads slots of its thunk, one for each parameter in the slice, and no others. |
| `Rerouting.ControlFlowExact` | passes/ProgramSlice.cpp:348-485 | The delegate follows every path of the function, entry included, if and only if the control flow the slice leaves out has one outcome and no unsliced switch goes without a dominated slice block. |
| `Rerouting.BlockExact` | passes/ProgramSlice.cpp:380-475 | The same for one block, and either kind of terminator. |
| `Rerouting.TerminatorExact` | passes/ProgramSlice.cpp:301-320 | A delegate block other than the criterion's gets a terminator if and only if its own is sliced, is no switch, or the block dominates a slice block: always, when unsliced terminators are branches. |
| `Rerouting.TwoRulesAgree` | passes/ProgramSlice.cpp:384-415 | Under one outcome the dominance rule and the attractor rule name the same block, the only one met on leaving. |
| `Rerouting.EntryIsFirst` | passes/ProgramSlice.cpp:743-751 | The block moved to the front is the clone of the slice block every path meets first. |
| `Rerouting.SecondHasPredecessor` | passes/ProgramSlice.cpp:743-751 | Every other clone has a predecessor, so the search for the entry is unambiguous. |
| `Rerouting.DeadHasPredecessor` | passes/ProgramSlice.cpp:479-483 | The unreachable block, if kept, is never mistaken for the entry. |
| `Rerouting.EntryExact` | passes/ProgramSlice.cpp:743-751 | With one outcome, switches covered and the criterion off every cycle, some block that was built has no predecessor if and only if the slice block met first from the entry is on no cycle; else the original finds no entry. |
| `Rerouting.FirstUnreached` | passes/ProgramSlice.cpp:743-751 | If all paths meet the same slice block first, and that block is on no cycle, its clone has no predecessor, whatever else the rerouting does. |
| `Counterexample.DiamondIsAccepted` | passes/FindLazyfiable.cpp:166-177 | A short-circuit condition followed by a phi is a function in the form the passes require. |
| `Counterexample.DiamondIsOne` | passes/ProgramSlice.cpp:39-51 | It has the shape of which the next row speaks. |
| `Counterexample.ShortCircuitGoesWrong` | passes/ProgramSlice.cpp:39-51 | For every function of that shape, no delegate outlined for the phi follows every path: the branches in the middle are never gates. |
| `Counterexample.ShortCircuitReturnsWrong` | passes/ProgramSlice.cpp:39-51 | For every delegate outlined for the phi of the short-circuit function there are arguments with which the caller computes one value and the delegate, on whatever thunk, returns another. |
| `SearchLoop.SearchIsAccepted` | passes/FindLazyfiable.cpp:166-177 | A search loop that is left in two places, followed by a phi, is a function in the form the passes require. |
| `SearchLoop.SearchIsOne` | passes/ProgramSlice.cpp:743-751 | That loop has the shape of which the next row speaks. |
| `SearchLoop.SearchHasNoEntry` | passes/ProgramSlice.cpp:743-751 | For every function of that shape and the phi as criterion: one outcome and switches covered hold, the criterion is off every cycle, and every block built has a predecessor, so no entry is found. |
| `SwitchGap.SwitchedIsAccepted` | passes/FindLazyfiable.cpp:166-177 | Two switches between a branch and a phi make a function in the form the passes require. |
| `SwitchGap.SwitchedIsOne` | passes/ProgramSlice.cpp:380-416 | It has the shape of which the next row speaks. |
| `SwitchGap.SwitchIsNotCovered` | passes/ProgramSlice.cpp:380-416 | For every function of that shape and the phi as criterion: one outcome holds, and the clone of a switching block ends in nothing. |
| `Simulation.BlockAgrees` | passes/ProgramSlice.cpp:684-720 | A slice block and its clone, entered alike, agree afterwards on all the slice can see, and the clone writes nothing, if the sliced instructions compute over the delegate's memory what they computed in the caller. |
| `RunSimulation.StepAgrees` | passes/ProgramSlice.cpp:348-485 | One step of the delegate leads to the clone of the slice block the caller meets next, entered from the clone of the block it came from. |
| `RunSimulation.SkipToSlice` | passes/ProgramSlice.cpp:348-485 | What a run does between slice blocks, stores included, changes nothing the slice can see. |
| `Delegation.DelegateSimulatesCaller` | passes/ProgramSlice.cpp:803-846 | For every run of the caller that reaches the criterion the delegate, run then or later, visits the slice blocks of that run in order, sees the same values after each, returns the criterion's value, and writes neither memory nor thunk, if the sliced instructions of that run compute over its memory what they computed in the caller. |
| `Thunks.Thunk.Alloca` | passes/ProgramSlice.cpp:194-227 | A thunk has a slot for the pointer, two more if it is memoized, and one for every captured parameter. |
| `Thunks.Thunk.Initialize` | passes/Lazyfication.cpp:323-364 | Afterwards the pointer, the cleared flag and the environment are in their slots, and the value slot is untouched. |
| `Thunks.Thunk.Call` | passes/ProgramSlice.cpp:851-906 | With a set flag the stored value is returned, otherwise the delegate runs and value and flag are stored. |
| `Thunks.ThunkStateMachine` | passes/ProgramSlice.cpp:851-906 | Over every sequence of calls on an initialised thunk each returns the slice's value on the captured environment, pointer and environment stay, and with memoization the body runs once, not at all if there is no call. Asked is that the delegate computes that value over the memory of the first call if thunks keep it, over all of them if not. |
| `Thunks.ForcesFromReady` | passes/ProgramSlice.cpp:851-906 | The same from every state a thunk can be in; once it has kept a value nothing is asked of the memory. |
| `Thunks.ForcesExact` | passes/ProgramSlice.cpp:851-906 | No less would do: all calls on a ready thunk return the value if and only if the delegate computes it over those memories. |
| `Memoization.Memoizer.AddMemoizationCode` | passes/ProgramSlice.cpp:851-906 | Two blocks go in front, in this order: one that branches on the flag, and one that returns the stored value; flag and value are stored behind the last instruction of the returning block, and the rest is as it was. |
| `Memoization.MemoizedLayout` | passes/ProgramSlice.cpp:856-862 | The new layout lists exactly the blocks, each once, if the old one did. |
| `Memoization.MemoizedIsThunkCall` | passes/ProgramSlice.cpp:851-906 | For every thunk and every delegate that finishes, running the function with that code returns, stores and leaves exactly what a thunk call does. |
| `Memoization.MemoizedReturns` | passes/ProgramSlice.cpp:851-906 | On a thunk that has kept nothing it returns what the delegate returns and stores it. |
| `Memoization.HomeReturns` | passes/ProgramSlice.cpp:755-764 | The clone of the criterion's block returns the criterion, which is where the stores go. |
| `Memoization.OutlinedIsDelegated` | passes/ProgramSlice.cpp:913-946 | Every outlined delegate returns in the criterion's block only and leaves the thunk alone, so the former applies to it. |
| `Forcing.WeaveLocks` | passes/Lazyfication.cpp:132-178 | Code with a thunk call in front of every use runs in step with the code that has the value, if at each use the delegate computes it over the memory of that moment or the thunk has kept it; from the first call on it has. |
| `Forcing.PhisLock` | passes/Lazyfication.cpp:136-144 | Phis do too, if the calls for an edge were made at the end of the block it comes from. |
| `Forcing.BlockLocks` | passes/Lazyfication.cpp:132-178 | A whole rewritten block ends in step with the original and leaves by the same edge. |
| `CallByNeed.RunInStep` | passes/Lazyfication.cpp:190-235 | In step once, in step after any number of steps. |
| `CallByNeed.CalleeCallByNeed` | passes/Lazyfication.cpp:190-235 | For every callee, with loops, phis and any number of uses, and every number of steps: if at the uses this run comes to the delegate computes the value over the memory of that moment, with memoization at the first of them, the clone on a ready thunk goes through the same blocks as the callee on the value, and ends when it does with the same result and memory. |
| `CallerSide.InstrUseBelow` | passes/Lazyfication.cpp:457-465 | Every use of the criterion comes after the place where the thunk is initialised. |
| `CallerSide.NoTail` | passes/Lazyfication.cpp:139-141 | Calls for phis are placed only at the ends of blocks the criterion's block dominates. |
| `HomeBlock.HomeLocks` | passes/Lazyfication.cpp:457-468 | Through the criterion's block: entered without a thunk, left with one that is ready, whether the criterion is an instruction or a phi. |
| `CallerRuns.CallerCallByNeed` | passes/Lazyfication.cpp:457-495 | For every run of the caller and every number of steps, the rewritten caller agrees with the original, if the delegate and the clone keep their promises from where the criterion is reached. |
| `WholeProgram.CloneHonoursThunk` | passes/Lazyfication.cpp:469-482 | If this call of the callee finishes and serves its uses, the clone called with any ready thunk returns and stores what the callee does with the value, and leaves the thunk ready, with its value if it had one or the callee has used it. |
| `WholeProgram.KeptServes` | passes/ProgramSlice.cpp:893-900 | Once the thunk has kept its value a callee may write what it likes: nothing is asked of the memory any more. |
| `WholeProgram.EmittedReturns` | passes/Lazyfication.cpp:445-449 | What the delegate returns on a thunk that has kept nothing, a call through that thunk returns, with memoization code and without. |
| `WholeProgram.DelegateComputes` | passes/Lazyfication.cpp:445-449 | What was emitted for the slice, memoized or not, computes the criterion's value from every thunk that captured the parameters and has kept nothing, over every memory over which the sliced instructions the run has come by compute what they did. |
| `WholeProgram.LazyProgramIsEagerProgram` | passes/Lazyfication.cpp:406-507 | Emitted delegate, clone and rewritten caller together: for every run that allows it, the lazy program visits the same blocks with the same memory and ends as the eager one. |
| `EndToEnd.LazificationPreservesMeaning` | passes/Lazyfication.cpp:406-507 | The same of everything `Lazyfication.Pass.LazifyCallsite` leaves behind: the function emitted for the thunk, with its memoization code if thunks keep their value, the clone and the caller. |
| `EndToEnd.LazifiedCanBeMeant` | passes/Lazyfication.cpp:406-507 | For all of that, with memoization and without, and whatever the other operations mean, thunk calls can be given the meaning of the emitted function and lazy calls that of the clone, so the theorem is about something. |
| `EndToEnd.LazificationIsSound` | passes/Lazyfication.cpp:406-507 | Whatever the ordinary operations mean, for everything the pass leaves behind and every run that allows it, there is that meaning of thunk calls and lazy calls, and with it the lazified caller does, on whatever thunk memory it starts with, what the caller did. |
| `EndToEnd.StillCalled` | passes/Lazyfication.cpp:406-507 | A call of the lazified function by others finishes with the value and the memory the call of the function had, so functions lazified one after the other still call each other. |
| `Transfer.SameAllows` | passes/ProgramSlice.cpp:487-543 | Whether a run allows a thunk depends on the ordinary operations only. |
| `Meanings.MeaningsExist` | passes/ProgramSlice.cpp:851-906 | The same for every delegate that returns in one block, and every clone. |
| `Memoization.FinishesAlike` | passes/ProgramSlice.cpp:851-906 | What finishes with the memoization code finishes without it. |
| `QuietRuns.QuietRunAllows` | passes/ProgramSlice.cpp:487-543 | A run allows a thunk if no instruction it executes, and none in the calls that get the thunk, writes at its actual operands a location the sliced instructions read, the sliced ones read nothing else, and those calls finish. |
| `EndToEnd.QuietRunKeepsMeaning` | passes/Lazyfication.cpp:406-507 | For every such run the lazified program does what the program did. |
| `EarlyWrite.CallerIsAccepted` | passes/FindLazyfiable.cpp:166-177 | A function that loads a location and passes the value on is in the form the passes require. |
| `EarlyWrite.WriteComesFirst` | passes/ProgramSlice.cpp:498-500 | If the callee stores 1 there before it returns its argument, the caller returned what was in memory and returns 1 once it is lazified, whatever the pass chose and whether thunks keep their value or not. |
| `EarlyWrite.AllowedExactly` | passes/ProgramSlice.cpp:498-500 | The run of this caller meets the condition on memory if and only if 1 was there, and if and only if the two programs end alike. |
| `EarlyWrite.LazifyTheCaller` | passes/Lazyfication.cpp:406-507 | The pass, run on this caller and callee, lazifies the call, with memoization and without, and operations that mean what it leaves exist. |
| `UseRewriting.PlaceBefore` | passes/Lazyfication.cpp:143-145 | A call for a use by an instruction goes directly in front of it, behind earlier calls for it. |
| `UseRewriting.PlaceAtEnd` | passes/Lazyfication.cpp:139-141 | A call for a use by a phi or terminator goes in front of the terminator of the block the value flows in from. |
| `UseRewriting.SetOne` | passes/Lazyfication.cpp:174-178 | Setting one use changes that operand alone, whatever the user is. |
| `UseRewriting.RewrittenIsForced` | passes/Lazyfication.cpp:132-178 | With every use served and set, in whatever order, the function is its forced form: the calls are exactly those of the uses. |
| `Lazyfication.UsesAreAll` | passes/Lazyfication.cpp:132-133 | The use list holds every use by an instruction, terminator or phi, and nothing else. |
| `Lazyfication.Rewriter.InsertBefore` | passes/Lazyfication.cpp:143-144 | Insertion in front of an instruction. |
| `Lazyfication.Rewriter.SetUse` | passes/Lazyfication.cpp:174-178 | One use gets a new value. |
| `Lazyfication.Rewriter.PassTheThunk` | passes/Lazyfication.cpp:457-485 | Initialisation inserted and call redirected, in that order, give the same caller as both at once. |
| `ThunkPassing.InitStandsThere` | passes/Lazyfication.cpp:457-465 | The thunk is initialised directly in front of the criterion, or first behind the phis if it is one, with the parameters in the slice as its environment. |
| `ThunkPassing.InstructionsStay` | passes/Lazyfication.cpp:457-495 | Every other instruction of the caller stays and keeps its place; the call is directed to the clone with its other arguments as they were. |
| `Lazyfication.Rewriter.UpdateThunkArgUses` | passes/Lazyfication.cpp:121-179 | The two loops turn every function into its forced form, and record one call for every use. |
| `Lazyfication.CloneCalleeFunction` | passes/Lazyfication.cpp:190-235 | The clone is the forced form of the callee for its argument, with all the parameters the callee has. |
| `Parameters.CloneKeepsParameters` | passes/Lazyfication.cpp:193-222 | Every parameter that stands anywhere in a clone is one it has, and none is the one that became a thunk. |
| `Parameters.CallerKeepsParameters` | passes/Lazyfication.cpp:406-507 | A lazified caller has the parameters it had, and every one that stands in it is among them. |
| `Lazyfication.Pass.CloneFor` | passes/Lazyfication.cpp:469-479 | A clone is made once for a callee, an argument and a thunk type, and every cached clone is the forced form of the body it was made from. |
| `Lazyfication.Pass.Emit` | passes/ProgramSlice.cpp:913-946 | The function for the thunk is the delegate, with the memoization code around it if thunks keep their value. |
| `Lazyfication.Pass.OutlineSlice` | passes/Lazyfication.cpp:416-449 | Slice, delegate and emitted function of an argument, with the exact condition for there to be one. |
| `Lazyfication.Pass.LazifyCallsite` | passes/Lazyfication.cpp:406-507 | It goes on to outline if and only if the argument is an instruction the analyses let it slice, and the callee has a body and uses the argument; then, with one outcome, switches covered and the criterion off every cycle, it makes its changes if and only if the slice is entered once, and otherwise none. It adds the delegate, memoized if thunks keep their value, and a cached clone that is the forced form of its origin, leaves the caller in forced form with the parameters it had, and changes no other function. |
| `Promising.FindLazyfiable.HasUse` | passes/FindLazyfiable.cpp:25-37 | Whether an instruction that is no phi, or the terminator, uses the argument. |
| `Promising.FindLazyfiable.DFS` | passes/FindLazyfiable.cpp:16-60 | The pair is recorded if and only if some path from entry to exit has no use in any block, ends included; the search ends, and pushes no block twice. |
| `Promising.FreePathVisited` | passes/FindLazyfiable.cpp:16-60 | A search that has run dry has visited every block of every such path. |
| `Promising.FindLazyfiable.FindLazyfiablePaths` | passes/FindLazyfiable.cpp:62-86 | The pairs recorded for a function are exactly its parameters some path to the last block that ends in a return does not use; the function is recorded if there is one. |
| `Promising.FindLazyfiable.FindExit` | passes/FindLazyfiable.cpp:62-72 | The exit ends in a return and no block behind it in the layout does; there is none if and only if no block ends in one. |
| `EarlyReturns.ReturnsExactly` | passes/FindLazyfiable.cpp:66-72 | The analysis takes a block for one that returns if and only if a run that has come to it ends there, for every state and every meaning of the operations. |
| `EarlyReturns.UnusedMeansWay` | passes/FindLazyfiable.cpp:16-86 | Said of the blocks alone: a parameter is promising if and only if the function has it and some way from the entry to that exit has it for no operand of an instruction or terminator. |
| `EarlyReturns.GuardedUsesBoth` | passes/FindLazyfiable.cpp:66-72 | A function that returns one parameter if another is set, and never ends otherwise, uses both, though the block that never ends comes last. |
| `Promising.FindLazyfiable.AddMissingUses` | passes/FindLazyfiable.cpp:134-164 | There is a dummy use at the end of a block exactly for every parameter that flows from it into a phi. |
| `EarlyReturns.DummiesSay` | passes/FindLazyfiable.cpp:134-164 | Said of the blocks alone: instructions are added behind those of a block, one use for every parameter that flows from it into a phi and no others; nothing else changes. |
| `Promising.FindLazyfiable.Analyze` | passes/FindLazyfiable.cpp:62-164 | The two together. |
| `Promising.UsesAreForces` | passes/FindLazyfiable.cpp:144-160 | A block uses the parameter, dummy uses included, if and only if the rewriting places a thunk call in it. |
| `Promising.SearchAgreesWithRewriting` | passes/FindLazyfiable.cpp:16-60 | The search finds a path if and only if the clone has one on which no thunk is called. |
| `Promising.PromisingMeansNoCall` | passes/FindLazyfiable.cpp:62-86 | A parameter is promising if and only if the clone made for it can return without a thunk call. |
| `Profile.Runtime.Init` | wyinstr.cpp:45-59 | Initialisation creates the record of `main`, if there is none, and pushes it. |
| `Profile.Runtime.Call` | wyinstr.cpp:61-95 | Before initialisation a call changes nothing; after it, it creates its record if needed, starting at 1 with zero counters, adds 1, and pushes its site. |
| `Profile.Runtime.Mark` | wyinstr.cpp:97-122 | Before initialisation an evaluation changes nothing, its word included; after it, it counts in total, and as unique if its bit was clear, which is then set. |
| `Profile.Runtime.End` | wyinstr.cpp:128-146 | The end of a call pops its site; before initialisation it changes nothing. |
| `CallTrees.NothingBeforeMain` | wyinstr.cpp:45-146 | Whatever calls, evaluations and ends happen before initialisation, by static initialisers say, leave nothing: what is initialised is the runtime every trace starts from. |
| `Profile.SetsOneBit` | wyinstr.cpp:111-114 | Setting the bit of one argument sets that of no other, for arguments 0 to 31: also the last, whose 32-bit mask is widened with its sign. |
| `Profile.MaskIs` | wyinstr.cpp:111-114 | The mask of an argument is its power of two; that of argument 31 has all the bits above it as well. |
| `CallTrees.RunTrace` | wyinstr.cpp:61-146 | At every prefix of every legal trace the stack is that of the active calls, every active word holds just what its call evaluated, and every counter is the number of calls plus one, of first evaluations, and of evaluations. |
| `CallTrees.FirstsBounded` | wyinstr.cpp:97-122 | First evaluations are at most the evaluations, and with the calls still waiting at most the calls. |
| `CallTrees.CountersAtEveryPrefix` | wyinstr.cpp:83-117 | At every prefix a unique counter is at most the total, and below the number of calls for every site entered by a call. |
| `CallTrees.BodyAdds` | passes/Instrumentation.cpp:99-118 | What the trace of one function body adds to any trace. |
| `CallTrees.ProfileIsCallTree` | wyinstr.cpp:61-146 | For every call tree the stack is restored and each site has one more than its activations, the activations that evaluated an argument, and the evaluations. |
| `CallTrees.RunBody` | passes/Instrumentation.cpp:52-118 | Instrumented code drives the runtime through exactly that trace. |
| `Instrumentation.ComputeInstrIDs` | passes/Instrumentation.cpp:42-50 | The id of an instruction is its offset before instrumentation. |
| `Instrumentation.InstrumentCallSites` | passes/Instrumentation.cpp:52-82 | A report stands directly in front of every call, with its offset and its number of arguments, but for calls of functions without a body, of intrinsics and of functions named after the runtime; behind every report stands such a call. Calls through pointers are reported. |
| `Instrumentation.OneCall` | passes/Instrumentation.cpp:60-68 | Case by case: what becomes of a function that is one call. |
| `Instrumentation.ErasedInstrumented` | passes/Instrumentation.cpp:52-82 | Nothing but reports is inserted. |
| `Instrumentation.ReportsNameCalls` | passes/Instrumentation.cpp:52-82 | Every report names the call behind it by its offset before instrumentation, every reported call has one report, and no two have the same id. |
| `Decimals.StolOfDecimal` | passes/Lazyfication.cpp:284-299 | Reading a printed 64-bit integer gives it back; any other is out of range. |
| `Decimals.DecimalShape` | wyinstr.cpp:155-161 | A number is printed as a minus sign if it is negative and the digits that spell it, with no zero in front. |
| `Decimals.StolReads` | passes/Lazyfication.cpp:279-299 | Blanks, a sign or none, and digits are read as the number they spell, whatever follows, if it is in range. |
| `Decimals.StolFails` | passes/Lazyfication.cpp:279-299 | Where no digit follows the blanks and the sign, reading throws. |
| `ProfileFile.Dump` | wyinstr.cpp:148-167 | The file is the header and one row for every record, in some order. |
| `ProfileFile.Reader.GetLine` | passes/Lazyfication.cpp:276-299 | One field up to a comma, with the stream's behaviour at the end of the file. |
| `ProfileFile.Reader.LoadRaw` | passes/Lazyfication.cpp:260-308 | The loader keeps the records of known functions, and fails where the original throws. |
| `RoundTrip.BadNumber` | passes/Lazyfication.cpp:276-280 | A call id that is no number stops the reading, whether or not the function is known. |
| `RoundTrip.RowBack` | passes/Lazyfication.cpp:276-302 | A printed row is read back whole, up to its end. |
| `RoundTrip.RowRead` | passes/Lazyfication.cpp:276-302 | Negative call ids and numbers of calls, which are read without sign, come back as very large ones; counters keep their sign. |
| `RoundTrip.LaterRowCounts` | passes/Lazyfication.cpp:304-307 | Of two rows for one call the later one counts. |
| `RoundTrip.DumpThenLoad` | passes/Lazyfication.cpp:260-308 | Reading what was printed gives every record of a known function and nothing else, whatever the order, if no name has a comma. |
| `RoundTrip.DumpThenLoadExact` | passes/Lazyfication.cpp:260-308 | When the module has all the functions, the file gives the profile back if and only if no name has a comma. |
| `RoundTrip.CommaMisread` | passes/Lazyfication.cpp:276-302 | A record of a function whose name has a comma is read, without complaint, as the record of another instruction of another function, with other numbers. |
| `Instrumentation.Attach` | passes/Lazyfication.cpp:310-321 | A record is attached to a call if and only if the call stands at its offset. |
| `Instrumentation.ProfileReachesThePass` | passes/Lazyfication.cpp:260-321 | What the pass reads for a call is what the call tree says: evaluators and evaluations exactly, the number of calls one too high. |

## Left out

- updatePHINodes: removing the incoming values of blocks that are no predecessors; its index loop steps over a value after each removal, and edges that do not exist are never taken, so the meaning does not depend on it.
- canOutline: the alias, loop and purity checks are an oracle (`outlinable`); what they are to establish is asked of the run the theorems are about (`WholeProgram.RunAllows`).
- Outliner.Delegate.ReorderBlocks: where no block lacks predecessors the original dereferences a null pointer; the model returns `false` and `LazifyCallsite` changes nothing. `Rerouting.EntryExact` says when that is.
- Lazyfication.Pass.LazifyCallsite: one call of a caller is lazified, and a callee is cloned before it has been lazified as a caller; a frame holds one thunk, so a second pass over a caller that already holds thunk calls is outside of the shape the theorems ask for. Types of thunks are an opaque number, the cache key only.
- EndToEnd.LazificationPreservesMeaning: for the same reason one lazified call per caller.
- WholeProgram.RunAllows: the condition is shown to be exact for a sequence of calls on one thunk (`Thunks.ForcesExact`) and for one pair of functions (`EarlyWrite.AllowedExactly`); in general it is sufficient, as two different memories may happen to lead to the same result.
- CallTrees.RunBody: where in the code a mark and the end of a call are placed is not modelled; marks come from the call tree.
- RoundTrip.DumpThenLoad: the numbers of a record fit 64 bits, its call id is not negative, and it has fewer than 128 arguments.
- Outliner.Delegate.InsertLoadForThunkParams: the original loads all slots once in the entry block; the model reads the slot where it is used. A delegate writes no slot, so the values are the same.
- Outliner.Delegate.ReorganizeUses: a clone keeps the name of its original, names being local to a function, so replacing operands by the results of clones leaves nothing to do; only the incoming blocks of phis change.
- Lazyfication.CloneCalleeFunction: names with random suffixes, attributes and types.
- Profile.Mask: `1 << i` for an argument beyond 31 is undefined in the original and excluded.
- Profile.Runtime.Call: sites are told apart by the address of the name in the original and by its text here; counters are unbounded, and the lock is not modelled. The original keeps the number of arguments in a signed byte; more than 127 are outside of what it defines, and are counted here.
- ProfileFile.GetRow: a number of arguments beyond 255 or below 0, which the original stores in 8 bits, is an error here.
- CallTrees.RunTrace: traces are those of well-bracketed calls that start after initialisation (`CallTrees.NothingBeforeMain` deals with what happens before); marks placed behind the end of a call (`ret %arg`), exceptions, `longjmp` and calls through uninstrumented code are not among them.
- Machine.Eval: a value that is missing reads as 0 where the original is undefined; definitions dominating uses, none is missing in the runs the theorems are about.
- Machine.Step: exceptions, `invoke`, indirect branches and calls that do not return.
- The order of use lists, of sets ordered by address, and of the children in a dominator tree is arbitrary.
- LLVM's own algorithms: dominator trees, mem2reg, LCSSA, loop simplification, function cloning.
- The PGO threshold: one comparison of a quotient in floating point.
- `hash_c_string`, debug output, statistics, the driver scripts and the build.
