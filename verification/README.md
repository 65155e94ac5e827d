# Verification of the C-minus compiler's middle end

This project models how the compiler turns C-minus functions into basic blocks and what its passes do to
them, and proves that each does what it is for.

- **Graphs and dominators** (`ControlFlow`, `DominatorTree`, `IdomInvariants`, `Dominators`). Dominance is
  defined by paths from the entry. The class `Dominators` numbers the blocks, iterates the idoms to a
  fixpoint, and derives frontiers and children; the invariants show that it ends, that no dominator is ever
  lost, and that the result is exactly dominance.
- **Promotion of slots to registers** (`IR`, `Promotion`, `PromotionSimulation`, `PhiInsertion`, `Renaming`,
  `SlotUse`, `Mem2Reg`, `PromotionResult`). `IR` gives the intermediate representation a semantics block by block, with
  memory, a trace of stores and calls, and a world that fixes arithmetic and callees. The class `Mem2Reg` inserts
  phis, renames along the dominator tree with one stack for each variable and removes the slots;
  `PromoteFunction` is the whole pass with the theorem that behaviour is preserved.
- **Purity and dead code** (`Functions`, `Purity`, `PurityMeaning`, `ModuleRuns`, `DeadCodeMeaning`, `DeadCode`,
  `CleanedModule`). The classes `FuncInfo` and `DeadCode` run their work lists; their results are stated as
  reachability and as a least set, and what they mean is proved against the semantics. `ModuleRuns` lets the
  functions of a module call each other, and `CleanedModule` shows that the cleaned module does the same.
- **Uses and definitions** (`UseDef`). Values and users on the heap, with the relation between operands and use
  lists that every operation keeps, or the exact condition under which it does.
- **Syntax trees** (`ParseTrees`, `AstBuilding`, `RoundTrip`). The grammar as a predicate on parse trees, the
  conversion into the syntax that is lowered, and the parse tree that can be rebuilt from it.
- **Lowering** (`Scopes`, `Syntax`, `SourceSemantics`, `Lowering`, `LoweringShape`, `LoweringNames`, `Ticks`,
  `LoweringMeaning`, `StatementMeaning`, `CminusfBuilder`). `SourceSemantics` says what a C-minus function
  means over nested scopes of names, with dynamically typed values. `Lowering` says which blocks are built;
  the class `CminusfBuilder` builds them by visiting the tree with a last value, a flag that asks for an
  address and a moving insertion point, and is proved to build exactly those. `LoweringShape` shows the blocks
  well formed and `StatementMeaning` that running them does what the source says; `LoweringNames` shows that
  every value is computed before it is used.
- **What the pieces mean** (`Arithmetic`, `SlotKinds`, `MissingNames`, `TypeSafety`). `Arithmetic` says what the
  instructions compute in a world where each means what it is called, and so what the operators, conversions and
  conditions of the language compute. `SlotKinds` says which slots are marked as scalars, `MissingNames` when the builder
  fails, and `TypeSafety` under which conditions the source semantics never does.
- **Conditions on the source** (`Reaching`, `SourceCheck`). `Reaching` decides from the statements alone which blocks of
  a lowered function are reached, and so whether the dominator analysis of the function ends. `SourceCheck` is a check
  of names, argument counts, indices and leading assignments under which promotion can take the code.
- **Both together** (`Compilation`, `Examples`). What the builder makes satisfies the requirements of promotion, and the
  promoted code does what the source says: it returns the same, and runs for ever when the source does. `Examples` takes
  the greatest common divisor and the sum of an array through all of this.

## Conventions

- A block, instruction or variable is named by a number; an instruction has an identity whether or not it has
  a result. A slot shares the identity of its alloca, and in lowering that of its declaration.
- The phis of a block are kept as a list of their own before its instructions.
- The nodes of a syntax tree that only pass on to a single child are dropped; parentheses are kept.
- In the dominator analysis a missing key stands for a null idom. `Dominators` holds one function at a time.
- `sigma`, `exited` and `finished` in `Mem2Reg` are bookkeeping for the proofs: which loads have been replaced by
  what, and how far renaming has come.
- A function's instructions and the promoted variables satisfy what the passes rely on: every block that a join
  needs is reachable from the entry and nothing branches to the entry, definitions dominate uses, slots of scalars
  are only loaded and stored, and a variable looked up by renaming has a value. `Acceptable`, `ScalarsConfined` and
  `LookupsSucceed` state this. The repository keeps the children of a block in a set ordered by address; renaming
  takes that order as a parameter, and `AskedIff` says exactly when its assertion on the stacks fails in it.
  Storing every variable in the entry before any load is one way to let all look-ups succeed.
- When both arms of a conditional return, the block after it is unreachable. `Tidy` says exactly when such a block
  branches back to a reachable one: if it is the end of a loop body, or of an arm of another conditional, while the code
  after that is reached. Then a runner starts from an unreachable predecessor of a reachable join, and the loop for
  dominance frontiers never ends (`UntidyNeverStops`); the analysis requires that there is none.
- In the source semantics, and so in the theorems about lowering, a function's meaning is left open when it reads
  an unset variable, names something unknown or mixes types that cannot be converted; the fuel of the semantics
  counts loop iterations and the theorems hold for every amount of it. For functions that pass the check and are typed
  nothing is left open (`TypeSafety.FunctionSafe`).
- Loads in the repository's purity analysis count as effects when they reach memory that is not the function's
  own, although its comment speaks of writes only; the model follows the code.

## Model

| member | source | states |
|---|---|---|
| `ControlFlow.EntryDominators` | src/optimization/Dominators.cpp:115-120 | only the entry dominates the entry |
| `ControlFlow.DominatesPred` | src/optimization/Dominators.cpp:141-148 | a dominator of a block, the block itself excepted, dominates each of its reachable predecessors |
| `ControlFlow.ClosedHoldsWalk` | src/optimization/Dominators.cpp:93-101 | a set that has the entry and is closed under successors has every block on a path from the entry |
| `DominatorAnalysis.Dominators.PostOrderVisit` | src/optimization/Dominators.cpp:93-101 | numbers the unvisited blocks reachable from the block, the block last, keeps all numbers given before, gives every new block but the first a higher-numbered predecessor, and gives the target of an edge a higher number than its origin only if the edge closes a cycle |
| `DominatorAnalysis.NumberedCloses` | src/optimization/Dominators.cpp:93-101 | when a block is numbered, each of its edges to a block without a number leads back to a block still under visit, from which it is reached |
| `DominatorAnalysis.NumberingComplete` | src/optimization/Dominators.cpp:76-101 | the visit from the entry is a bijection from the reachable blocks to 0..n-1, the entry highest, and every other reachable block has a predecessor with a higher number |
| `DominatorAnalysis.Dominators.CreateReversePostOrder` | src/optimization/Dominators.cpp:76-82 | the list holds exactly the reachable blocks by falling number, the entry first, and a block stands before its predecessor only if it leads back to it: depth first order |
| `DominatorAnalysis.Dominators.Intersect` | src/optimization/Dominators.cpp:163-175 | ends on any two known blocks, and the result lies on both idom chains below every other common block: the nearest common ancestor; the asserted look-ups never fail |
| `DominatorAnalysis.Dominators.FirstKnown` | src/optimization/Dominators.cpp:132-139 | returns a predecessor with a known idom; for the blocks the loop visits there is one, so the assertion holds |
| `DominatorAnalysis.Dominators.NewIdom` | src/optimization/Dominators.cpp:141-148 | the fold over the known predecessors, in list order, is their nearest common ancestor although the old idom is not part of it |
| `IdomInvariants.MeetIsUpward` | src/optimization/Dominators.cpp:141-152 | the new idom has a higher number than the block, lies on the chain of the old idom and is not below it: each change moves up the block's own chain |
| `IdomInvariants.SoundAfterStep` | src/optimization/Dominators.cpp:149-152 | no dominator of any block leaves its idom chain when one block gets a new idom |
| `IdomInvariants.UpwardAfterStep` | src/optimization/Dominators.cpp:149-152 | after the step no block shared by the chains of a block's processed predecessors has a lower number than the block's idom |
| `IdomInvariants.StepKeepsInv` | src/optimization/Dominators.cpp:149-152 | one step keeps the whole invariant: rising numbers, descending paths, soundness, closure, upwardness |
| `IdomInvariants.StepVisits` | src/optimization/Dominators.cpp:126-153 | within a pass the chain of a processed block, itself excepted, stays inside the chain of each higher-numbered predecessor |
| `IdomInvariants.SlackDrops` | src/optimization/Dominators.cpp:149-152 | moving one idom upward lowers the sum of the distances of all idoms to the top, which is what bounds the number of changes |
| `DominatorAnalysis.StepDropsSlack` | src/optimization/Dominators.cpp:149-152 | a step that changes an idom lowers that sum |
| `DominatorAnalysis.Dominators.Revise` | src/optimization/Dominators.cpp:126-153 | one block: the pass invariant is kept, and a reported change lowers the measure while no reported change means no change |
| `DominatorAnalysis.Dominators.Pass` | src/optimization/Dominators.cpp:125-153 | one sweep either lowers the measure or changes nothing and leaves the fixpoint |
| `DominatorAnalysis.Dominators.CreateIdom` | src/optimization/Dominators.cpp:115-155 | ends on every graph in a state whose idom chains satisfy the invariant and are closed under meets: the fixpoint |
| `IdomInvariants.ChainIsDominators` | src/optimization/Dominators.cpp:115-155 | at the fixpoint a block is on the idom chain of another if and only if it lies on every path from the entry to it |
| `IdomInvariants.ParentIsImmediate` | src/optimization/Dominators.cpp:115-155 | at the fixpoint a block is the immediate dominator of another if and only if it is its recorded idom |
| `IdomInvariants.EntryHasNoStrictDominator` | src/optimization/Dominators.cpp:119-129 | nothing strictly dominates the entry, which is skipped by the loop |
| `DominatorAnalysis.Dominators.RunUp` | src/optimization/Dominators.cpp:188-194 | the runner stops and files the join under exactly the blocks on the chain from the predecessor up to, not including, the idom of the join |
| `DominatorAnalysis.Dominators.FrontierOfJoin` | src/optimization/Dominators.cpp:187-195 | a join is filed under exactly the blocks some runner meets |
| `DominatorAnalysis.Dominators.CreateDominanceFrontier` | src/optimization/Dominators.cpp:184-197 | stops, and the table gains exactly the pairs met by runners, over all blocks |
| `DominatorAnalysis.FrontierExact` | src/optimization/Dominators.cpp:184-197 | for every block but the entry the table is the definition: the join is in the frontier of r iff r dominates a predecessor and does not strictly dominate the join |
| `DominatorAnalysis.EntryFrontier` | src/optimization/Dominators.cpp:184-197 | for the entry it is not: the entry is never in its own frontier, while the definition puts it there as soon as a reachable block branches back |
| `DominatorAnalysis.EntryFrontierMissed` | src/optimization/Dominators.cpp:184-197 | two blocks, the second branching back to the entry: the table misses the entry in its own frontier |
| `DominatorAnalysis.FrontierExactIff` | src/optimization/Dominators.cpp:184-197 | so the table is the definition for all blocks if and only if no reachable block branches to the entry |
| `DominatorAnalysis.StrayRunnerNeverStops` | src/optimization/Dominators.cpp:189-193 | from an unreachable predecessor of a reachable join the runner does not meet the idom of the join after any number of steps |
| `DominatorAnalysis.Dominators.CreateDomTreeSucc` | src/optimization/Dominators.cpp:204-213 | each block with an idom is filed under it and the entry under nothing |
| `DominatorAnalysis.Dominators.Run` | src/optimization/Dominators.cpp:10-31 | for one function, the four stages together leave order, idoms, frontiers and children as stated above |
| `Promotion.PlacementSufficient` | src/optimization/Mem2Reg.cpp:66-85 | if a block has no phi for a variable, what leaves any of its predecessors is what leaves its idom |
| `Promotion.ClimbToIdom` | src/optimization/Mem2Reg.cpp:66-85 | on the whole way from a predecessor up to the idom nothing changes a variable without phi |
| `PromotionResult.NoDefinitionInBetween` | src/optimization/Mem2Reg.cpp:66-85 | on every path from the idom to a block without phi that does not return to the idom, no block in between stores to the variable or has a phi for it |
| `PhiInsertion.AnalysisSpans` | src/optimization/Mem2Reg.cpp:14-31 | what the dominator analysis computes is what promotion needs when nothing branches to the entry |
| `PhiInsertion.PlacedIsClosed` | src/optimization/Mem2Reg.cpp:66-85 | phis in the iterated frontiers of the stores stand wherever a definition can meet another |
| `Mem2RegPass.Mem2Reg.CreatePhi` | src/optimization/Mem2Reg.cpp:76-81 | exactly one new phi, without operands, for that variable, before all others of that block; no other block changes |
| `Mem2RegPass.Mem2Reg.CollectStores` | src/optimization/Mem2Reg.cpp:45-64 | the variables stored to through their own slot, each with exactly the blocks that do |
| `Mem2RegPass.Mem2Reg.PlacePhis` | src/optimization/Mem2Reg.cpp:69-84 | the work list ends, and the blocks given a phi are the least set that has the frontier of the stores and its own frontier |
| `Mem2RegPass.Mem2Reg.GeneratePhi` | src/optimization/Mem2Reg.cpp:42-86 | that for every variable, with one phi for each block and variable |
| `Mem2RegPass.Mem2Reg.PushPhis` | src/optimization/Mem2Reg.cpp:92-98 | pushes each phi of the block on the stack of its variable |
| `Mem2RegPass.Mem2Reg.ReplaceAllUseWith` | src/lightir/Value.cpp:14-21 | operand by operand: whatever was the load is the new value, in every instruction and phi, and all else is as before |
| `Mem2RegPass.Mem2Reg.RewriteBody` | src/optimization/Mem2Reg.cpp:100-124 | each load is replaced by the top of its stack, each store pushes its value, and exactly the accesses of slots wait to be erased |
| `Renaming.TopIsValue` | src/optimization/Mem2Reg.cpp:103-121 | the top of a stack is the value that the variable has at this point, by an independent definition through dominators |
| `Mem2RegPass.Mem2Reg.FillSuccessors` | src/optimization/Mem2Reg.cpp:126-139 | each phi of each successor gets one pair for this block, the top of its stack, and nothing else changes |
| `Mem2RegPass.Mem2Reg.PopAll` | src/optimization/Mem2Reg.cpp:146-161 | every stack is as it was when the block was entered |
| `Renaming.WaitingExact` | src/optimization/Mem2Reg.cpp:91-124 | the instructions waiting to be erased are exactly the loads and stores of slots |
| `Mem2RegPass.Mem2Reg.EraseInstrs` | src/optimization/Mem2Reg.cpp:163-166 | exactly the waiting instructions leave the block |
| `Mem2RegPass.Mem2Reg.ReName` | src/optimization/Mem2Reg.cpp:88-167 | renames exactly the blocks below the given one in the dominator tree, each once, and leaves every stack as it was |
| `Renaming.HasValueIff` | src/optimization/Mem2Reg.cpp:103-137 | a variable has a value at a point exactly when a store stands before it in the block, or the block has a phi, or a strict dominator defines it |
| `Renaming.RenamedIsPromoted` | src/optimization/Mem2Reg.cpp:26-26 | after the walk over the whole tree every block, phi and operand is as in the promoted program |
| `Renaming.PhiComplete` | src/optimization/Mem2Reg.cpp:126-139 | after the walk the phis of reachable blocks have exactly one pair for each predecessor edge that brings a value, and none for any other block |
| `PromotionResult.EntryInitialises` | src/optimization/Mem2Reg.cpp:107-133 | storing every variable in the entry before any load makes every look-up on the stacks succeed |
| `Renaming.EmptyStackIff` | src/optimization/Mem2Reg.cpp:126-137 | when the phis behind a block are filled, a variable's stack is there but empty if and only if the variable has no value then although a block visited so far defines it |
| `Renaming.LeftBeforeKid` | src/optimization/Mem2Reg.cpp:141-144 | the children are renamed in the order of their addresses: when one is, exactly the subtrees of those before it, its parent, and what came before that have been visited |
| `Renaming.AskedIff` | src/optimization/Mem2Reg.cpp:129-137 | so the assertion that the stack is not empty fails if and only if the variable has no value at the end of the block and some block visited earlier in that order defines it |
| `PromotionResult.ConsultableAnyOrder` | src/optimization/Mem2Reg.cpp:126-144 | what succeeds in every order of the children succeeds in a given one |
| `PromotionResult.ConsultableIff` | src/optimization/Mem2Reg.cpp:107-144 | all look-ups succeed in every order if and only if every load has a value and in no order of the children a phi asks for the top of an empty stack |
| `Renaming.WaitingUnused` | src/optimization/Mem2Reg.cpp:163-166 | when the accesses of a block are erased no instruction or phi of a reachable block uses one of them any more |
| `Mem2RegPass.Mem2Reg.EraseUnused` | src/optimization/Mem2Reg.cpp:163-166 | erases exactly those accesses, which must have no user left |
| `SlotUse.SlotsUnused` | src/optimization/Mem2Reg.cpp:178-197 | if slots of scalars are only loaded and stored in the input, then after renaming no instruction or phi of a reachable block uses one of them any more |
| `Mem2RegPass.Mem2Reg.EraseAllocas` | src/optimization/Mem2Reg.cpp:178-197 | erases the int and float slots of a block, which must have no user left |
| `Mem2RegPass.Mem2Reg.RemoveAlloca` | src/optimization/Mem2Reg.cpp:178-197 | exactly the int and float slots are erased, none of which is used any more, and the result is the promoted program without them |
| `SlotUse.NothingLeftBehind` | src/optimization/Mem2Reg.cpp:100-197 | in reachable blocks no slot access is left once renaming is done, and no operand names a replaced load or a slot that the input only loads and stores; afterwards no int or float slot is left |
| `Renaming.AllocasGone` | src/optimization/Mem2Reg.cpp:178-197 | erasing the slots keeps the promoted form |
| `Promotion.ValueStable` | src/optimization/Mem2Reg.cpp:107-111 | replacing further loads does not change a value that has been pushed |
| `Promotion.ResolveAvailable` | src/optimization/Mem2Reg.cpp:107-111 | what replaces a load is available at each of its uses |
| `PromotionSimulation.AdvanceInStep` | src/optimization/Mem2Reg.cpp:42-167 | one block: the two programs stay at the same block with the same memory and trace, and the value of each variable evaluates to the content of its slot |
| `PromotionSimulation.PromotionPreservesMeaning` | src/optimization/Mem2Reg.cpp:42-167 | so for runs of any length |
| `Mem2RegPass.PromoteFunction` | src/optimization/Mem2Reg.cpp:14-31 | the whole pass: for every acceptable function the result goes through the same blocks, makes the same stores and calls and returns the same values, in every world and for every number of blocks, and its phis are complete |
| `Purity.FirstAddrOfChain` | include/optimization/FuncInfo.h:112-127 | the search ends at an operand if and only if steps lead there from the first operand of a Gep, and from any other instruction but a slot or load to its first operand that is a pointer |
| `Purity.FuncInfo.constructor` | include/optimization/FuncInfo.h:16-16 | starts without any verdict |
| `Purity.FuncInfo.TrivialMark` | include/optimization/FuncInfo.h:45-67 | a function is rejected at once iff it is a declaration, is main, takes a parameter other than int or float, or loads or stores through an address that does not go back to a slot |
| `Purity.TaintedCaller` | include/optimization/FuncInfo.h:69-81 | a caller of a tainted function is tainted |
| `Purity.FuncInfo.Process` | include/optimization/FuncInfo.h:69-81 | exactly the callers of the impure function become impure, exactly those that were pure before are queued, once each and at the end, and the work list invariant is kept |
| `Purity.ChainImpure` | include/optimization/FuncInfo.h:25-29 | if the rejected functions are impure and so is every caller of an impure one, every function from which a chain of calls reaches a rejected one is impure |
| `Purity.FuncInfo.Run` | include/optimization/FuncInfo.h:18-31 | ends on every call graph, recursive ones too, with a function pure if and only if no chain of calls from it reaches a rejected function |
| `PurityMeaning.FoundIffBased` | include/optimization/FuncInfo.h:99-127 | where addresses are typed, the search finds a slot if and only if the operand is a slot or is reached from one by Geps through first operands |
| `PurityMeaning.RejectedUnless` | include/optimization/FuncInfo.h:45-111 | by itself a function passes if and only if it has a body, is not main, takes only ints and floats, and each of its loads and stores is of memory based on a slot in that sense |
| `PurityMeaning.AddressOwned` | include/optimization/FuncInfo.h:99-111 | an address that goes back to a slot is in the function's own memory |
| `PurityMeaning.InstrInside` | include/optimization/FuncInfo.h:83-97 | no instruction of such a function changes memory other than its own |
| `PurityMeaning.PureFunctionKeepsMemory` | include/optimization/FuncInfo.h:10-31 | a function found pure leaves all memory but its own as it was, however long it runs, if the pure functions it calls leave memory alone |
| `ModuleRuns.PureCallKeepsMemory` | include/optimization/FuncInfo.h:10-31 | when calls run the bodies of the module, each with a frame that is gone on return, every call of a function found pure returns with memory exactly as before, whatever it calls and however deep |
| `ModuleRuns.ModuleWorldPure` | include/optimization/FuncInfo.h:10-31 | so the assumption about pure callees holds in the world of every module |
| `DeadCodePass.DeadCode.MarkCritical` | include/optimization/DeadCode.h:33-43 | marks exactly the critical instructions of the function, the branches, returns, stores and impure calls, and queues exactly those |
| `DeadCodePass.DeadCode.MarkOperands` | include/optimization/DeadCode.h:52-64 | exactly the instructions that compute the operands are marked in addition, exactly the newly marked are queued, once each and at the end, and the work list invariant is kept |
| `DeadCodePass.DeadCode.Mark` | include/optimization/DeadCode.h:32-51 | ends with exactly the least set that has the critical instructions and, with an instruction, those it uses |
| `DeadCodePass.DeadCode.Sweep` | include/optimization/DeadCode.h:65-85 | exactly the unmarked instructions leave the function, the counter grows by their number, and a change is reported iff there were any |
| `DeadCodeMeaning.NeededReaches` | include/optimization/DeadCode.h:32-64 | an instruction is in the least marked set if and only if a chain of uses leads from it to a branch, a return, a store or a call of a function that is not pure |
| `DeadCodeMeaning.CriticalIffActs` | include/optimization/DeadCode.h:86-101 | an instruction that does not end its block is critical if and only if, in some state and some world where pure functions leave memory alone, it gives a slot a new value, changes memory or can be observed: loads and Geps never are |
| `DeadCodePass.CleanedExactly` | include/optimization/DeadCode.h:16-85 | cleaning a function leaves exactly the instructions from which such a chain leads to an effect |
| `DeadCodeMeaning.SweptNodes` | include/optimization/DeadCode.h:65-85 | what survives are exactly the marked instructions |
| `DeadCodeMeaning.SweptIndexed` | include/optimization/DeadCode.h:65-85 | no survivor uses an erased instruction |
| `DeadCodeMeaning.SecondMark` | include/optimization/DeadCode.h:19-26 | marking the swept function marks the same set, which is all that is left |
| `DeadCodePass.DeadCode.Round` | include/optimization/DeadCode.h:20-25 | one round cleans every function, and reports no change when nothing was left to clean |
| `DeadCodePass.DeadCode.Run` | include/optimization/DeadCode.h:16-28 | ends after at most two rounds, for the pure functions of the module, with nothing left to erase and exactly those instructions kept from which a chain of uses leads to a branch, return, store or impure call |
| `DeadCodeMeaning.MarkedStep` | include/optimization/DeadCode.h:86-100 | a marked instruction does the same in both programs |
| `DeadCodeMeaning.UnmarkedStep` | include/optimization/DeadCode.h:86-100 | an unmarked one does nothing that can be observed |
| `DeadCodeMeaning.EnterAgree` | include/optimization/DeadCode.h:65-85 | entering a block through its surviving phis keeps all marked values equal |
| `DeadCodeMeaning.AdvanceAgree` | include/optimization/DeadCode.h:65-85 | one block keeps the two programs in step |
| `DeadCodeMeaning.SweepPreservesMeaning` | include/optimization/DeadCode.h:32-85 | so for runs of any length, from any point |
| `DeadCodePass.CleanedBehaves` | include/optimization/DeadCode.h:16-85 | the cleaned function goes through the same blocks and returns the same values with the same memory, stores and impure calls, where pure calls leave memory alone |
| `CleanedModule.CleanedCall` | include/optimization/DeadCode.h:16-28 | with all functions cleaned, each call between them returns the same value and memory as before, to any depth of calls |
| `CleanedModule.CleanedRun` | include/optimization/DeadCode.h:16-28 | so each function of the cleaned module, calling cleaned functions, goes through the same blocks with the same memory, stores and impure calls and returns the same values, with nothing assumed of its callees but that none reads a value that does not exist |
| `UseDef.Value.constructor` | src/lightir/User.cpp:5-9 | a new user has that many operands, none set, and no uses |
| `UseDef.Value.AddUse` | src/lightir/Value.cpp:10-10 | appends one use |
| `UseDef.Value.RemoveUse` | src/lightir/Value.cpp:23-26 | drops all uses by that user, of whatever operand, and keeps the others in order |
| `UseDef.OnlyCount` | src/lightir/Value.cpp:23-40 | filtering a use list keeps the number of each use that passes and drops the others |
| `UseDef.Value.SetOperand` | src/lightir/User.cpp:15-20 | one operand slot and one use list change, as stated |
| `UseDef.SetOperandExact` | src/lightir/User.cpp:15-20 | use lists and operands stay in step if and only if the operand had not been set before: setting it again leaves the old use behind |
| `UseDef.Value.AddOperand` | src/lightir/User.cpp:22-26 | one more operand, one more use |
| `UseDef.AddOperandMirrored` | src/lightir/User.cpp:22-26 | which keeps them in step |
| `UseDef.Value.ReplaceAllUseWith` | src/lightir/Value.cpp:14-21 | for a different new value: every slot that held this value holds the new one, this list is empty, the new value's list has gained it, nothing else changes, and all stay in step |
| `UseDef.ReplacedEverywhere` | src/lightir/Value.cpp:14-21 | when lists and operands are in step, walking the use list replaces the value at every operand position that held it and at no other |
| `UseDef.Value.ReplaceUseWithWhen` | src/lightir/Value.cpp:28-40 | the same for exactly the uses whose user is chosen, the other uses staying in order |
| `UseDef.MoveMirrored` | src/lightir/Value.cpp:14-40 | moving any part of a use list to another value with its operand slots keeps operands and lists in step |
| `UseDef.Value.RemoveUseOfOps` | src/lightir/User.cpp:30-34 | this user is gone from every use list, which are otherwise as before |
| `UseDef.ForgottenMirrored` | src/lightir/BasicBlock.cpp:25-28 | after that the user can go and the rest is in step if and only if nothing else uses it |
| `UseDef.BasicBlock.EraseInstr` | src/lightir/BasicBlock.cpp:25-28 | the instruction is unlinked and gone from all use lists, and the rest is in step exactly when nothing else used it |
| `Scopes.Scope.Enter` | include/cminusf_builder.hpp:17-17 | one more, empty scope |
| `Scopes.Scope.Exit` | include/cminusf_builder.hpp:20-20 | one scope less |
| `Scopes.Scope.Push` | include/cminusf_builder.hpp:27-30 | binds in the innermost scope unless the name is there already, and says which |
| `Scopes.Scope.Find` | include/cminusf_builder.hpp:32-41 | the binding in the innermost scope that has the name |
| `Scopes.LookupInnermost` | include/cminusf_builder.hpp:32-41 | a name is found iff some scope has it, and then as bound in a scope further in than which none has it |
| `Scopes.LookupBind` | include/cminusf_builder.hpp:27-41 | a new binding shadows the outer ones of its name and no other name; a second binding in one scope is ignored |
| `Scopes.LeaveForgets` | include/cminusf_builder.hpp:17-30 | leaving a scope forgets what was bound in it and nothing else |
| `Building.CminusfBuilder.constructor` | include/cminusf_builder.hpp:49-77 | starts in the global scope with input, output, outputFloat and neg_idx_except bound to their types, not asking for an address |
| `Building.CminusfBuilder.CreateBr` | src/lightir/Instruction.cpp:228-233 | the branch is appended and the edge recorded on both sides |
| `Building.CminusfBuilder.CreateCondBr` | src/lightir/Instruction.cpp:219-226 | the branch is appended and both edges recorded, the false one first among the successors |
| `Building.CminusfBuilder.EraseFromParent` | src/lightir/Function.cpp:30-38 | the block and the edges at it leave the function |
| `Building.CminusfBuilder.VisitVar` | src/cminusfc/cminusf_builder.cpp:389-464 | leaves the lowering of the variable, as an address when one was asked for and as a value otherwise, and never keeps asking |
| `Building.CminusfBuilder.CheckIndex` | src/cminusfc/cminusf_builder.cpp:425-446 | leaves the lowering of the index check, with the block that reports a negative index |
| `Building.CminusfBuilder.VisitAssignExpression` | src/cminusfc/cminusf_builder.cpp:466-490 | leaves the lowering of an assignment: right-hand side first, then the target, converted to its type |
| `Building.CminusfBuilder.VisitSimpleExpression` | src/cminusfc/cminusf_builder.cpp:493-562 | leaves the lowering of a comparison |
| `Building.CminusfBuilder.VisitAdditiveExpression` | src/cminusfc/cminusf_builder.cpp:564-658 | leaves the lowering of a sum, difference, product or quotient |
| `Building.CminusfBuilder.VisitCall` | src/cminusfc/cminusf_builder.cpp:660-684 | leaves the lowering of a call with converted arguments; an unknown name or a wrong number of arguments is recorded as a failed assertion |
| `Building.CminusfBuilder.VisitVarDeclaration` | src/cminusfc/cminusf_builder.cpp:78-117 | outside functions binds the name to a global, and inside leaves the lowering of a local declaration |
| `MissingNames.ExprAborts` | src/cminusfc/cminusf_builder.cpp:389-684 | lowering an expression fails an assertion if and only if it uses a name that is not declared as it is used, or calls with a wrong number of arguments |
| `MissingNames.ClosesEnds` | src/cminusfc/cminusf_builder.cpp:264-268 | after a statement the current block has ended if and only if the statement is a return or a block with one that is |
| `MissingNames.FunctionAborts` | src/cminusfc/cminusf_builder.cpp:120-213 | so for a function, where what follows a return in a list of statements is not looked at |
| `Building.ParamTypes` | src/cminusfc/cminusf_builder.cpp:139-161 | the types of a function's parameters: int or float, or a pointer to those for an array |
| `Building.CminusfBuilder.VisitCompoundStmt` | src/cminusfc/cminusf_builder.cpp:245-273 | leaves the lowering of a block of statements and the scopes as they were |
| `Building.CminusfBuilder.VisitSelectionStmt` | src/cminusfc/cminusf_builder.cpp:285-329 | leaves the lowering of a conditional |
| `Building.CminusfBuilder.VisitIterationStmt` | src/cminusfc/cminusf_builder.cpp:331-357 | leaves the lowering of a loop |
| `Building.CminusfBuilder.VisitReturnStmt` | src/cminusfc/cminusf_builder.cpp:359-387 | leaves the lowering of a return |
| `Building.CminusfBuilder.VisitFunDeclaration` | src/cminusfc/cminusf_builder.cpp:120-213 | leaves the lowering of the function, its name bound in the global scope and the local scopes gone |
| `Lowering.LowerStmt` | src/cminusfc/cminusf_builder.cpp:245-387 | whatever the statement, the scopes are as before |
| `Lowering.LowerExpr` | src/cminusfc/cminusf_builder.cpp:389-684 | whatever the expression, the scopes are as before |
| `LoweringShape.ExprKept` | src/cminusfc/cminusf_builder.cpp:389-684 | an expression adds to the current block and to new blocks only, seals all of these but the one it comes to, and its value is not overwritten later |
| `LoweringShape.CheckKept` | src/cminusfc/cminusf_builder.cpp:425-446 | so does the check of an index, whose extra block is sealed |
| `LoweringShape.CondBrMirrored` | src/lightir/Instruction.cpp:219-226 | a conditional branch to two different blocks keeps predecessor and successor lists the mirror of the branches |
| `LoweringShape.BrMirrored` | src/lightir/Instruction.cpp:228-233 | so does a branch |
| `LoweringShape.RemoveMirrored` | src/lightir/Function.cpp:30-38 | so does taking out a block without edges, which leaves all other lists alone |
| `LoweringShape.StmtDone` | src/cminusfc/cminusf_builder.cpp:245-387 | a statement adds to the current block and to new blocks only and seals all of these but the one it comes to |
| `LoweringShape.FunctionShape` | src/cminusfc/cminusf_builder.cpp:120-213 | in every lowered function each block ends in its only branch or return, the lists of neighbours are exactly the targets of the branches, both without repetition, nothing branches to the entry, and the global scope is as before |
| `LoweringMeaning.ExprMeans` | src/cminusfc/cminusf_builder.cpp:389-684 | running the code of an expression gives the value and type that the source semantics gives, with the same memory, trace and variables, or leaves the function where a negative index does |
| `LoweringMeaning.CheckMeans` | src/cminusfc/cminusf_builder.cpp:425-446 | a negative index calls the reporting function and returns the default value, any other goes on as an int |
| `LoweringMeaning.AssignMeans` | src/cminusfc/cminusf_builder.cpp:466-490 | an assignment evaluates the right-hand side before the index and stores the converted value |
| `LoweringMeaning.BinaryMeans` | src/cminusfc/cminusf_builder.cpp:493-658 | operands left to right, promoted to float when types differ, comparisons as int |
| `Arithmetic.ComparisonComputed` | src/cminusfc/cminusf_builder.cpp:524-560 | in a world where icmp_le is x <= y on ints, fcmp_le that of floats and so on, the code of a comparison gives 1 if and only if the operands compare by the operator written, as ints if both are, and as floats otherwise, and 0 if not |
| `Arithmetic.ArithmeticComputed` | src/cminusfc/cminusf_builder.cpp:564-658 | the code of a sum, difference, product or quotient gives that of its operands: of ints in 32 bits, with quotients towards zero, and of floats if one operand is a float |
| `Arithmetic.AssignmentConverts` | src/cminusfc/cminusf_builder.cpp:480-489 | after an assignment the variable has the number, converted to its own type |
| `Arithmetic.IndexTested` | src/cminusfc/cminusf_builder.cpp:430-446 | an index leaves the function if and only if it is negative as an int, and otherwise gives that element |
| `Arithmetic.ConditionTested` | src/cminusfc/cminusf_builder.cpp:302-306 | a condition holds if and only if its value is not zero |
| `Arithmetic.ReturnConverts` | src/cminusfc/cminusf_builder.cpp:375-385 | a number is returned in the return type |
| `Arithmetic.ArgumentConverts` | src/cminusfc/cminusf_builder.cpp:672-681 | a number is passed in the type of the parameter |
| `Arithmetic.PointedToElement` | src/cminusfc/cminusf_builder.cpp:406-453 | a pointer to ints or floats points to ints or floats |
| `Arithmetic.ParamRead` | src/cminusfc/cminusf_builder.cpp:139-198 | a parameter as a value is its argument, an int, a float or a pointer to those as declared, and an element of an array parameter is what memory holds at the address computed from argument and index |
| `Arithmetic.LocalRead` | src/cminusfc/cminusf_builder.cpp:90-115 | a declared variable is an unset int or float, or an array that as a value is the address of its first element |
| `LoweringMeaning.SetMatches` | src/cminusfc/cminusf_builder.cpp:466-490 | storing to the slot of the innermost variable of a name sets that variable and no other |
| `StatementMeaning.StmtMeans` | src/cminusfc/cminusf_builder.cpp:245-387 | running the code of a statement falls through or returns as the statement does, and makes at least as many steps as the statement needs loop iterations |
| `StatementMeaning.IfMeans` | src/cminusfc/cminusf_builder.cpp:285-329 | for a conditional, with or without else |
| `StatementMeaning.LoopMeans` | src/cminusfc/cminusf_builder.cpp:331-357 | for a loop, from the block of its condition |
| `StatementMeaning.CompoundMeans` | src/cminusfc/cminusf_builder.cpp:245-273 | for a compound statement, whose declarations shadow and vanish |
| `StatementMeaning.LoweringPreservesMeaning` | src/cminusfc/cminusf_builder.cpp:120-213 | for every function, world, memory and bound: the lowered function returns the same values with the same memory, stores and calls, or runs on for as many steps as the source makes loop iterations |
| `StatementMeaning.LoweredFunctionReturns` | src/cminusfc/cminusf_builder.cpp:120-213 | block by block it finishes with what the source returns |
| `StatementMeaning.LoweredFunctionDiverges` | src/cminusfc/cminusf_builder.cpp:331-357 | if the source needs more than n loop iterations the lowered function still runs after n instructions |
| `StatementMeaning.LoweredFunctionRunsOn` | src/cminusfc/cminusf_builder.cpp:331-357 | for every number of blocks there are loop iterations of the source that outlast them: if the source is still running then, so is the lowered function after that many blocks |
| `Reaching.CheckZoned` | src/cminusfc/cminusf_builder.cpp:425-446 | both blocks of the check of an index are reached if the check is, and neither if it is not |
| `Reaching.ExprZoned` | src/cminusfc/cminusf_builder.cpp:389-684 | the blocks an expression adds are reached if the code before it is, and unreached otherwise |
| `Reaching.StmtZoned` | src/cminusfc/cminusf_builder.cpp:245-387 | whether a statement ends its block, goes on in code that is reached, or goes on in code that nothing reaches is what the source says, and unreached blocks branch to reached ones exactly if an arm or a loop body ends in unreached code while what follows is reached |
| `Reaching.JoinsReachedIff` | src/cminusfc/cminusf_builder.cpp:120-357 | in a lowered function every join is reached along all its edges if and only if the source is tidy, whatever the function: a condition on the statements alone |
| `Reaching.UntidyNeverStops` | src/optimization/Dominators.cpp:184-197 | in a lowered function that is not tidy the analysis of dominance frontiers climbs from some predecessor of a reachable join and never meets the idom of the join |
| `Reaching.ReturnsInBothTidy` | src/cminusfc/cminusf_builder.cpp:285-357 | a conditional that returns in both arms is tidy at the end of a function, and not as the body of a loop or as an arm of a conditional without else |
| `SourceCheck.ExprFit` | src/cminusfc/cminusf_builder.cpp:389-684 | lowering a checked expression misses no name, loads only slots stored to before in the entry, and uses no slot of a scalar as a value |
| `SourceCheck.StmtFit` | src/cminusfc/cminusf_builder.cpp:245-387 | so does lowering a checked statement |
| `SourceCheck.LeadingFit` | src/cminusfc/cminusf_builder.cpp:245-273 | assignments at the start of a body that index nothing stay in the entry, so their variables count as stored for all that follows |
| `SourceCheck.FunctionChecked` | src/cminusfc/cminusf_builder.cpp:120-213 | a function that passes the check of its source is lowered without a failed assertion, its scalar slots are only loaded and stored, and in promotion all look-ups succeed in every order of the children |
| `Examples.GcdChecked` | tests/parser/hard/gcd.cminus:1-4 | the greatest common divisor passes the check in every scope that knows it |
| `LoweringNames.CheckSound` | src/cminusfc/cminusf_builder.cpp:425-446 | the check of an index goes on in a block that all paths enter from the check, so what was computed before can be used after it |
| `LoweringNames.ExprSound` | src/cminusfc/cminusf_builder.cpp:389-684 | lowering an expression uses only values computed before on every path, gives each instruction an identity of its own, and leaves its own value and all earlier ones available |
| `LoweringNames.StmtSound` | src/cminusfc/cminusf_builder.cpp:245-387 | so does a statement, across branches, joins and loops |
| `LoweringNames.FunctionSound` | src/cminusfc/cminusf_builder.cpp:120-213 | so does a function: identities are unique and every value is computed before it is used |
| `Compilation.ChainDominates` | src/cminusfc/cminusf_builder.cpp:425-446 | a block from which another is only entered through blocks with a single predecessor dominates it |
| `Compilation.LoweredAcceptable` | src/cminusfc/cminusf_builder.cpp:120-213 | the lowered code of a tidy function in which every name was known satisfies all that promotion requires of its input: unique identities, dominating definitions, plain addresses, matching edges, reached joins |
| `Compilation.CheckedCompilable` | src/cminusfc/cminusf_builder.cpp:120-213 | all that lowering and promotion ask for can be read off the source: it is enough that the function passes the check and is tidy |
| `Examples.GcdCompilable` | tests/parser/hard/gcd.cminus:1-4 | the greatest common divisor can be compiled, although it ends in a block that nothing reaches |
| `Examples.SumPasses` | tests/parser/normal/skip_spaces.cminus:23-27 | the sum of the elements of an array, with local variables and a loop as in this program, passes the check and is typed |
| `Examples.SumCompilable` | tests/parser/normal/skip_spaces.cminus:23-27 | so it can be compiled |
| `Examples.GcdStep` | tests/parser/hard/gcd.cminus:1-4 | in a world where instructions mean what they are called, a call with numbers a and b returns a if b is 0, and otherwise what the call with b and the remainder of a by b gives: Euclid's algorithm |
| `Examples.GcdCompiled` | tests/parser/hard/gcd.cminus:1-4 | and so does the compiled code |
| `SlotKinds.StmtKinded` | src/cminusfc/cminusf_builder.cpp:98-115 | lowering a statement makes a slot marked as a scalar for each declaration that is no array, and one that is not for each array |
| `SlotKinds.FunctionKinded` | src/cminusfc/cminusf_builder.cpp:98-201 | in every lowered function the slot of a declaration or parameter is marked as a scalar if and only if it declares no array |
| `TypeSafety.ExprSafe` | src/cminusfc/cminusf_builder.cpp:389-684 | in a state where names stand for what they are declared as, evaluating a checked and typed expression gives a value of its static type or leaves because of a negative index: it is never wrong |
| `TypeSafety.StmtSafe` | src/cminusfc/cminusf_builder.cpp:245-387 | running a checked and typed statement never fails, for every amount of fuel |
| `TypeSafety.LeadingSafe` | src/cminusfc/cminusf_builder.cpp:264-268 | the leading assignments set their variables before anything reads them, so the body never fails |
| `TypeSafety.FunctionSafe` | src/cminusfc/cminusf_builder.cpp:120-213 | a call of a function that passes the check and is typed never fails, in any world, memory and amount of fuel |
| `Compilation.PromotedReturns` | src/optimization/Mem2Reg.cpp:14-31 | promoting a lowered function keeps what the source says: whenever the source returns, the promoted code does, with the same values, memory, stores and calls |
| `Compilation.PromotedRunsOn` | src/optimization/Mem2Reg.cpp:14-31 | and for every number of blocks there are loop iterations of the source that outlast them in the promoted code, too |
| `Compilation.PromotedDoes` | src/optimization/Mem2Reg.cpp:14-31 | so the promoted code returns when the source does, runs for ever when the source does, and, if the source never fails, returns nothing else |
| `Compilation.CompileFunction` | src/cminusfc/cminusf_builder.cpp:120-213 | the builder and promotion one after the other: from a C-minus function to promoted code that does what the source semantics says, returning runs and endless ones alike, in every world with those globals and for every memory; in its reachable blocks no slot is loaded or stored, and every slot left is that of an array |
| `Compilation.PromotedSlots` | src/optimization/Mem2Reg.cpp:178-197 | in the promoted code of any function no reachable slot access and no reachable slot but those declared as arrays is left |
| `Compilation.SafeNeverStuck` | src/optimization/Mem2Reg.cpp:14-31 | code that does as a source that never fails is at any time running or has returned what the source returns |
| `Compilation.CompileChecked` | src/cminusfc/cminusf_builder.cpp:120-213 | for a function that passes the check, is typed and is tidy this needs no condition on runs: the compiled code does what the source does and is never stuck |
| `AstBuilding.Flatten` | src/common/ast.cpp:32-49 | walking down a left-recursive list with a stack and taking its members off again gives them in source order |
| `AstBuilding.ArgsInOrder` | src/common/ast.cpp:364-388 | the arguments of a call are what is built from the members of its list, in that order |
| `AstBuilding.DeclarationsInOrder` | src/common/ast.cpp:28-49 | so are the declarations of a program, each built with the next free identity after the one before it |
| `AstBuilding.ParamsInOrder` | src/common/ast.cpp:87-109 | so are the parameters of a function |
| `AstBuilding.DeclsInOrder` | src/common/ast.cpp:125-144 | so are the declarations of a compound statement |
| `AstBuilding.StmtsInOrder` | src/common/ast.cpp:146-163 | so are its statements |
| `AstBuilding.BuildArgs` | src/common/ast.cpp:364-388 | flattening the list and converting its members one by one gives the arguments |
| `AstBuilding.BuildDeclarations` | src/common/ast.cpp:28-49 | the same for declarations |
| `AstBuilding.BuildParams` | src/common/ast.cpp:87-109 | the same for parameters |
| `AstBuilding.BuildDecls` | src/common/ast.cpp:125-144 | the same for local declarations |
| `AstBuilding.BuildStmts` | src/common/ast.cpp:146-163 | the same for statements |
| `AstBuilding.DeclsFresh` | src/common/ast.cpp:125-144 | each declaration in a list is a new object, different from all made before |
| `AstBuilding.FunctionFresh` | src/common/ast.cpp:75-114 | so all declarations of a function built are different from each other, which is what lowering requires, and are numbered within a known range |
| `Compilation.BuiltDeclares` | src/common/ast.cpp:75-114 | so the functions built from parse trees are what compilation asks for when instructions are numbered after declarations |
| `RoundTrip.ExprAgrees` | src/common/ast.cpp:230-388 | the tree of an expression can be rebuilt from the syntax tree made from it, grouping included, iff all numerals are written as they were read; what is rebuilt differs at most in the texts of tokens |
| `RoundTrip.AdditiveAgrees` | src/common/ast.cpp:290-315 | so for sums: the left operand is what stands left of the last operator, and nothing is regrouped |
| `RoundTrip.TermAgrees` | src/common/ast.cpp:316-341 | and for products |
| `RoundTrip.VarDeclAgrees` | src/common/ast.cpp:53-74 | so for a declaration, iff it is not void and its size is written as it was read: void variables turn into floats |
| `RoundTrip.ParamsAgree` | src/common/ast.cpp:87-124 | so for parameters, each iff it is not void |
| `RoundTrip.SelectionAgrees` | src/common/ast.cpp:178-201 | so for conditionals: an else belongs to the conditional that it was read with |
| `RoundTrip.StmtAgrees` | src/common/ast.cpp:125-229 | so for all statements, with their declarations and statements in source order |
| `RoundTrip.RebuiltAsRead` | src/common/ast.cpp:28-392 | the parse tree of a program can be rebuilt from the syntax tree made from it if and only if no variable or parameter is declared void and every numeral is written as it was read; in any case every construct is made of the parts it was read from |
| `RoundTrip.AlikeYields` | src/common/ast.cpp:28-392 | trees that differ at most in the texts of tokens have as many tokens, and the same ones only if they are the same |
| `RoundTrip.WrittenAsRead` | src/common/ast.cpp:28-392 | so writing out what was built gives back the tokens, all lists in source order, under the same condition |

## Left out

- Value numbering (GVN.cpp): its join, intersection and equality are unfinished, so there is no algorithm to verify.
- create_doms in Dominators.cpp: nothing calls it, and it does not compute dominators.
- remove_operands in User.cpp: nothing calls it.
- The scanner and the parser tables; what a numeral's text stands for is a parameter.
- Names given to instructions (set_instr_name in Function.cpp), printing, dumping, logging and the command line.
- The initial values of global variables.
- Float formats: how floats compare, calculate and convert is a parameter; ints wrap to 32 bits in `Arithmetic`, and a quotient by zero is left open.
- Indexing past the end of an array, and slots that are also reached through computed addresses: cells of slots and addressed memory are separate.
- Lowering and promotion across calls: there a callee is a function of its arguments and memory; only for purity and dead code do calls run the bodies of the module.
- ModuleRuns.PureCallKeepsMemory: a call that nests too deep or does not return in time gives a default value, for every bound on depth and time.
- CleanedModule.CleanedRun: runs in which some function reads a value that does not exist are excluded.
- DominatorAnalysis.Dominators.Run: the tables hold one function, while the repository keeps those of all functions in one object.
- DominatorAnalysis.Dominators.CreateDomTreeSucc: blocks without idom, which the repository files under a null key, are left out.
- Null pointers, ownership and type interning.
- Mem2RegPass.PromoteFunction: functions in which a slot of a scalar is indexed are excluded, because the slot would be erased while an address computation still names it.
- Compilation.CompileFunction: dead code elimination after promotion, and calls between compiled functions, are not part of this theorem.
- SourceCheck.FunctionChecked: the check is sufficient, not necessary; it asks for an assignment at the start of the function even of a variable that is only used where it has been assigned.
- DeadCodePass.CleanedBehaves: that calls of pure functions leave memory alone is a hypothesis on the world, which ModuleRuns.ModuleWorldPure discharges for the world of a module.
- PurityMeaning.PureFunctionKeepsMemory: so is that the pure functions it calls do, which ModuleRuns.PureCallKeepsMemory discharges.
- CleanedModule.CleanedCall: modules in which a call reads a value never set are excluded, since what such a read gives is left open.
- UseDef.Value.ReplaceAllUseWith: replacing a value by itself is excluded: unless its use list is empty, the loop of the source would never end.
