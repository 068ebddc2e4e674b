# Verified model of a Prolog engine's compiler and runtime core

This project models, in Dafny, the parts of the engine whose correctness is decided by
intricate but self-contained code, and proves what those parts are for.

| part | modules | main results |
|---|---|---|
| First-argument indexing | `IndexingLines`, `IndexingLemmas`, `IndexingCompile`, `IndexingMerge`, `IndexingRemove`, `IndexingHistory`, `IndexingDispatch` | a block of indexing lines represents a list of clauses; compiling, merging and removing clauses refine list construction, adding at either end and removal, and leave the argument looked at and the slot of unbound ones alone; over any history of additions and removals a call finds every clause that is still there under its key; running a block reaches the plain scan for the argument's key |
| Predicates | `PredicateCode`, `PredicateReach`, `HeadMatching`, `PredicateRun`, `PredicateAnswers`, `PredicateLookahead` | a call of a compiled predicate reaches, in source order and without repeats, exactly the clauses it is led to; run with its choice points it gives their answers in order, up to the first one that cuts, and leaves the choice points under which it was called, with the look-ahead of the machine as without it; which clauses that unify with the call are missed, and that no other one is; the skeleton locates every clause |
| Clause bodies | `BodyTree`, `ClauseIterator`, `BranchCode`, `CompileSeq`, `BodyMeaning`, `BodyControl`, `BodySource`, `BodyRun`, `BranchNumbers` | a clause body of conjunctions, disjunctions, if-then, negations and cuts is classified into a tree, and the flat code of the tree gives the answers that the body means, with backtracking and cuts; if-then-else commits to the first solution and negation is failure to find one; interval numbering of branches |
| Shared tables | `RawBlock`, `AtomCode`, `AtomTable`, `OffsetTable` | over all interleavings: calls return equal atoms exactly for equal strings, and the atom returned keeps decoding to the string of the call; reads see the last write, no update is lost, a new entry holds what its call was given |
| Terms on the heap | `TermWriter`, `TermReading` | writing a term and reading it back; which anonymous variables share an entry of the dictionary |
| Heap traversal | `EagerSteps`, `EagerOrder`, `EagerIter`, `PostOrder` | a marking traversal of cyclic terms that restores the heap; the order in which it yields their cells, and each but a variable once; the set of variables and the test for ground terms built on it; postorder from preorder |
| Arithmetic | `ArithTerms`, `ArithCompile`, `ArithRun`, `ArithMetacall`, `BinaryGcd`, `IntegerOps`, `Fixnums` | compiled register code means what recursive evaluation means, and when the loop over the heap does too; greatest common divisor, division, powers, shift |
| Stack slots | `PermSlots`, `PermWalk` | no two permanent variables share a slot; a slot is marked as holding its value exactly if its variable occurs on the way through the tree of the clause; exactly when a cut point loses its slot before its last cut |

`Options` and `Slices` hold an option type and facts about slices of sequences.

## How the code is modelled

Cells, literals, keys and instructions are datatypes rather than bit fields; raw memory is a
sequence of bytes with a bump pointer, and the entries of the offset table are slots of one
block. Objects that the engine updates in place are classes, and each of their methods is tied to a
function on values. Shared tables are transition systems: one thread makes one step at a time, and
the theorems quantify over every run. Integers are unbounded except where the width decides
something (fixnums of 56 bits, machine words in the greatest common divisor and the shift). The
switches on constants and on structures are twins in the engine; they are modelled once, over a `Kind`.
Local variables of large match statements became parameters of small methods.

Allocation failure, the unrepresentable (an atom offset beyond 48 bits), and the reclamation of
old snapshots are outside the model. The operations of arithmetic, the evaluation of a bound variable by compiled code, and
the machine remainder `rem_floor` are parameters or are given by their mathematical definition.

Where the code and an expected law disagree, the code is kept and the exact situation is stated:

- Removing a clause whose constant has a second key (a big integer or rational that fits a fixnum) misses
  the second key exactly when other clauses share the first one, because the cursor into the lines is not
  rewound (`RemoveIndex`, with the concrete block in `RemovalMissesAlternative`). A single clause where a key leads is
  removed whichever it is, so removing a clause that is not filed there drops another one, exactly in that case
  (`TouchesOnlyIt`, with a concrete block in `RemovalTakesAnother`). In a static predicate this does not happen: in every
  history of additions and removals each clause of the skeleton is filed under its keys (`NoneLost`).
- The number recorded with an arm of a disjunction is halved once for each disjunction inside the arm. The
  intervals first assigned satisfy the ancestor law; the recorded ones only cover the arm itself
  (`RecordedOnlySelf`, `RecordedLosesNesting`), so a variable made safe in an arm is taken as safe in that arm
  alone, and one made safe outside all disjunctions everywhere (`SafetyAccepted`).
- The index looks big integers and rationals up by where they are stored and cut points by their tag, and unification
  compares them by value. A call misses no clause that unifies exactly if none is off key in this way, or by being an atom
  called with a structure without arguments, and not filed under the only key in use (`CallCompleteExactly`, with two clauses
  for 10^20 and 2*10^20 in `BigNumberMissed`).
- A block with one clause or one choice list for a kind does not record their key. When a second key comes, the clauses are
  filed under the key that the skeleton names, and a defunct clause without one is dropped; nothing is lost exactly if
  there is a switch already or the key named is in use (`MergeClauseIndex`, `KnownExactly`).
- The loop that evaluates an expression on the heap visits the parts of a list before the list, so it reports what is
  wrong inside it, where recursive evaluation reports the list (`LoopIsEval`, with the list [1] in `ListOfOne`).
- Compiled arithmetic reads a variable when the operation that needs it is carried out, so an expression with
  an unreadable variable may report another error than recursive evaluation does; value and success always
  agree, and the errors do exactly if the operands after that variable compute without an error or with the same one
  (`SameOutcomeExactly`, `OrdersDiffer`).
- Each occurrence of a variable is counted before it could be freed, so only the variables of cut points come onto the
  free list, at cuts outside tail position. A cut point does not keep its slot until its last cut: it is without one exactly
  if after a cut through it another variable got its slot in a later chunk (`CutPointLostExactly`). With one cut point that is when
  another permanent variable first occurs in a later chunk than the first cut (`OneCutPointLostExactly`). One cut is enough, as
  in `\+ (a, !, q(X), r(X, Y), s(Y))` (`OneCutLosesCutPoint`). The chunk in which a slot is taken over can even be the one
  in which it was last given back, exactly if its variable was cut through again in that chunk or a later one
  (`TakenEarlyExactly`), which needs two cuts (`ReusedLater`), as in `\+ (a, !, b, !, q(X), r(X))`
  (`NegationLosesCutPoint`).
- A branch in tail position forgets what its arms met first. That is sound because the classifier gives occurrences in two
  arms of such a branch one variable only if it occurs before the branch; were they one variable in any case, an arm could read a slot
  that was never set on its way (`MarkedExactly`, with a concrete clause in `LeaksIfShared`).
- The eager iterator marks all arguments of a structure before it visits the first. A variable whose own cell is an argument still to
  come is left out there if it was met to the left; exactly then the cells are not the preorder of the term (`TermInPreorder`).
- In a predicate whose backtracking is not counted as inference, the retries inside a run count all the same
  (`ClauseChoiceKinds`).
- The dictionary of a written term has an anonymous variable under the length of the heap at its visit, which literals and
  variables do not change, so that in f(_, _) both have one entry (`AnonsShareEntry`, `AnonKeepsEntry`).
- A cut in the condition of an if-then-else goes back to the beginning of the clause (`CutInCondition`), where the standard
  for the language makes it local to the condition (section 7.8.8 of ISO/IEC 13211-1).
- The checked left shift refuses a result of -2^63 and a shift of zero by 64 or more (`ShiftSpec`).
- Arity is checked only at the root when a term is written to the heap (`WriteRoot`).

## Model

| member | source | states |
|---|---|---|
| `IndexingMerge.MergeClauseIndex` | src/indexing.rs:615-667 | merging a clause into a block that represents a clause list yields, for every key and every form the block can have, a well-formed block that represents the list as the block knows it with the clause added at the end or at the front; it represents the whole list with the clause if and only if there was a switch for its kind or the skeleton can name the key in use; the skeleton is given back unchanged, and so are the argument that the block looks at and where it sends an unbound one |
| `IndexingMerge.MergedExactly` | src/indexing.rs:615-667 | that condition, for every block and every way it can be merged |
| `IndexingMerge.IndexingCodeMergingPtr.Merge` | src/indexing.rs:615-667 | a clause is filed under its own key and, for an integer that fits a fixnum, under the fixnum too |
| `IndexingMerge.IndexingCodeMergingPtr.IndexKey` | src/indexing.rs:320-380 | filing under one constant or structure key adds the clause to that key's scan only, behind or before the clauses the block knows |
| `IndexingMerge.IndexingCodeMergingPtr.IndexOverlapping` | src/indexing.rs:237-318 | the second key of a constant is filed after the first without disturbing it |
| `IndexingMerge.IndexingCodeMergingPtr.OpenBareList` | src/indexing.rs:104-143 | replacing a bare choice list by a switch, by push and swap, files its clauses under the key named and changes nothing else |
| `IndexingMerge.KnownExactly` | src/indexing.rs:104-143 | opening a switch keeps every clause under its key if and only if there is a switch already or the skeleton names a key in use |
| `IndexingMerge.IndexingCodeMergingPtr.OpenDirect` | src/indexing.rs:382-421 | replacing a direct clause pointer by a switch files its clause under the key named, or drops it as defunct if there is none, and changes nothing else |
| `IndexingMerge.IndexingCodeMergingPtr.Internalize` | src/indexing.rs:104-143 | the pushed switch holds the old pointer under the key found in the skeleton, or nothing if none is found, and a displaced line moves to the end |
| `IndexingMerge.SearchSkeletonForFirstKeyType` | src/indexing.rs:37-66 | the search finds the nearest clause with a key of the kind, first in the skeleton and then among retracted clauses |
| `IndexingMerge.SkeletonOfClauses` | src/indexing.rs:37-66 | a skeleton that records the keys of the clauses names the only key in use of a kind |
| `IndexingMerge.ExtendedLineGood` | src/indexing.rs:1077-1098 | extending a choice list at either end keeps its shape and adds exactly the clause |
| `IndexingMerge.InsertedRepresents` | src/indexing.rs:145-235 | adding a clause at a key's leaf changes that key's scan and no other |
| `IndexingRemove.RemoveIndex` | src/indexing.rs:1031-1051 | for every block and key, removal takes out what is found where the key leads; a clause filed under its own keys is unfiled from those the search reaches, every other clause stays in place under every key, and the block then represents the list without the clause if and only if all its keys were reached; the argument looked at and the slot of unbound ones stay |
| `IndexingRemove.RemoveConstantIndices` | src/indexing.rs:669-811 | a clause is taken from the first key, and from the second one too if there is a switch and the first led straight to a clause or nowhere |
| `IndexingRemove.RemoveStructureIndex` | src/indexing.rs:813-951 | a clause is taken from where the structure key leads, nothing if it leads nowhere |
| `IndexingRemove.RemoveListIndex` | src/indexing.rs:953-1029 | a clause is taken from the list slot, nothing if it is empty |
| `IndexingRemove.TouchesOnlyIt` | src/indexing.rs:669-951 | taking a clause from a key touches that clause alone if and only if no other one is alone under the key |
| `IndexingRemove.ConstantTouchesOnlyIt` | src/indexing.rs:669-811 | for a constant with two keys, if and only if that holds of each key that is looked up |
| `IndexingHistory.NoneLost` | src/indexing.rs:615-1051 | after any additions and removals, those clauses found under a key that are still there are, in order, all clauses of the skeleton filed under it; without a switch nothing else is found |
| `IndexingHistory.IndexHistory.Call` | src/machine/dispatch.rs:1398-1541 | after any additions and removals, the dispatch loop for a call's argument list looks at the argument the clauses are indexed on, sends an unbound one to the slot it was given at the start, and of the clauses that are still there finds those filed under the argument's key, in order |
| `IndexingHistory.CallFinds` | src/machine/dispatch.rs:213-292 | what a bound argument finds of the clauses still there is the scan of those filed under its key, or, if there are none, nothing or the clauses of the only key in use |
| `IndexingHistory.IndexHistory.Add` | src/indexing.rs:615-667 | adding a clause at either end is always allowed, files it, and keeps every other clause |
| `IndexingHistory.IndexHistory.Remove` | src/indexing.rs:1031-1051 | removing a clause of the skeleton touches that clause alone |
| `IndexingHistory.AddingAllowed` | src/indexing.rs:104-143 | in every such history the skeleton can name a key wherever one is needed |
| `IndexingRemove.RemovalTakesAnother` | src/indexing.rs:669-690 | a clause that is not in the block is removed, and the only clause there is dropped |
| `IndexingRemove.RemoveInstructionWithOffset` | src/indexing.rs:1271-1283 | exactly the clause's choice is removed, and lists of two or more keep the shape try, retry, trust |
| `IndexingRemove.CappedGood` | src/indexing.rs:1053-1075 | capping a shortened choice list restores its shape |
| `IndexingRemove.Collapse` | src/indexing.rs:669-811 | a choice list with one clause left becomes a direct pointer |
| `IndexingRemove.RemovalExact` | src/indexing.rs:1031-1051 | the clause is gone exactly if every key it is filed under was reached |
| `IndexingRemove.RemovalMissesAlternative` | src/indexing.rs:669-811 | two equal big integers: the removed clause stays reachable through the fixnum |
| `IndexingCompile.CodeOffsets.IndexTerm` | src/indexing.rs:1459-1488 | one more clause is filed behind the earlier ones, under the keys of its argument |
| `IndexingCompile.SecondLevelIndex` | src/indexing.rs:1209-1226 | every key's bucket is laid out as a clause pointer or a choice list of its own |
| `IndexingCompile.SwitchOnKind` | src/indexing.rs:1228-1250 | the slot of a kind fails, leads to the only bucket, or to a switch that leads to each bucket |
| `IndexingCompile.SwitchOnList` | src/indexing.rs:1252-1269 | the list slot leads to the clauses filed under lists |
| `IndexingCompile.ComputeIndices` | src/indexing.rs:1498-1548 | the block of a run is well formed and represents exactly the filed clauses; there is none exactly if no clause is filed |
| `IndexingDispatch.ExecuteSwitchOnTerm` | src/machine/dispatch.rs:1398-1541 | the dispatch loop ends at the clauses of the leaf that the argument selects, and at the first clause for an unbound argument |
| `IndexingDispatch.ReachedIsScan` | src/machine/dispatch.rs:213-292 | a bound argument reaches the scan for its key, or, when no clause has its key and there is only one key in use, the clauses of that key |
| `IndexingDispatch.ScanAscending` | src/indexing.rs:1195-1207 | scans are in source order and without repeats |
| `PredicateCode.SplitPredicate` | src/codegen.rs:1116-1174 | the runs tile the predicate, share their first instantiated argument, and are as long as possible |
| `PredicateCode.CompilePredSubseq` | src/codegen.rs:1176-1260 | a run is chained by try, retry, trust behind an indexing block that represents its clauses |
| `PredicateCode.CompilePredicate` | src/codegen.rs:1262-1320 | the runs stand one behind the other, each behind its outer choice instruction, and the skeleton records where |
| `PredicateAnswers.CallAnswers` | src/machine/dispatch.rs:1398-1541 | for every compiled predicate and every call under any number of choice points: running it gives the answers of the clauses that the call reaches, in order, up to the first clause that cuts, and leaves the choice points under which it was called |
| `PredicateAnswers.CallTries` | src/codegen.rs:1176-1320 | every call tries what it reaches run by run, under one choice point while another run follows and one while another clause of the run does |
| `PredicateAnswers.ChainRuns` | src/codegen.rs:1204-1231 | the chain of a run puts a choice point up at its first clause, keeps it at the others and takes it off at the last |
| `PredicateAnswers.BlockTries` | src/machine/dispatch.rs:3631-3661 | an indexing block tries the clauses where a bound argument leads, in order, and a choice list takes its choice point off again |
| `PredicateLookahead.LookAheadAnswers` | src/machine/mod.rs:501-985 | the same with the machine's look-ahead, which puts choice points up only while a later clause might apply and passes over those that cannot: no answer is lost and no choice point is left |
| `PredicateLookahead.LookAheadRefines` | src/machine/mod.rs:663-731 | running a call with the look-ahead is running it without |
| `PredicateLookahead.ChainNext` | src/machine/mod.rs:663-676 | along a chain the look-ahead finds the first choice instruction with something applicable behind it |
| `PredicateLookahead.ListStep` | src/machine/mod.rs:678-731 | a choice of a list is tried under a choice point exactly if a later one might apply, without a difference to the answers |
| `PredicateAnswers.RunChoiceKinds` | src/codegen.rs:170-240 | in front of a run, the choice instruction is one of a dynamic predicate with the clock of the compilation, or counts backtracking exactly if the predicate does |
| `PredicateAnswers.ClauseChoiceKinds` | src/codegen.rs:165-230 | in front of a clause of a run, likewise with the internal instructions, but that retries always count |
| `PredicateReach.SkeletonLocates` | src/codegen.rs:1262-1320 | in an extensible predicate every skeleton entry gives the position of a choice instruction with its clause right behind it, its key gives the position of the indexing block, and that position plus the clause's offset is the clause's position |
| `PredicateReach.UniformIndexed` | src/codegen.rs:1176-1260 | a run has no indexing block exactly if it is laid out as a bare clause |
| `PredicateRun.RunReaches` | src/codegen.rs:1176-1260 | entering a run reaches, in order, exactly the clauses filed under the argument's own key or under the only key in use, and all of them for an unbound argument |
| `PredicateRun.CallReaches` | src/codegen.rs:1116-1320 | for every compiled predicate and all arguments, the clauses reached are in source order, without repeats, and exactly those the call is led to |
| `PredicateRun.CallComplete` | src/machine/unify.rs:220-285 | no clause whose indexed argument unifies with the call's, by value for numbers, is missed if and only if every such clause is filed where the call is led |
| `PredicateRun.CallCompleteExactly` | src/machine/unify.rs:220-285 | for every compiled predicate and all arguments, no clause that unifies is missed if and only if no accepting clause is off key (a big number stored elsewhere, a cut point, a structure without arguments) and not filed under the only key in use |
| `PredicateRun.MissedExactly` | src/types.rs:253 | a clause that unifies is missed exactly if it is off key and not filed under the only key in use |
| `PredicateRun.BigNumberMissed` | src/machine/dispatch.rs:1398-1541 | two clauses with big integers, called with a number equal to the first at another address: the first unifies and nothing is reached |
| `HeadMatching.LedByKey` | src/machine/dispatch.rs:213-292 | what a bound argument reaches is the scan of the one key that decides, for every clause, whether the argument is led to it |
| `HeadMatching.KeyedExactly` | src/machine/unify.rs:160-184 | a clause that unifies with a bound argument is filed under the argument's key, unless the argument is a big number stored elsewhere, a cut point or a structure without arguments |
| `ClauseIterator.Iterator.Advance` | src/iterators.rs:405-467 | each item takes its events off the linearisation still to come, with the tail position it reports; a branch end closes all branches that end there |
| `ClauseIterator.Iterator.BranchEndDepth` | src/iterators.rs:381-400 | the depth counts the branches that end together |
| `ClauseIterator.Iterate` | src/iterators.rs:352-467 | for every tree, iteration emits its linearisation with the right tail positions, never two branch ends in a row, and the depths add up to the branches opened |
| `ClauseIterator.LinearCloses` | src/iterators.rs:352-467 | a linearisation closes as many branches as it opens |
| `BranchCode.BranchCodeStack.PushJumpInstrs` | src/codegen.rs:104-128 | every arm but the last of each level gets a jump over the rest of the nest |
| `BranchCode.BranchCodeStack.PopBranch` | src/codegen.rs:130-153 | the levels are combined innermost first, each arm behind its choice instruction |
| `BranchCode.JoinTargets` | src/codegen.rs:104-153 | every choice instruction leads to the next arm's, and every jump to the first position after the branch |
| `BranchCode.NestIsJumped` | src/codegen.rs:104-153 | for nests of any depth, the one-pass jump computation builds the code of closing the branches one by one |
| `CompileSeq.CompileBody` | src/codegen.rs:883-1044 | the loop over the iterator's items builds the code defined by recursion over the tree |
| `CompileSeq.EndsBuild` | src/codegen.rs:1017-1035 | one merged branch end has the effect of the separate ends it stands for |
| `BodyRun.CompiledBodyRuns` | src/codegen.rs:883-1044 | for every body and whatever solutions its goals have, running its code gives the answers that the tree means, in order, and leaves the choice points that the tree means after its cuts |
| `BodyRun.CompiledCutFree` | src/codegen.rs:883-1044 | without cuts, running the code gives every exit of the body in order: each item is done from every state in which the one before left |
| `BodyControl.CutFreeAnswers` | src/codegen.rs:893-998 | the meaning of a body without cuts is the list of its exits, and no choice point under it is lost |
| `BodySource.ClassifiedMeans` | src/machine/disjuncts.rs:490-775 | what a goal is classified into means, at any place in a clause and whatever follows, what the goal means: the variables in which choice points are noted stand for the right ones at every cut |
| `BodyRun.SourceRuns` | src/codegen.rs:883-1044 | for every body of conjunctions, disjunctions, if-then, negations and cuts, classified and divided into chunks in any way, running its code gives the answers that the body means, in order, and leaves the choice points that it means after its cuts |
| `BodySource.GoalFollows` | src/machine/machine_state.rs:1040-1074 | what follows a goal and cuts back to its beginning goes on from the goal's first answer alone, if the goal's own cuts stay inside it |
| `BodySource.CommitsToFirst` | src/machine/disjuncts.rs:588-616 | an if-then goes on from the first answer of its condition, and fails if there is none |
| `BodySource.IfThenElse` | src/machine/disjuncts.rs:588-616 | an arm that is an if-then means its consequence after the first solution of its condition and shuts out the later arms, or means those if the condition has no solution, for every condition without a cut outside negations |
| `BodySource.CutInCondition` | src/machine/disjuncts.rs:742-760 | a cut in a condition goes back to the beginning of the clause |
| `BodySource.Negation` | src/machine/disjuncts.rs:617-660 | a negation, whatever is in it, fails if its goal has a solution, and succeeds once otherwise |
| `BodySource.IfThenElseOfGoals` | src/machine/disjuncts.rs:417-480 | an arm in which a goal shares the chunk of the noting, and one that of the cut, is what the if-then-else is classified into |
| `BodySource.NegationOfGoal` | src/machine/disjuncts.rs:417-480 | a negation in which failure shares the chunk of the cut is what the negation is classified into |
| `BodyMeaning.ApartMeans` | src/machine/disjuncts.rs:417-480 | the division into chunks, at the top and inside arms, makes no difference to what a body means |
| `BodyMeaning.MeaningSound` | src/machine/machine_state.rs:1040-1074 | when a body has nothing more to do, no more choice points are left than before it |
| `BodyMeaning.ChunkSplits` | src/machine/disjuncts.rs:417-480 | a chunk may be split wherever it stands in a body without a difference to what it means |
| `BodyRun.JoinLaidOut` | src/codegen.rs:130-153 | where each arm, its choice instruction and its jump stand in the code |
| `BranchNumbers.NumberArms` | src/machine/disjuncts.rs:541-560 | the arms of a disjunction get the numbers of the specification |
| `BranchNumbers.SubbranchIsPrefix` | src/forms.rs:165-184 | in any tree of disjunctions, a branch has another as subbranch exactly if it is that branch or encloses it |
| `BranchNumbers.RecordedOnlySelf` | src/machine/disjuncts.rs:417-437 | of the numbers recorded with arms, only that of the arm itself is accepted |
| `BranchNumbers.RecordedLosesNesting` | src/machine/disjuncts.rs:417-437 | an arm and an arm inside it: the first numbers show the nesting, the recorded ones do not |
| `BranchNumbers.SafetyAccepted` | src/variable_records.rs:38-45 | a variable made safe in one branch is taken as safe in another if and only if the first is the clause body itself or the two are the same |
| `BranchNumbers.GuardsEnclose` | src/debray_allocator.rs:81-93 | what was made safe is accepted only from an enclosing branch, and under the numbers first assigned from every enclosing branch |
| `RawBlock.RawBlock.Alloc` | src/raw_block.rs:105-114 | the next bytes are handed out exactly if they fit |
| `RawBlock.RawBlock.GrowNew` | src/raw_block.rs:75-86 | a block twice as large starts with everything handed out of the old one |
| `AtomCode.InlinedBack` | src/atom_table.rs:67-81 | an inlined atom decodes to the string it was made from |
| `AtomCode.HoldsStored` | src/atom_table.rs:394-398 | an entry written with header and bytes reads back as its string |
| `AtomTable.NextKeeps` | src/atom_table.rs:477-549 | every step of every thread keeps the invariant of the table |
| `AtomTable.SameAtomSameString` | src/atom_table.rs:477-549 | in every run, two calls have returned the same atom exactly if their strings are equal |
| `AtomTable.AtomsKeepDecoding` | src/atom_table.rs:302-320 | in every run, an atom decodes to its string after every later step, growth included |
| `AtomTable.CallDecodes` | src/atom_table.rs:477-549 | in every run, the atom returned by a call of build_with decodes to the string that was its argument, then and after every later step |
| `AtomTable.CallsAgree` | src/atom_table.rs:477-549 | in every run, two calls of build_with return the same atom if and only if their arguments are equal |
| `OffsetTable.SerialOffsetTable.BuildWith` | src/offset_table.rs:213-230 | the value is appended, however often the block grows, and its position returned |
| `OffsetTable.NextKeeps` | src/offset_table.rs:264-345 | every step of builders, readers and mutators keeps the invariant of the table |
| `OffsetTable.ReadsSeeLastWrite` | src/offset_table.rs:305-320 | in every run, a reader sees the last value written to its entry, even through an old snapshot |
| `OffsetTable.NoUpdateLost` | src/offset_table.rs:264-345 | in every run, the current block holds the last value written to every entry |
| `OffsetTable.LatestIsContents` | src/offset_table.rs:264-345 | in every run, the entries are what the calls so far should have written, by their arguments |
| `OffsetTable.ReadSees` | src/offset_table.rs:305-320 | in every run, a read sees in the entry it was called for what the calls so far have written there |
| `OffsetTable.BuildAdds` | src/offset_table.rs:264-303 | in every run, the position that a call of build_with returns is new, and its entry holds the argument of the call until it is edited |
| `TermWriter.FactIterator.Advance` | src/iterators.rs:262-305 | terms are yielded breadth first |
| `TermWriter.TermWriter.WriteSub` | src/read.rs:413-533 | a subterm's cells are added and linked into the first hole, and its own holes go to the back of the queue |
| `TermWriter.TermWriter.WriteRoot` | src/read.rs:402-515 | the root is written in place; too many arguments are refused |
| `TermWriter.TermWriter.WriteTermToHeap` | src/read.rs:396-540 | the heap represents the term at the returned location, every variable has its own unbound cell, earlier cells are unchanged, and the dictionary has the entries of the named and of the anonymous variables |
| `TermWriter.AnonsShareEntry` | src/read.rs:459-470 | two anonymous variables have one entry if and only if only literals and variables are visited between them |
| `TermWriter.AnonKeepsEntry` | src/read.rs:459-470 | the entry of an anonymous variable leads to its cell if and only if no other one follows with only literals and variables between |
| `TermWriter.TwoAnonsOneEntry` | src/read.rs:459-470 | in f(_, _) both variables have one entry, which leads to the second |
| `TermWriter.WriteKeeps` | src/read.rs:396-540 | filling the first hole with the next subterm keeps the partial representation: holes and iterator stay in step |
| `TermReading.ReadsBack` | src/read.rs:385-394 | a cell that represents a term reads back as that term |
| `TermReading.WriteAndRead` | src/read.rs:396-540 | writing and reading back gives the term; two variables share a cell exactly if they are the same variable |
| `EagerIter.EagerStackfulPreOrderHeapIter.Follow` | src/heap_iter.rs:430-487 | a step keeps the invariant of its phase, makes progress, yields only parts of the term, and when marking the next cell of the walk of the heap |
| `EagerIter.EagerStackfulPreOrderHeapIter.Drop` | src/heap_iter.rs:395-405 | dropping restores the heap |
| `EagerIter.TakeAndDrop` | src/heap_iter.rs:395-487 | dropping after any number of steps leaves the heap identical, for cyclic terms too |
| `EagerIter.VariableSet` | src/machine/system_calls.rs:678-690 | the iterator ends, its cells are those of the walk, its variables exactly the unbound ones that can be reached; they are added to the set in order of their first occurrences; the heap is left as it was |
| `EagerIter.GroundTest` | src/machine/machine_state_impl.rs:885-899 | it fails exactly if an unbound variable can be reached, and leaves the heap as it was |
| `EagerIter.TermInPreorder` | src/heap_iter.rs:430-487 | in a term no cell of which but a variable is shared, the cells come in preorder if and only if no variable occurs to the left of the structure that has it as an argument; but for repeated variables they always do, and so its variables come in order of their first occurrences |
| `EagerIter.EachCellOnce` | src/heap_iter.rs:430-487 | in every term, shared and cyclic ones too, each cell that can be reached and is no variable is yielded exactly once |
| `EagerOrder.TurnWalks` | src/heap_iter.rs:430-487 | on every heap, each turn of the loop takes what it yields off the walk defined by recursion over the heap and the places seen, from left to right |
| `EagerOrder.WalkExact` | src/heap_iter.rs:447-464 | from any set of places seen, the walk of an unshared term is its preorder if and only if none of its arguments was seen before its structure |
| `EagerOrder.WalkNew` | src/heap_iter.rs:447-464 | but for variables met before, the walk of an unshared term is its preorder |
| `EagerSteps.TurnProgress` | src/heap_iter.rs:430-487 | each turn of the loop deals with a new cell or makes the stack lighter |
| `EagerIter.NoneMarked` | src/heap_iter.rs:395-405 | when unmarking ends no cell is marked |
| `PostOrder.PostOrderIterator.Advance` | src/heap_iter.rs:908-948 | each step yields the next node in postorder; the parent stack counts the subtrees still to come |
| `PostOrder.Iterate` | src/heap_iter.rs:905-950 | for every tree, the iterator fed with the preorder yields exactly the postorder and ends |
| `ArithCompile.ArithInstructionIterator.Advance` | src/arithmetic.rs:87-125 | items are yielded in postorder |
| `ArithCompile.ArithmeticEvaluator.AllocRegToNonVar` | src/debray_allocator.rs:406-426 | a register not in use: one given back, or the first unused one |
| `ArithCompile.ArithmeticEvaluator.CompileIs` | src/arithmetic.rs:282-332 | the loop compiles the expression, or reports its first part that cannot be evaluated |
| `ArithCompile.LoopCompiles` | src/arithmetic.rs:243-332 | dealing with the items of a subexpression leaves its operand on the stack and its code behind what was there |
| `ArithRun.CompileIsCorrect` | src/arithmetic.rs:282-332 | running the code gives the outcome of evaluation in compiled order and leaves all variable registers unchanged, despite register reuse |
| `ArithRun.CompiledMeansEval` | src/arithmetic.rs:282-332 | compiled code and recursive evaluation succeed together with the same value, and have the same outcome if and only if, where evaluation stops at a variable, the operands after it compute without an error or with the same one; so they do if every variable can be read |
| `ArithTerms.SameOutcomeExactly` | src/arithmetic.rs:282-332 | compiled order and recursive order have the same outcome if and only if the operands after the variable at which recursive evaluation stops compute without an error or with the same one |
| `ArithTerms.ErrorReported` | src/arithmetic.rs:282-332 | where recursive evaluation fails, compiled order reports the error of the operands after that variable, if they have one, and else the same error |
| `ArithTerms.OrdersAgree` | src/arithmetic.rs:282-332 | the two orders succeed together with the same value, and fail with the same error if every variable can be read |
| `ArithTerms.OrdersDiffer` | src/arithmetic.rs:282-332 | an unreadable variable next to a failing operation gives two different errors |
| `ArithRun.RefusesBad` | src/arithmetic.rs:243-332 | an expression is refused exactly if a part can never be evaluated, and the first one is reported |
| `ArithRun.BadNeverEvaluates` | src/arithmetic.rs:243-279 | a refused expression fails in every environment |
| `ArithMetacall.ArithEvalByMetacall` | src/machine/arithmetic_ops.rs:1150-1428 | the operand-stack loop over the cells in postorder computes recursive evaluation that follows variables and looks into lists and strings first |
| `ArithMetacall.SameFromAnywhere` | src/machine/arithmetic_ops.rs:1150-1428 | without cycles a term has the same value wherever it is reached from |
| `ArithMetacall.VariableFollowed` | src/machine/arithmetic_ops.rs:1150-1428 | a bound variable has the value of what it is bound to |
| `ArithMetacall.LoopIsEval` | src/machine/arithmetic_ops.rs:1150-1428 | the loop and recursive evaluation succeed together with the same value; their outcome is the same if and only if evaluation does not stop at a list or string, or the loop reports the same from inside it |
| `ArithMetacall.ListFreeLoopIsEval` | src/machine/arithmetic_ops.rs:1150-1428 | without lists and strings the loop computes what recursive evaluation computes, with the same first error |
| `ArithMetacall.ListOfOne` | src/heap_iter.rs:908-948 | for the list [1] the loop reports the empty list and recursive evaluation the list |
| `ArithMetacall.ImproperList` | src/machine/arithmetic_ops.rs:1150-1428 | for a list of numbers that ends in a number the loop reports the list's cell |
| `BinaryGcd.IsizeGcd` | src/machine/arithmetic_ops.rs:82-126 | None exactly if an argument is the least integer, else the greatest common divisor of the absolute values, which fits |
| `BinaryGcd.GcdDivides` | src/machine/arithmetic_ops.rs:82-126 | the specification divides both numbers |
| `BinaryGcd.GcdGreatest` | src/machine/arithmetic_ops.rs:82-126 | every common divisor divides it |
| `IntegerOps.ModulusSpec` | src/machine/arithmetic_ops.rs:823-887 | in every representation, the remainder with the divisor's sign; the errors otherwise |
| `IntegerOps.RemainderUnique` | src/machine/arithmetic_ops.rs:823-887 | there is only one such remainder and quotient |
| `IntegerOps.IdivSpec` | src/machine/arithmetic_ops.rs:568-613 | the quotient truncated toward zero; the errors otherwise |
| `IntegerOps.IntFloorDivSpec` | src/machine/arithmetic_ops.rs:615-629 | the floor of the exact quotient; the errors otherwise |
| `IntegerOps.BinaryPow` | src/arithmetic.rs:667-686 | the power with the absolute exponent |
| `IntegerOps.IntPow` | src/machine/arithmetic_ops.rs:308-373 | two integers have a power exactly if it is an integer, as the inverse for a negative exponent, and then it is returned; zero with a negative exponent is undefined |
| `IntegerOps.NoNegativePower` | src/machine/arithmetic_ops.rs:328-330 | only 1 and -1 have integer powers with negative exponents |
| `IntegerOps.ShiftSpec` | src/machine/arithmetic_ops.rs:715-736 | exactly when a shift is done, and that it is then the product with the power of two |
| `IntegerOps.ShiftRefusesLeast` | src/machine/arithmetic_ops.rs:715-736 | a result that fits is refused |
| `PermSlots.SlotsNeverShared` | src/debray_allocator.rs:438-506 | in every state of a clause no two variables hold the same slot, and every slot handed out is counted at the end |
| `PermSlots.CutPointLostExactly` | src/codegen.rs:905-955 | a cut point that was taken is without a slot, for the cuts still to come, if and only if after a cut through it another variable got its slot in a later chunk |
| `PermSlots.OneCutPointLostExactly` | src/debray_allocator.rs:482-506 | with one cut point, it is without a slot if and only if some other permanent variable first occurs in a chunk later than that of the first cut |
| `PermSlots.OneCutLosesCutPoint` | src/machine/disjuncts.rs:617-660 | a negation with one cut: every step is one of the code generator's, and the cut point has no slot when the negation ends |
| `PermSlots.TakenEarlyExactly` | src/codegen.rs:905-955 | in every state of compiling a clause, a slot is taken over in a chunk no later than the one in which it was last given back if and only if its variable was cut through again in such a chunk |
| `PermSlots.ReusedLater` | src/debray_allocator.rs:482-506 | if no variable is cut through twice outside tail position, a slot is taken over only in a later chunk |
| `PermSlots.NegationLosesCutPoint` | src/machine/disjuncts.rs:617-660 | a negation with two cuts before the first occurrence of a variable: every step is one of the code generator's, and the cut point loses its slot to the variable |
| `PermWalk.MarkedExactly` | src/debray_allocator.rs:147-240 | at every place of every clause, the slot of a permanent variable that occurs from there on is marked as holding its value if and only if the variable occurs on the way from the start of the clause to the place |
| `PermWalk.LeaksIfShared` | src/machine/disjuncts.rs:232-252 | without the classifier's separation of arms there is a clause in which a slot is marked that was never set on the way |
| `PermWalk.PlacesShareNone` | src/debray_allocator.rs:438-506 | at no place of any clause do two variables have the same slot |
| `PermWalk.LinearRuns` | src/codegen.rs:883-1044 | the events of the clause iterator take the allocator the way of the recursion over the tree |
| `PermWalk.EndsMerge` | src/codegen.rs:1017-1035 | closing several branches at once is closing them one by one |
| `PermWalk.DebrayAllocator.CompileSeq` | src/codegen.rs:883-1044 | the loop over the iterator's items does to slots and branches what the events say |
| `PermWalk.DebrayAllocator.PopBranches` | src/debray_allocator.rs:191-240 | leaving branches that end together, the variables of their arms that still occur hold their values and are recorded for the branch around |
| `PermWalk.DebrayAllocator.AddArm` | src/debray_allocator.rs:147-189 | variables met first in the last arm start over in the same slots |
| `PermWalk.DebrayAllocator.CompileChunk` | src/codegen.rs:290-319 | the occurrences and cuts of a chunk, step by step; in its middle a variable that holds its value is only counted |
| `PermWalk.DebrayAllocator.PopFree` | src/debray_allocator.rs:482-499 | the first slot given back in an earlier chunk that can be taken |
| `PermWalk.DebrayAllocator.VisitPermVar` | src/debray_allocator.rs:724-828 | a variable without a slot gets one, its occurrence is counted, beyond its last occurrence it is freed, and a new one is recorded for the innermost branch |
| `PermWalk.DebrayAllocator.FreePermVar` | src/debray_allocator.rs:501-506 | a variable goes on the free list |

## Left out

- CompiledMeansEval: code for marking variables and evacuating argument registers is not part of the expression's code; variables are bound to registers beforehand.
- CompiledBodyRuns: instructions that initialise variables at the end of an arm and the allocation of environments are not modelled; every query term is one instruction. A goal has finitely many solutions, whose number may depend on everything done before, and leaves one choice point while it has more. A noted choice point stays in its variable; slots are modelled on their own. Disjunctions have at least two arms, as the classification of clause bodies always builds them.
- ClassifiedMeans: goals with a module prefix, calls of variables and inference counting are plain goals; the division into chunks is left open, as it makes no difference.
- IfThenElse: conditions with a cut outside negations have their own law, CutInCondition.
- IntPow: floats and rationals are left to floating point, and so is the error for a zero float with a negative exponent.
- NoneLost: static predicates; the clause list of an index is one run, and splitting or joining runs when a clause is retracted is not modelled.
- ArithEvalByMetacall: cyclic expressions, which the loop reports when it meets a marked cell, are not modelled.
- WriteTermToHeap: strings are opaque texts of one cell, arities of nested clauses fit, and nested clauses have arguments.
- CallReaches: only the indexed argument is matched, by its first instruction; retraction of dynamic clauses by birth and death is not modelled; dynamic indices are plain offset lists.
- IsizeGcd: bit operations are division and remainder by two.
- VariableSet: a partial string is represented by the position of its tail.
- TermInPreorder: a variable is referred to as its own cell is, so that an attributed one is not yielded under two tags.
- CallAnswers: births and deaths of the clauses of dynamic predicates are not modelled: all clauses are alive. Clauses give finitely many answers and cut back, if they do, to where the predicate was called.
- LookAheadAnswers: that a clause whose first head instructions do not match has no answers is a premise.
- MarkedExactly: that occurrences in two arms of a branch in tail position are one variable only if it occurs before the branch is taken from the classification of variables and not derived from the clause's terms; which arms get instructions that initialise a variable they do not mention is not modelled, as the slots of a new environment are unbound variables.
- SlotsNeverShared: temporary registers and the safety flags of permanent variables are not modelled.
- TakenEarlyExactly: that each occurrence of a variable is visited or counted at most once, and that the variables of cut points are their own, is taken from the classification of variables and not derived from the clause's terms.
- Choice of temporary registers for variables, argument evacuation and the merging of safety flags across arms.
- The other heap iterators, cycle detection by pointer reversal, and printing of terms.
- Floating point and rational arithmetic, comparison of numbers, and bitwise operations other than the checked shift.
- The concurrent table of floats, whose source documents a race.
- Foreign functions, streams, the web and command-line front ends, and configuration.
- The tables that turn instructions into terms: long case lists with only easy facts.
