# srdatalog, verified

A Dafny model of the srdatalog compiler and of the parts of its runtime that the compiler's promises rest on. Everything is
compared with one reference: what a rule derives from a set of facts (`Datalog`), and the stable model of a rule list
(`StableModel`), which is the least model when nothing is negated.

## What is modelled

- From rules to strata: the dependency graph, Tarjan's algorithm with its explicit low links, the in-place union-find that
  merges components sharing a multi-head rule, base and loop strata, and the fusion of independent strata (`Dependencies`,
  `Tarjan`, `Stratify`, `StratifyCorrect`).
- From strata to plans and indexes: delta variants, the greedy clause order, variable order, access patterns, required and
  canonical indexes (`SemiNaive`, `Variants`, `ClauseOrder`, `Planner`, `IndexSelection`).
- From plans to steps: the operation pipeline of a variant, index maintenance, the emitted plans and reconstructions, the
  rebuilds inserted between strata, and the reordering of join sources (`Lowering`, `PipelineMeaning`, `LoweringTheorem`,
  `Maintenance`, `CompiledProgram`, `Freshness`).
- What the generated code runs: before a plan it ensures the indexes that the plan reads, building those whose row count is
  not that of column storage; then the plan, the maintenance, the reconstructions (`Maintenance`, `WholeProgram`, `EndToEnd`).
- The rewrites before all that: wildcards, body and head constants, semi-joins (`RuleRewrite`, `WrittenProgram`, `SemiJoin`).
- Lattice-valued relations, their keyed merge, the semi-naive loop on changed values, and the binary32 words that carry
  bounds (`Lattice`, `Float32`; IEEE 754-2019 section 3.4).
- The accelerated index and the leapfrog intersection (`Eytzinger`, `Seek`, `Leapfrog`).
- The annotation callback of the minimal vulnerability reasoner and the rule encoding meant to reproduce it (`Annotation`,
  `AnalystRule`).

Code that changes things step by step is modelled by classes and methods with loops (`Tarjan.Search`, `Forest`,
`HirStratum`, `EytzingerMap`, `AcceleratedArrayIterator`, `Leapfrog.Iterator`, `LatticeRelation`,
`ExecutePipeline`), each proved against a specification function; the properties are then lemmas about that function. Where
such a function is itself an algorithm, a lemma says what it computes in terms of the input's own fields: `FusionIsMaximal`,
`TargetIff`, `GreedyIff`, `JoinSetIff`, `VarOrderIs`, `SelectionFacts`, `SourcesServe`, `InsertsMatchMaintenance`, `MergesIff`,
`RebuildsIff`, `EnsuredIff`, `ClauseOrderIs`, `PrefixOrderIs`, `SomePairAnswers`.

## The main theorem and what it asks

`WrittenProgram.WrittenProgramIsStable` follows a rule list through every pass above, except semi-joins, to the end of a run:
column storage then holds the one stable model of the rules as they were written. What it asks (`Compilable`, `Starts`):

- the rules are typed; no atom repeats a named variable; negations, filters, lets and heads use bound variables; an atom
  without arguments stands alone; inline code and heads use no underscore names (`WrittenOk`). `RewritesMakeLowerable` shows
  that this is exactly the lowering's scope; `AgreesIff` that for positive rules the two conditions on atoms are exact;
- the order of components survives the merge of multi-head rules, and what a rule negates among the relations linked with its
  heads is derived only by rules that read none of those (`OrderSurvives`, `NegationApart`). `StratifiedIff` shows the two
  together to be exactly when the strata are in order;
- no rule that a loop drops could derive anything (`RulesRun`). `RunsIff` shows which rules are dropped, `LosesNothingIff` that
  dropping one that could derive something is never harmless;
- nothing waits in NEW; no index wrongly looks up to date; a relation that the program writes holds no row twice, and where no
  plan ensures it before it counts, its canonical index is current. A database into which facts were only loaded, into
  relations that no rule writes, is such a start (`LoadedProgramIsStable`). `StaleIff` and `LoadedFactsKeptIff` show what
  happens otherwise;
- the run has come to its end. `WrittenProgramStops` shows that such a run exists when the stable model is finite.

The indexes that scans and negations read need no condition: the generated code ensures them (`EnsuringMakesReady`). The
theorem holds whichever of the inserted rebuilds a run executes, and whether or not a size check ends the maintenance of a
relation whose NEW is empty. `UnitsOk` and `Planned` only make the other hypotheses well formed: `PassesCompile` proves them.

## Where the code does not keep a promise

- Merging components that share a multi-head rule can list a relation before what it reads, so a fact is missed
  (`MergingCanBreakOrder`), and it can put a negated relation beside one that depends on it. A rule that negates its own head is
  accepted too, although it may have no stable model (`NegationInComponentHasNoModel`). `StratifiedIff` says exactly when the
  strata are in order. That running strata in order gives the stable model goes one way: strata out of order may still happen
  to compute it.
- A rule of a loop that reads no member positively, only through a negation, gets no delta variant and never runs, also where
  the program is stratified and its strata in order. `RunsIff` says which rules these are, `LosesNothingIff` that a loop
  computes what its stratum means, on all facts, exactly when none of them can derive anything. `CompiledProgramLosesFact`:
  `A(x), B(y) :- E(x, y).  A(x) :- F(x), !B(x).` ends without A(3).
- An atom without arguments beside other atoms is not looked at, and an atom that repeats a variable loses the equality.
  `AgreesIff`: for rules of positive atoms, the pipeline derives what the rule does, on every database, exactly when neither
  occurs. `NegationAgreesIff`: the lookup of a negation is right exactly when no variable repeats in it. `SkippedAtomEmits` is
  an instance, `PipelineDerives` the condition on one database.
- The runtime tells by row counts whether an index is up to date. A row loaded twice is counted twice, so after a loop has
  added rows the counts can agree by accident. `StaleIff`: a relation extended by a loop is then read out of date exactly when it
  ends with as many rows as were loaded, repetitions included, and has gained some. `GeneratedCodeLosesFact` runs a three-rule
  program through all passes into that case.
- Facts loaded into a relation that a base stratum writes first are lost unless its rules derive them again
  (`LoadedFactsKeptIff`): the reconstruction overwrites column storage from an index that was never built from it.
- The rebuild pass promises fresh indexes to later strata. Read as steps, its rebuilds do keep every column source current
  (`ColumnSourcesReadFresh`), but the generated code emits nothing for a rebuild between strata, and where it emits one,
  `rebuild_index_fn` on FULL asks for the index without building it
  (src/srdatalog/runtime/generalized_datalog/gpu/runtime/gpu_mir_helpers.h:266). The build comes from `create_index_fn`
  (lines 459-479 there) before each plan, which is what the main theorem rests on.
- Semi-join rewriting names a generated relation after its target, its filter and the kept columns. Two restrictions can share
  the name and derive different rows (`TargetsAgreeIff`, `NamesCollide`), and the second then reads the first one's relation
  (`SharedNameLosesFacts`). When no round has such a pair, all facts are kept (`RunPreserves`).
- Cloning an accelerated index drops its block map. It then answers a search wrongly for some key exactly when it has more than
  one separator (`UnmappedAnswerIff`), and skips an answer when seeking exactly when it has more than three, or four where
  blocks have one element (`UnmappedSeeksIff`).
- A loop over lattice-valued relations that stops is closed, but where a rule tests a value for equality the result need not be
  below every closed state above the start (`NotLeast`); with monotone rules it is (`LatticeStopsAtLeast`).
- Maintenance of a lattice relation does not clear DELTA before the size check, as that of a plain relation does. If the check
  skipped, DELTA would stay stale exactly when NEW is empty and DELTA is not (`StaleDeltaIff`); the runtime's `check_size_fn`
  (src/srdatalog/runtime/generalized_datalog/gpu/runtime/gpu_mir_helpers.h:225-235) rebuilds the index and does not skip.
- Witness selection is called a join, but it commutes exactly when lower bound and rank identify the payload
  (`JoinCommutesIff`, `FoldOrderMatters`); src/srdatalog/value_semantics.py:86-93 asks for that.
- The accepted bound negative zero has a word above all others of [0,1], so word order and bound order differ there
  (`WordOrderIff`).

## Model

| member | source | states |
|---|---|---|
| WrittenProgram.WrittenProgramIsStable | src/srdatalog/ir/hir/__init__.py:55-124 | For rules as a user writes them, with wildcards and constants, rewritten, stratified, planned, given indexes and emitted, in order and with no dropped rule that could derive something: when the generated code has run, column storage holds m if and only if m is the stable model of the written rules. |
| WrittenProgram.LoadedProgramIsStable | src/srdatalog/ir/hir/__init__.py:55-124 | The same from any database into which facts were only loaded, into relations that no rule writes, in any number and with any repetition. |
| WrittenProgram.WrittenProgramStops | src/srdatalog/ir/hir/__init__.py:55-124 | If that stable model is finite, the compiled program has a run that comes to its end, and it stores the model. |
| EndToEnd.CompiledProgramIsStable | src/srdatalog/ir/hir/lower.py:721-1025 | The same for rules already in the lowering's scope: what is stored at the end of any run is the one stable model, whichever rebuilds it executes and whether or not an empty NEW skips maintenance. |
| EndToEnd.CompiledProgramStores | src/srdatalog/ir/hir/lower.py:721-1025 | Without any condition on dropped rules: column storage ends with what the strata compute, in list order, from the rules that have variants. |
| WrittenProgram.RewritesKeepStable | src/srdatalog/ir/hir/__init__.py:55-88 | The three source rewrites keep the stable models of a whole rule list. |
| WrittenProgram.RewrittenRuleOk | src/srdatalog/ir/hir/rule_rewrite.py:35-153 | A rewritten rule is in scope, typed and looks at every atom if and only if the written rule does. |
| EndToEnd.PassesCompile | src/srdatalog/ir/hir/__init__.py:55-93 | The outputs of stratification, planning and index selection satisfy every hypothesis of the run theorem and hold the strata's rules that have variants, and the emitted steps are laid out as the rebuild pass needs. |
| WholeProgram.CompiledProgramComputes | src/srdatalog/ir/codegen/cuda/orchestrator.py:869-930 | Any run of the generated code for the compiled units, which ensures the indexes of each unit, runs its plan, maintains and reconstructs, leaves in column storage exactly what running the strata in list order computes. |
| WholeProgram.CompiledProgramStops | src/srdatalog/ir/hir/lower.py:721-1025 | When the strata derive finitely many facts, every loop stops, every step can be taken, and the compiled program has a complete run. |
| CompiledProgram.PlanHasEffect | src/srdatalog/ir/hir/lower.py:721-1025 | One stratum's plan, loop or not, grows each head by exactly what the stratum derives, in exactly the indexes it merges, and leaves other relations alone. |
| WholeProgram.UnitOnRelation | src/srdatalog/runtime/generalized_datalog/gpu/runtime/gpu_mir_helpers.h:529-548 | Ensure, plan, maintenance and reconstruction together keep the invariant of the run for every relation: column storage holds the facts, counts can be trusted, and merged indexes stay current. |
| WholeProgram.CollectEnsured | src/srdatalog/ir/codegen/cuda/orchestrator.py:895-917 | Collects the indexes that the generated code ensures before a unit's plan; `EnsuredIff` says which. |
| WholeProgram.EnsuredIff | src/srdatalog/ir/codegen/cuda/orchestrator.py:895-917 | An index is ensured if and only if a join of the plan reads it as FULL or DELTA, a negation reads it, or, in a plan that runs once, a scan does. |
| WholeProgram.ReadIsEnsured | src/srdatalog/ir/codegen/cuda/orchestrator.py:695-735 | Every index that an access pattern or a negation reads is ensured before the plan, but for the lone scan of a loop's rule. |
| WholeProgram.EnsuringMakesReady | src/srdatalog/runtime/generalized_datalog/gpu/runtime/gpu_mir_helpers.h:459-479 | After ensuring, every index that the plan reads, by join, scan or negation, holds the relation's rows. |
| Maintenance.EnsuredIsCurrentIff | src/srdatalog/runtime/generalized_datalog/relation_col.h:1118-1131 | An ensured index is current if and only if its count differed from that of column storage or it was current already. |
| Maintenance.TightIsSound | src/srdatalog/runtime/generalized_datalog/relation_col.h:1118-1131 | When column storage holds no row twice, its indexes are part of it and no count exceeds its index, an index whose count agrees is current. |
| Maintenance.LoopKeepsBelow | src/srdatalog/ir/hir/lower.py:535-574 | A loop's maintenance keeps every index part of the canonical one and every count no greater than its index. |
| Maintenance.SimpleKeepsBelow | src/srdatalog/ir/hir/lower.py:503-532 | So does the maintenance of a base stratum. |
| CompiledProgram.PlanSettles | src/srdatalog/ir/hir/lower.py:721-1025 | Across any plan, loop or not, no NEW index is left with rows, every index stays part of the canonical one, and no count exceeds its index. |
| StaleIndex.StaleIff | src/srdatalog/runtime/generalized_datalog/relation_col.h:1118-1131 | Over any run: an index that the one writing unit does not merge is current when a later unit has ensured it, if and only if the relation has not ended with as many rows as were loaded, repetitions included, or has gained none. |
| StaleIndex.LoadedFactsKeptIff | src/srdatalog/runtime/generalized_datalog/gpu/runtime/gpu_mir_helpers.h:529-548 | Over any run: facts loaded into a relation that a base stratum writes first are still stored after it if and only if its rules derive them again. |
| StaleIndex.GeneratedCodeLosesFact | src/srdatalog/runtime/generalized_datalog/relation_col.h:1118-1131 | A three-rule program and a row loaded twice: whatever the passes return, the generated code ends without a fact of the one stable model. |
| Dependencies.BuildDepGraph | src/srdatalog/ir/hir/stratify.py:41-50 | The graph has the rule heads as nodes and an edge for exactly the body reads, positive or negated, of relations that are heads. |
| Dependencies.BodyRelations | src/srdatalog/ir/hir/stratify.py:26-38 | Collects exactly the relations that positive and negated atoms of the body read. |
| Tarjan.Search.StrongConnect | src/srdatalog/ir/hir/stratify.py:66-96 | Keeps the whole invariant of the search: the components emitted are whole mutual-reachability classes with dependencies first, and lowlink is the least index reached. |
| Tarjan.Search.FollowAll | src/srdatalog/ir/hir/stratify.py:72-77 | The successor loop explores every successor and leaves in the low link the least index that the explored part reaches on the stack. |
| Tarjan.Search.Finish | src/srdatalog/ir/hir/stratify.py:78-86 | Pops the class exactly when the low link is the own index, and keeps the invariant either way. |
| Tarjan.Search.PopComponent | src/srdatalog/ir/hir/stratify.py:78-86 | Pops the stack down to and including the root and appends exactly the popped elements as one component. |
| Tarjan.PoppedIsComponent | src/srdatalog/ir/hir/stratify.py:78-86 | What is popped is exactly one mutual-reachability class. |
| Stratify.ComputeSccs | src/srdatalog/ir/hir/stratify.py:53-96 | The list partitions the nodes into whole mutual-reachability classes, each after those it depends on. |
| Graph.ReachIffPath | src/srdatalog/ir/hir/stratify.py:53-96 | One node reaches another, in the sense in which components are classes, if and only if a path leads there. |
| Stratify.Forest.Find | src/srdatalog/ir/hir/stratify.py:112-116 | Path halving returns the root and changes no node's root. |
| Stratify.Forest.Union | src/srdatalog/ir/hir/stratify.py:118-121 | Nodes of the first root's class take the second root, all others keep theirs, and the link is recorded, so that two nodes have one root if and only if links chain them. |
| Stratify.MergeForMultiHead | src/srdatalog/ir/hir/stratify.py:99-138 | The groups are the root classes in the order of their first component. |
| Stratify.JoinHeads | src/srdatalog/ir/hir/stratify.py:123-131 | After a rule, the components of all its heads have one root, and every link comes from some rule. |
| Stratify.Rebuild | src/srdatalog/ir/hir/stratify.py:133-138 | Collects the components of each root, listed by their first component, without changing any root. |
| Stratify.RootsAreChains | src/srdatalog/ir/hir/stratify.py:112-131 | Two components have one root if and only if a chain of rules with shared heads links them. |
| Stratify.TogetherIffChained | src/srdatalog/ir/hir/stratify.py:99-138 | Two relations end in one group if and only if no set closed under shared rule heads and components separates them. |
| Stratify.MergeIsIdentity | src/srdatalog/ir/hir/stratify.py:99-138 | Without a rule whose heads span components, merging returns the component list unchanged. |
| Stratify.StratifyRules | src/srdatalog/ir/hir/stratify.py:225-254 | The strata are the base and recursive parts of groups merged from a real component list, joined wherever neighbours are free and independent and nowhere else; the groups partition the relations without splitting a rule's heads. |
| Stratify.FuseIndependentStrata | src/srdatalog/ir/hir/stratify.py:175-222 | Fusing in place, with an index that jumps, joins consecutive strata into blocks: every block is one stratum or free strata that read nothing taken in before them, and no block could have been longer. |
| Stratify.AbsorbFollowers | src/srdatalog/ir/hir/stratify.py:199-218 | A stratum takes in, in place, the run of following strata that are fusable and read nothing produced so far; `AbsorbsBlock` says where that stops. |
| Stratify.FusionIsMaximal | src/srdatalog/ir/hir/stratify.py:175-222 | Fused strata are the joins of consecutive strata, relations and rules in order; where a block ends, both sides are not free or the next stratum has a rule that reads a relation of the block. Free: not a loop and sharing no relation with one. |
| Stratify.NeighboursDepend | src/srdatalog/ir/hir/stratify.py:190-218 | Of two neighbours in the fused list, neither a loop nor sharing a relation with one, some rule of the second reads a relation of the first. |
| Stratify.CollectRecursiveMembers | src/srdatalog/ir/hir/stratify.py:185-188 | Collects the members of all loops. |
| Stratify.StrataForGroup | src/srdatalog/ir/hir/stratify.py:237-254 | A group gives a base and a loop stratum, dropping empty ones, or one base stratum if it is not recursive. |
| Stratify.SplitBaseRec | src/srdatalog/ir/hir/stratify.py:154-165 | Splits a group's rules, in order, into those that read none of its members and those that read some. |
| StratifyCorrect.StrataComputeTheStableModel | src/srdatalog/ir/hir/stratify.py:225-254 | When the groups come dependencies first and what a rule negates in its own group is derived without reading the group, running the fused strata in list order gives m if and only if m is the stable model. `StratifiedIff` shows both conditions to be exact for the order. |
| StratifyCorrect.FuseKeepsOrder | src/srdatalog/ir/hir/stratify.py:175-222 | Fusing independent strata keeps every read before no later writer, and never lets a stratum read or negate its own heads. |
| StratifyCorrect.FuseReflectsOrder | src/srdatalog/ir/hir/stratify.py:175-222 | Fusing never repairs an order that was broken before. |
| StratifyCorrect.InOrderIffDependenciesFirst | src/srdatalog/ir/hir/stratify.py:225-254 | Before fusion the strata are in order if and only if the groups are dependencies first and what a rule negates in its own group is derived without reading the group. |
| StratifyCorrect.GroupsInOrderIff | src/srdatalog/ir/hir/stratify.py:99-138 | Merged groups are dependencies first if and only if every dependency between unlinked components goes from a group with a later first component to one with an earlier. |
| StratifyCorrect.StratifiedIff | src/srdatalog/ir/hir/stratify.py:225-254 | For every stratification: the strata are in order if and only if the order of components survives the merge and what a rule negates among the relations linked with its head is derived only by rules that read none of those; then running them gives the stable model for all facts. |
| StratifyCorrect.MergingCanBreakOrder | src/srdatalog/ir/hir/stratify.py:99-138 | A three-rule program without negation on which, whatever the passes return, the fused strata miss a fact of the least model. |
| StratifyCorrect.NegationInComponentHasNoModel | src/srdatalog/ir/hir/stratify.py:225-254 | A rule that negates its own head, which the pass accepts, has no stable model, so no strata could compute one; `StratifiedIff` draws the line. |
| StratifyCorrect.PositiveStableIsLeast | src/srdatalog/ir/hir/stratify.py:225-254 | Without negation the stable model is the least closed set. |
| StratifyCorrect.RunsIff | src/srdatalog/ir/hir/stratify.py:141-172 | A rule runs in its stratum if and only if it reads nothing linked with its head, or something linked with it positively; otherwise it is kept in a loop and never runs. |
| StratifyCorrect.LoopsReadIff | src/srdatalog/ir/hir/stratify.py:141-172 | So no loop of the strata drops a rule that could derive something if and only if that holds of the rules and the components. |
| EndToEnd.CompiledProgramLosesFact | src/srdatalog/ir/hir/stratify.py:154-165 | A stratified two-rule program whose strata are in order: running them gives its one stable model, the compiled program ends without A(3). |
| StratifyCorrect.StratificationShape | src/srdatalog/ir/hir/stratify.py:141-172 | Exactly where the strata are in order (`StratifiedIff`), every stratum owns its heads, a loop negates none of its own heads, and no stratum after a loop holds its members. |
| StableModel.RunIsTheStableModel | src/srdatalog/ir/hir/stratify.py:225-254 | Strata in order compute a stable model, and it is the only one. |
| SemiNaive.SplitDerivation | src/srdatalog/ir/hir/semi_naive.py:24-26 | A derivation from old and new facts uses old facts only or puts a new fact in some component clause. |
| SemiNaive.SemiNaiveIsNaive | src/srdatalog/ir/hir/semi_naive.py:47-60 | After every iteration FULL is what naive evaluation has and DELTA is exactly what the iteration added. |
| SemiNaive.StopsAtLeast | src/srdatalog/ir/hir/semi_naive.py:47-60 | An iteration that adds nothing leaves exactly the least set closed under the rules. |
| SemiNaive.LoopTerminates | src/srdatalog/ir/hir/semi_naive.py:47-60 | If the derivable facts lie in a finite set, some iteration no later than its size plus one adds nothing. |
| Variants.VariantIffReads | src/srdatalog/ir/hir/semi_naive.py:24-44 | A loop rule has a delta variant if and only if it reads a member positively. |
| Variants.SameStep | src/srdatalog/ir/hir/semi_naive.py:47-60 | One iteration of the loop derives what it would without the other rules. |
| Variants.LosesNothingIff | src/srdatalog/ir/hir/semi_naive.py:47-60 | A loop computes the least set closed under all its rules, on all facts, if and only if every rule that reads no member positively can derive nothing. |
| Variants.GenerateFor | src/srdatalog/ir/hir/semi_naive.py:47-60 | A loop gets one delta variant per positive component clause of each rule, in order, and a base stratum one base variant per rule. |
| Variants.GeneratedVariantsDeriveTheStep | src/srdatalog/ir/hir/semi_naive.py:29-60 | The generated variants, reading DELTA in one clause and FULL elsewhere, derive exactly the semi-naive step. |
| ClauseOrder.ComputeClauseOrder | src/srdatalog/ir/hir/plan.py:139-187 | The schedule is a permutation of the body; at every position stands the first ready filter, else the delta clause, else the first ready clause with most columns holding bound variables; with nothing ready, the first waiting atom, else the first waiting clause. |
| ClauseOrder.PickBest | src/srdatalog/ir/hir/plan.py:139-187 | Picks by the preferences that `GreedyIff` spells out: filter, delta clause, most bound columns, fallback. |
| ClauseOrder.GreedyIff | src/srdatalog/ir/hir/plan.py:139-187 | An order is greedy if and only if every position holds the clause so chosen, where ready means that what the clause wants was bound by clauses scheduled before, and columns count positions of an atom whose variable was. |
| ClauseOrder.RunnableClauses | src/srdatalog/ir/hir/plan.py:139-187 | Lists exactly the remaining clauses whose dependencies are bound, in index order. |
| ClauseOrder.GreedyRespectsWheneverPossible | src/srdatalog/ir/hir/plan.py:139-187 | The greedy order respects all dependencies if and only if some order does. |
| Planner.AnalyzeRule | src/srdatalog/ir/hir/plan.py:40-79 | The join variables are exactly those that two columns of positive atoms hold, of one atom or of two. |
| Planner.JoinSetIff | src/srdatalog/ir/hir/plan.py:40-79 | Counting occurrences above one is the same as being held by two columns. |
| Planner.ComputeVarOrder | src/srdatalog/ir/hir/plan.py:195-225 | Computes the variable order: the delta clause's join variables, then join variables and then the others in clause order. |
| Planner.VarOrderIs | src/srdatalog/ir/hir/plan.py:195-225 | First come exactly the delta clause's join variables, by column; then the other join variables, then the others, each by the first scheduled clause that holds them and by column there; no variable twice. |
| LoweringTheorem.VarOrderFacts | src/srdatalog/ir/hir/plan.py:195-225 | Join variables lead the order, and every variable of the body occurs in it once. |
| LoweringTheorem.JoinVarsLead | src/srdatalog/ir/hir/plan.py:233-295 | In every access order the join variables come first, as many as the prefix length says. |
| LoweringTheorem.PrefixIsJoin | src/srdatalog/ir/hir/plan.py:233-295 | The prefix of an atom's pattern is exactly its join variables, and they come first. |
| Planner.CompleteAscends | src/srdatalog/ir/hir/plan.py:233-295 | The columns that complete an index come in ascending order. |
| Planner.ComputeAccessPattern | src/srdatalog/ir/hir/plan.py:233-295 | Access order, index columns, constants and prefix length of an atom or negation are those of the variable order. |
| Planner.PlanVariant | src/srdatalog/ir/hir/plan.py:452-505 | The plan of a variant is a default plan: a greedy clause order, the join variables, the variable order and one pattern per atom and negation. |
| LoweringTheorem.PatternFits | src/srdatalog/ir/hir/plan.py:233-295 | An atom's index is a permutation of its columns whose leading columns follow the variable order; for atoms that repeat a variable see `AgreesIff`. |
| LoweringTheorem.NegationPatternFits | src/srdatalog/ir/hir/plan.py:233-295 | The prefix of a negation's index is exactly its constants and non-wildcard variables; for negations that repeat a variable see `NegationAgreesIff`. |
| IndexSelection.SelectFor | src/srdatalog/ir/hir/index.py:120-172 | Required indexes are delta reads, then full reads, else the other strata's reads, else the identity; the canonical one is the first of full width read as FULL, else the first of full width. |
| IndexSelection.CollectIndices | src/srdatalog/ir/hir/index.py:77-91 | Collects per relation the index columns read in the given versions; by `ReadColsIff` those of the patterns and negations that read it. |
| IndexSelection.ReadColsIff | src/srdatalog/ir/hir/index.py:77-91 | A column list is collected if and only if some pattern or negation of some plan reads the relation through it in one of the versions. |
| IndexSelection.AppendUniqueIndices | src/srdatalog/ir/hir/index.py:94-101 | Appends the completed index of each tuple once. |
| IndexSelection.SelectionFacts | src/srdatalog/ir/hir/index.py:48-101 | Whatever the layout: the required indexes are exactly the layout and the own reads, else the other strata's, else the identity, each a permutation and listed once, DELTA reads first; the canonical one is the layout, else the first that is read as FULL, else the first. |
| IndexSelection.CanonicalIsRead | src/srdatalog/ir/hir/index.py:57-74 | The canonical index is read as FULL whenever some required index of full width is. |
| CompiledProgram.SelectIndices | src/srdatalog/ir/hir/index.py:104-174 | Selection over the whole program gives every stratum the units that the compile theorems start from, each with indexes for exactly its members. |
| CompiledProgram.SelectedFacts | src/srdatalog/ir/hir/index.py:104-174 | A relation that its stratum does not read gets every index that any stratum reads. |
| EndToEnd.UnitIsCompiled | src/srdatalog/ir/hir/index.py:104-174 | Default plans with selected indexes meet all that the loop and base stratum theorems ask. |
| EndToEnd.CompiledIsLaid | src/srdatalog/ir/hir/lower.py:721-1025 | For strata in order every plan merges the canonical index of every later reconstruction of what it writes, so the emitted steps are laid out. |
| Lowering.LowerVariantToPipeline | src/srdatalog/ir/hir/lower.py:458-484 | Builds the pipeline: column joins, Cartesian join or scan, negations, filters and lets, one insert per head, into the canonical index (`InsertsMatchMaintenance`); its sources are those of the plan's patterns (`SourcesServe`). |
| Lowering.SourcesServe | src/srdatalog/ir/hir/lower.py:83-243 | Every column source of a pipeline reads, for one of the plan's patterns or negations, that pattern's relation in its version and names its clause. |
| CompiledProgram.InsertsMatchMaintenance | src/srdatalog/ir/hir/lower.py:478-482 | Every insert of a plan writes a head of one of its variants into the canonical index, or the columns as they are where there is none; every rebuild of that relation's NEW in the same plan builds the index the insert names. |
| CompiledProgram.InsertedIsBuilt | src/srdatalog/ir/hir/lower.py:503-574 | In a compiled unit that rebuild is there. |
| CompiledProgram.MergesIff | src/srdatalog/ir/hir/lower.py:705-714 | A plan merges an index of a relation it maintains if and only if it is required and, in a loop, canonical or read as FULL by an atom of the loop. |
| Lowering.LowerJoins | src/srdatalog/ir/hir/lower.py:83-140 | Emits one column join per join variable that some pattern has, and remembers bound variables and used indexes. |
| Lowering.LowerMultiClause | src/srdatalog/ir/hir/lower.py:83-226 | Column joins, then at most one Cartesian join over the patterns that provide the remaining variables. |
| Lowering.LowerFiltersAndLets | src/srdatalog/ir/hir/lower.py:245-261 | Filters and lets in source order. |
| LoweringTheorem.PipelineEmits | src/srdatalog/ir/hir/lower.py:458-484 | In scope, the pipeline emits a fact if and only if some binding satisfies every clause it looks at, on all index contents. |
| LoweringTheorem.PipelineDerives | src/srdatalog/ir/hir/lower.py:458-484 | In scope, the pipeline agrees with the variant on all databases if and only if it has no heads, an argumentless atom beside others always holds, or nothing else can be satisfied. |
| LoweringTheorem.CheckedDerives | src/srdatalog/ir/hir/lower.py:458-484 | When every atom has arguments or is alone, the pipeline emits exactly what the variant derives, on every database. |
| LoweringTheorem.AgreesIff | src/srdatalog/ir/hir/lower.py:458-484 | For every rule of positive atoms with a head whose variables are bound, the pipeline of a default plan emits what the variant derives on all databases if and only if no atom repeats a variable and every atom has arguments or is alone. |
| LoweringTheorem.NegationAgreesIff | src/srdatalog/ir/hir/lower.py:229-243 | The lookup of a negation whose variables are bound, wildcards once each, decides it on all relations and bindings if and only if no variable repeats. |
| LoweringTheorem.SkippedAtomEmits | src/srdatalog/ir/hir/lower.py:83-226 | For H(x) :- P(x), Go() the pipeline skips Go and emits H(1) where the rule derives nothing. |
| PipelineMeaning.GeneratorsMeaning | src/srdatalog/ir/hir/lower.py:83-226 | The joins bind exactly the environments under which every pattern has a matching row. |
| PipelineMeaning.ProductMeaning | src/srdatalog/ir/hir/lower.py:158-226 | The Cartesian join adds one row per remaining pattern, all agreeing with the final binding. |
| Maintenance.GenerateSimpleMaintenance | src/srdatalog/ir/hir/lower.py:503-532 | Emits the specified operations in order. |
| Maintenance.GenerateLoopMaintenance | src/srdatalog/ir/hir/lower.py:535-574 | Emits the specified operations in order, merging only the canonical and FULL-read indexes. |
| Maintenance.SimpleMaintenanceMeaning | src/srdatalog/ir/hir/lower.py:503-532 | One round adds to every required FULL index exactly the NEW rows that the canonical one lacks and empties NEW, whether or not the empty-NEW check skips. |
| Maintenance.LoopMaintenanceMeaning | src/srdatalog/ir/hir/lower.py:535-574 | One round leaves in every required DELTA index, the canonical one or not, exactly what NEW adds to FULL, and FULL takes it in the merged indexes only; skipping changes nothing. |
| CompiledProgram.RoundsIterate | src/srdatalog/ir/hir/lower.py:535-574 | At the top of every iteration the stored FULL and DELTA indexes that the variants read hold exactly the state of the abstract semi-naive loop, canonical or not. |
| CompiledProgram.CompiledStratumIsLeast | src/srdatalog/ir/hir/lower.py:535-574 | A compiled loop that stops holds the least set closed under its rules. |
| CompiledProgram.CompiledStratumStops | src/srdatalog/ir/hir/lower.py:535-574 | If the derivable facts are finitely many, it stops. |
| CompiledProgram.MaintainUnitMeaning | src/srdatalog/ir/hir/lower.py:503-532 | Maintaining every head once after the plan takes each one's NEW in, also when a relation is listed twice. |
| CompiledProgram.LowerHirToMirSteps | src/srdatalog/ir/hir/lower.py:721-1025 | Emits one plan per stratum, loop or not, then the reconstruction of what it may have written. |
| CompiledProgram.ModifiedRels | src/srdatalog/ir/hir/lower.py:721-1025 | The heads of the variants, each at its first appearance. |
| CompiledProgram.PlanWritesAndMerges | src/srdatalog/ir/hir/lower.py:721-1025 | A plan writes exactly the heads of its variants and merges exactly the indexes its maintenance does. |
| CompiledProgram.LaidIff | src/srdatalog/ir/hir/lower.py:721-1025 | The emitted steps are laid out if and only if every plan merges the canonical index of each later reconstruction of what it writes. |
| Freshness.InsertPreReconstructRebuilds | src/srdatalog/ir/mir/passes.py:106-148 | After each reconstruction come rebuilds of exactly the indexes that later joins read and the last writer did not merge (`RebuildsIff`). |
| Freshness.RebuildsIff | src/srdatalog/ir/mir/passes.py:106-148 | After a reconstruction an index is rebuilt if and only if a join of a later plan, in a pipeline alone or in a parallel group, reads it as FULL or DELTA, and the last plan that inserted into the relation holds no merge of it. |
| Freshness.LastWriterMerged | src/srdatalog/ir/mir/passes.py:120-128 | Exactly the indexes that the last plan before the step with an insert into the relation merges. |
| Freshness.CollectNeeded | src/srdatalog/ir/mir/passes.py:84-103 | Exactly the indexes that a column source of a join of a later step reads as FULL or DELTA, in any pipeline of any plan. |
| Freshness.RunKeepsCurrent | src/srdatalog/ir/mir/passes.py:106-148 | Over any run of the rewritten steps, an index that a join of a later plan reads holds the relation's rows, unless the relation waits for its reconstruction and the plan that wrote it did not merge the index. |
| Freshness.ColumnSourcesReadFresh | src/srdatalog/ir/mir/passes.py:84-148 | Whenever a plan starts, every column source that a join of one of its pipelines, alone or in a parallel group, reads as FULL or DELTA has an index that holds the relation's rows. |
| LoweringTheorem.ExecutePipeline.ApplyClauseOrder | src/srdatalog/ir/mir/passes.py:156-187 | Sorts every join's sources, and a Cartesian join's variable lists with them, by clause order, and regenerates the source list. |
| LoweringTheorem.ClauseOrderIs | src/srdatalog/ir/mir/passes.py:156-187 | A join's sources come in the order of their clauses, those of clauses without a place last, those of one clause as they were, each with its variables. |
| LoweringTheorem.ExecutePipeline.ApplyPrefixOrder | src/srdatalog/ir/mir/passes.py:216-248 | Moves prefixed sources first where the first source has none and another does, and regenerates the source list. |
| LoweringTheorem.PrefixOrderIs | src/srdatalog/ir/mir/passes.py:216-248 | Where the first source has no prefix and another has, the prefixed sources come first, then the others, both as they were and with their variables; elsewhere nothing moves. |
| LoweringTheorem.SortFacts | src/srdatalog/ir/mir/passes.py:164-178 | The sort is an ascending permutation that keeps elements of one key in their order, which determines it. |
| LoweringTheorem.ReorderedEmits | src/srdatalog/ir/mir/passes.py:156-248 | When no two sources of a Cartesian join provide one variable, both reorderings keep every emitted fact, whatever the indexes hold. |
| LoweringTheorem.ReorderedDerives | src/srdatalog/ir/mir/passes.py:156-248 | So the reordered pipeline of a default plan emits exactly what its variant derives. |
| RuleRewrite.RewriteWildcards | src/srdatalog/ir/hir/rule_rewrite.py:35-68 | Every underscore variable gets its own generated name, one counter over all rules. |
| RuleRewrite.WildcardsPreserve | src/srdatalog/ir/hir/rule_rewrite.py:35-68 | Naming the wildcards apart keeps what a rule derives, each wildcard of a positive atom standing for a value of its own. |
| RuleRewrite.RewriteConstants | src/srdatalog/ir/hir/rule_rewrite.py:76-107 | Body constants become generated variables with one filter after the atom. |
| RuleRewrite.RewriteHeadConstants | src/srdatalog/ir/hir/rule_rewrite.py:114-148 | Head constants become generated variables with one let each at the end of the body. |
| RuleRewrite.BodyConstantsPreserve | src/srdatalog/ir/hir/rule_rewrite.py:76-107 | Replacing body constants keeps what the rule derives. |
| RuleRewrite.HeadConstantsPreserve | src/srdatalog/ir/hir/rule_rewrite.py:114-148 | Replacing head constants keeps what the rule derives. |
| RuleRewrite.RewritesPreserve | src/srdatalog/ir/hir/rule_rewrite.py:35-148 | The three in order keep what the rule derives as written; no generated name captures another. |
| WrittenProgram.RewritesMakeLowerable | src/srdatalog/ir/hir/rule_rewrite.py:35-148 | The rewritten rule is in the lowering's scope if and only if the written one repeats no named variable in an atom and uses only bound variables. |
| SemiJoin.OptimizeSemiJoins | src/srdatalog/ir/hir/rule_rewrite.py:230-437 | One round drops each target's filter atom, replaces the target and puts one generator per new name in front. |
| SemiJoin.FindTargets | src/srdatalog/ir/hir/rule_rewrite.py:258-375 | Finds exactly the targets with their first filter and the dropped atoms, and emits a generator for each name not seen before. |
| SemiJoin.TargetIff | src/srdatalog/ir/hir/rule_rewrite.py:212-264 | A clause is a target if and only if it is an atom of a relation that was not generated and another atom restricts it: has variables, all of them the target's, but not all the target's; the filter is the first that does. |
| SemiJoin.KeptIff | src/srdatalog/ir/hir/rule_rewrite.py:266-290 | A column of the target goes if and only if its variable is one of the filter's that neither the head nor any other atom or negation mentions; the kept ones stay in order. |
| SemiJoin.RebuildBody | src/srdatalog/ir/hir/rule_rewrite.py:377-400 | Rebuilds the body without the dropped atoms and with the generated ones. |
| SemiJoin.Run | src/srdatalog/ir/hir/rule_rewrite.py:440-459 | Repeating rounds until the rule count stays ends, in a list that another round would not change. |
| SemiJoin.SemiJoinPreserves | src/srdatalog/ir/hir/rule_rewrite.py:230-437 | A rewritten single-head rule derives what the original does when the generated relations hold the target's rows that match the filter. |
| SemiJoin.GeneratorsAgreeIff | src/srdatalog/ir/hir/rule_rewrite.py:284-345 | Two generators derive the same rows on every database if and only if they match the same target columns with the same filter columns. |
| SemiJoin.TargetsAgreeIff | src/srdatalog/ir/hir/rule_rewrite.py:284-345 | Two targets get generators that agree on every database if and only if their target, filter and matched columns agree, which the name does not record. |
| SemiJoin.NamesCollide | src/srdatalog/ir/hir/rule_rewrite.py:292-297 | Generated names do not even determine the two relations. |
| SemiJoin.SharedNameLosesFacts | src/srdatalog/ir/hir/rule_rewrite.py:230-459 | A two-rule program that the pass, run to its fixed point, makes lose a fact because two restrictions share a name. |
| SemiJoin.RunPreserves | src/srdatalog/ir/hir/rule_rewrite.py:440-459 | When in every round targets of one name agree and names are fresh, the final program has the original least model, off the generated relations. |
| Lattice.ValidIff | src/srdatalog/value_semantics.py:29-61 | A declaration is accepted if and only if its key and value columns, neither empty, are a permutation of the columns and the value has the join's width. |
| Lattice.JoinAssociative | src/srdatalog/runtime/generalized_datalog/gpu/device_sorted_array_index.ipp:61-90 | Both joins are associative. |
| Lattice.JoinCommutesIff | src/srdatalog/runtime/generalized_datalog/gpu/device_sorted_array_index.ipp:61-90 | Interval intersection commutes; witness selection does if and only if lower bound and rank identify the payload. |
| Lattice.FoldIsOrderFree | src/srdatalog/value_semantics.py:86-99 | When rank identifies the payload, order and repetition of candidates do not matter. |
| Lattice.FoldOrderMatters | src/srdatalog/value_semantics.py:86-99 | Two candidates with one rank and lower bound but other upper bounds make the result depend on the order. |
| Lattice.LatticeRelation.MergeDelta | src/srdatalog/runtime/generalized_datalog/gpu/device_sorted_array_index.ipp:104-190 | Replaces FULL by its keyed join with NEW, DELTA by the new or changed keys with whole values, and empties NEW. |
| Lattice.LatticeRelation.ReduceByKey | src/srdatalog/runtime/generalized_datalog/gpu/device_sorted_array_index.ipp:104-190 | Groups NEW by key and joins each group. |
| Lattice.LatticeRelation.Probe | src/srdatalog/runtime/generalized_datalog/gpu/device_sorted_array_index.ipp:1106-1205 | Joins one reduced value into FULL and puts the whole joined value into DELTA when it is new or changed. |
| Lattice.FullIsJoin | src/srdatalog/runtime/generalized_datalog/gpu/device_sorted_array_index.ipp:1106-1205 | FULL holds, key by key, the join of every candidate and the old value. |
| Lattice.DeltaIsExact | src/srdatalog/runtime/generalized_datalog/gpu/device_sorted_array_index.ipp:1106-1205 | DELTA holds exactly the new or changed keys, and old values are absorbed. |
| Lattice.MergeInBatches | src/srdatalog/runtime/generalized_datalog/gpu/device_sorted_array_index.ipp:1106-1205 | Merging two batches one after the other is merging them together. |
| Lattice.MergeIsOrderFree | src/srdatalog/runtime/generalized_datalog/gpu/device_sorted_array_index.ipp:1106-1205 | The order and repetition of functional candidates do not matter. |
| Lattice.LatticeSemiNaiveIsNaive | src/srdatalog/value_semantics.py:29-38 | Iterating on changed values reaches, at every iteration, the state of evaluating on all of FULL. |
| Lattice.LatticeStopsClosed | src/srdatalog/value_semantics.py:29-38 | When an iteration changes nothing, every derived value is absorbed. |
| Lattice.LatticeStopsAtLeast | src/srdatalog/value_semantics.py:29-38 | An iteration that changes nothing leaves a closed state and, when greater values never derive less, the least closed state above the start. |
| Lattice.LatticeTerminates | src/srdatalog/value_semantics.py:29-38 | If the run goes through finitely many keys and values, some iteration no later than their number changes nothing. |
| Lattice.NotLeast | src/srdatalog/value_semantics.py:29-38 | Two rules, one of which tests a value for equality, whose loop leaves a closed state above the start behind. |
| Lattice.StoredMergeIsMerge | src/srdatalog/runtime/generalized_datalog/gpu/device_sorted_array_index.ipp:1106-1205 | The keyed merge of stored rows is the merge of states that the loop theorems speak of. |
| Lattice.StaleDeltaIff | src/srdatalog/ir/hir/lower.py:577-622 | DELTA ends as what the round changed if and only if the size check does not skip, NEW was not empty, or DELTA was already empty. |
| Float32.MinMaxAgree | src/srdatalog/value_semantics.py:102-113 | Integer minimum and maximum of words of [0,1] are those of the bounds they encode. |
| Float32.JoinIntersects | src/srdatalog/value_semantics.py:29-38 | Joining stored intervals intersects the real intervals they stand for. |
| Float32.RoundIsNearest | src/srdatalog/value_semantics.py:102-106 | Encoding picks the nearest word, an even one on a tie. |
| Float32.RoundTripIff | src/srdatalog/value_semantics.py:102-113 | Encoding undoes decoding if and only if the word is at most that of one or that of negative zero. |
| Float32.WordOrderIff | src/srdatalog/value_semantics.py:102-106 | Word order follows the order of accepted bounds if and only if no negative zero stands first without the other being one. |
| Eytzinger.EytzingerMap.Build | src/srdatalog/runtime/generalized_datalog/eytzinger.h:43-55 | The filled heap holds every key once in order, with the position of each in the sorted input. |
| Eytzinger.EytzingerMap.BuildRecursive | src/srdatalog/runtime/generalized_datalog/eytzinger.h:95-107 | Fills exactly the slots of the subtree, in order, with the next separators and their positions, and touches nothing else. |
| Eytzinger.EytzingerMap.CloneFrom | src/srdatalog/runtime/generalized_datalog/eytzinger.ipp:320-331 | Copies the separators and leaves the block map empty. |
| Eytzinger.OrderIsPermutation | src/srdatalog/runtime/generalized_datalog/eytzinger.h:95-107 | The in-order fill visits every heap slot exactly once. |
| Eytzinger.EytzingerMap.Search | src/srdatalog/runtime/generalized_datalog/eytzinger.h:58-87 | The branchless descent and bit decode return the lower bound of any key through the map, or the raw heap position without one. |
| Eytzinger.UnmappedAnswerIff | src/srdatalog/runtime/generalized_datalog/eytzinger.ipp:320-331 | An index cloned without the block map answers every search rightly if and only if it has at most one key. |
| Seek.AcceleratedArrayIterator.SeekTo | src/srdatalog/runtime/generalized_datalog/eytzinger.h:143-202 | Block jump, window and fallback scan land exactly where a plain lower bound from the jump lands, with or without a block map. |
| Seek.AcceleratedArrayIterator.Advance | src/srdatalog/runtime/generalized_datalog/eytzinger.h:124-130 | Moves to the next greater value, or to the end. |
| Seek.GatherSeparators | src/srdatalog/runtime/generalized_datalog/eytzinger.ipp:191-214 | The separators are the last values of all blocks that precede the final one, and are sorted. |
| Seek.JumpIsSafe | src/srdatalog/runtime/generalized_datalog/eytzinger.h:143-202 | With a block map, or with at most three separators, no jump passes an answer. |
| Seek.UnmappedSeeksIff | src/srdatalog/runtime/generalized_datalog/eytzinger.ipp:320-342 | Without a block map, for blocks of any one size, seeking is plain lower bound for all columns with n separators, all positions and targets, if and only if n is at most three, or four when a block is one element. |
| Leapfrog.Iterator.FindNextMatch | src/srdatalog/runtime/generalized_datalog/leapfrog_view.h:84-140 | The search ends at the first common value from the old positions, or reports the end if and only if there is none. |
| Leapfrog.Iterator.SeekAll | src/srdatalog/runtime/generalized_datalog/leapfrog_view.h:106-130 | Brings every cursor below the greatest value up to it, passing only smaller values, and reports whether some cursor now stands above. |
| Leapfrog.Iterator.Next | src/srdatalog/runtime/generalized_datalog/leapfrog_view.h:57-63 | Leaves the current value behind and nothing else: the values still to come are those that were, without it. |
| Leapfrog.Intersect | src/srdatalog/runtime/generalized_datalog/leapfrog_view.h:142-176 | The view yields exactly the values common to all columns, in ascending order, once each. |
| Leapfrog.SeekLandsHere | src/srdatalog/runtime/generalized_datalog/leapfrog_view.h:112-130 | Through an index with its block map, or with at most three separators, the accelerated seek lands where the leapfrog cursor's plain search does. |
| Annotation.FindRoles | minimal_vulreasoner/annotation_fn.py:29-47 | Finds the last driver, cause and effect label, and whether each is there. |
| Annotation.Argmax | minimal_vulreasoner/annotation_fn.py:52-88 | The running best is the first witness pair with the greatest lower bound. |
| Annotation.LookUp | minimal_vulreasoner/annotation_fn.py:62-80 | The bounds of the first edge into the node, or the sentinel when there is none. |
| Annotation.PairedMinimumBounds | minimal_vulreasoner/annotation_fn.py:23-96 | The callback's answer is that of the roles and the best pair: `NoPairSaysNothing`, `SomePairAnswers`. |
| Annotation.NoPairSaysNothing | minimal_vulreasoner/annotation_fn.py:49-91 | Without one of the roles, or without a pair whose two labels have bounds, the answer contains every interval of [0,1]. |
| Annotation.SomePairAnswers | minimal_vulreasoner/annotation_fn.py:52-96 | Otherwise the answer's bounds are the least of the three of the first pair that guarantees most, and of one; it contains every interval of [0,1] if those are the wrong way round. |
| Annotation.AnswerIsUnique | minimal_vulreasoner/annotation_fn.py:23-96 | The answer is determined by the call. |
| Annotation.InvertedExitNeverTaken | minimal_vulreasoner/annotation_fn.py:90-96 | On well-formed bounds clipping changes nothing and the inverted-interval exit is never taken. |
| AnalystRule.CallbackIsJoin | minimal_vulreasoner/annotation_fn.py:52-96 | The callback answers with the max-lower-select join of all witnesses. |
| AnalystRule.CallbackIsFold | minimal_vulreasoner/annotation_fn.py:52-96 | It does so whatever the order and repetition in which witnesses are merged. |
| AnalystRule.CandidatesAreJoinRows | minimal_vulreasoner/srdatalog_query.py:143-223 | The candidate relation receives exactly the rows of the connector join that pass the thresholds. |
| AnalystRule.ProposedAreWitnesses | minimal_vulreasoner/srdatalog_query.py:143-223 | For each key the rule proposes exactly the witnesses of all leading blocks. |
| AnalystRule.RuleReproducesCallback | minimal_vulreasoner/srdatalog_query.py:143-223 | Joining the candidates gives the callback's answer for a leading block with the greatest lower bound, over any number of leading blocks. |

## Left out

- WrittenProgram.WrittenProgramIsStable: does not pass through semi-join rewriting, which only rules that ask for it get; `RunPreserves` covers that pass alone.
- WrittenProgram.WrittenProgramIsStable: plain relations only; loops over lattice-valued relations have their own theorems in `Lattice`.
- WrittenProgram.WrittenProgramIsStable: speaks of the pipelines as lowered; that the two source reorderings change nothing any pipeline emits is `ReorderedDerives`.
- WholeProgram.CompiledProgramComputes: the indexes of a unit are ensured at one point before its plan, those of negations too, which the source ensures again at each iteration; a loop negates nothing that it derives, so those indexes have not changed.
- WholeProgram.CompiledProgramComputes: row counts of infinite relations count as different from any other; an index of no columns holds no rows after it was ensured.
- StaleIndex.StaleIff: speaks of a relation that one unit writes; with several writers the counts are compared in the same way after each.
- Freshness.RunKeepsCurrent: reads a rebuild as a step that sets the index to column storage. The generated code emits none between strata and builds the index before the plan that reads it, which `EnsuringMakesReady` and the run theorems model instead.
- Lattice.LatticeStopsAtLeast: asks that rules are monotone in the join's order, which the source does not check; `NotLeast` shows what fails otherwise.
- LoweringTheorem.AgreesIff: for rules of positive atoms; the scope with negations, filters and lets is that of `CheckedDerives`.
- Planner.PlanVariant: plans written by the user (variable order, clause order, fan-out and similar options) are not modelled, only the default plan.
- Lowering.LowerVariantToPipeline: aggregates, split rules and balanced scans are not modelled; the balanced-scan pass does nothing without the latter.
- SemiJoin.OptimizeSemiJoins: the translation of user plans to the rewritten body, the generated declarations and provenance records are not modelled; the rule's first head is taken as the source's `rule.head`.
- CompiledProgram.SelectIndices: reads are taken in any order where the source sorts index tuples; the properties hold for every order.
- CompiledProgram.LowerHirToMirSteps: the fallback to the first required index for a relation without a canonical one is not modelled; selection gives every member one.
- CompiledProgram.LowerHirToMirSteps: hooks, split rules and lattice maintenance do not occur among the emitted steps.
- Datalog: inline C++ is an uninterpreted function of its arguments and may not have effects; arguments given as C++ expressions are integer constants.
- Datalog: values are unbounded integers; a column's machine width, hashing and interning are not modelled.
- Maintenance.LoopMaintenanceMeaning: indexes are sets of rows; sorting, deduplication on the GPU, row identifiers and semiring annotations of rows are not modelled.
- Lattice.LatticeRelation.MergeDelta: the merge is sequential over keys, while the source runs each key in parallel; keys do not interact.
- Leapfrog.Intersect: columns are ascending lists; the SIMD bodies of the comparisons are modelled by what they compute.
- Seek.AcceleratedArrayIterator.SeekTo: addresses are positions; prefetching is not modelled.
- AnalystRule.RuleReproducesCallback: the inline code of the rule is assumed to compute the comparisons and minima that its text spells out (`Understood`).
- AnalystRule.CandidatesAreJoinRows: loading analyst rules from files and the text of their C++ expressions are not modelled.
- Code generation, the just-in-time build, the command line, hooks, debugging output and provenance reports are not part of this model.
