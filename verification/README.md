# A verified model of the cleanup analysis, the language server, the cache and two byte streams

This project models, in Dafny, four parts of the Salicin compiler and proves what they are
for.

**The ownership and cleanup analysis** (`compiler/src/cleanup.rs`). A plan is a control-flow
graph of cleanup operations over a forest of move paths. The analysis computes, for every
point, which storage may and must be live, which paths may and must be initialized, and which
variants an enum may have; the verifier accepts or rejects the plan by these states; drop
flags and drop obligations are synthesized from them.

- `CleanupPlan`, `MovePaths`, `Structure`, `Checks` hold the plan, the forest read off its
  parent links, and what the verifier demands, as predicates.
- `Semantics` is the concrete meaning: live locals, leaves that hold a value, one active
  variant for each enum. A value is complete by the completion rule, recursively.
- `MoveStates` is the may/must lattice on values; `BitSet`, `DiscriminantState` and the class
  `MoveState` are the objects that update words and vectors in place, each method proved to
  compute the function of the same name. `Marking` carries the proof of the explicit-stack
  marking, `TopologyBuilder` that of the preorder walk and of the shape comparison.
- `MoveStateAnalysis` and `Worklist` are the fixpoint, `ComputedAnalysis` the function it
  computes; `StructureVerifier`, `PlanVerifier` and `CleanupVerifier` are the verifier;
  `DropObligations`, `DropFlags` and `DropFlagAnalysis` are the drop flags.
- `Simulation`, `Lattice`, `Runs` and `Progress` hold the theorems about states: one-step
  simulation, whole-run safety, scope discipline.
- `TightStates`, `Monotone`, `TightPlans`, `Witnesses`, `Exactness`, `BestTransfer` and
  `Aggregates` show that the analysis is exact: every state a verified plan meets is consistent
  with itself, such a state says exactly what its memories have in common, the checks accept
  exactly what is safe in all of them, and the transfer function loses nothing that is certain.
  `TransferKinds` is a family of plans with their verdicts; `TransferShapes` and `FlagNeeds`
  characterize the shape comparison and the choice of flags without their code.
- `Fills`, `FlagTruth` and `FlagRuns` say exactly when drop flags are right: for one
  operation or edge, and over all runs. `FlagLimits`, `EdgeLimits` and `UnitLimits` are three
  verified plans in which they are wrong.

**The language server** (`compiler/src/lsp.rs`, `compiler/src/editor.rs`).
`WorkspaceSession` is the session object, and `SessionTexts` says which text it shows over any
history. `LanguageServer` says on values what one message or one finished analysis does,
`LanguageServerObject` is the object that does it in place, and `ServerSystem` runs reader, main
loop and coalescing worker as one step system with queues. `ServerAnswers` traces every answer
back to its query, and `ServerLife` says for every message of every execution what the client
sees.
`SemanticTokens` is the delta encoding, `RenameSplice` the splicing loop of a rename.

**The cache** (`compiler/src/incremental_cache.rs`). `CacheStore` is an entry and what a
reader makes of it, one file-system access at a time; `CacheProtocol` interleaves any number
of publishers, readers and `clean` over atomic renames; `CacheRace` says when publishers can
replace each other's entries; `CachePublisher` is the retry loop of `publish`, proved to be the
publisher of the protocol.

**Two byte streams.** `Fingerprint` and `FingerprintIdentity`: the stream that identifies a
compilation (`compiler/src/incremental.rs`), with the hash left abstract. `TestReport`: the
frames that `runtime/allocator.c` prints and `compiler/src/main.rs` parses. `Bytes`,
`Ordering`, `Placement`, `Sequences` and `Wrappers` are shared helpers.

## What was found

- *Drop flags can be wrong in verified plans.* Three plans pass verification, with the analysis
  the worklist computes and the flags, actions and sites synthesized from it, and have a run from
  the entry on which the emitted site of a local drops the wrong things.
  - An `Overwrite` of an enum may write another variant, and an action is emitted for a flag only
    when its path is definitely initialized afterwards (`compiler/src/cleanup.rs:1057-1066`), so
    the flag of the old payload stays set and the payload is dropped again after it has gone
    (`FlagLimits.StaleFlagDropsAbsentPayload`).
  - An edge ends storage without any flag action (`compiler/src/cleanup.rs:1232-1238`), so the
    flag stays set, and a later `StorageDead` of the same local drops storage that has ended
    (`EdgeLimits.EdgeLeavesFlagSet`). No enum is involved.
  - A value completed part by part, one part on one branch only, is never definitely
    initialized, so its flag stays clear although it is complete. Its parts are dropped one by
    one; glue that no part has is not run (`UnitLimits.ClearFlagForgetsGlue`).
- *Exactly when they are right.* `FlagTruth.StepTruth` and `FlagTruth.EdgeTruth` give, for every
  operation and every edge, the condition before it that is equivalent to a truthful flag staying
  truthful; `FlagRuns.TruthfulRuns` does the same for all runs of a plan, and
  `DropFlagAnalyses.CompiledDropsExact` for what a site drops.
  `DropFlagAnalyses.SettledDropsExact` is a condition on the computed states, enum locals
  included, and `DropFlagAnalyses.DirectDropsExact` one that can be read off the plan.
- *The analysis is exact where it could be loose.* In a verified plan each check accepts exactly
  what is safe in all memories the state describes (`TightPlans.VerifiedIsExact`), and after each
  accepted operation exactly what is complete in every outcome is certainly initialized
  (`BestTransfer.CertainExactly`). Two places are only sound: what encloses a written path is
  possibly initialized as soon as its parts are, and `Init` of a path that holds something already.
  In a rejected plan an enum can miss that its payload is complete
  (`Aggregates.WrongVariantBreaks`); aggregates cannot (`Aggregates.AggregatesFollow`).
- *Two checks can never fail.* The must-within-may checks after each operation
  (`compiler/src/cleanup.rs:1998-2013`) hold after every operation, and the content-modified
  refusal when a current analysis arrives (`compiler/src/lsp.rs:479-484`) is never taken.
- *Publishers can replace each other.* Over an invalid entry, a publisher that has found it
  invalid moves away whatever is there by then, also a valid entry just published
  (`compiler/src/incremental_cache.rs:261-265`): two publishers can both return `Published`
  (`CacheRaces.ReplacedTwice`). `CacheRaces.SingleWinnerExactly` says when that cannot happen.
  Hits stay whole in either case (`CacheProtocol.HitIntegrity`).
- *A comment is out of date.* The comment on the server (`compiler/src/lsp.rs:60-62`) says it
  publishes no language features; the code answers queries and publishes diagnostics, and the
  model follows the code.

## Reading the statements

What a drop has to reach is a parameter, a set of *units*, since the plan does not say which
drop glue is made of the glue of the parts. The theorems hold for any choice;
`DropObligations.Leaves` are the paths without parts, and `DropObligations.GlueUnits` are the
paths whose glue no part has. A flag is *truthful* if it is set only when its path is complete,
and is set when its path is a complete unit.

A state is *consistent* if it is `Tight` (certain parts make a certain whole and the other way
round; what may be held is in reach of possible variants and in storage that may be live), has
the shape of computed states and is reachable. An *outcome* of an operation is a memory that it
can lead to from a memory the state describes.

Preconditions of the form "fits" bound lengths by what a 64-bit length field can hold, which
any value in memory satisfies. Ids and indexes are unbounded naturals; the revision counter
of a session is bounded by `u64::MAX`, because the source checks it. An ordered map in the
source appears as the list of its entries in key order (`FingerprintIdentity.WellOrdered`).
`Verified` is what `CleanupVerifier.AnalyzeAndVerify` decides. A verified plan is accepted
with its computed analysis (`ComputedAnalysis.VerifiedIsAccepted`), so what is proved of plans
that are `Accepted` with some stable analysis holds of it.

## Model

| member | source | states |
|---|---|---|
| `Runs.WholeRunSafety` | compiler/src/cleanup.rs:1847-2082 | in an accepted plan, at every point of every run, what is moved out, overwritten or transferred is complete and live, nothing projects through an inactive variant, storage starts only when dead and empty, and every branch condition and return place is live and complete |
| `Runs.ScopeDiscipline` | compiler/src/cleanup.rs:2239-2317 | on every run of a structured plan, any live local belongs to a scope that encloses the current block |
| `Runs.RunDescribed` | compiler/src/cleanup.rs:1197-1254 | every configuration of every run is described by the computed state at that point, and only blocks the analysis reaches are entered |
| `Runs.EdgeDiscipline` | compiler/src/cleanup.rs:1232-1238 | leaving along an accepted edge ends the storage of every local that the target is not enclosed by |
| `Runs.EndedExactly` | compiler/src/cleanup.rs:1232-1238 | an exit chain ends exactly the storage of the locals declared in the scopes it lists |
| `TightPlans.VerifiedIsExact` | compiler/src/cleanup.rs:1847-2017 | in a verified plan every computed state says of each path exactly what holds in all memories it describes, and every operation is safe in all of them |
| `TightPlans.VerifiedIsTight` | compiler/src/cleanup.rs:1197-1254 | in a verified plan every computed state is consistent with itself: certain parts make a certain whole and the other way round, nothing is held behind a variant that is ruled out |
| `Aggregates.AggregatesFollow` | compiler/src/cleanup.rs:779-805 | in every structured plan, verified or not, an aggregate whose children are all certainly initialized is certainly initialized |
| `Aggregates.EnumsFollow` | compiler/src/cleanup.rs:806-836 | in a verified plan, an enum known to have selected a variant is certainly initialized exactly when the payload of that variant is |
| `Aggregates.WrongVariantBreaks` | compiler/src/cleanup.rs:779-836 | an input on which an enum does not follow its payload: moving out of a variant that is not selected, which the checks refuse |
| `Exactness.ChecksExact` | compiler/src/cleanup.rs:1847-1999 | an operation is accepted if and only if it is safe in every memory the state describes, and, for a transfer that may overwrite, the destination is neither always complete nor always empty |
| `Exactness.OneKindFits` | compiler/src/cleanup.rs:1935-1957 | for a ready source and destination exactly one kind of transfer is accepted: Initialize if nothing in the destination may hold anything, Overwrite if it is certainly complete, MaybeOverwrite otherwise |
| `Exactness.TerminatorExact` | compiler/src/cleanup.rs:2017-2082 | a branch or return is accepted if and only if its condition or return place is live and complete in every memory the state describes |
| `TransferKinds.VerifiedExactly` | compiler/src/cleanup.rs:1935-1957 | of the diamonds in which the destination was never initialized, or either branch moved it out, each is verified with exactly one kind of transfer: MaybeOverwrite when one branch has moved it out, not when it was never initialized |
| `DropFlagAnalyses.CompiledDropsExact` | compiler/src/cleanup.rs:993-1134 | end to end, exactly: run with the emitted flag actions from all flags clear, the emitted site at a StorageDead reached by any run of an accepted plan drops each complete unit of the local once and nothing incomplete if and only if the flags it looks at are right about their paths |
| `DropFlagAnalyses.CompiledDropsKept` | compiler/src/cleanup.rs:993-1134 | if, wherever a run can get, what comes next keeps each flag of the local truthful, every site of the local drops exactly, on every run |
| `DropFlagAnalyses.EverySiteDecided` | compiler/src/cleanup.rs:993-1134 | every StorageDead on every run of an accepted plan has a root path, so the exact statement covers every site |
| `DropFlagAnalyses.SettledDropsExact` | compiler/src/cleanup.rs:993-1134 | enum locals included: if by the computed states every write settles each related flagged path of the local - it is must-init afterwards, or it cannot hold a value before where it is overwritten and, if a unit, cannot hold one after - and no edge ends storage that may be initialized under a flag, every site of the local drops exactly on every run |
| `DropFlagAnalyses.DirectDropsExact` | compiler/src/cleanup.rs:993-1134 | a special case of SettledDropsExact read off the plan: flagged paths outside variants, flagged units without parts |
| `DropFlagAnalyses.ActionRunsAreFlagRuns` | compiler/src/cleanup.rs:1038-1103 | carrying out the emitted actions and following the flag rules make the same runs |
| `FlagRuns.TruthfulRuns` | compiler/src/cleanup.rs:1038-1103 | a flag is truthful at every point of every run of an accepted plan if and only if, at every point a run can reach, the next operation or edge meets the condition of KeepsAt |
| `FlagRuns.DropExactness` | compiler/src/cleanup.rs:1155-1193 | a drop site is right if and only if the flags it looks at are, with flags steered by the rules instead of by the emitted list |
| `FlagRuns.SettledRuns` | compiler/src/cleanup.rs:1038-1103 | flags whose paths every write settles by the computed states, without edges that end possibly initialized storage, stay truthful on every run |
| `FlagTruth.StepTruth` | compiler/src/cleanup.rs:1050-1092 | for every accepted operation and any path, within variants too: a truthful flag is truthful after every outcome of the operation if and only if KeepsTruth holds before it, a condition on the memory, the flag and the guard of the flag action |
| `FlagTruth.OverwriteTruth` | compiler/src/cleanup.rs:1057-1066 | after an overwrite the flag of a part is right exactly when an action sets it, or when it is clear and the part is no unit; flags elsewhere stay right |
| `FlagTruth.InitTruth` | compiler/src/cleanup.rs:1057-1066 | initializing makes a truthful flag wrong exactly when it is clear, no action sets it, and the write may complete that unit or completes what encloses it |
| `FlagTruth.EdgeTruth` | compiler/src/cleanup.rs:1232-1238 | an edge keeps a truthful flag truthful if and only if it does not end the storage of a path whose flag is set |
| `Fills.FillOutcomes` | compiler/src/cleanup.rs:713-777 | some way of writing a value reaches a part exactly when every selected variant on the way is the part's, and every way does exactly when each enum on the way has selected it or has no other |
| `Fills.RestDecides` | compiler/src/cleanup.rs:779-836 | once a part is written, what encloses it is complete exactly when everything else in it is |
| `DropObligations.ObligationsExact` | compiler/src/cleanup.rs:1155-1193 | for any choice of units, enums included: carrying out the obligation tree drops each complete unit through exactly one dropped path and nothing incomplete if and only if every flag looked at on the way is right about its path |
| `DropObligations.SetIsDropped` | compiler/src/cleanup.rs:1155-1193 | a path whose flag is looked at and set is dropped |
| `FlagLimits.StaleFlagDropsAbsentPayload` | compiler/src/cleanup.rs:1050-1092 | a plan that the verifier accepts, with the analysis it computes and the flags it synthesizes, and a run from its entry: an overwrite changes the variant, no action clears the flag of the old payload, and the emitted site drops a payload that is not there |
| `FlagLimits.Verify` | compiler/src/cleanup.rs:1341-1368 | on the plan of FlagLimits, verification succeeds and returns exactly these flags, actions and sites |
| `EdgeLimits.EdgeLeavesFlagSet` | compiler/src/cleanup.rs:1232-1238 | a plan that the verifier accepts, with the analysis it computes and the flags it synthesizes, and a run from its entry: without any enum, an edge ends storage without an action, and the emitted site drops a local whose storage has ended |
| `EdgeLimits.Verify` | compiler/src/cleanup.rs:1341-1368 | on the plan of EdgeLimits, verification succeeds and returns exactly these flags, actions and sites |
| `UnitLimits.ClearFlagForgetsGlue` | compiler/src/cleanup.rs:1050-1092 | a plan that the verifier accepts, with the analysis it computes and the flags it synthesizes, and a run from its entry: without any enum, a value completed part by part has its flag clear, and the emitted site does not run the drop glue that none of its parts has |
| `UnitLimits.Verify` | compiler/src/cleanup.rs:1341-1368 | on the plan of UnitLimits, verification succeeds and returns exactly these flags, actions and sites |
| `Progress.Executable` | compiler/src/cleanup.rs:1847-2017 | an accepted operation always has a successor; a guard has one exactly when its variant is the selected one |
| `Progress.RunsContinue` | compiler/src/cleanup.rs:1847-2082 | a run of an accepted plan stops only at a failed guard or at a terminator without edges |
| `Simulation.StepSound` | compiler/src/cleanup.rs:881-923 | for every accepted operation, enums included, must-init within complete within may-init and active variants among the possible ones survive the operation |
| `Simulation.AcceptedIsSafe` | compiler/src/cleanup.rs:1847-1999 | the state checks of the verifier imply that the operation touches no dead, moved or wrong-variant storage |
| `Simulation.BelowSound` | compiler/src/cleanup.rs:651-668 | a state above another describes every concrete state the other describes |
| `Simulation.TransferSound` | compiler/src/cleanup.rs:895-913 | a transfer keeps the source discriminant, clears the source and completes the destination, soundly |
| `Simulation.AssumeSound` | compiler/src/cleanup.rs:861-879 | learning the variant of a complete enum is sound: the other variants are empty, the chosen payload is complete |
| `Simulation.InitSound` | compiler/src/cleanup.rs:838-846 | initializing a path and recomputing its ancestors describes every way of writing a complete value there |
| `Simulation.MarkSound` | compiler/src/cleanup.rs:713-777 | marking a subtree gives each path below a status that holds for every completion of the value, whatever variants it picks |
| `Simulation.RecomposeSound` | compiler/src/cleanup.rs:779-836 | recomputing ancestors stays sound, enum roots with several possible variants left alone included |
| `Simulation.EndAllSound` | compiler/src/cleanup.rs:1232-1238 | ending the storage of exited scopes describes the memory after the edge |
| `Simulation.MatchingVariants` | compiler/src/cleanup.rs:572-629 | matching shapes give a possible variant of the source as a variant of the destination |
| `Exactness.SaysExactly` | compiler/src/cleanup.rs:935-959 | a consistent state calls a path certainly or possibly initialized, a variant possible and an enum possibly unset exactly when that is so in all, or some, of its memories |
| `Exactness.LivenessExactly` | compiler/src/cleanup.rs:925-933 | live and dead storage are exactly what is live or dead in all memories |
| `BestTransfer.CertainExactly` | compiler/src/cleanup.rs:881-923 | after an accepted operation a path is certainly initialized if and only if it is complete in every outcome, enclosing paths included |
| `BestTransfer.PossibleExactly` | compiler/src/cleanup.rs:881-923 | a path that does not enclose the written one is possibly initialized if and only if it is complete in some outcome |
| `BestTransfer.EnclosingExactly` | compiler/src/cleanup.rs:779-836 | what encloses a written path is certainly, or possibly, initialized exactly as its children are, of an enum the one that is selected |
| `BestTransfer.VariantsExactly` | compiler/src/cleanup.rs:845-913 | possible variants and possibly unset enums are those of the outcomes: a transfer hands over what is known of the variant of the source, selecting a variant leaves exactly that one |
| `BestTransfer.StorageExactly` | compiler/src/cleanup.rs:689-711 | storage is live for certain, or possibly, exactly as it is in all outcomes, or in some |
| `BestTransfer.GuardExactly` | compiler/src/cleanup.rs:861-879 | a guard leaves exactly one possible variant and its payload certain, rules out the other payloads, and changes nothing outside of the enum |
| `TightStates.ApplyKeeps` | compiler/src/cleanup.rs:881-923 | an operation whose paths are live and projected through known variants keeps a state consistent with itself |
| `TightStates.JoinKeeps` | compiler/src/cleanup.rs:651-668 | a join of consistent states is consistent |
| `Monotone.ApplyUnder` | compiler/src/cleanup.rs:881-923 | an operation that is ready leads from a smaller state to a smaller one |
| `Lattice.JoinIsUpperBound` | compiler/src/cleanup.rs:651-668 | a join is above both inputs and keeps the shape of states |
| `Lattice.JoinIsLeast` | compiler/src/cleanup.rs:651-668 | anything above both inputs is above their join |
| `Lattice.ProperApply` | compiler/src/cleanup.rs:881-923 | every operation on existing paths and variants, whatever the checks of the state say, keeps must within may and possible variants within the declared ones |
| `Lattice.SlackFalls` | compiler/src/cleanup.rs:1197-1254 | a state that changes upward uses up some of its finitely many ascents |
| `Lattice.InvariantChecksNeverFire` | compiler/src/cleanup.rs:1998-2013 | the must-within-may checks after each operation can never fail |
| `BitSets.BitSet.constructor` | compiler/src/cleanup.rs:209-213 | a new set is empty and has room for the given number of bits |
| `BitSets.BitSet.Contains` | compiler/src/cleanup.rs:215-219 | tests membership of the set that the 64-bit words stand for, also beyond the last word |
| `BitSets.BitSet.Insert` | compiler/src/cleanup.rs:221-223 | adds one member and changes no other bit |
| `BitSets.BitSet.Remove` | compiler/src/cleanup.rs:225-227 | removes one member and changes no other bit |
| `BitSets.BitSet.UnionWith` | compiler/src/cleanup.rs:229-233 | word-wise or is set union |
| `BitSets.BitSet.IntersectWith` | compiler/src/cleanup.rs:235-239 | word-wise and is set intersection |
| `BitSets.BitSet.Equals` | compiler/src/cleanup.rs:203-206 | equal words mean equal sets and the other way round |
| `DiscriminantStates.IncludeVariant` | compiler/src/cleanup.rs:262-267 | keeps the variant list increasing and adds exactly one variant to the set it stands for |
| `DiscriminantStates.JoinWith` | compiler/src/cleanup.rs:269-274 | joins two discriminants: unset if either may be, possible what either makes possible |
| `DiscriminantStates.BinarySearch` | compiler/src/cleanup.rs:262-267 | finds a variant exactly when it is listed, else the place that keeps the list increasing |
| `MovePaths.WithinIsPrefix` | compiler/src/cleanup.rs:559-563 | one path encloses another by parent links exactly when its place is a prefix |
| `MovePaths.VariantInjective` | compiler/src/cleanup.rs:1703-1715 | two downcasts of one enum select different variants |
| `MovePaths.NeedsDropUpward` | compiler/src/cleanup.rs:1647-1652 | a path with drop glue has it on every enclosing path |
| `Topologies.PreorderIsSubtree` | compiler/src/cleanup.rs:520-538 | the reference traversal lists exactly the subtree, each path once |
| `Topologies.SliceIsSubtree` | compiler/src/cleanup.rs:552-557 | the slice of the index for a path is its subtree, each path once |
| `Topologies.ContainsIsPrefix` | compiler/src/cleanup.rs:559-563 | the position test holds exactly when one path encloses the other, that is, when its place is a prefix |
| `TopologyBuilder.New` | compiler/src/cleanup.rs:467-550 | the index built by the loops agrees with the parent links: children, completion rules, discriminant slots, roots and preorder positions |
| `TopologyBuilder.IndexPaths` | compiler/src/cleanup.rs:520-538 | the explicit-stack walk visits every path once, and each interval is the traversal of its path |
| `TopologyBuilder.WalkRoot` | compiler/src/cleanup.rs:523-537 | one root appends its traversal to the list and sets the positions and ends of exactly its subtree |
| `TopologyBuilder.CompletionOf` | compiler/src/cleanup.rs:481-505 | the completion rule of a path: explicit without children, an enum root with its variants in order, or all children |
| `TopologyBuilder.DiscriminantSlots` | compiler/src/cleanup.rs:506-518 | each enum root gets its own slot, in path order |
| `TopologyBuilder.TransferShapesMatch` | compiler/src/cleanup.rs:572-629 | the worklist over pairs ends and decides label-preserving tree isomorphism cut at callable environments |
| `Checks.ShapesSymmetric` | compiler/src/cleanup.rs:572-629 | matching shapes match the other way round |
| `TransferShapes.ShapesExactly` | compiler/src/cleanup.rs:572-629 | two paths match in shape exactly when the same relative projections lead somewhere below both, as far as no captures on either side hide what comes after |
| `TransferShapes.ShapesWithoutCaptures` | compiler/src/cleanup.rs:581-598 | without captures below, matching means equal sets of relative projections |
| `MoveStateObjects.MoveState.constructor` | compiler/src/cleanup.rs:639-649 | a fresh state: nothing live, nothing initialized, every discriminant unset |
| `MoveStateObjects.MoveState.JoinFrom` | compiler/src/cleanup.rs:651-668 | becomes the join of both states, and reports a change exactly when there was one |
| `MoveStateObjects.MoveState.ClearSubtreeOnly` | compiler/src/cleanup.rs:670-678 | clears exactly the paths below the given one |
| `MoveStateObjects.MoveState.ClearPath` | compiler/src/cleanup.rs:680-688 | clears the subtree, and completeness of every enclosing path, nothing else |
| `MoveStateObjects.MoveState.ClearLocalValue` | compiler/src/cleanup.rs:690-699 | clears exactly the paths of one local, if it has any |
| `MoveStateObjects.MoveState.StartStorage` | compiler/src/cleanup.rs:701-705 | the local is live and empty afterwards, all else is as before |
| `MoveStateObjects.MoveState.EndStorage` | compiler/src/cleanup.rs:707-711 | the local is dead and empty afterwards, all else is as before |
| `MoveStateObjects.MoveState.MarkWhole` | compiler/src/cleanup.rs:713-777 | the explicit-stack marking equals the pointwise definition from the parent upward |
| `MoveStateObjects.MoveState.MarkDiscriminant` | compiler/src/cleanup.rs:733-757 | an enum root being marked gets the discriminant the definition gives it |
| `MoveStateObjects.MoveState.RecomposeAncestors` | compiler/src/cleanup.rs:779-836 | walking up the parents equals recomputing each ancestor in turn |
| `MoveStateObjects.MoveState.RecomposeEnum` | compiler/src/cleanup.rs:808-832 | an enum root follows its active payload when the variant is known and is left alone otherwise |
| `MoveStateObjects.MoveState.InitializePath` | compiler/src/cleanup.rs:838-846 | marks the path and recomputes its ancestors |
| `MoveStateObjects.MoveState.SelectVariant` | compiler/src/cleanup.rs:848-859 | clears the path and fixes its variant |
| `MoveStateObjects.MoveState.AssumeVariant` | compiler/src/cleanup.rs:861-879 | fixes the variant, clears every other payload and marks the chosen one, whatever the order of the variants |
| `MoveStateObjects.MoveState.TransferValue` | compiler/src/cleanup.rs:895-913 | clears both places, installs the source discriminant and completes the destination |
| `MoveStateObjects.MoveState.ApplyOperation` | compiler/src/cleanup.rs:881-923 | each operation changes the object as the transfer function says |
| `MoveStateObjects.MoveState.StorageLiveness` | compiler/src/cleanup.rs:925-933 | live, maybe live or dead, by the two sets |
| `MoveStateObjects.MoveState.PathInitialization` | compiler/src/cleanup.rs:935-955 | initialized if definitely so, else maybe or partial exactly when some part of the subtree may hold something |
| `MoveStateObjects.MoveState.InactiveDowncast` | compiler/src/cleanup.rs:961-989 | finds no offender exactly when every enum projected through is known to select that variant |
| `MoveStateObjects.MoveState.Equals` | compiler/src/cleanup.rs:1212-1214 | equal objects are exactly equal states |
| `MoveStateAnalyses.Compute` | compiler/src/cleanup.rs:1197-1254 | the worklist over states updated in place returns the analysis of the plan, which is stable and the least that bounds it; a block is reachable in it exactly when a path of edges leads there |
| `ComputedAnalysis.ComputedIsLeast` | compiler/src/cleanup.rs:1197-1254 | any states, one for each block, that lie above the start and take in whatever blocks and edges make of a state below them lie above the computed entry states: the worklist joins no more than it must |
| `ComputedAnalysis.ComputedIsStable` | compiler/src/cleanup.rs:1197-1254 | the queue runs empty, and then exits are the operations folded over entries, each edge is covered by its target, the entry covers the start; reachable are exactly the blocks a path of edges leads to |
| `MoveStateAnalyses.ProcessBlock` | compiler/src/cleanup.rs:1205-1245 | one turn of the loop keeps every block outside the queue settled and uses up ascents or queue length |
| `MoveStateAnalyses.FollowEdge` | compiler/src/cleanup.rs:1232-1244 | joins the edge state into the target and queues the target exactly when it changed and was not queued |
| `MoveStateAnalyses.ExitScopes` | compiler/src/cleanup.rs:1234-1238 | ends the storage of every local of every exited scope, in order |
| `MoveStateAnalyses.StateAt` | compiler/src/cleanup.rs:1256-1274 | the state before an operation is the entry state with the earlier operations applied |
| `Worklist.Finished` | compiler/src/cleanup.rs:1205-1253 | with an empty queue the analysis is stable and reaches exactly what edges reach |
| `Worklist.ReachableIsReached` | compiler/src/cleanup.rs:1197-1254 | every block at the end of a path of edges is reachable in any stable analysis |
| `CleanupVerifier.AnalyzeAndVerify` | compiler/src/cleanup.rs:1341-1368 | succeeds exactly when the plan is structured and stable under the one analysis the worklist computes, and then returns that analysis and the synthesized flags; a failure carries errors |
| `ComputedAnalysis.VerifiedIsAccepted` | compiler/src/cleanup.rs:1341-1368 | a plan is verified exactly when it is accepted with its computed analysis, so the theorems about accepted plans are about what the verifier lets through |
| `StructureVerifier.VerifyScopes` | compiler/src/cleanup.rs:1431-1495 | no error exactly when the scopes are numbered, rooted and without cycles |
| `StructureVerifier.ChainEnds` | compiler/src/cleanup.rs:1479-1493 | the visited-set walk decides whether following parents comes to an end |
| `StructureVerifier.VerifyLocals` | compiler/src/cleanup.rs:1497-1588 | no error exactly when each local is declared in one scope at its place and there is at most one return place |
| `StructureVerifier.VerifyMovePaths` | compiler/src/cleanup.rs:1590-1717 | no error exactly when the paths form a forest with matching places, one root for each owned local, and uniform children |
| `StructureVerifier.VerifyPlace` | compiler/src/cleanup.rs:1719-1738 | no error exactly when the place is rooted in an owned local and has no runtime index |
| `StructureVerifier.IsAncestorScope` | compiler/src/cleanup.rs:2304-2317 | decides the ancestor relation, cyclic parents included |
| `PlanVerifier.VerifyBlocks` | compiler/src/cleanup.rs:1740-1777 | no error exactly when the entry, every block, its operations and its terminator are well formed |
| `PlanVerifier.VerifyOperation` | compiler/src/cleanup.rs:1779-1845 | no error exactly when the operation is visible in the scope of its block and its paths are owned and apart |
| `PlanVerifier.VerifyOperationLocal` | compiler/src/cleanup.rs:2122-2153 | storage starts only in the own scope and ends only in an enclosed one |
| `PlanVerifier.VerifyOperationPath` | compiler/src/cleanup.rs:2155-2189 | the path exists, is owned, and its local is visible in the block |
| `PlanVerifier.VerifyTerminator` | compiler/src/cleanup.rs:2191-2237 | no error exactly when edges, condition or return chain are well formed |
| `PlanVerifier.VerifyEdge` | compiler/src/cleanup.rs:2239-2288 | no error exactly when the exited scopes are the chain of parents from the source and what remains encloses the target |
| `PlanVerifier.ReturnExitChain` | compiler/src/cleanup.rs:2290-2302 | finds the one chain of scopes up to the root, and finds none exactly when there is none |
| `PlanVerifier.ReturnUnique` | compiler/src/cleanup.rs:2191-2237 | there is at most one valid return chain |
| `PlanVerifier.VerifyTopologyOperations` | compiler/src/cleanup.rs:1370-1429 | no error exactly when every named variant exists and every transfer matches in shape |
| `PlanVerifier.HasVariant` | compiler/src/cleanup.rs:1377-1408 | the binary search over the sorted variants decides whether the enum has the variant |
| `PlanVerifier.CheckOperation` | compiler/src/cleanup.rs:1859-1995 | decides the state demands of every operation |
| `PlanVerifier.CheckTerminator` | compiler/src/cleanup.rs:2017-2080 | decides whether condition or return places are live and initialized |
| `PlanVerifier.VerifyStep` | compiler/src/cleanup.rs:1857-2014 | one operation: reports an error exactly when its demands fail, never for the redundant checks, and moves the state on |
| `PlanVerifier.VerifyStableMoveState` | compiler/src/cleanup.rs:1847-2082 | no error exactly when every reachable block meets its demands under the computed states |
| `DropFlagAnalyses.Synthesize` | compiler/src/cleanup.rs:993-1134 | flags for exactly the paths some StorageDead asks for, numbered in path order; every action and every site in its place |
| `DropFlagAnalyses.SynthesizedUnique` | compiler/src/cleanup.rs:993-1134 | a plan and its analysis determine flags, actions and sites |
| `FlagNeeds.FlagsAreLookedAt` | compiler/src/cleanup.rs:1011-1026 | a path has a flag if and only if some obligation of some emitted site names it under a flag, and then it is that flag |
| `FlagNeeds.FlagsExactly` | compiler/src/cleanup.rs:1137-1153 | a path has a flag if and only if at the end of some local's storage it needs drop, may be but is not certainly initialized, and lies in nothing that certainly is |
| `FlagNeeds.TreeExactly` | compiler/src/cleanup.rs:1155-1193 | an obligation tree names a path, static or with its flag, exactly when it needs drop, is or may be initialized, and lies in nothing that certainly is |
| `FlagNeeds.StaticNeedsNothing` | compiler/src/cleanup.rs:1011-1103 | where no site looks at a flag there are no flags and no actions |
| `DropFlagAnalyses.CollectConditionalPaths` | compiler/src/cleanup.rs:1137-1153 | adds exactly the paths that may be complete, need dropping and are reached through uncertain ones |
| `DropFlagAnalyses.CollectAllPaths` | compiler/src/cleanup.rs:995-1015 | gathers exactly what some StorageDead of any block asks for |
| `DropFlagAnalyses.ObligationsForPath` | compiler/src/cleanup.rs:1155-1193 | computes the obligation tree; looking up a flag never fails |
| `DropFlagAnalyses.ActionValue` | compiler/src/cleanup.rs:1050-1092 | the action of one operation on one flag |
| `DropFlagAnalyses.ComputeActions` | compiler/src/cleanup.rs:1031-1103 | the actions of reachable blocks, position by position, flag by flag |
| `DropFlagAnalyses.ComputeSites` | compiler/src/cleanup.rs:1105-1127 | one site for each StorageDead with something to drop |
| `DropFlagAnalyses.PerformIsUpdate` | compiler/src/cleanup.rs:1050-1102 | performing the emitted actions of a position has exactly the effect of the flag rules |
| `DropFlagAnalyses.ActionsInPlace` | compiler/src/cleanup.rs:1035-1103 | picking the actions of a position out of the flat list gives exactly those emitted for it |
| `DropFlagAnalyses.SitesInPlace` | compiler/src/cleanup.rs:1105-1127 | picking the site of a position gives exactly the one computed for it |
| `DropFlagAnalyses.AskedIsCovered` | compiler/src/cleanup.rs:1137-1183 | the collected flags cover every lookup the obligations make |
| `WorkspaceSessions.NewSession` | compiler/src/editor.rs:529-577 | succeeds exactly when all paths differ; the session starts at revision 0 with nothing open |
| `WorkspaceSessions.WorkspaceSession.OpenDocument` | compiler/src/editor.rs:586-607 | opens an editable, closed document or rejects with the first failing check and changes nothing |
| `WorkspaceSessions.WorkspaceSession.ChangeDocument` | compiler/src/editor.rs:609-637 | accepts only a newer version of an open document |
| `WorkspaceSessions.WorkspaceSession.CloseDocument` | compiler/src/editor.rs:639-650 | drops the overlay of an open document |
| `WorkspaceSessions.WorkspaceSession.SaveDocument` | compiler/src/editor.rs:654-668 | the given or the open text becomes the baseline; the overlay stays |
| `WorkspaceSessions.WorkspaceSession.UpdateBaseline` | compiler/src/editor.rs:672-681 | replaces the baseline under any overlay |
| `WorkspaceSessions.WorkspaceSession.TakeSnapshot` | compiler/src/editor.rs:683-707 | overlay text where a document is open, baseline elsewhere |
| `WorkspaceSessions.WorkspaceSession.BumpRevision` | compiler/src/editor.rs:730-736 | raises the revision unless it is exhausted |
| `WorkspaceSessions.SnapshotIdentity` | compiler/src/editor.rs:586-707 | over any edits, rejected ones included, snapshots of equal identity have equal documents and versions |
| `WorkspaceSessions.AcceptedIsCurrent` | compiler/src/editor.rs:709-713 | an analysis is accepted exactly when no edit was accepted since its snapshot, and then it is of the current text |
| `WorkspaceSessions.VersionsRise` | compiler/src/editor.rs:609-637 | the version of a document that stays open never falls, and only rises when its overlay changes |
| `SessionTexts.AcceptedExactly` | compiler/src/editor.rs:586-736 | an edit is accepted exactly for an editable document, closed for an open, open for a change, close or save, a change only with a newer version, while revisions last |
| `SessionTexts.RejectionCause` | compiler/src/editor.rs:586-736 | a rejected edit names the first cause that applies, said of the snapshot |
| `SessionTexts.EditShows` | compiler/src/editor.rs:586-637 | after an accepted open or change the snapshot has exactly the given text and version, and every other document as before |
| `SessionTexts.SaveIsInvisible` | compiler/src/editor.rs:654-681 | saving, or a new baseline under an open document, changes nothing in the snapshot |
| `SessionTexts.BaselineShows` | compiler/src/editor.rs:672-681 | a new baseline of a closed document is what the snapshot then has |
| `SessionTexts.CloseHides` | compiler/src/editor.rs:639-652 | after a close the document has no version, and every other document is as before |
| `SessionTexts.StartShows` | compiler/src/editor.rs:683-707 | a session just created shows the documents as given, without versions |
| `SessionTexts.OpenTextDecided` | compiler/src/editor.rs:586-707 | over any history, while a document is open the snapshot has the text and version of the last accepted open or change |
| `SessionTexts.ClosedTextDecided` | compiler/src/editor.rs:586-707 | over any history, once a document is closed the snapshot has the text of the last accepted save or new baseline, a save without text taking what showed then |
| `SessionTexts.UntouchedTextShows` | compiler/src/editor.rs:586-707 | a closed document that was never saved shows the text it was created with |
| `LanguageServerObjects.Server.ScheduleAnalysis` | compiler/src/lsp.rs:397-404 | sends the current snapshot unless it was already requested |
| `LanguageServerObjects.Server.AcceptAndPublish` | compiler/src/lsp.rs:406-489 | takes only a current result, then publishes it and answers everything pending |
| `LanguageServerObjects.Server.InvalidateSuperseded` | compiler/src/lsp.rs:544-562 | refuses exactly the pending queries about older text, keeps the others in order |
| `LanguageServerObjects.Server.CancelRequest` | compiler/src/lsp.rs:564-584 | cancels the first pending query with that identity, if any |
| `LanguageServerObjects.Server.CancelAllPending` | compiler/src/lsp.rs:586-596 | refuses everything pending, in order |
| `LanguageServerObjects.Server.HandleNotification` | compiler/src/lsp.rs:353-395 | ignored unless running; edits supersede and reschedule, rejected edits only log |
| `LanguageServerObjects.Server.HandleQuery` | compiler/src/lsp.rs:275-339 | refuses bad parameters, answers from a current analysis, else keeps the query and requests one |
| `LanguageServerObjects.Server.HandleRequest` | compiler/src/lsp.rs:218-349 | every request by life-cycle state |
| `LanguageServerObjects.Server.HandleMessage` | compiler/src/lsp.rs:180-351 | every message, malformed ones and exit included |
| `LanguageServerObjects.Server.EditSession` | compiler/src/lsp.rs:753-806 | the edit a notification asks for, accepted or rejected by the session |
| `ServerSystem.RequestsAreConserved` | compiler/src/lsp.rs:120-177 | in every reachable state of reader, worker and main loop, what has to be answered equals what was answered plus what waits, as a multiset of identities |
| `ServerSystem.NoLostWakeup` | compiler/src/lsp.rs:397-418 | every waiting query is about the current text, and while one waits that text is on its way to the main loop |
| `ServerSystem.AnswersAreCurrent` | compiler/src/lsp.rs:406-489 | whatever one step writes, answers and diagnostics are of the text current after that step |
| `ServerSystem.ArrivalAnswersAll` | compiler/src/lsp.rs:406-489 | on any execution, when a current result arrives the documents are published and then every waiting query is answered with its own kind and parameters from the current text, in order: the content-modified refusal there never happens |
| `ServerSystem.StaleArrivalIgnored` | compiler/src/lsp.rs:406-418 | a result for an earlier text changes and writes nothing |
| `ServerLife.LifecycleDecided` | compiler/src/lsp.rs:218-271 | after any execution the server runs exactly when an initialize request was handled and no shutdown request after it, and is shut down exactly when one was |
| `ServerLife.InitializeOnce` | compiler/src/lsp.rs:218-265 | the first initialize request is answered with the capabilities, every later one with -32600 |
| `ServerLife.QueryTaken` | compiler/src/lsp.rs:274-339 | while the server runs, a query with good parameters is answered at once from the current text if that has been analysed, and else waits and has the text sent; bad parameters are refused with -32602, and before initialize or after shutdown everything with -32002 |
| `ServerLife.UnknownRefused` | compiler/src/lsp.rs:340-349 | an unknown request is refused with -32601 while the server runs, and with -32002 otherwise |
| `ServerLife.MalformedRefused` | compiler/src/lsp.rs:186-204 | what does not parse is refused with -32700, what is no call with -32600, under its own identity if it has one |
| `ServerLife.ShutdownCancels` | compiler/src/lsp.rs:267-273 | a shutdown cancels everything waiting with -32800, in order, and then answers; outside of a running server it is refused with -32600 |
| `ServerLife.ExitCode` | compiler/src/lsp.rs:206-212 | only an exit notification ends the loop, with code 0 exactly after a shutdown |
| `ServerLife.EditApplied` | compiler/src/lsp.rs:353-395 | while the server runs, didOpen, didChange, didSave and didClose each apply exactly the session edit of their name; if it is accepted, what waits is refused with -32801 and the new text is sent |
| `ServerLife.IncompleteLogged` | compiler/src/lsp.rs:353-395 | a document notification with incomplete parameters is logged and changes nothing |
| `ServerLife.OthersIgnored` | compiler/src/lsp.rs:353-395 | unknown notifications, and all of them outside of a running server, change nothing |
| `ServerLife.OnlyEditsChangeText` | compiler/src/lsp.rs:353-395 | no step changes the session but such a document notification |
| `ServerLife.CancelRefusesOne` | compiler/src/lsp.rs:564-584 | a cancellation refuses the first waiting query of that identity with -32800, if there is one |
| `ServerLife.InitializedRequests` | compiler/src/lsp.rs:364-367 | after initialized the current text is on its way, sent once |
| `ServerSystem.ShutdownLeavesNothing` | compiler/src/lsp.rs:267-271 | after shutdown nobody waits |
| `ServerSystem.WorkFalls` | compiler/src/lsp.rs:136-150 | without further input every step of worker and main loop uses up work, a number read off the queues |
| `ServerSystem.QuietMeansAnswered` | compiler/src/lsp.rs:120-177 | at rest, a running server has answered everything |
| `ServerSystem.InputFreeRunsSettle` | compiler/src/lsp.rs:120-177 | once no more input arrives, any execution goes on for at most as many steps as there is work left, and where it can go no further everything is answered unless the server has ended |
| `ServerAnswers.AnswersAreAsked` | compiler/src/lsp.rs:317-351 | on any execution, results written and queries waiting are among the queries asked, each with its identity, kind and parameters and no more often than asked |
| `ServerAnswers.AnswersAreOwn` | compiler/src/lsp.rs:317-351 | each result answers a query that was asked, with that kind and those parameters; an identity used once has no other query |
| `ServerAnswers.HandlePledges` | compiler/src/lsp.rs:180-351 | one message makes the server answer or keep at most the query it asks |
| `ServerSystem.StepKeeps` | compiler/src/lsp.rs:120-177 | every step of every process keeps conservation and coordination |
| `ServerSystem.HandleSettles` | compiler/src/lsp.rs:180-351 | one message adds exactly its own obligation |
| `ServerSystem.EditCoordinated` | compiler/src/lsp.rs:378-382 | after an accepted edit nothing old waits and the new text is requested |
| `SemanticTokens.EncodeSemanticTokens` | compiler/src/lsp.rs:843-883 | the loop emits the delta groups of the shown tokens |
| `SemanticTokens.RoundTrip` | compiler/src/lsp.rs:843-883 | the client reads back exactly the shown tokens if and only if they are in source order |
| `SemanticTokens.OrderedNeverSaturates` | compiler/src/lsp.rs:843-883 | no saturating subtraction saturates if and only if the shown tokens are in source order |
| `SemanticTokens.SourceTokensRoundTrip` | compiler/src/lsp.rs:843-883 | tokens in source order come back whole: line, start, length and type |
| `SemanticTokens.FiveEach` | compiler/src/lsp.rs:877 | five numbers for each shown token |
| `SemanticTokens.ShownAlone` | compiler/src/lsp.rs:850-866 | a token is shown exactly if it has a legend entry, lies on one line and is not empty |
| `SemanticTokens.ShownInOrder` | compiler/src/lsp.rs:848-882 | tokens are shown each on its own account, in order |
| `RenameSplice.Splice` | compiler/src/editor.rs:861-887 | one pass replaces the occurrences and remembers where the new name ended up |
| `RenameSplice.SplicesWhenApart` | compiler/src/editor.rs:864-882 | fails exactly on overlapping occurrences or ones beyond the text |
| `RenameSplice.RenameUndone` | compiler/src/editor.rs:861-887 | each remembered place holds the new name, and putting the old names back there gives the source |
| `CacheProtocol.ConcurrentPublication` | compiler/src/incremental_cache.rs:218-299 | from an empty cache without clean, in any interleaving: at most one publisher returns Published, its entry never changes, every other storable publisher that returns finds it AlreadyPresent |
| `CacheRaces.SingleWinnerExactly` | compiler/src/incremental_cache.rs:257-299 | without clean, publishers for one identity have a single winner on every interleaving if and only if there was no entry to begin with or only one of them has a storable artifact |
| `CacheRaces.ReplacedTwice` | compiler/src/incremental_cache.rs:257-299 | for any two storable publishers over an invalid entry, an execution without clean in which one publishes, the other moves that valid entry away, and both return Published |
| `CacheRaces.HitLostExactly` | compiler/src/incremental_cache.rs:257-299 | a step removes a valid entry exactly when it cleans, or is the replacing step of a publisher that had found the entry invalid |
| `CacheRaces.PublishesAlone` | compiler/src/incremental_cache.rs:218-299 | left alone, a publisher gives up if its own entry does not read back, leaves a valid entry alone, and otherwise publishes over whatever there is |
| `CacheProtocol.HitIntegrity` | compiler/src/incremental_cache.rs:393-442 | under publication, replacement and clean between the accesses of a reader, a hit is one artifact staged whole by some publisher for that identity |
| `CacheProtocol.StepSound` | compiler/src/incremental_cache.rs:218-325 | every file-system step of every process keeps the entry and all readings traceable to a publisher |
| `CacheProtocol.OneWinnerStep` | compiler/src/incremental_cache.rs:257-299 | without clean a step never changes a present entry and never makes a second winner |
| `CacheProtocol.PublicationEnds` | compiler/src/incremental_cache.rs:257-299 | a publisher takes boundedly many steps whatever the others do |
| `CachePublishers.Publisher.Publish` | compiler/src/incremental_cache.rs:218-299 | the retry loop returns the outcome of the publisher of the protocol and leaves the entry, access by access, as that publisher does, for whatever it gets to see; and it ends |
| `CachePublishers.WriterIsDriven` | compiler/src/incremental_cache.rs:218-299 | a publisher inside any execution, with clean, is publish on what it gets to see there: same state, same effect on the entry at each of its steps |
| `CachePublishers.Publisher.MoveAway` | compiler/src/incremental_cache.rs:262-275 | moves the entry away or finds it gone; either way nothing is left there |
| `CachePublishers.Publisher.ReadEntryAt` | compiler/src/incremental_cache.rs:393-442 | reads stat, metadata and payload in three accesses and draws the conclusion of the protocol |
| `CachePublishers.Publisher.Rename` | compiler/src/incremental_cache.rs:277-297 | a rename succeeds on an absent or empty target and leaves the staged directory there; otherwise, or when the staged directory is gone, it fails and leaves what it found |
| `CacheStores.StagedReadsBack` | compiler/src/incremental_cache.rs:237-255 | a staged entry reads back as its artifact exactly when it is storable |
| `CacheStores.HitIsWhole` | compiler/src/incremental_cache.rs:427-441 | a payload accepted under some publisher's metadata is that publisher's payload, for the same identity |
| `CacheStores.UndisturbedRead` | compiler/src/incremental_cache.rs:393-442 | three accesses without disturbance are one read of the entry |
| `CacheStores.HitExactly` | compiler/src/incremental_cache.rs:393-442 | an entry is a hit exactly if its metadata is within bounds, of this identity, with valid test names that match their hash, and the payload has the length and hash it states |
| `CacheStores.MissingExactly` | compiler/src/incremental_cache.rs:393-400 | only a path with nothing at it is a missing entry |
| `TestReports.ParseTestReport` | compiler/src/main.rs:2091-2189 | the loop computes the recursive reading of the stream, errors included |
| `TestReports.ParseFrame` | compiler/src/main.rs:2096-2167 | one frame: the first failing check, the closing frame, or a result and what it took |
| `TestReports.PrintThenParse` | compiler/src/main.rs:2091-2189 | what a run prints is read back as its failures if the exit code matches, and is a mismatch otherwise |
| `TestReports.ParseThenPrint` | compiler/src/main.rs:2091-2189 | an accepted stream is exactly the printed form of the failures it returned with passes everywhere else |
| `TestReports.RunTests` | compiler/src/lib.rs:211-270 | the generated runner: each result in order and the closing frame; without a failed write the pipe holds the encoding of the results and the exit code is theirs, with one the run traps on a proper prefix |
| `TestReports.Report` | runtime/allocator.c:97-133 | rejected arguments write nothing; success with a consumer appends one whole frame, failure a proper prefix |
| `TestReports.WriteAll` | runtime/allocator.c:75-89 | over partial and interrupted writes: everything arrives, or a proper prefix and failure |
| `TestReports.StoreU64Le` | runtime/allocator.c:91-95 | writes eight bytes at the offset, least significant first, and nothing else |
| `TestReports.BuildHeader` | runtime/allocator.c:117-124 | the header array holds magic, index, status, flag and length |
| `Bytes.U64RoundTrip` | compiler/src/main.rs:2114-2124 | reading the eight bytes of a 64-bit number gives it back |
| `Bytes.U64Decodes` | compiler/src/main.rs:2114-2124 | any eight bytes are the form of the number they read as |
| `Bytes.ByteWeight` | runtime/allocator.c:91-96 | byte i of a number holds its digit of weight 256 to the i |
| `TestReports.HeaderLayout` | runtime/allocator.c:117-124 | the fields of a frame header are at these offsets, least significant byte first, the reserved bytes zero |
| `FingerprintIdentity.FingerprintIdentity` | compiler/src/incremental.rs:113-190 | two valid graphs emit the same bytes if and only if environment and target are equal and the graphs agree up to package order, source order, package numbers and source paths |
| `FingerprintIdentity.StreamInjective` | compiler/src/incremental.rs:133-189 | equal streams come from equal environments, targets and canonical graphs |
| `FingerprintIdentity.TargetSplits` | compiler/src/incremental.rs:138-148 | different targets never share bytes, an absent filter and an empty one included |
| `FingerprintIdentity.CanonicalMeansSame` | compiler/src/incremental.rs:120-189 | canonical forms agree exactly when the packages do, up to order, numbers and paths |
| `FingerprintIdentity.AcceptedExactly` | compiler/src/incremental.rs:192-221 | a graph is accepted exactly if it has one primary package, no number or identity twice, and every dependency names a package of it |
| `FingerprintIdentity.CountedSplits` | compiler/src/incremental.rs:154-188 | a counted list marks its own end if its items do |
| `FingerprintIdentity.EntrySplits` | compiler/src/incremental.rs:155-188 | the bytes of one package determine it and where it ends |
| `Fingerprints.Preimage` | compiler/src/incremental.rs:113-190 | rejects with the first failing check, else feeds the canonical stream to the hash |
| `Fingerprints.FingerprintEncoder.AddField` | compiler/src/incremental.rs:239-242 | length, then bytes |
| `Fingerprints.FingerprintEncoder.AddTarget` | compiler/src/incremental.rs:138-148 | the tag of the target and its filter |
| `Fingerprints.FingerprintEncoder.AddBundle` | compiler/src/incremental.rs:223-230 | name, count, and the pairs in order |
| `Fingerprints.FingerprintEncoder.AddEntry` | compiler/src/incremental.rs:155-188 | one package with its dependencies and its sources |
| `Orderings.SortedUnique` | compiler/src/incremental.rs:124-125 | sorted lists with the same elements are equal, so sorting is canonical |
| `Orderings.SortSorts` | compiler/src/incremental.rs:175-180 | the sort orders and keeps exactly the elements |

## Left out

- StructureVerifier.VerifyLocals: the checks that source locals are mapped once and carry debug
  names (`compiler/src/cleanup.rs:1513-1539`); this metadata is not part of the model.
- Error texts: verification yields a list of error kinds, and the statements are about the
  list being empty.
- `CleanupPlanBuilder` and the cached analyses that `verify` compares with are not modelled.
- Whole-program leak freedom is not claimed: `Init` does not require uninitialized storage and
  edges end storage without dropping. Results are stated at each `StorageDead`.
- Which edge a branch takes is left open: a run may take either.
- MoveStateAnalyses.Compute: keeps exit states as stored contents rather than as objects; they
  are only compared. The FIFO queue is a sequence.
- DropFlagAnalyses.SettledDropsExact: a condition on the computed states that suffices; a plan
  that does not meet it may still never look at a wrong flag. The exact condition is that of
  `DropFlagAnalyses.CompiledDropsExact` and `FlagRuns.TruthfulRuns`.
- DropFlagAnalyses.DirectDropsExact: suffices only, and does not cover flagged paths inside a
  variant; `DropFlagAnalyses.SettledDropsExact` does.
- BestTransfer.PossibleExactly: for an `Init` whose path may hold something, and for paths that
  enclose the written one, the possible side is sound only; `BestTransfer.EnclosingExactly` says
  what it is there. A guard filters memories instead of changing them and has its own statement,
  `BestTransfer.GuardExactly`; within the chosen payload it is sound only.
- MoveStateObjects.MoveState.Equals: compares with a stored copy of the contents instead of a
  second object.
- TestReports.ParseTestReport: for a 64-bit host, where an index or length always fits
  `usize`; whether a message is valid UTF-8 is a parameter.
- TestReports.WriteAll: what the operating system answers is given beforehand as a finite
  list; running out of answers counts as failure.
- TestReports.RunTests: running the tests themselves; their results are a parameter.
- TestReports.Report: which descriptor is used, and the environment variable that names it,
  are reduced to whether there is a consumer.
- ServerSystem.AnswersAreCurrent: an answer is recorded as the query and the text it was
  computed from; what the query functions compute, and their own refusals, are not modelled.
- ServerSystem.RequestsAreConserved: writes succeed and the analysis does not panic; a
  transport error or the end of input ends the server with queries still waiting.
- LanguageServerObjects.Server.HandleMessage: message framing, JSON decoding and file URIs are
  not modelled; parameters arrive decoded, a missing or ill-typed field as absent.
- LanguageServerObjects.Server.AcceptAndPublish: publishes one diagnostics message for each
  document; the diagnostics themselves, log messages about ones without a range, and refusals
  by the query functions are not modelled.
- WorkspaceSessions.NewSession: the fresh session number is a parameter, and the packages'
  sources arrive as one list.
- WorkspaceSessions.WorkspaceSession.TakeSnapshot: target and package tables never change and
  are omitted; a fresh session identity is a parameter.
- SemanticTokens.EncodeSemanticTokens: the table from token kinds to legend entries is a field
  of the token.
- RenameSplice.Splice: positions are byte positions; that they lie on character boundaries,
  and the checks around the loop, are not modelled.
- CacheProtocol.ConcurrentPublication: one entry path, all publishers for one identity, which
  is what a collision-free fingerprint gives; permission errors, links, sizes and fsync are not
  modelled, a metadata file that does not parse stands for any damage.
- CacheProtocol.HitIntegrity: the hash is assumed free of collisions, and nobody outside the
  protocol writes parsable metadata.
- CachePublishers.Publisher.Publish: what the rest of the world makes of the entry between two
  accesses is an arbitrary list; staging the files is one step.
- CachePublishers.Publisher.ReadEntryAt: what an access finds is one value; the checks of file
  kinds and sizes that come with it are part of whether the metadata parses.
- CachePublishers.Publisher.Rename: fails only for a target in the way or a missing source;
  permission errors and other failures are not modelled.
- Fingerprints.Preimage: the hash itself, and the embedded source bundles, which are
  parameters.
- Cache-root lookup, ownership markers, `core.rs`, `alloc.rs`, the lexer, the formatter, the
  semantic index and the lock file are not part of this model.
