/**
 An accepted plan whose drop flag goes wrong below an enum: an overwrite may change the
 variant, no action clears the flag of the payload it leaves, and at the merge of a path
 that moved the new payload with one that did not, the stale flag decides.
 */
module FlagLimits {
  import opened Wrappers
  import opened CleanupPlan
  import opened MovePaths
  import opened Topologies
  import opened MoveStates
  import opened Semantics
  import opened Checks
  import opened Structure
  import opened Runs
  import opened ComputedAnalysis
  import opened DropObligations
  import opened DropFlags
  import opened FlagRuns
  import opened DropFlagAnalyses
  import opened StructureVerifier
  import opened CleanupVerifier

  /* ----- the plan ----- */

  /** One enum, with a payload that needs dropping in each of two variants. */
  const ENUM: seq<MovePath> := [
    MovePath(0, Place(0, []), None, true),
    MovePath(1, Place(0, [Downcast(0)]), Some(0), true),
    MovePath(2, Place(0, [Downcast(1)]), Some(0), true)]

  const BLOCKS: seq<BasicBlock> := [
    BasicBlock(0, 0, [StorageLive(0), SetDiscriminant(0, 0), Init(1), Overwrite(0)],
               Some(Branch(0, CleanupEdge(1, []), CleanupEdge(2, [])))),
    BasicBlock(1, 0, [AssumeDiscriminant(0, 1), MoveOut(2)], Some(Goto(CleanupEdge(2, [])))),
    BasicBlock(2, 0, [StorageDead(0)], Some(Return([])))]

  const PLAN: Plan := Plan(0, 0, [ScopeData(0, None, RootScope, [0])], [LocalDecl(0, 0, User, Owned, 0)], ENUM, BLOCKS)

  lemma Siblings(i: nat, j: nat)
    requires i < 3 && j < 3
    ensures ParentOk(ENUM, i) && SiblingsAgree(ENUM, i, j)
  {
  }

  lemma TheForest()
    ensures IsForest(ENUM)
  {
    hide ParentOk; hide SiblingsAgree;
    forall i | 0 <= i < |ENUM| ensures ParentOk(ENUM, i) { Siblings(i, i); }
    forall i, j | 0 <= i < |ENUM| && 0 <= j < |ENUM| ensures SiblingsAgree(ENUM, i, j) { Siblings(i, j); }
  }

  lemma Shape()
    ensures IsForest(ENUM)
    ensures Kids(ENUM, 0) == {1, 2} && Kids(ENUM, 1) == {} && Kids(ENUM, 2) == {}
    ensures IsEnum(ENUM, 0) && !IsEnum(ENUM, 1) && !IsEnum(ENUM, 2) && EnumRoots(ENUM) == {0}
    ensures Variants(ENUM, 0) == {0, 1} && Variant(ENUM, 1) == 0 && Variant(ENUM, 2) == 1
    ensures !IsDowncast(ENUM, 0) && IsDowncast(ENUM, 1) && IsDowncast(ENUM, 2)
    ensures Parent(ENUM, 0) == None && Parent(ENUM, 1) == Parent(ENUM, 2) == Some(0)
    ensures LocalPaths(ENUM, 0) == {0, 1, 2}
  {
    TheForest();
    hide IsForest;
    assert 1 in Kids(ENUM, 0) && IsDowncast(ENUM, 1) && 2 in Kids(ENUM, 0) && IsDowncast(ENUM, 2);
    assert Variant(ENUM, 1) in Variants(ENUM, 0) && Variant(ENUM, 2) in Variants(ENUM, 0);
  }

  lemma Subtrees()
    ensures IsForest(ENUM)
    ensures Subtree(ENUM, 0) == {0, 1, 2} && Subtree(ENUM, 1) == {1} && Subtree(ENUM, 2) == {2}
    ensures Ancestors(ENUM, 0) == {} && Ancestors(ENUM, 1) == {0} && Ancestors(ENUM, 2) == {0}
  {
    Shape();
    forall a: nat, d: nat | a < 3 && d < 3 ensures Within(ENUM, a, d) <==> a == d || a == 0 {
      WithinIsPrefix(ENUM, a, d);
    }
    hide Within;
  }

  /* ----- it is well structured ----- */

  lemma Rooted()
    ensures IsAncestor(PLAN.scopes, 0, 0) && Ends(PLAN.scopes, 0)
    ensures NthParent(PLAN.scopes, Some(0), 0) == Some(0)
  {
    assert NthParent(PLAN.scopes, Some(0), 0) == Some(0);
    assert NthParent(PLAN.scopes, Some(0), 1) == None;
  }

  lemma Listed()
    ensures LocalsOk(PLAN) && PathsOk(PLAN)
  {
    Shape();
    assert PLAN.scopes[..0] == [] && PLAN.locals[..0] == [];
    assert Memberships(PLAN.scopes[..0], 0) == 0 && ReturnPlaces(PLAN.locals[..0]) == 0;
    assert ENUM[..2][..1] == [ENUM[0]] && ENUM[..2][..1][..0] == [];
    assert RootCount(ENUM[..2][..1][..0], 0) == 0;
    assert RootCount(ENUM[..2], 0) == 1;
  }

  lemma BlockWell(b: nat)
    requires b < 3
    ensures BlockOk(PLAN, b)
  {
    Rooted();
    hide NthParent; hide IsAncestor;
  }

  lemma ShapesWell(b: nat)
    requires b < 3
    ensures IsForest(ENUM) && BlockShapesOk(PLAN, b)
  {
    Shape();
    hide IsForest; hide Variants; hide Kids;
  }

  lemma WellStructured()
    ensures Structured(PLAN)
  {
    Shape();
    Rooted();
    Listed();
    hide BlockOk; hide BlockShapesOk; hide LocalsOk; hide PathsOk; hide IsForest; hide Kids; hide Variants;
    forall b: nat | b < 3 ensures BlockOk(PLAN, b) && BlockShapesOk(PLAN, b) {
      BlockWell(b);
      ShapesWell(b);
    }
  }

  /* ----- its analysis ----- */

  function Known(live: set<nat>, mayInit: set<nat>, mustInit: set<nat>, d: Discriminant): State {
    State(true, live, live, mayInit, mustInit, map[0 := d])
  }

  const NONE: State := Known({}, {}, {}, UNSELECTED)
  const LIVE: State := Known({0}, {}, {}, UNSELECTED)
  const SELECTED: State := Known({0}, {}, {}, Discriminant(false, {0}))
  const BEFORE: State := Known({0}, {0, 1}, {0, 1}, Discriminant(false, {0}))
  const AFTER: State := Known({0}, {0, 1, 2}, {0}, Discriminant(false, {0, 1}))
  const GUARDED: State := Known({0}, {0, 2}, {0, 2}, Discriminant(false, {1}))
  const TAKEN: State := Known({0}, {}, {}, Discriminant(false, {1}))
  const MERGED: State := Known({0}, {0, 1, 2}, {}, Discriminant(false, {0, 1}))

  const ANALYSIS: Analysis := Analysis([NONE, AFTER, MERGED], [AFTER, TAKEN, NONE])

  lemma Starts()
    ensures IsForest(ENUM)
    ensures Apply(ENUM, NONE, StorageLive(0)) == LIVE && Apply(ENUM, MERGED, StorageDead(0)) == NONE
    ensures NewState(ENUM, true) == NONE
  {
    Shape();
    hide Within;
  }

  lemma Selects()
    ensures IsForest(ENUM) && Apply(ENUM, LIVE, SetDiscriminant(0, 0)) == SELECTED
  {
    Shape();
    Subtrees();
    hide Within;
  }

  lemma Initializes()
    ensures IsForest(ENUM) && Apply(ENUM, SELECTED, Init(1)) == BEFORE
  {
    Shape();
    Subtrees();
    hide Within;
    var marked := MarkWhole(ENUM, SELECTED, 1, Must);
    assert MarkOf(ENUM, SELECTED, 1, Must, 1) == Marked(Must);
    assert marked == Known({0}, {1}, {1}, Discriminant(false, {0}));
    hide MarkWhole; hide Subtree; hide Ancestors;
    var active := set k | k in Kids(ENUM, 0) && Disc(marked, 0) == Discriminant(false, {Variant(ENUM, k)});
    assert active == {1};
    assert RecomposeNode(ENUM, marked, 0) == BEFORE;
    assert Recompose(ENUM, BEFORE, 0) == BEFORE;
  }

  lemma Overwrites()
    ensures IsForest(ENUM) && Apply(ENUM, BEFORE, Overwrite(0)) == AFTER
  {
    Shape();
    Subtrees();
    hide Within;
    var cleared := ClearPath(ENUM, BEFORE, 0);
    assert cleared == LIVE;
    assert MarkOf(ENUM, LIVE, 0, Must, 0) == Marked(Must);
    assert MarkOf(ENUM, LIVE, 0, Must, 1) == MarkOf(ENUM, LIVE, 0, Must, 2) == Marked(May);
    hide MarkOf; hide Kids; hide IsForest; hide ClearPath; hide Variants;
    var marked := MarkWhole(ENUM, LIVE, 0, Must);
    assert marked.mayInit == {0, 1, 2};
    assert marked.mustInit == {0};
    assert marked.discriminants == map[0 := MarkDiscriminant(ENUM, UNSELECTED, 0, Marked(Must))];
    assert MarkDiscriminant(ENUM, UNSELECTED, 0, Marked(Must)) == Discriminant(false, {0, 1});
  }

  lemma Guards()
    ensures IsForest(ENUM) && Apply(ENUM, AFTER, AssumeDiscriminant(0, 1)) == GUARDED
  {
    Shape();
    Subtrees();
    hide Within;
    assert VariantKids(ENUM, 0, 1) == {2} && OtherVariants(ENUM, 0, 1) == {1};
    var s := ClearPaths(SetKnown(AFTER, 0, 1), {1});
    assert s == Known({0}, {0, 2}, {0}, Discriminant(false, {1}));
    assert MarkOf(ENUM, s, 2, Must, 2) == Marked(Must);
    assert MarkWhole(ENUM, s, 2, Must) == GUARDED;
  }

  lemma Moves()
    ensures IsForest(ENUM) && Apply(ENUM, GUARDED, MoveOut(2)) == TAKEN
  {
    Shape();
    Subtrees();
    hide Within;
  }

  /** The state before each operation and before the terminator. */
  ghost function Expected(b: nat, i: nat): State
    requires b < 3 && i <= |BLOCKS[b].operations|
  {
    if b == 0 then [NONE, LIVE, SELECTED, BEFORE, AFTER][i]
    else if b == 1 then [AFTER, GUARDED, TAKEN][i]
    else [MERGED, NONE][i]
  }

  lemma {:induction false} States(b: nat, i: nat)
    requires b < 3 && i <= |BLOCKS[b].operations|
    ensures IsForest(ENUM) && StateBefore(PLAN, ANALYSIS, b, i) == Expected(b, i)
  {
    Shape();
    var ops := BLOCKS[b].operations;
    ApplyAllPrefix(ENUM, ANALYSIS.blockEntry[b], ops, i);
    if i > 0 {
      States(b, i - 1);
      hide *;
      Steps(b, i - 1);
    }
  }

  lemma Steps(b: nat, i: nat)
    requires b < 3 && i < |BLOCKS[b].operations|
    ensures IsForest(ENUM) && Apply(ENUM, Expected(b, i), BLOCKS[b].operations[i]) == Expected(b, i + 1)
  {
    hide Apply;
    Starts();
    Selects();
    Initializes();
    Overwrites();
    Guards();
    Moves();
  }

  lemma BlockFlows(b: nat)
    requires b < 3
    ensures IsForest(ENUM) && Flows(PLAN, ANALYSIS, b)
  {
    Shape();
    forall st: State ensures EdgeState(PLAN, st, CleanupEdge(1, [])) == EdgeState(PLAN, st, CleanupEdge(2, [])) == st {}
    hide EdgeState;
    assert Below(AFTER, AFTER) && Below(AFTER, MERGED) && Below(TAKEN, MERGED);
  }

  lemma IsFixpoint()
    ensures IsForest(ENUM) && Fixpoint(PLAN, ANALYSIS)
  {
    Shape();
    Starts();
    forall b: nat | b < 3 ensures Folds(PLAN, ANALYSIS, b) && Flows(PLAN, ANALYSIS, b) {
      var ops := BLOCKS[b].operations;
      States(b, |ops|);
      assert ops[..|ops|] == ops;
      BlockFlows(b);
    }
    hide Folds; hide Flows;
  }

  lemma OperationOk(b: nat, i: nat)
    requires b < 3 && i < |BLOCKS[b].operations|
    ensures IsForest(ENUM) && OpStateOk(ENUM, Expected(b, i), BLOCKS[b].operations[i])
  {
    Shape();
    Subtrees();
    hide Within; hide Kids; hide Variants; hide IsEnum;
    assert LocalOf(ENUM, 0) == LocalOf(ENUM, 1) == LocalOf(ENUM, 2) == 0;
    if b == 0 && i == 1 { assert !MayHoldPart(ENUM, LIVE, 0); }
    if b == 0 && i == 2 { assert DowncastsActive(ENUM, SELECTED, 0) && DowncastsActive(ENUM, SELECTED, 1); }
    if b == 0 && i == 3 { assert DowncastsActive(ENUM, BEFORE, 0); }
    if b == 1 && i == 1 { assert DowncastsActive(ENUM, GUARDED, 0) && DowncastsActive(ENUM, GUARDED, 2); }
  }

  lemma BlockStable(b: nat)
    requires b < 3
    ensures IsForest(ENUM) && StableBlock(PLAN, ANALYSIS, b)
  {
    Shape();
    var ops := BLOCKS[b].operations;
    forall i | 0 <= i < |ops| ensures OpStateOk(ENUM, StateBefore(PLAN, ANALYSIS, b, i), ops[i]) {
      States(b, i);
      OperationOk(b, i);
    }
    States(b, |ops|);
    hide StateBefore; hide OpStateOk;
    assert ENUM[0].parent == None && LocalOf(ENUM, 0) == 0;
    assert Initialization(ENUM, AFTER, 0) == Initialized;
  }

  lemma PlanAccepted()
    ensures Accepted(PLAN, ANALYSIS)
  {
    WellStructured();
    IsFixpoint();
    forall b: nat | b < 3 ensures StableBlock(PLAN, ANALYSIS, b) { BlockStable(b); }
  }

  /* ----- it is the computed analysis ----- */

  /** Starting the storage forgets whatever entered. */
  lemma StartCollapses(st: State)
    requires IsForest(ENUM) && Proper(ENUM, 1, st) && st.reachable && Below(st, NONE)
    ensures Apply(ENUM, st, StorageLive(0)) == LIVE
  {
    hide Within;
    Shape();
  }

  lemma BelowAfter(st: State)
    requires IsForest(ENUM) && Proper(ENUM, 1, st) && st.reachable && Below(st, AFTER)
    ensures st.mayLive == st.mustLive == {0} && st.discriminants.Keys == {0}
    ensures st.mustInit <= st.mayInit <= {0, 1, 2} && 0 in st.mustInit
  {
    hide IsForest;
    Shape();
  }

  /** So does assuming a variant of the enum, once it is known to be complete. */
  lemma GuardCollapses(st: State)
    requires IsForest(ENUM) && st.reachable
    requires st.mayLive == st.mustLive == {0} && st.discriminants.Keys == {0}
    requires st.mustInit <= st.mayInit <= {0, 1, 2} && 0 in st.mustInit
    ensures Apply(ENUM, st, AssumeDiscriminant(0, 1)) == GUARDED
  {
    hide IsForest; hide Within; hide Subtree; hide Kids; hide Variants; hide IsEnum; hide VariantKids;
    hide OtherVariants;
    hide MarkOf;
    OneVariant();
    var s := ClearPaths(SetKnown(st, 0, 1), {1});
    assert s.discriminants == map[0 := Discriminant(false, {1})];
    MarkedOnly(s);
    var marked := MarkWhole(ENUM, s, 2, Must);
    assert marked.mayInit == {0, 2} && marked.mustInit == {0, 2};
    assert marked.discriminants == map[0 := Discriminant(false, {1})];
  }

  lemma OneVariant()
    ensures IsForest(ENUM) && VariantKids(ENUM, 0, 1) == {2} && OtherVariants(ENUM, 0, 1) == {1}
    ensures Subtree(ENUM, 2) == {2}
  {
    hide Within; hide IsForest;
    Shape();
    Subtrees();
  }

  lemma MarkedOnly(s: State)
    ensures IsForest(ENUM) && MarkOf(ENUM, s, 2, Must, 2) == Marked(Must)
  {
    Shape();
  }

  lemma {:induction false} Collapses(b: nat, st: State, i: nat)
    requires b < 2 && IsForest(ENUM) && 1 <= i <= |BLOCKS[b].operations|
    requires Proper(ENUM, 1, st) && st.reachable && Below(st, ANALYSIS.blockEntry[b])
    ensures ApplyAll(ENUM, st, BLOCKS[b].operations[..i]) == Expected(b, i)
    decreases i
  {
    hide Apply; hide ApplyAll; hide Proper; hide Below; hide IsForest;
    ApplyAllPrefix(ENUM, st, BLOCKS[b].operations, i);
    if i == 1 {
      ApplyAllPrefix(ENUM, st, BLOCKS[b].operations, 0);
      if b == 0 {
        StartCollapses(st);
      } else {
        BelowAfter(st);
        GuardCollapses(st);
      }
    } else {
      Collapses(b, st, i - 1);
      Steps(b, i - 1);
    }
  }

  lemma EdgeKeeps(st: State, e: CleanupEdge)
    requires IsForest(ENUM) && e in {CleanupEdge(1, []), CleanupEdge(2, [])}
    ensures EdgeState(PLAN, st, e) == st
  {
  }

  lemma EdgeCarries(b: nat, e: CleanupEdge)
    requires b < 3 && e in BlockEdges(PLAN, b)
    ensures IsForest(ENUM) && Carries(PLAN, ANALYSIS.blockEntry, b, e)
  {
    hide ApplyAll; hide EdgeState; hide Proper; hide IsForest;
    Shape();
    assert b < 2 && e in {CleanupEdge(1, []), CleanupEdge(2, [])};
    var ops := BLOCKS[b].operations;
    forall st | Proper(ENUM, 1, st) && st.reachable && Below(st, ANALYSIS.blockEntry[b])
      ensures Below(EdgeState(PLAN, ApplyAll(ENUM, st, ops), e), ANALYSIS.blockEntry[e.target])
    {
      Collapses(b, st, |ops|);
      assert ops[..|ops|] == ops;
      EdgeKeeps(ApplyAll(ENUM, st, ops), e);
    }
  }

  lemma EntriesBound()
    ensures IsForest(ENUM) && Bounds(PLAN, ANALYSIS.blockEntry)
  {
    hide Carries; hide BlockEdges; hide IsForest; hide Below; hide Proper;
    IsFixpoint();
    FixpointParts(PLAN, ANALYSIS);
    forall b: nat, e | b < 3 && e in BlockEdges(PLAN, b) ensures Carries(PLAN, ANALYSIS.blockEntry, b, e) {
      EdgeCarries(b, e);
    }
  }

  lemma JoinIsMerged()
    ensures IsForest(ENUM) && Proper(ENUM, 1, AFTER) && Proper(ENUM, 1, TAKEN) && Join(AFTER, TAKEN) == MERGED
  {
    Shape();
    hide IsForest; hide Subtree; hide Full;
    var joined := Join(AFTER, TAKEN);
    assert {0, 1} + {1} == {0, 1};
    assert joined.discriminants.Keys == {0} && joined.discriminants[0] == Discriminant(false, {0, 1});
  }

  lemma IsComputed()
    ensures Structured(PLAN) && Computed(PLAN) == ANALYSIS
  {
    hide BelowAll; hide Bounds; hide Fixpoint; hide Structured; hide EdgeState; hide Computed; hide IsForest;
    hide Below; hide Proper; hide Join;
    WellStructured();
    IsFixpoint();
    EntriesBound();
    ComputedIsLeast(PLAN, ANALYSIS.blockEntry);
    ComputedIsStable(PLAN);
    var c := Computed(PLAN);
    FixpointParts(PLAN, c);
    FixpointParts(PLAN, ANALYSIS);
    Starts();
    PinEntry(PLAN, c, ANALYSIS, 0);
    EdgeKeeps(AFTER, CleanupEdge(1, []));
    PinEdge(PLAN, c, ANALYSIS, 0, CleanupEdge(1, []));
    EdgeKeeps(AFTER, CleanupEdge(2, []));
    EdgeKeeps(TAKEN, CleanupEdge(2, []));
    JoinIsMerged();
    PinJoin(PLAN, c, ANALYSIS, 0, CleanupEdge(2, []), 1, CleanupEdge(2, []));
    SameAnalysis(PLAN, c, ANALYSIS);
  }

  /* ----- its flags ----- */

  const FLAGS: seq<DropFlag> := [DropFlag(0, 0), DropFlag(1, 1), DropFlag(2, 2)]

  const BY_PATH: map<MovePathId, DropFlagId> := map[0 := 0, 1 := 1, 2 := 2]

  lemma FlagPerPath()
    ensures FlagMap(FLAGS) == BY_PATH && DistinctFlags(BY_PATH)
  {
    assert FLAGS[..2][..1][..0] == [] && FLAGS[..2][..1] == [FLAGS[0]];
    assert FlagMap(FLAGS[..2][..1][..0]) == map[];
    assert FlagMap(FLAGS[..2][..1]) == map[0 := 0];
  }

  /** At the merge, every path may be complete and none is bound to be. */
  lemma AllConditional(p: nat)
    requires p < 3
    ensures IsForest(ENUM) && IsConditional(ENUM, MERGED, p)
  {
    Subtrees();
    assert p in Subtree(ENUM, p) && MayHold(MERGED, p);
  }

  lemma SameBelowThree(a: set<nat>, b: set<nat>)
    requires (forall id | id in a :: id < 3) && forall id | id in b :: id < 3
    requires forall id: nat | id < 3 :: id in a <==> id in b
    ensures a == b
  {
  }

  lemma PayloadsAreKids()
    ensures IsForest(ENUM) && 1 in Kids(ENUM, 0) && 2 in Kids(ENUM, 0) && |ENUM| == 3
  {
    Shape();
  }

  lemma AllCollected()
    ensures IsForest(ENUM) && Collect(ENUM, MERGED, 0) == {0, 1, 2}
  {
    hide *;
    PayloadsAreKids();
    AllConditional(0);
    AllConditional(1);
    AllConditional(2);
    CollectsItself(ENUM, MERGED, 0);
    CollectsKid(ENUM, MERGED, 0, 1);
    CollectsKid(ENUM, MERGED, 0, 2);
    forall q | q in Collect(ENUM, MERGED, 0) ensures q < 3 { CollectedInRange(ENUM, MERGED, 0, q); }
    SameBelowThree(Collect(ENUM, MERGED, 0), {0, 1, 2});
  }

  lemma TheRoot()
    ensures IsForest(ENUM) && LocalRoot(ENUM, 0) == Some(0)
  {
    Shape();
    assert IsRootOf(ENUM, 0, 0);
    assert forall r: nat :: IsRootOf(ENUM, 0, r) ==> r == 0;
  }

  lemma OnlySite(b: nat, i: nat)
    requires b < 3 && i < |BLOCKS[b].operations|
    ensures IsForest(ENUM) && PathsAt(PLAN, ANALYSIS, b, i) == if b == 2 then {0, 1, 2} else {}
  {
    TheRoot();
    hide StateBefore; hide Collect; hide LocalRoot; hide IsForest;
    assert EndedRoot(PLAN, b, i) == if b == 2 then Some(0) else None;
    if b == 2 {
      States(2, 0);
      AllCollected();
    }
  }

  lemma FlagsAsked(p: nat)
    ensures IsForest(ENUM) && (HasFlag(FLAGS, p) <==> Asked(PLAN, ANALYSIS, p))
  {
    Shape();
    hide PathsAt; hide IsForest;
    assert FLAGS[0].path == 0 && FLAGS[1].path == 1 && FLAGS[2].path == 2;
    OnlySite(2, 0);
    assert p in {0, 1, 2} ==> AskedAt(PLAN, ANALYSIS, 2, 0, p);
    if Asked(PLAN, ANALYSIS, p) {
      var b: nat, i: nat :| AskedAt(PLAN, ANALYSIS, b, i, p);
      OnlySite(b, i);
    }
  }

  lemma FlagsSynthesized()
    ensures IsForest(ENUM) && Covered(PLAN, ANALYSIS, FlagMap(FLAGS))
    ensures Synthesized(PLAN, ANALYSIS, WithFlags(PLAN, ANALYSIS, FLAGS))
  {
    Shape();
    forall p ensures HasFlag(FLAGS, p) <==> Asked(PLAN, ANALYSIS, p) { FlagsAsked(p); }
    assert Numbered(FLAGS);
    hide IsForest; hide HasFlag; hide Asked; hide Numbered; hide Synthesized; hide Covered; hide FlagMap;
    WithFlagsSynthesized(PLAN, ANALYSIS, FLAGS);
  }

  /* ----- the run ----- */

  const EMPTY: Concrete := Concrete({0}, {}, map[])
  const FIRST: Concrete := Concrete({0}, {}, map[0 := 0])
  const WRITTEN: Concrete := Concrete({0}, {1}, map[0 := 0])
  const REWRITTEN: Concrete := Concrete({0}, {2}, map[0 := 1])
  const MOVED: Concrete := Concrete({0}, {}, map[0 := 1])

  /** The overwrite picks the other variant, whose payload is then moved out. */
  const RUN: seq<FlagConfig> := [
    FlagConfig(At(0, 0, Concrete({}, {}, map[])), {}),
    FlagConfig(At(0, 1, EMPTY), {}),
    FlagConfig(At(0, 2, FIRST), {}),
    FlagConfig(At(0, 3, WRITTEN), {0, 1}),
    FlagConfig(At(0, 4, REWRITTEN), {0, 1}),
    FlagConfig(At(1, 0, REWRITTEN), {0, 1}),
    FlagConfig(At(1, 1, REWRITTEN), {0, 1}),
    FlagConfig(At(1, 2, MOVED), {1}),
    FlagConfig(At(2, 0, MOVED), {1})]

  lemma Writes()
    ensures IsForest(ENUM)
    ensures Step(ENUM, FIRST, Init(1), WRITTEN) && Step(ENUM, WRITTEN, Overwrite(0), REWRITTEN)
  {
    Shape();
    Subtrees();
    hide Within; hide IsEnum;
    forall q | q in Subtree(ENUM, 1) ensures FilledAt(ENUM, FIRST, 1, WRITTEN, q) {}
    var erased := Erase(WRITTEN, Subtree(ENUM, 0));
    assert Selected(ENUM, REWRITTEN, 0, 0);
    assert Selected(ENUM, REWRITTEN, 0, 2) && !Selected(ENUM, REWRITTEN, 0, 1);
    forall q | q in Subtree(ENUM, 0) ensures FilledAt(ENUM, erased, 0, REWRITTEN, q) {}
  }

  lemma OperationSteps(i: nat)
    requires i in {0, 1, 2, 3, 5, 6}
    ensures IsForest(ENUM)
    ensures var x, y := RUN[i].at, RUN[i + 1].at;
            OpMove(PLAN, x, y) && y.index == x.index + 1
  {
    Shape();
    Subtrees();
    Writes();
    hide Within; hide Fill; hide Kids;
  }

  lemma Relations()
    ensures IsForest(ENUM)
    ensures forall p: nat, q: nat | p < 3 && q < 3 :: Related(ENUM, p, q) <==> p == q || p == 0 || q == 0
  {
    Shape();
    forall p: nat, q: nat | p < 3 && q < 3 ensures Related(ENUM, p, q) <==> p == q || p == 0 || q == 0 {
      WithinIsPrefix(ENUM, p, q);
      WithinIsPrefix(ENUM, q, p);
    }
  }

  /** The action on the flag of `q` after the operation that starts from `RUN[i]`. */
  function ActionAt(i: nat, q: nat): Option<DropFlagValue>
    requires i < 7
  {
    if i <= 1 then Some(Clear)
    else if i == 2 then (if q == 2 then None else Some(Set))
    else if i == 3 then (if q == 0 then Some(Set) else None)
    else if i == 6 then (if q == 1 then None else Some(Clear))
    else None
  }

  /** In particular the overwrite says nothing about the payloads. */
  lemma Actions(i: nat, q: nat)
    requires i in {0, 1, 2, 3, 5, 6} && q < 3
    ensures IsForest(ENUM)
    ensures var x, y := RUN[i].at, RUN[i + 1].at;
            ActionFor(ENUM, Expected(y.block, y.index), BLOCKS[x.block].operations[x.index], q) == ActionAt(i, q)
  {
    Shape();
    Relations();
    hide Related; hide MayHoldPart; hide Kids; hide IsForest;
    assert LocalOf(ENUM, 0) == LocalOf(ENUM, 1) == LocalOf(ENUM, 2) == 0;
  }

  lemma FlagUpdated(i: nat, q: nat)
    requires i in {0, 1, 2, 3, 5, 6} && q < 3
    ensures IsForest(ENUM)
    ensures var x, y := RUN[i], RUN[i + 1];
            q in UpdateFlags(ENUM, Expected(y.at.block, y.at.index), BLOCKS[x.at.block].operations[x.at.index],
                             BY_PATH, x.on)
            <==> q in y.on
  {
    Shape();
    FlagPerPath();
    var x, y := RUN[i], RUN[i + 1];
    Actions(i, q);
    UpdateMembership(ENUM, Expected(y.at.block, y.at.index), BLOCKS[x.at.block].operations[x.at.index], BY_PATH, x.on,
                     q);
    hide UpdateFlags; hide ActionFor; hide Expected; hide IsForest;
  }

  lemma UpdatesInRange(f: Forest, after: State, op: CleanupOp, on: set<DropFlagId>)
    ensures forall id | id in UpdateFlags(f, after, op, BY_PATH, on) :: id < 3
  {
  }

  lemma RunFlags(i: nat)
    requires i < 9
    ensures forall id | id in RUN[i].on :: id < 3
  {
  }

  lemma Updated(i: nat)
    requires i in {0, 1, 2, 3, 5, 6}
    ensures IsForest(ENUM)
    ensures var x, y := RUN[i], RUN[i + 1];
            UpdateFlags(ENUM, Expected(y.at.block, y.at.index), BLOCKS[x.at.block].operations[x.at.index], BY_PATH,
                        x.on)
            == y.on
  {
    Shape();
    var x, y := RUN[i], RUN[i + 1];
    var after, op := Expected(y.at.block, y.at.index), BLOCKS[x.at.block].operations[x.at.index];
    UpdatesInRange(ENUM, after, op, x.on);
    RunFlags(i + 1);
    hide *;
    forall q: nat | q < 3 ensures q in UpdateFlags(ENUM, after, op, BY_PATH, x.on) <==> q in y.on {
      FlagUpdated(i, q);
    }
    SameBelowThree(UpdateFlags(ENUM, after, op, BY_PATH, x.on), y.on);
  }

  lemma OperationMoves(i: nat)
    requires i in {0, 1, 2, 3, 5, 6}
    ensures IsForest(ENUM) && FlagMove(PLAN, ANALYSIS, FlagMap(FLAGS), RUN[i], RUN[i + 1])
  {
    Shape();
    FlagPerPath();
    OperationSteps(i);
    Updated(i);
    States(RUN[i + 1].at.block, RUN[i + 1].at.index);
    hide UpdateFlags; hide StateBefore; hide OpMove; hide Expected; hide DistinctFlags; hide FlagMap; hide IsForest;
  }

  lemma EdgeMoves(i: nat)
    requires i in {4, 7}
    ensures IsForest(ENUM) && FlagMove(PLAN, ANALYSIS, FlagMap(FLAGS), RUN[i], RUN[i + 1])
  {
    Shape();
    var e := if i == 4 then CleanupEdge(1, []) else CleanupEdge(2, []);
    assert EdgeMove(PLAN, RUN[i].at, e, RUN[i + 1].at);
  }

  lemma RunMoves()
    ensures IsForest(ENUM) && IsFlagRun(PLAN, ANALYSIS, FlagMap(FLAGS), RUN)
  {
    Shape();
    hide FlagMove;
    forall i | 0 <= i < |RUN| - 1 ensures FlagMove(PLAN, ANALYSIS, FlagMap(FLAGS), RUN[i], RUN[i + 1]) {
      if i == 4 || i == 7 { EdgeMoves(i); } else { OperationMoves(i); }
    }
  }

  lemma StaleIsConsulted()
    ensures IsForest(ENUM) && Collect(ENUM, MERGED, 0) <= BY_PATH.Keys
    ensures 1 in Consulted(ENUM, MERGED, 0, BY_PATH, {1})
  {
    Shape();
    AllCollected();
    AllConditional(0);
    AllConditional(1);
    hide IsConditional; hide Collect; hide Kids;
    var ks := Children(ENUM, 0);
    assert 1 in ks;
    ConsultedFrom(ENUM, MERGED, 0, ks, 1, BY_PATH, {1});
    ConsultsItself(ENUM, MERGED, 1, BY_PATH, {1});
  }

  lemma SiteReached()
    ensures AtSite(PLAN, RUN[8].at, 0)
  {
    assert IsRootOf(ENUM, 0, 0);
  }

  lemma StaleFlag()
    ensures IsForest(ENUM) && !Truthful(ENUM, MOVED, Leaves(ENUM), FlagMap(FLAGS), {1}, 1)
    ensures !Full(ENUM, MOVED, 1) && 1 in FlagMap(FLAGS) && FlagMap(FLAGS)[1] == 1
  {
    Shape();
    FlagPerPath();
    hide DistinctFlags; hide FlagMap; hide Kids;
    assert !Full(ENUM, MOVED, 1);
  }

  lemma ConsultedIn(plan: Plan, a: Analysis, flags: map<MovePathId, DropFlagId>, x: FlagConfig, r: nat, q: nat)
    requires IsForest(plan.movePaths) && |a.blockEntry| == |plan.blocks| && FlagsCover(plan, a, flags)
    requires AtSite(plan, x.at, r)
    requires var st := StateBefore(plan, a, x.at.block, x.at.index);
             Collect(plan.movePaths, st, r) <= flags.Keys && q in Consulted(plan.movePaths, st, r, flags, x.on)
    ensures q in ConsultedAt(plan, a, flags, x, r)
  {
  }

  lemma TheSite()
    requires FlagsCover(PLAN, ANALYSIS, FlagMap(FLAGS))
    ensures AtSite(PLAN, RUN[8].at, 0) && 1 in ConsultedAt(PLAN, ANALYSIS, FlagMap(FLAGS), RUN[8], 0)
  {
    SiteReached();
    States(2, 0);
    FlagPerPath();
    StaleIsConsulted();
    hide *;
    ConsultedIn(PLAN, ANALYSIS, FlagMap(FLAGS), RUN[8], 0, 1);
  }

  lemma PlanVerified()
    ensures Verified(PLAN) && Computed(PLAN) == ANALYSIS
  {
    hide Accepted; hide Computed;
    PlanAccepted();
    IsComputed();
    VerifiedIsAccepted(PLAN);
  }

  /** Verification succeeds on the plan, and returns exactly these flags, actions and sites. */
  method Verify() returns (result: Result<DropFlagAnalysis, seq<VerifyError>>)
    ensures IsForest(ENUM) && Covered(PLAN, ANALYSIS, FlagMap(FLAGS))
    ensures result == Success(WithFlags(PLAN, ANALYSIS, FLAGS))
  {
    hide Verified; hide Computed; hide Accepted; hide Synthesized; hide Covered; hide IsForest; hide WithFlags;
    hide Fixpoint; hide Structured;
    PlanVerified();
    IsComputed();
    FlagsSynthesized();
    ghost var a;
    result, a := AnalyzeAndVerify(PLAN);
    SynthesizedUnique(PLAN, ANALYSIS, result.value, WithFlags(PLAN, ANALYSIS, FLAGS));
  }

  /**
   The plan is accepted, its flags are the synthesized ones, and the run starts at the entry;
   at its end the emitted site drops the payload of the variant that was overwritten.
   */
  lemma StaleFlagDropsAbsentPayload()
    ensures Verified(PLAN) && Computed(PLAN) == ANALYSIS && Covered(PLAN, ANALYSIS, FlagMap(FLAGS))
    ensures Synthesized(PLAN, ANALYSIS, WithFlags(PLAN, ANALYSIS, FLAGS))
    ensures IsActionRun(PLAN, WithFlags(PLAN, ANALYSIS, FLAGS), RUN)
    ensures AtSite(PLAN, RUN[8].at, 0)
    ensures !DropsExact(ENUM, MOVED, Leaves(ENUM), 0, DroppedAt(WithFlags(PLAN, ANALYSIS, FLAGS), 2, 0, RUN[8].on))
    ensures 1 in DroppedAt(WithFlags(PLAN, ANALYSIS, FLAGS), 2, 0, RUN[8].on) && !Full(ENUM, MOVED, 1)
  {
    PlanAccepted();
    PlanVerified();
    FlagsSynthesized();
    RunMoves();
    StaleFlag();
    hide Accepted; hide Verified; hide Computed; hide Synthesized; hide Covered; hide IsFlagRun; hide IsActionRun;
    hide FlagMap; hide Truthful;
    hide DropsExact; hide AtSite; hide FlagsCover; hide ConsultedAt; hide IsForest; hide DroppedAt;
    var d := WithFlags(PLAN, ANALYSIS, FLAGS);
    SynthesizedCovers(PLAN, ANALYSIS, d);
    TheSite();
    WrongFlag(PLAN, ANALYSIS, d, Leaves(ENUM), RUN, 8, 0, 1);
  }
}
