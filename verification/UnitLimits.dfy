/**
 An accepted plan without any enum that forgets drop glue: a value is completed part by
 part, one of them on one branch only. The analysis knows it as maybe complete, so no action
 sets its flag, and when its parts have no drop glue of their own, nothing is dropped.
 */
module UnitLimits {
  import opened Wrappers
  import opened CleanupPlan
  import opened MovePaths
  import opened MoveStates
  import opened Semantics
  import opened Checks
  import opened Structure
  import opened Runs
  import opened ComputedAnalysis
  import opened DropObligations
  import opened DropFlags
  import opened FlagRuns
  import opened DropFlagAnalyses
  import opened StructureVerifier
  import opened CleanupVerifier

  /* ----- the plan ----- */

  /** A value with drop glue and two plain fields, and a condition. */
  const PAIR: seq<MovePath> := [
    MovePath(0, Place(0, []), None, true),
    MovePath(1, Place(0, [Field(0)]), Some(0), false),
    MovePath(2, Place(0, [Field(1)]), Some(0), false),
    MovePath(3, Place(1, []), None, false)]

  const BLOCKS: seq<BasicBlock> := [
    BasicBlock(0, 0, [StorageLive(1), Init(3), StorageLive(0)],
               Some(Branch(1, CleanupEdge(1, []), CleanupEdge(2, [])))),
    BasicBlock(1, 0, [Init(1)], Some(Goto(CleanupEdge(2, [])))),
    BasicBlock(2, 0, [Init(2), StorageDead(0)], Some(Return([])))]

  const PLAN: Plan := Plan(0, 0, [ScopeData(0, None, RootScope, [0, 1])],
    [LocalDecl(0, 0, User, Owned, 0), LocalDecl(1, 0, User, Owned, 1)], PAIR, BLOCKS)

  lemma Siblings(i: nat, j: nat)
    requires i < 4 && j < 4
    ensures ParentOk(PAIR, i) && SiblingsAgree(PAIR, i, j)
  {
  }

  lemma TheForest()
    ensures IsForest(PAIR)
  {
    hide ParentOk; hide SiblingsAgree;
    forall i | 0 <= i < |PAIR| ensures ParentOk(PAIR, i) { Siblings(i, i); }
    forall i, j | 0 <= i < |PAIR| && 0 <= j < |PAIR| ensures SiblingsAgree(PAIR, i, j) { Siblings(i, j); }
  }

  lemma Shape()
    ensures IsForest(PAIR) && EnumRoots(PAIR) == {}
    ensures Kids(PAIR, 0) == {1, 2} && Kids(PAIR, 1) == Kids(PAIR, 2) == Kids(PAIR, 3) == {}
    ensures !IsEnum(PAIR, 0) && forall p :: !IsDowncast(PAIR, p)
    ensures Parent(PAIR, 0) == Parent(PAIR, 3) == None && Parent(PAIR, 1) == Parent(PAIR, 2) == Some(0)
    ensures LocalPaths(PAIR, 0) == {0, 1, 2} && LocalPaths(PAIR, 1) == {3}
  {
    TheForest();
    hide IsForest;
  }

  lemma Subtrees()
    ensures IsForest(PAIR)
    ensures Subtree(PAIR, 0) == {0, 1, 2} && Subtree(PAIR, 1) == {1} && Subtree(PAIR, 2) == {2}
        && Subtree(PAIR, 3) == {3}
    ensures forall p: nat, q: nat | p < 4 && q < 4 :: Related(PAIR, p, q) <==> p == q || (p < 3 && q < 3 && p * q == 0)
  {
    Shape();
    forall a: nat, d: nat | a < 4 && d < 4 ensures Within(PAIR, a, d) <==> a == d || (a == 0 && d < 3) {
      WithinIsPrefix(PAIR, a, d);
    }
    hide Within;
  }

  /* ----- it is well structured ----- */

  lemma Rooted()
    ensures IsAncestor(PLAN.scopes, 0, 0) && Ends(PLAN.scopes, 0)
    ensures NthParent(PLAN.scopes, Some(0), 0) == Some(0)
  {
    assert NthParent(PLAN.scopes, Some(0), 0) == Some(0);
    assert NthParent(PLAN.scopes, Some(0), 1) == None;
  }

  lemma Listed()
    ensures LocalsOk(PLAN)
  {
    assert PLAN.scopes[..0] == [];
    forall l: nat | l < 2 ensures Memberships(PLAN.scopes, l) == 1 { assert Memberships(PLAN.scopes[..0], l) == 0; }
    assert PLAN.locals[..1][..0] == [] && PLAN.locals[..1] == [PLAN.locals[0]];
    assert ReturnPlaces(PLAN.locals[..1]) == 0;
    forall order | 0 <= order < 2 ensures ListingOk(PLAN, 0, order) {
      assert PLAN.scopes[0].locals[..order] == if order == 0 then [] else [0];
    }
  }

  lemma PathsListed()
    ensures PathsOk(PLAN)
  {
    Shape();
    assert PAIR[..3][..2][..1][..0] == [] && PAIR[..3][..2][..1] == [PAIR[0]];
    forall l: nat | l < 2 ensures RootCount(PAIR, l) == 1 {
      assert RootCount(PAIR[..3][..2][..1][..0], l) == 0;
      assert RootCount(PAIR[..3][..2][..1], l) == if l == 0 then 1 else 0;
      assert RootCount(PAIR[..3][..2], l) == if l == 0 then 1 else 0;
      assert RootCount(PAIR[..3], l) == if l == 0 then 1 else 0;
    }
  }

  lemma BlockWell(b: nat)
    requires b < 3
    ensures BlockOk(PLAN, b)
  {
    Rooted();
    hide NthParent; hide IsAncestor;
  }

  lemma ShapesWell(b: nat)
    requires b < 3
    ensures IsForest(PAIR) && BlockShapesOk(PLAN, b)
  {
    Shape();
    hide IsForest; hide Variants; hide Kids;
  }

  lemma WellStructured()
    ensures Structured(PLAN)
  {
    Shape();
    Rooted();
    Listed();
    PathsListed();
    hide BlockOk; hide BlockShapesOk; hide LocalsOk; hide PathsOk; hide IsForest; hide Kids; hide Variants;
    forall b: nat | b < 3 ensures BlockOk(PLAN, b) && BlockShapesOk(PLAN, b) {
      BlockWell(b);
      ShapesWell(b);
    }
  }

  /* ----- its analysis ----- */

  /** There are no enums, and storage is never in doubt. */
  function Known(live: set<nat>, mayInit: set<nat>, mustInit: set<nat>): State {
    State(true, live, live, mayInit, mustInit, map[])
  }

  const NONE: State := Known({}, {}, {})
  const OPEN: State := Known({0, 1}, {3}, {3})
  const LEFT: State := Known({0, 1}, {1, 3}, {1, 3})
  const MERGED: State := Known({0, 1}, {1, 3}, {3})
  const MAYBE: State := Known({0, 1}, {0, 1, 2, 3}, {2, 3})
  const LAST: State := Known({1}, {3}, {3})

  const ANALYSIS: Analysis := Analysis([NONE, OPEN, MERGED], [OPEN, LEFT, LAST])

  lemma Storage(st: State)
    requires st.discriminants == map[]
    ensures IsForest(PAIR)
    ensures Apply(PAIR, st, StorageLive(1)) ==
            st.(mayLive := st.mayLive + {1}, mustLive := st.mustLive + {1},
                mayInit := st.mayInit - {3}, mustInit := st.mustInit - {3})
    ensures Apply(PAIR, st, StorageLive(0)) ==
            st.(mayLive := st.mayLive + {0}, mustLive := st.mustLive + {0},
                mayInit := st.mayInit - {0, 1, 2}, mustInit := st.mustInit - {0, 1, 2})
    ensures Apply(PAIR, st, StorageDead(0)) ==
            st.(mayLive := st.mayLive - {0}, mustLive := st.mustLive - {0},
                mayInit := st.mayInit - {0, 1, 2}, mustInit := st.mustInit - {0, 1, 2})
    ensures NewState(PAIR, true) == NONE
  {
    Shape();
  }

  lemma Marks(st: State, p: nat)
    requires st.discriminants == map[] && 1 <= p < 4
    ensures IsForest(PAIR)
    ensures MarkWhole(PAIR, st, p, Must) == st.(mayInit := st.mayInit + {p}, mustInit := st.mustInit + {p})
  {
    Shape();
    Subtrees();
    assert MarkOf(PAIR, st, p, Must, p) == Marked(Must);
    hide Within; hide Kids;
    var marked := MarkWhole(PAIR, st, p, Must);
    assert marked.discriminants == map[];
    assert marked.mayInit == st.mayInit + {p} && marked.mustInit == st.mustInit + {p};
  }

  /** Completing one field says nothing for the pair unless the other may or must be complete. */
  lemma Writes()
    ensures IsForest(PAIR)
    ensures Apply(PAIR, Known({1}, {}, {}), Init(3)) == Known({1}, {3}, {3})
    ensures Apply(PAIR, OPEN, Init(1)) == LEFT && Apply(PAIR, MERGED, Init(2)) == MAYBE
  {
    Shape();
    Marks(Known({1}, {}, {}), 3);
    Marks(OPEN, 1);
    Marks(MERGED, 2);
    hide MarkWhole;
    assert RecomposeNode(PAIR, LEFT, 0) == LEFT;
    assert RecomposeNode(PAIR, Known({0, 1}, {1, 2, 3}, {2, 3}), 0) == MAYBE;
    hide RecomposeNode;
    assert forall st :: Recompose(PAIR, st, 0) == st && Recompose(PAIR, st, 3) == st;
    assert forall st ::
        Recompose(PAIR, st, 1) == Recompose(PAIR, st, 2) == Recompose(PAIR, RecomposeNode(PAIR, st, 0), 0);
  }

  /** The state before each operation and before the terminator. */
  ghost function Expected(b: nat, i: nat): State
    requires b < 3 && i <= |BLOCKS[b].operations|
  {
    if b == 0 then [NONE, Known({1}, {}, {}), Known({1}, {3}, {3}), OPEN][i]
    else if b == 1 then [OPEN, LEFT][i]
    else [MERGED, MAYBE, LAST][i]
  }

  lemma Steps(b: nat, i: nat)
    requires b < 3 && i < |BLOCKS[b].operations|
    ensures IsForest(PAIR) && Apply(PAIR, Expected(b, i), BLOCKS[b].operations[i]) == Expected(b, i + 1)
  {
    Storage(Expected(b, i));
    Writes();
    hide Apply; hide Kids; hide IsForest;
  }

  lemma {:induction false} States(b: nat, i: nat)
    requires b < 3 && i <= |BLOCKS[b].operations|
    ensures IsForest(PAIR) && StateBefore(PLAN, ANALYSIS, b, i) == Expected(b, i)
  {
    Shape();
    ApplyAllPrefix(PAIR, ANALYSIS.blockEntry[b], BLOCKS[b].operations, i);
    if i > 0 {
      States(b, i - 1);
      hide *;
      Steps(b, i - 1);
    }
  }

  lemma BlockFlows(b: nat)
    requires b < 3
    ensures IsForest(PAIR) && Flows(PLAN, ANALYSIS, b)
  {
    Shape();
    forall st: State ensures EdgeState(PLAN, st, CleanupEdge(1, [])) == EdgeState(PLAN, st, CleanupEdge(2, [])) == st {}
    hide EdgeState;
    assert Below(OPEN, OPEN) && Below(OPEN, MERGED) && Below(LEFT, MERGED);
  }

  lemma IsFixpoint()
    ensures IsForest(PAIR) && Fixpoint(PLAN, ANALYSIS)
  {
    Shape();
    Storage(NONE);
    forall b: nat | b < 3 ensures Folds(PLAN, ANALYSIS, b) && Flows(PLAN, ANALYSIS, b) {
      var ops := BLOCKS[b].operations;
      States(b, |ops|);
      assert ops[..|ops|] == ops;
      BlockFlows(b);
    }
    hide Folds; hide Flows;
  }

  lemma OperationOk(b: nat, i: nat)
    requires b < 3 && i < |BLOCKS[b].operations|
    ensures IsForest(PAIR) && OpStateOk(PAIR, Expected(b, i), BLOCKS[b].operations[i])
  {
    hide MayHoldPart; hide IsForest;
    Shape();
    assert DowncastsActive(PAIR, Expected(b, i), 0);
  }

  lemma LastOk(b: nat)
    requires b < 3
    ensures IsForest(PAIR)
    ensures TerminatorStateOk(PLAN, Expected(b, |BLOCKS[b].operations|), BLOCKS[b].terminator.value)
  {
    hide IsForest;
    Shape();
    assert PAIR[3].parent == None && LocalOf(PAIR, 3) == 1;
    assert Initialization(PAIR, OPEN, 3) == Initialized;
  }

  lemma BlockStable(b: nat)
    requires b < 3
    ensures IsForest(PAIR) && StableBlock(PLAN, ANALYSIS, b)
  {
    hide IsForest; hide OpStateOk; hide TerminatorStateOk; hide StateBefore; hide Expected;
    Shape();
    var ops := BLOCKS[b].operations;
    forall i | 0 <= i < |ops| ensures OpStateOk(PAIR, StateBefore(PLAN, ANALYSIS, b, i), ops[i]) {
      States(b, i);
      OperationOk(b, i);
    }
    States(b, |ops|);
    LastOk(b);
  }

  lemma PlanAccepted()
    ensures Accepted(PLAN, ANALYSIS)
  {
    WellStructured();
    IsFixpoint();
    forall b: nat | b < 3 ensures StableBlock(PLAN, ANALYSIS, b) { BlockStable(b); }
  }

  /* ----- it is the computed analysis ----- */

  /** Only one state lies below a state that leaves nothing open. */
  lemma NothingOpen(st: State, bound: State)
    requires IsForest(PAIR) && Proper(PAIR, 2, st) && st.reachable && Below(st, bound)
    requires bound == NONE || bound == OPEN
    ensures st == bound
  {
    hide IsForest;
    Shape();
  }

  lemma Collapses(b: nat, st: State)
    requires b < 2 && IsForest(PAIR)
    requires Proper(PAIR, 2, st) && st.reachable && Below(st, ANALYSIS.blockEntry[b])
    ensures ApplyAll(PAIR, st, BLOCKS[b].operations) == ANALYSIS.blockExit[b]
  {
    hide Apply; hide ApplyAll; hide Proper; hide Below; hide IsForest;
    NothingOpen(st, ANALYSIS.blockEntry[b]);
    BlockResultIs(b);
  }

  lemma BlockResultIs(b: nat)
    requires b < 3
    ensures IsForest(PAIR) && ApplyAll(PAIR, ANALYSIS.blockEntry[b], BLOCKS[b].operations) == ANALYSIS.blockExit[b]
  {
    hide Apply; hide ApplyAll; hide IsForest;
    var ops := BLOCKS[b].operations;
    States(b, |ops|);
    assert ops[..|ops|] == ops;
  }

  lemma EdgeKeeps(st: State, e: CleanupEdge)
    requires IsForest(PAIR) && e in {CleanupEdge(1, []), CleanupEdge(2, [])}
    ensures EdgeState(PLAN, st, e) == st
  {
  }

  lemma EdgeCarries(b: nat, e: CleanupEdge)
    requires b < 3 && e in BlockEdges(PLAN, b)
    ensures IsForest(PAIR) && Carries(PLAN, ANALYSIS.blockEntry, b, e)
  {
    hide ApplyAll; hide EdgeState; hide Proper; hide IsForest;
    Shape();
    assert b < 2 && e in {CleanupEdge(1, []), CleanupEdge(2, [])};
    forall st | Proper(PAIR, 2, st) && st.reachable && Below(st, ANALYSIS.blockEntry[b])
      ensures Below(EdgeState(PLAN, ApplyAll(PAIR, st, BLOCKS[b].operations), e), ANALYSIS.blockEntry[e.target])
    {
      Collapses(b, st);
      EdgeKeeps(ANALYSIS.blockExit[b], e);
    }
  }

  lemma EntriesBound()
    ensures IsForest(PAIR) && Bounds(PLAN, ANALYSIS.blockEntry)
  {
    hide Carries; hide BlockEdges; hide IsForest; hide Below; hide Proper;
    IsFixpoint();
    FixpointParts(PLAN, ANALYSIS);
    forall b: nat, e | b < 3 && e in BlockEdges(PLAN, b) ensures Carries(PLAN, ANALYSIS.blockEntry, b, e) {
      EdgeCarries(b, e);
    }
  }

  lemma JoinIsMerged()
    ensures IsForest(PAIR) && Proper(PAIR, 2, OPEN) && Proper(PAIR, 2, LEFT) && Join(OPEN, LEFT) == MERGED
  {
    hide IsForest;
    Shape();
    assert Join(OPEN, LEFT).discriminants == map[];
  }

  lemma StartsEmpty()
    ensures IsForest(PAIR) && NewState(PAIR, true) == NONE
  {
    Storage(NONE);
  }

  lemma IsComputed()
    ensures Structured(PLAN) && Computed(PLAN) == ANALYSIS
  {
    hide BelowAll; hide Bounds; hide Fixpoint; hide Structured; hide EdgeState; hide Computed; hide IsForest;
    hide Below; hide Proper; hide Join;
    WellStructured();
    IsFixpoint();
    EntriesBound();
    ComputedIsLeast(PLAN, ANALYSIS.blockEntry);
    ComputedIsStable(PLAN);
    var c := Computed(PLAN);
    FixpointParts(PLAN, c);
    FixpointParts(PLAN, ANALYSIS);
    StartsEmpty();
    PinEntry(PLAN, c, ANALYSIS, 0);
    EdgeKeeps(OPEN, CleanupEdge(1, []));
    PinEdge(PLAN, c, ANALYSIS, 0, CleanupEdge(1, []));
    EdgeKeeps(OPEN, CleanupEdge(2, []));
    EdgeKeeps(LEFT, CleanupEdge(2, []));
    JoinIsMerged();
    PinJoin(PLAN, c, ANALYSIS, 0, CleanupEdge(2, []), 1, CleanupEdge(2, []));
    SameAnalysis(PLAN, c, ANALYSIS);
  }

  /* ----- its flags ----- */

  const FLAGS: seq<DropFlag> := [DropFlag(0, 0)]

  lemma OneFlag()
    ensures FlagMap(FLAGS) == map[0 := 0]
  {
    assert FLAGS[..0] == [];
    assert FlagMap(FLAGS[..0]) == map[];
  }

  /** At the site the pair may be complete and is not bound to be; its fields need no drop. */
  lemma Conditional()
    ensures IsForest(PAIR) && IsConditional(PAIR, MAYBE, 0) && Collect(PAIR, MAYBE, 0) == {0}
  {
    Shape();
    Subtrees();
    assert 0 in Subtree(PAIR, 0) && MayHold(MAYBE, 0);
    assert 0 in Collect(PAIR, MAYBE, 0);
    forall q | q in Collect(PAIR, MAYBE, 0) ensures q == 0 { CollectRange(PAIR, MAYBE, 0, q); }
  }

  lemma OnlySite(b: nat, i: nat)
    requires b < 3 && i < |BLOCKS[b].operations|
    ensures IsForest(PAIR) && PathsAt(PLAN, ANALYSIS, b, i) == if b == 2 && i == 1 then {0} else {}
  {
    Shape();
    assert IsRootOf(PAIR, 0, 0) && forall r: nat :: IsRootOf(PAIR, 0, r) ==> r == 0;
    hide StateBefore; hide Collect; hide IsForest;
    if b == 2 && i == 1 {
      States(2, 1);
      Conditional();
    }
  }

  lemma FlagsAsked(p: nat)
    ensures IsForest(PAIR) && (HasFlag(FLAGS, p) <==> Asked(PLAN, ANALYSIS, p))
  {
    Shape();
    hide PathsAt; hide IsForest;
    assert FLAGS[0].path == 0;
    OnlySite(2, 1);
    assert p == 0 ==> AskedAt(PLAN, ANALYSIS, 2, 1, p);
    if Asked(PLAN, ANALYSIS, p) {
      var b: nat, i: nat :| AskedAt(PLAN, ANALYSIS, b, i, p);
      OnlySite(b, i);
    }
  }

  lemma FlagsSynthesized()
    ensures IsForest(PAIR) && Covered(PLAN, ANALYSIS, FlagMap(FLAGS))
    ensures Synthesized(PLAN, ANALYSIS, WithFlags(PLAN, ANALYSIS, FLAGS))
  {
    Shape();
    forall p ensures HasFlag(FLAGS, p) <==> Asked(PLAN, ANALYSIS, p) { FlagsAsked(p); }
    assert Numbered(FLAGS);
    hide IsForest; hide HasFlag; hide Asked; hide Numbered; hide Synthesized; hide Covered; hide FlagMap;
    WithFlagsSynthesized(PLAN, ANALYSIS, FLAGS);
  }

  /* ----- the run ----- */

  const WHOLE: Concrete := Concrete({0, 1}, {1, 2, 3}, map[])

  /** Through the branch that completes the first field. */
  const RUN: seq<FlagConfig> := [
    FlagConfig(At(0, 0, Concrete({}, {}, map[])), {}),
    FlagConfig(At(0, 1, Concrete({1}, {}, map[])), {}),
    FlagConfig(At(0, 2, Concrete({1}, {3}, map[])), {}),
    FlagConfig(At(0, 3, Concrete({0, 1}, {3}, map[])), {}),
    FlagConfig(At(1, 0, Concrete({0, 1}, {3}, map[])), {}),
    FlagConfig(At(1, 1, Concrete({0, 1}, {1, 3}, map[])), {}),
    FlagConfig(At(2, 0, Concrete({0, 1}, {1, 3}, map[])), {}),
    FlagConfig(At(2, 1, WHOLE), {})]

  lemma LeafStep(c: Concrete, p: nat)
    requires c.active == map[] && 1 <= p < 4
    ensures IsForest(PAIR) && Step(PAIR, c, Init(p), c.(leaves := c.leaves + {p}))
  {
    Shape();
    Subtrees();
    hide Within; hide Kids;
    var c' := c.(leaves := c.leaves + {p});
    forall q | q in Subtree(PAIR, p) ensures FilledAt(PAIR, c, p, c', q) {}
  }

  lemma OperationSteps(i: nat)
    requires i in {0, 1, 2, 4, 6}
    ensures IsForest(PAIR) && OpMove(PLAN, RUN[i].at, RUN[i + 1].at)
  {
    Shape();
    if i in {1, 4, 6} { LeafStep(RUN[i].at.memory, if i == 1 then 3 else if i == 4 then 1 else 2); }
    hide Fill;
  }

  /** No operation sets the flag: the pair is never definitely complete. */
  lemma NeverSet(i: nat)
    requires i in {0, 1, 2, 4, 6}
    ensures IsForest(PAIR)
    ensures var x, y := RUN[i].at, RUN[i + 1].at;
            ActionFor(PAIR, Expected(y.block, y.index), BLOCKS[x.block].operations[x.index], 0) != Some(Set)
  {
    Shape();
    hide Related;
  }

  lemma StaysClear(i: nat)
    requires i in {0, 1, 2, 4, 6}
    ensures IsForest(PAIR)
    ensures var x, y := RUN[i].at, RUN[i + 1].at;
            UpdateFlags(PAIR, Expected(y.block, y.index), BLOCKS[x.block].operations[x.index], map[0 := 0], {}) == {}
  {
    hide ActionFor; hide IsForest; hide Expected;
    NeverSet(i);
  }

  lemma OperationMoves(i: nat)
    requires i in {0, 1, 2, 4, 6}
    ensures IsForest(PAIR) && FlagMove(PLAN, ANALYSIS, FlagMap(FLAGS), RUN[i], RUN[i + 1])
  {
    hide IsForest; hide StateBefore; hide OpMove; hide FlagMap; hide UpdateFlags; hide Expected; hide ConfigOk;
    StaysClear(i);
    OneFlag();
    OperationSteps(i);
    States(RUN[i + 1].at.block, RUN[i + 1].at.index);
    Configured(i);
  }

  lemma Configured(i: nat)
    requires i in {0, 1, 2, 4, 6}
    ensures ConfigOk(PLAN, RUN[i].at) && ConfigOk(PLAN, RUN[i + 1].at)
  {
  }

  lemma EdgeMoves(i: nat)
    requires i in {3, 5}
    ensures IsForest(PAIR) && FlagMove(PLAN, ANALYSIS, FlagMap(FLAGS), RUN[i], RUN[i + 1])
  {
    Shape();
    var e := if i == 3 then CleanupEdge(1, []) else CleanupEdge(2, []);
    assert EdgeMove(PLAN, RUN[i].at, e, RUN[i + 1].at);
  }

  lemma RunMoves()
    ensures IsForest(PAIR) && IsFlagRun(PLAN, ANALYSIS, FlagMap(FLAGS), RUN)
  {
    Shape();
    hide FlagMove;
    forall i | 0 <= i < |RUN| - 1 ensures FlagMove(PLAN, ANALYSIS, FlagMap(FLAGS), RUN[i], RUN[i + 1]) {
      if i == 3 || i == 5 { EdgeMoves(i); } else { OperationMoves(i); }
    }
  }

  lemma TheSite()
    requires IsForest(PAIR) && FlagsCover(PLAN, ANALYSIS, FlagMap(FLAGS))
    ensures AtSite(PLAN, RUN[7].at, 0) && 0 in ConsultedAt(PLAN, ANALYSIS, FlagMap(FLAGS), RUN[7], 0)
  {
    assert IsRootOf(PAIR, 0, 0);
    States(2, 1);
    Conditional();
    hide IsConditional; hide StateBefore; hide Initialization; hide Collect;
  }

  lemma WholeButClear()
    ensures IsForest(PAIR) && Full(PAIR, WHOLE, 0) && 0 in GlueUnits(PAIR)
    ensures !Truthful(PAIR, WHOLE, GlueUnits(PAIR), FlagMap(FLAGS), {}, 0)
  {
    Shape();
    OneFlag();
    assert ActiveKids(PAIR, WHOLE, 0) == {1, 2};
    assert Full(PAIR, WHOLE, 1) && Full(PAIR, WHOLE, 2);
  }

  lemma PlanVerified()
    ensures Verified(PLAN) && Computed(PLAN) == ANALYSIS
  {
    hide Accepted; hide Computed;
    PlanAccepted();
    IsComputed();
    VerifiedIsAccepted(PLAN);
  }

  /** Verification succeeds on the plan, and returns exactly these flags, actions and sites. */
  method Verify() returns (result: Result<DropFlagAnalysis, seq<VerifyError>>)
    ensures IsForest(PAIR) && Covered(PLAN, ANALYSIS, FlagMap(FLAGS))
    ensures result == Success(WithFlags(PLAN, ANALYSIS, FLAGS))
  {
    hide Verified; hide Computed; hide Accepted; hide Synthesized; hide Covered; hide IsForest; hide WithFlags;
    hide Fixpoint; hide Structured;
    PlanVerified();
    IsComputed();
    FlagsSynthesized();
    ghost var a;
    result, a := AnalyzeAndVerify(PLAN);
    SynthesizedUnique(PLAN, ANALYSIS, result.value, WithFlags(PLAN, ANALYSIS, FLAGS));
  }

  /**
   The plan is accepted, its flags are the synthesized ones, and the run starts at the entry;
   at its end the value is complete, no part has its drop glue, and the site is wrong about it.
   */
  lemma ClearFlagForgetsGlue()
    ensures Verified(PLAN) && Computed(PLAN) == ANALYSIS && Covered(PLAN, ANALYSIS, FlagMap(FLAGS))
    ensures Synthesized(PLAN, ANALYSIS, WithFlags(PLAN, ANALYSIS, FLAGS))
    ensures IsActionRun(PLAN, WithFlags(PLAN, ANALYSIS, FLAGS), RUN)
    ensures AtSite(PLAN, RUN[7].at, 0) && Full(PAIR, WHOLE, 0) && 0 in GlueUnits(PAIR)
    ensures !DropsExact(PAIR, WHOLE, GlueUnits(PAIR), 0, DroppedAt(WithFlags(PLAN, ANALYSIS, FLAGS), 2, 1, RUN[7].on))
  {
    PlanAccepted();
    PlanVerified();
    FlagsSynthesized();
    RunMoves();
    WholeButClear();
    hide Accepted; hide Verified; hide Computed; hide Synthesized; hide Covered; hide IsFlagRun; hide IsActionRun;
    hide FlagMap; hide Truthful;
    hide DropsExact; hide AtSite; hide FlagsCover; hide ConsultedAt; hide IsForest; hide DroppedAt; hide GlueUnits;
    var d := WithFlags(PLAN, ANALYSIS, FLAGS);
    SynthesizedCovers(PLAN, ANALYSIS, d);
    TheSite();
    WrongFlag(PLAN, ANALYSIS, d, GlueUnits(PAIR), RUN, 7, 0, 0);
  }
}
