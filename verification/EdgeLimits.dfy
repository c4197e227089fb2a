/**
 An accepted plan without any enum whose drop flag goes wrong on an edge: the edge ends the
 local's storage without an action, so the flag stays set, and a later `StorageDead` of the
 same local, reached without starting its storage again, drops a value that is gone.
 */
module EdgeLimits {
  import opened Wrappers
  import opened CleanupPlan
  import opened MovePaths
  import opened MoveStates
  import opened Semantics
  import opened Structure
  import opened Runs
  import opened ComputedAnalysis
  import opened DropObligations
  import opened DropFlags
  import opened FlagRuns
  import opened DropFlagAnalyses
  import opened StructureVerifier
  import opened CleanupVerifier

  /* ----- the plan ----- */

  /** A value that needs dropping in an inner scope, and a condition in the outer one. */
  const PATHS: seq<MovePath> := [
    MovePath(0, Place(0, []), None, true),
    MovePath(1, Place(1, []), None, false)]

  const BLOCKS: seq<BasicBlock> := [
    BasicBlock(0, 0, [StorageLive(1), Init(1)], Some(Branch(1, CleanupEdge(1, []), CleanupEdge(2, [])))),
    BasicBlock(1, 1, [StorageLive(0), Init(0)], Some(Goto(CleanupEdge(3, [1])))),
    BasicBlock(2, 1, [StorageLive(0), Init(0)], Some(Goto(CleanupEdge(4, [])))),
    BasicBlock(3, 0, [], Some(Goto(CleanupEdge(4, [])))),
    BasicBlock(4, 1, [StorageDead(0)], Some(Goto(CleanupEdge(5, [1])))),
    BasicBlock(5, 0, [], Some(Return([])))]

  const PLAN: Plan := Plan(0, 0,
    [ScopeData(0, None, RootScope, [1]), ScopeData(1, Some(0), Lexical, [0])],
    [LocalDecl(0, 1, User, Owned, 0), LocalDecl(1, 0, User, Owned, 0)],
    PATHS, BLOCKS)

  lemma Shape()
    ensures IsForest(PATHS)
    ensures Kids(PATHS, 0) == {} && Kids(PATHS, 1) == {} && EnumRoots(PATHS) == {}
    ensures LocalPaths(PATHS, 0) == {0} && LocalPaths(PATHS, 1) == {1}
    ensures Subtree(PATHS, 0) == {0} && Subtree(PATHS, 1) == {1}
    ensures Ancestors(PATHS, 0) == {} && Ancestors(PATHS, 1) == {}
  {
    assert Parent(PATHS, 0) == None && Parent(PATHS, 1) == None;
  }

  /* ----- it is well structured ----- */

  lemma Above(source: ScopeId)
    requires source < 2
    ensures IsAncestor(PLAN.scopes, source, source) && IsAncestor(PLAN.scopes, 0, source)
    ensures Ends(PLAN.scopes, source)
    ensures NthParent(PLAN.scopes, Some(source), 0) == Some(source) && NthParent(PLAN.scopes, Some(1), 1) == Some(0)
  {
    assert NthParent(PLAN.scopes, Some(source), 0) == Some(source);
    assert NthParent(PLAN.scopes, Some(1), 1) == Some(0);
    assert NthParent(PLAN.scopes, Some(0), 1) == None;
    assert NthParent(PLAN.scopes, Some(1), 2) == None;
  }

  lemma LocalsListed()
    ensures LocalsOk(PLAN)
  {
    var scopes := PLAN.scopes;
    assert scopes[..2] == scopes && scopes[..1] == [scopes[0]];
    assert scopes[..2][..1] == scopes[..1];
    forall l: nat | l < 2 ensures Memberships(scopes, l) == 1 {
      assert Memberships(scopes[..1][..0], l) == 0;
    }
    var locals := PLAN.locals;
    assert locals[..1] == [locals[0]] && locals[..1][..0] == [];
    assert ReturnPlaces(locals) == 0;
  }

  lemma PathsListed()
    ensures PathsOk(PLAN)
  {
    Shape();
    assert PATHS[..1] == [PATHS[0]] && PATHS[..1][..0] == [];
    forall l: nat | l < 2 ensures RootCount(PATHS, l) == 1 {}
  }

  lemma BlockWell(b: nat)
    requires b < 6
    ensures BlockOk(PLAN, b)
  {
    Above(0);
    Above(1);
    hide NthParent; hide IsAncestor;
  }

  lemma ShapesWell(b: nat)
    requires b < 6
    ensures IsForest(PATHS) && BlockShapesOk(PLAN, b)
  {
    Shape();
    hide IsForest; hide Variants; hide Kids;
  }

  lemma WellStructured()
    ensures Structured(PLAN)
  {
    Shape();
    Above(0);
    Above(1);
    LocalsListed();
    PathsListed();
    hide BlockOk; hide BlockShapesOk; hide LocalsOk; hide PathsOk; hide IsForest; hide Kids; hide Variants;
    forall b: nat | b < 6 ensures BlockOk(PLAN, b) && BlockShapesOk(PLAN, b) {
      BlockWell(b);
      ShapesWell(b);
    }
  }

  /* ----- its analysis ----- */

  /** There are no enums, so four sets are the whole state. */
  function Simple(mayLive: set<nat>, mustLive: set<nat>, mayInit: set<nat>, mustInit: set<nat>): State {
    State(true, mayLive, mustLive, mayInit, mustInit, map[])
  }

  const NONE: State := Simple({}, {}, {}, {})
  const OUTER: State := Simple({1}, {1}, {1}, {1})
  const BOTH: State := Simple({0, 1}, {0, 1}, {0, 1}, {0, 1})
  const MERGED: State := Simple({0, 1}, {1}, {0, 1}, {1})

  const ANALYSIS: Analysis := Analysis([NONE, OUTER, OUTER, OUTER, MERGED, OUTER],
                                       [OUTER, BOTH, BOTH, OUTER, OUTER, OUTER])

  lemma Applied(st: State, x: nat)
    requires IsForest(PATHS) && st.discriminants == map[] && x < 2
    ensures Apply(PATHS, st, StorageLive(x)) ==
            st.(mayLive := st.mayLive + {x}, mustLive := st.mustLive + {x},
                mayInit := st.mayInit - {x}, mustInit := st.mustInit - {x})
    ensures Apply(PATHS, st, StorageDead(x)) == EndStorage(PATHS, st, x) ==
            st.(mayLive := st.mayLive - {x}, mustLive := st.mustLive - {x},
                mayInit := st.mayInit - {x}, mustInit := st.mustInit - {x})
    ensures Apply(PATHS, st, Init(x)) == st.(mayInit := st.mayInit + {x}, mustInit := st.mustInit + {x})
  {
    Shape();
    assert Parent(PATHS, x) == None;
    assert MarkOf(PATHS, st, x, Must, x) == Marked(Must);
    var after := MarkWhole(PATHS, st, x, Must);
    assert after.discriminants == map[];
    assert after.mayInit == st.mayInit + {x} && after.mustInit == st.mustInit + {x};
  }

  /** The state before each operation and before the terminator. */
  lemma StatesOf(b: nat)
    requires b < 6
    ensures IsForest(PATHS)
    ensures var ops, st := BLOCKS[b].operations, ANALYSIS.blockEntry[b];
            && StateBefore(PLAN, ANALYSIS, b, 0) == st
            && (|ops| > 0 ==> StateBefore(PLAN, ANALYSIS, b, 1) == Apply(PATHS, st, ops[0]))
            && (|ops| > 1 ==> StateBefore(PLAN, ANALYSIS, b, 2) == Apply(PATHS, Apply(PATHS, st, ops[0]), ops[1]))
  {
    Shape();
    hide Apply;
    var ops := BLOCKS[b].operations;
    ApplyAllPrefix(PATHS, ANALYSIS.blockEntry[b], ops, 0);
    if |ops| > 0 { ApplyAllPrefix(PATHS, ANALYSIS.blockEntry[b], ops, 1); }
    if |ops| > 1 { ApplyAllPrefix(PATHS, ANALYSIS.blockEntry[b], ops, 2); }
  }

  lemma OpeningStates()
    ensures IsForest(PATHS)
    ensures StateBefore(PLAN, ANALYSIS, 0, 0) == NONE
    ensures StateBefore(PLAN, ANALYSIS, 0, 1) == Simple({1}, {1}, {}, {})
    ensures StateBefore(PLAN, ANALYSIS, 0, 2) == OUTER
  {
    Shape();
    StatesOf(0);
    Applied(NONE, 1);
    hide Apply; hide StateBefore;
    Applied(Simple({1}, {1}, {}, {}), 1);
  }

  lemma InnerStates(b: nat)
    requires 1 <= b <= 2
    ensures IsForest(PATHS)
    ensures StateBefore(PLAN, ANALYSIS, b, 0) == OUTER
    ensures StateBefore(PLAN, ANALYSIS, b, 1) == Simple({0, 1}, {0, 1}, {1}, {1})
    ensures StateBefore(PLAN, ANALYSIS, b, 2) == BOTH
  {
    Shape();
    StatesOf(b);
    Applied(OUTER, 0);
    hide Apply; hide StateBefore;
    Applied(Simple({0, 1}, {0, 1}, {1}, {1}), 0);
  }

  lemma ClosingStates()
    ensures IsForest(PATHS)
    ensures StateBefore(PLAN, ANALYSIS, 3, 0) == StateBefore(PLAN, ANALYSIS, 5, 0) == OUTER
    ensures StateBefore(PLAN, ANALYSIS, 4, 0) == MERGED && StateBefore(PLAN, ANALYSIS, 4, 1) == OUTER
  {
    Shape();
    StatesOf(3);
    StatesOf(4);
    StatesOf(5);
    Applied(MERGED, 0);
  }

  lemma Exited()
    ensures ExitedLocals(PLAN, []) == [] && ExitedLocals(PLAN, [1]) == [0]
  {
    assert [1][..0] == [];
    assert ExitedLocals(PLAN, [1][..0]) == [];
  }

  lemma EdgeStates(st: State)
    requires IsForest(PATHS) && st.discriminants == map[]
    ensures EdgeState(PLAN, st, CleanupEdge(0, [])) == st
    ensures EdgeState(PLAN, st, CleanupEdge(0, [1])) == Apply(PATHS, st, StorageDead(0))
  {
    Exited();
    assert [0][..0] == [];
    assert EndAll(PATHS, st, [0][..0]) == st;
  }

  /** Only the two edges into block 4 bring different states together. */
  lemma EdgeFlows(b: nat, target: nat, exited: seq<ScopeId>)
    requires b < 6 && target < 6 && exited in {[], [1]}
    requires (b, target, exited) in {(0, 1, []), (0, 2, []), (1, 3, [1]), (2, 4, []), (3, 4, []), (4, 5, [1])}
    ensures IsForest(PATHS)
    ensures Below(EdgeState(PLAN, ANALYSIS.blockExit[b], CleanupEdge(target, exited)), ANALYSIS.blockEntry[target])
  {
    Shape();
    var st := ANALYSIS.blockExit[b];
    EdgeStates(st);
    Applied(st, 0);
    assert EdgeState(PLAN, st, CleanupEdge(target, exited)) == EdgeState(PLAN, st, CleanupEdge(0, exited));
    hide Apply; hide EdgeState;
  }

  lemma BlockFlows(b: nat)
    requires b < 6
    ensures IsForest(PATHS) && Flows(PLAN, ANALYSIS, b)
  {
    Shape();
    forall e | e in BlockEdges(PLAN, b)
      ensures e.target < 6 && Below(EdgeState(PLAN, ANALYSIS.blockExit[b], e), ANALYSIS.blockEntry[e.target])
    {
      hide EdgeState; hide Below;
      EdgeFlows(b, e.target, e.exitedScopes);
      assert e == CleanupEdge(e.target, e.exitedScopes);
    }
  }

  lemma BlockFolds(b: nat)
    requires b < 6
    ensures IsForest(PATHS) && Folds(PLAN, ANALYSIS, b)
    ensures StateBefore(PLAN, ANALYSIS, b, |BLOCKS[b].operations|) == ANALYSIS.blockExit[b]
  {
    if b == 0 { OpeningStates(); } else if b <= 2 { InnerStates(b); } else { ClosingStates(); }
    var ops := BLOCKS[b].operations;
    assert ops[..|ops|] == ops;
  }

  lemma IsFixpoint()
    ensures IsForest(PATHS) && Fixpoint(PLAN, ANALYSIS)
  {
    Shape();
    forall b: nat | b < 6 ensures Folds(PLAN, ANALYSIS, b) && Flows(PLAN, ANALYSIS, b) {
      BlockFolds(b);
      BlockFlows(b);
    }
    assert NewState(PATHS, true) == NONE;
    hide Folds; hide Flows;
  }

  lemma BlockStable(b: nat)
    requires b < 6
    ensures IsForest(PATHS) && StableBlock(PLAN, ANALYSIS, b)
  {
    BlockFolds(b);
    if b == 0 { OpeningStates(); } else if b <= 2 { InnerStates(b); } else { ClosingStates(); }
    hide StateBefore;
    assert Parent(PATHS, 0) == None && Parent(PATHS, 1) == None;
    assert PATHS[1].parent == None && LocalOf(PATHS, 1) == 1;
    assert Initialization(PATHS, OUTER, 1) == Initialized;
  }

  lemma PlanAccepted()
    ensures Accepted(PLAN, ANALYSIS)
  {
    WellStructured();
    IsFixpoint();
    forall b: nat | b < 6 ensures StableBlock(PLAN, ANALYSIS, b) { BlockStable(b); }
  }

  /* ----- it is the computed analysis ----- */

  /** Only one state lies below a state that leaves nothing open. */
  lemma NothingOpen(st: State, bound: State)
    requires IsForest(PATHS) && Proper(PATHS, 2, st) && st.reachable && Below(st, bound)
    requires bound.mayLive == bound.mustLive && bound.mayInit == bound.mustInit && bound.discriminants == map[]
    ensures st == bound
  {
    Shape();
  }

  lemma CollapsesLast(st: State)
    requires IsForest(PATHS)
    requires Proper(PATHS, 2, st) && st.reachable && Below(st, ANALYSIS.blockEntry[4])
    ensures ApplyAll(PATHS, st, BLOCKS[4].operations) == ANALYSIS.blockExit[4]
  {
    hide StateBefore; hide Apply; hide IsForest; hide ApplyAll;
    ApplyAllPrefix(PATHS, st, BLOCKS[4].operations, 0);
    ApplyAllPrefix(PATHS, st, BLOCKS[4].operations, 1);
    assert BLOCKS[4].operations[..1] == BLOCKS[4].operations;
    Applied(st, 0);
  }

  /** Whatever enters a block below its entry state, the same leaves it. */
  lemma Collapses(b: nat, st: State)
    requires b < 5 && IsForest(PATHS)
    requires Proper(PATHS, 2, st) && st.reachable && Below(st, ANALYSIS.blockEntry[b])
    ensures ApplyAll(PATHS, st, BLOCKS[b].operations) == ANALYSIS.blockExit[b]
  {
    hide StateBefore; hide Apply; hide IsForest;
    Shape();
    if b < 4 {
      NothingOpen(st, ANALYSIS.blockEntry[b]);
      BlockFolds(b);
      assert BLOCKS[b].operations[..|BLOCKS[b].operations|] == BLOCKS[b].operations;
    } else {
      CollapsesLast(st);
    }
  }

  lemma EdgeCarries(b: nat, e: CleanupEdge)
    requires b < 6 && e in BlockEdges(PLAN, b)
    ensures IsForest(PATHS) && Carries(PLAN, ANALYSIS.blockEntry, b, e)
  {
    hide ApplyAll; hide EdgeState; hide Below; hide Proper; hide IsForest;
    Shape();
    assert e == CleanupEdge(e.target, e.exitedScopes);
    EdgeFlows(b, e.target, e.exitedScopes);
    forall st | Proper(PATHS, 2, st) && st.reachable && Below(st, ANALYSIS.blockEntry[b])
      ensures Below(EdgeState(PLAN, ApplyAll(PATHS, st, BLOCKS[b].operations), e), ANALYSIS.blockEntry[e.target])
    {
      Collapses(b, st);
    }
  }

  lemma EntriesBound()
    ensures IsForest(PATHS) && Bounds(PLAN, ANALYSIS.blockEntry)
  {
    hide Carries; hide BlockEdges; hide IsForest; hide Below; hide Proper;
    IsFixpoint();
    FixpointParts(PLAN, ANALYSIS);
    forall b: nat, e | b < 6 && e in BlockEdges(PLAN, b) ensures Carries(PLAN, ANALYSIS.blockEntry, b, e) {
      EdgeCarries(b, e);
    }
  }

  lemma Join4()
    ensures IsForest(PATHS) && Proper(PATHS, 2, OUTER) && Proper(PATHS, 2, BOTH) && Join(OUTER, BOTH) == MERGED
    ensures EdgeState(PLAN, OUTER, CleanupEdge(4, [])) == OUTER && EdgeState(PLAN, BOTH, CleanupEdge(4, [])) == BOTH
  {
    Shape();
    EdgeStates(OUTER);
    EdgeStates(BOTH);
    assert Join(OUTER, BOTH).discriminants == map[];
  }

  lemma EdgeBrings(b: nat, e: CleanupEdge)
    requires (b, e) in {(0, CleanupEdge(1, [])), (0, CleanupEdge(2, [])), (1, CleanupEdge(3, [1])),
                        (4, CleanupEdge(5, [1]))}
    ensures IsForest(PATHS) && e in BlockEdges(PLAN, b)
    ensures EdgeState(PLAN, ANALYSIS.blockExit[b], e) == ANALYSIS.blockEntry[e.target]
  {
    Shape();
    var st := ANALYSIS.blockExit[b];
    EdgeStates(st);
    Applied(st, 0);
    assert EdgeState(PLAN, st, e) == EdgeState(PLAN, st, CleanupEdge(0, e.exitedScopes));
  }

  /** Block `b` is as in `ANALYSIS`. */
  ghost predicate Pinned(c: Analysis, b: nat) {
    && |c.blockEntry| == |c.blockExit| == 6 && b < 6
    && c.blockEntry[b] == ANALYSIS.blockEntry[b] && c.blockExit[b] == ANALYSIS.blockExit[b]
  }

  ghost predicate Candidate(c: Analysis) {
    && IsForest(PATHS) && Fixpoint(PLAN, c) && Fixpoint(PLAN, ANALYSIS)
    && BelowAll(c.blockEntry, ANALYSIS.blockEntry) && |c.blockExit| == 6
  }

  lemma PinFirst(c: Analysis)
    requires Candidate(c)
    ensures Pinned(c, 0) && Pinned(c, 1) && Pinned(c, 2) && Pinned(c, 3)
  {
    hide Fixpoint; hide EdgeState; hide IsForest; hide Below; hide Proper; hide Join;
    FixpointParts(PLAN, c);
    FixpointParts(PLAN, ANALYSIS);
    PinEntry(PLAN, c, ANALYSIS, 0);
    EdgeBrings(0, CleanupEdge(1, []));
    PinEdge(PLAN, c, ANALYSIS, 0, CleanupEdge(1, []));
    EdgeBrings(0, CleanupEdge(2, []));
    PinEdge(PLAN, c, ANALYSIS, 0, CleanupEdge(2, []));
    EdgeBrings(1, CleanupEdge(3, [1]));
    PinEdge(PLAN, c, ANALYSIS, 1, CleanupEdge(3, [1]));
  }

  lemma PinLast(c: Analysis)
    requires Candidate(c) && Pinned(c, 2) && Pinned(c, 3)
    ensures Pinned(c, 4) && Pinned(c, 5)
  {
    hide Fixpoint; hide EdgeState; hide IsForest; hide Below; hide Proper; hide Join;
    Join4();
    PinJoin(PLAN, c, ANALYSIS, 3, CleanupEdge(4, []), 2, CleanupEdge(4, []));
    EdgeBrings(4, CleanupEdge(5, [1]));
    PinEdge(PLAN, c, ANALYSIS, 4, CleanupEdge(5, [1]));
  }

  lemma IsComputed()
    ensures Structured(PLAN) && Computed(PLAN) == ANALYSIS
  {
    hide BelowAll; hide Bounds; hide Fixpoint; hide Structured; hide Computed; hide IsForest;
    WellStructured();
    IsFixpoint();
    EntriesBound();
    ComputedIsLeast(PLAN, ANALYSIS.blockEntry);
    ComputedIsStable(PLAN);
    var c := Computed(PLAN);
    FixpointParts(PLAN, c);
    PinFirst(c);
    PinLast(c);
    SameAnalysis(PLAN, c, ANALYSIS);
  }

  /* ----- its flags ----- */

  const FLAGS: seq<DropFlag> := [DropFlag(0, 0)]

  lemma OneFlag()
    ensures FlagMap(FLAGS) == map[0 := 0]
  {
    assert FLAGS[..0] == [];
    assert FlagMap(FLAGS[..0]) == map[];
  }

  lemma OnlySite(b: nat, i: nat)
    requires b < 6 && i < |BLOCKS[b].operations|
    ensures IsForest(PATHS)
    ensures PathsAt(PLAN, ANALYSIS, b, i) == if b == 4 then {0} else {}
    ensures b == 4 ==> Initialization(PATHS, StateBefore(PLAN, ANALYSIS, b, i), 0) == MaybeOrPartial
    ensures b == 4 ==> IsConditional(PATHS, StateBefore(PLAN, ANALYSIS, b, i), 0)
  {
    Shape();
    if b == 4 {
      ClosingStates();
      assert IsRootOf(PATHS, 0, 0);
      assert 0 in Subtree(PATHS, 0) && MayHold(MERGED, 0);
    }
  }

  lemma FlagsAsked(p: nat)
    ensures IsForest(PATHS) && (HasFlag(FLAGS, p) <==> Asked(PLAN, ANALYSIS, p))
  {
    Shape();
    hide PathsAt; hide IsForest;
    assert FLAGS[0].path == 0;
    OnlySite(4, 0);
    assert p == 0 ==> AskedAt(PLAN, ANALYSIS, 4, 0, p);
    if Asked(PLAN, ANALYSIS, p) {
      var b: nat, i: nat :| AskedAt(PLAN, ANALYSIS, b, i, p);
      OnlySite(b, i);
    }
  }

  lemma FlagsSynthesized()
    ensures IsForest(PATHS) && Covered(PLAN, ANALYSIS, FlagMap(FLAGS))
    ensures Synthesized(PLAN, ANALYSIS, WithFlags(PLAN, ANALYSIS, FLAGS))
  {
    Shape();
    forall p ensures HasFlag(FLAGS, p) <==> Asked(PLAN, ANALYSIS, p) { FlagsAsked(p); }
    assert Numbered(FLAGS);
    hide IsForest; hide HasFlag; hide Asked; hide Numbered; hide Synthesized; hide Covered; hide FlagMap;
    WithFlagsSynthesized(PLAN, ANALYSIS, FLAGS);
  }

  /* ----- the run ----- */

  const OUT: Concrete := Concrete({1}, {1}, map[])
  const IN: Concrete := Concrete({0, 1}, {0, 1}, map[])

  /** Through the block that leaves the scope by an edge, and on to the drop site. */
  const RUN: seq<FlagConfig> := [
    FlagConfig(At(0, 0, Concrete({}, {}, map[])), {}),
    FlagConfig(At(0, 1, Concrete({1}, {}, map[])), {}),
    FlagConfig(At(0, 2, OUT), {}),
    FlagConfig(At(1, 0, OUT), {}),
    FlagConfig(At(1, 1, Concrete({0, 1}, {1}, map[])), {}),
    FlagConfig(At(1, 2, IN), {0}),
    FlagConfig(At(3, 0, OUT), {0}),
    FlagConfig(At(4, 0, OUT), {0})]

  lemma Steps(c: Concrete, x: nat)
    requires IsForest(PATHS) && c.active == map[] && x < 2
    ensures Step(PATHS, c, StorageLive(x), c.(live := c.live + {x}, leaves := c.leaves - {x}))
    ensures Step(PATHS, c, Init(x), c.(leaves := c.leaves + {x}))
    ensures EndLocals(PATHS, c, []) == c
    ensures EndLocals(PATHS, c, [0]) == c.(live := c.live - {0}, leaves := c.leaves - {0})
  {
    Shape();
    var c' := c.(leaves := c.leaves + {x});
    assert Fill(PATHS, c, x, c') by {
      forall q | q in Subtree(PATHS, x) ensures FilledAt(PATHS, c, x, c', q) {}
    }
    assert [0][..0] == [];
    assert EndLocals(PATHS, c, [0][..0]) == c;
  }

  /** The one flag is set by the initialization of its path and by nothing else on the way. */
  lemma Updates(after: State, on: set<nat>)
    requires IsForest(PATHS)
    ensures UpdateFlags(PATHS, after, StorageLive(1), map[0 := 0], on) == on * {0}
    ensures UpdateFlags(PATHS, after, Init(1), map[0 := 0], on) == on * {0}
    ensures UpdateFlags(PATHS, after, StorageLive(0), map[0 := 0], on) == {}
    ensures 0 in after.mustInit ==> UpdateFlags(PATHS, after, Init(0), map[0 := 0], on) == {0}
  {
    var flags: map<nat, nat> := map[0 := 0];
    assert DistinctFlags(flags) && 0 in flags;
    assert Parent(PATHS, 0) == None && Parent(PATHS, 1) == None;
    assert !Related(PATHS, 1, 0) && Related(PATHS, 0, 0);
    UpdateMembership(PATHS, after, StorageLive(1), flags, on, 0);
    UpdateMembership(PATHS, after, Init(1), flags, on, 0);
    UpdateMembership(PATHS, after, StorageLive(0), flags, on, 0);
    UpdateMembership(PATHS, after, Init(0), flags, on, 0);
  }

  lemma OperationSteps(i: nat)
    requires i in {0, 1, 3, 4}
    ensures IsForest(PATHS) && OpMove(PLAN, RUN[i].at, RUN[i + 1].at)
  {
    Shape();
    Steps(RUN[i].at.memory, if i < 2 then 1 else 0);
    hide Step;
  }

  lemma OperationUpdates(i: nat)
    requires i in {0, 1, 3, 4}
    ensures IsForest(PATHS)
    ensures var x, y := RUN[i], RUN[i + 1];
            UpdateFlags(PATHS, StateBefore(PLAN, ANALYSIS, y.at.block, y.at.index),
                        BLOCKS[x.at.block].operations[x.at.index], map[0 := 0], x.on) == y.on
  {
    Shape();
    Updates(StateBefore(PLAN, ANALYSIS, RUN[i + 1].at.block, RUN[i + 1].at.index), RUN[i].on);
    if i == 4 { InnerStates(1); }
    hide UpdateFlags; hide StateBefore; hide IsForest;
  }

  lemma OpenMoves(i: nat)
    requires i in {0, 1, 3, 4}
    ensures IsForest(PATHS) && FlagMove(PLAN, ANALYSIS, FlagMap(FLAGS), RUN[i], RUN[i + 1])
  {
    Shape();
    OneFlag();
    OperationSteps(i);
    OperationUpdates(i);
    hide UpdateFlags; hide StateBefore; hide OpMove; hide IsForest; hide FlagMap;
  }

  lemma EdgeMoves(i: nat, e: CleanupEdge)
    requires (i, e) in {(2, CleanupEdge(1, [])), (5, CleanupEdge(3, [1])), (6, CleanupEdge(4, []))}
    ensures IsForest(PATHS) && FlagMove(PLAN, ANALYSIS, FlagMap(FLAGS), RUN[i], RUN[i + 1])
  {
    Shape();
    Exited();
    var x, y := RUN[i], RUN[i + 1];
    Steps(x.at.memory, 0);
    assert EdgeMove(PLAN, x.at, e, y.at);
  }

  lemma RunMoves()
    ensures IsForest(PATHS) && IsFlagRun(PLAN, ANALYSIS, FlagMap(FLAGS), RUN)
  {
    Shape();
    hide FlagMove;
    forall i | 0 <= i < |RUN| - 1 ensures FlagMove(PLAN, ANALYSIS, FlagMap(FLAGS), RUN[i], RUN[i + 1]) {
      if i == 2 { EdgeMoves(2, CleanupEdge(1, [])); }
      else if i == 5 { EdgeMoves(5, CleanupEdge(3, [1])); }
      else if i == 6 { EdgeMoves(6, CleanupEdge(4, [])); }
      else { OpenMoves(i); }
    }
  }

  lemma TheSite()
    requires IsForest(PATHS) && FlagsCover(PLAN, ANALYSIS, FlagMap(FLAGS))
    ensures AtSite(PLAN, RUN[7].at, 0) && 0 in ConsultedAt(PLAN, ANALYSIS, FlagMap(FLAGS), RUN[7], 0)
  {
    assert IsRootOf(PATHS, 0, 0);
    OnlySite(4, 0);
    hide IsConditional; hide StateBefore; hide Initialization;
  }

  lemma SetButGone()
    ensures IsForest(PATHS) && !Truthful(PATHS, OUT, Leaves(PATHS), FlagMap(FLAGS), {0}, 0)
    ensures 0 in FlagMap(FLAGS) && FlagMap(FLAGS)[0] == 0
  {
    OneFlag();
    Shape();
  }

  lemma PlanVerified()
    ensures Verified(PLAN) && Computed(PLAN) == ANALYSIS
  {
    hide Accepted; hide Computed;
    PlanAccepted();
    IsComputed();
    VerifiedIsAccepted(PLAN);
  }

  /** Verification succeeds on the plan, and returns exactly these flags, actions and sites. */
  method Verify() returns (result: Result<DropFlagAnalysis, seq<VerifyError>>)
    ensures IsForest(PATHS) && Covered(PLAN, ANALYSIS, FlagMap(FLAGS))
    ensures result == Success(WithFlags(PLAN, ANALYSIS, FLAGS))
  {
    hide Verified; hide Computed; hide Accepted; hide Synthesized; hide Covered; hide IsForest; hide WithFlags;
    hide Fixpoint; hide Structured;
    PlanVerified();
    IsComputed();
    FlagsSynthesized();
    ghost var a;
    result, a := AnalyzeAndVerify(PLAN);
    SynthesizedUnique(PLAN, ANALYSIS, result.value, WithFlags(PLAN, ANALYSIS, FLAGS));
  }

  /**
   The plan is accepted, its flags are the synthesized ones, and the run starts at the entry;
   at its end the emitted site drops the value of a local whose storage an edge has ended.
   */
  lemma EdgeLeavesFlagSet()
    ensures Verified(PLAN) && Computed(PLAN) == ANALYSIS && Covered(PLAN, ANALYSIS, FlagMap(FLAGS))
    ensures Synthesized(PLAN, ANALYSIS, WithFlags(PLAN, ANALYSIS, FLAGS))
    ensures IsActionRun(PLAN, WithFlags(PLAN, ANALYSIS, FLAGS), RUN)
    ensures AtSite(PLAN, RUN[7].at, 0)
    ensures !DropsExact(PATHS, OUT, Leaves(PATHS), 0, DroppedAt(WithFlags(PLAN, ANALYSIS, FLAGS), 4, 0, RUN[7].on))
    ensures 0 in DroppedAt(WithFlags(PLAN, ANALYSIS, FLAGS), 4, 0, RUN[7].on) && 0 !in OUT.live
  {
    PlanAccepted();
    PlanVerified();
    FlagsSynthesized();
    RunMoves();
    SetButGone();
    hide Accepted; hide Verified; hide Computed; hide Synthesized; hide Covered; hide IsFlagRun; hide IsActionRun;
    hide FlagMap; hide Truthful;
    hide DropsExact; hide AtSite; hide FlagsCover; hide ConsultedAt; hide IsForest; hide DroppedAt; hide Leaves;
    var d := WithFlags(PLAN, ANALYSIS, FLAGS);
    SynthesizedCovers(PLAN, ANALYSIS, d);
    TheSite();
    WrongFlag(PLAN, ANALYSIS, d, Leaves(PATHS), RUN, 7, 0, 0);
  }
}
