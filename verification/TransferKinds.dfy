/**
 Transfers into a destination of every state. A diamond decides what is left at the
 destination: it may never have been initialized, and either branch may have moved it out.
 Exactly one kind of transfer is let through for each of these plans.
 */
module TransferKinds {
  import opened Wrappers
  import opened CleanupPlan
  import opened MovePaths
  import opened MoveStates
  import opened Checks
  import opened Structure
  import opened Runs
  import opened Lattice
  import opened ComputedAnalysis

  /* ----- the plans ----- */

  /** Whether the destination is initialized at the start, and which branches move it out. */
  datatype Story = Story(initialized: bool, thenMoves: bool, elseMoves: bool)

  /** What was never there cannot be moved out. */
  predicate Possible(x: Story) { x.initialized || (!x.thenMoves && !x.elseMoves) }

  /** A condition, the destination and the source. */
  const PATHS: seq<MovePath> := [
    MovePath(0, Place(0, []), None, false),
    MovePath(1, Place(1, []), None, true),
    MovePath(2, Place(2, []), None, false)]

  function Opening(x: Story): seq<CleanupOp> {
    [StorageLive(0), StorageLive(1), StorageLive(2), Init(0), Init(2)] + (if x.initialized then [Init(1)] else [])
  }

  function Moving(moves: bool): seq<CleanupOp> { if moves then [MoveOut(1)] else [] }

  function Blocks(x: Story, kind: TransferKind): seq<BasicBlock> {
    [BasicBlock(0, 0, Opening(x), Some(Branch(0, CleanupEdge(1, []), CleanupEdge(2, [])))),
     BasicBlock(1, 0, Moving(x.thenMoves), Some(Goto(CleanupEdge(3, [])))),
     BasicBlock(2, 0, Moving(x.elseMoves), Some(Goto(CleanupEdge(3, [])))),
     BasicBlock(3, 0, [Transfer(2, 1, kind)], Some(Return([])))]
  }

  function Diamond(x: Story, kind: TransferKind): Plan {
    Plan(0, 0, [ScopeData(0, None, RootScope, [0, 1, 2])],
         [LocalDecl(0, 0, User, Owned, 0), LocalDecl(1, 0, User, Owned, 1), LocalDecl(2, 0, User, Owned, 2)],
         PATHS, Blocks(x, kind))
  }

  lemma Shape()
    ensures IsForest(PATHS)
    ensures forall p: nat | p < 3 :: Kids(PATHS, p) == {} && Parent(PATHS, p) == None && LocalOf(PATHS, p) == p
    ensures forall p: nat | p < 3 ::
              LocalPaths(PATHS, p) == {p} && Subtree(PATHS, p) == {p} && Ancestors(PATHS, p) == {}
    ensures EnumRoots(PATHS) == {}
  {
    assert Parent(PATHS, 0) == None && Parent(PATHS, 1) == None && Parent(PATHS, 2) == None;
  }

  /* ----- they are well structured ----- */

  lemma Root(scopes: seq<ScopeData>)
    requires scopes == [ScopeData(0, None, RootScope, [0, 1, 2])]
    ensures IsAncestor(scopes, 0, 0) && Ends(scopes, 0) && NthParent(scopes, Some(0), 0) == Some(0)
  {
    assert NthParent(scopes, Some(0), 0) == Some(0);
    assert NthParent(scopes, Some(0), 1) == None;
  }

  lemma LocalsListed(x: Story, kind: TransferKind)
    ensures LocalsOk(Diamond(x, kind))
  {
    var scopes, locals := Diamond(x, kind).scopes, Diamond(x, kind).locals;
    assert scopes[..0] == [];
    forall l: nat | l < 3 ensures Memberships(scopes, l) == 1 {}
    assert locals[..1][..0] == [] && locals[..2][..1] == locals[..1] && locals[..3] == locals;
    assert ReturnPlaces(locals[..1]) == 0;
    assert ReturnPlaces(locals[..2]) == 0;
  }

  lemma PathsListed(x: Story, kind: TransferKind)
    ensures PathsOk(Diamond(x, kind))
  {
    Shape();
    assert PATHS[..1][..0] == [] && PATHS[..2][..1] == PATHS[..1] && PATHS[..3] == PATHS;
    forall l: nat | l < 3 ensures RootCount(PATHS, l) == 1 {
      assert RootCount(PATHS[..1], l) == if l == 0 then 1 else 0;
      assert RootCount(PATHS[..2], l) == if l <= 1 then 1 else 0;
    }
  }

  lemma BlockWell(x: Story, kind: TransferKind, b: nat)
    requires b < 4
    ensures BlockOk(Diamond(x, kind), b)
  {
    Root(Diamond(x, kind).scopes);
    hide NthParent; hide IsAncestor;
    var plan := Diamond(x, kind);
    forall op | op in plan.blocks[b].operations ensures OpVisible(plan, b, op) {
      hide Diamond;
      OpWell(x, kind, b, op);
    }
  }

  lemma OpWell(x: Story, kind: TransferKind, b: nat, op: CleanupOp)
    requires b < 4 && op in Diamond(x, kind).blocks[b].operations
    ensures OpVisible(Diamond(x, kind), b, op)
  {
    Root(Diamond(x, kind).scopes);
    var plan := Diamond(x, kind);
    forall p: nat | p < 3 ensures PathVisible(plan, b, p) {}
    hide PathVisible; hide NthParent; hide IsAncestor;
    if b == 0 {
      assert op in {StorageLive(0), StorageLive(1), StorageLive(2), Init(0), Init(1), Init(2)};
    } else if b < 3 {
      assert op == MoveOut(1);
    } else {
      assert op == Transfer(2, 1, kind);
    }
  }

  lemma ShapesWell(x: Story, kind: TransferKind, b: nat)
    requires b < 4
    ensures IsForest(PATHS) && BlockShapesOk(Diamond(x, kind), b)
  {
    Shape();
    assert ShapesMatch(PATHS, 2, 1);
    hide IsForest; hide Variants; hide Kids; hide ShapesMatch;
  }

  lemma WellStructured(x: Story, kind: TransferKind)
    ensures Structured(Diamond(x, kind))
  {
    Shape();
    Root(Diamond(x, kind).scopes);
    LocalsListed(x, kind);
    PathsListed(x, kind);
    hide BlockOk; hide BlockShapesOk; hide LocalsOk; hide PathsOk; hide IsForest;
    forall b: nat | b < 4 ensures BlockOk(Diamond(x, kind), b) && BlockShapesOk(Diamond(x, kind), b) {
      BlockWell(x, kind, b);
      ShapesWell(x, kind, b);
    }
  }

  /* ----- their analysis ----- */

  /** There are no enums, and all storage is live: two sets are the whole state. */
  function Simple(live: set<nat>, mayInit: set<nat>, mustInit: set<nat>): State {
    State(true, live, live, mayInit, mustInit, map[])
  }

  const ALL: set<nat> := {0, 1, 2}

  const NONE: State := Simple({}, {}, {})

  /** All storage is live, and what is `held` is initialized. */
  function Holding(held: set<nat>): State { Simple(ALL, held, held) }

  function Opened(x: Story): set<nat> { if x.initialized then {0, 1, 2} else {0, 2} }

  function Left(x: Story, moves: bool): set<nat> { Opened(x) - (if moves then {1} else {}) }

  /** What the transfer finds. */
  function Merged(x: Story): State {
    Simple(ALL, Left(x, x.thenMoves) + Left(x, x.elseMoves), Left(x, x.thenMoves) * Left(x, x.elseMoves))
  }

  function Found(x: Story): Analysis {
    Analysis([NONE, Holding(Opened(x)), Holding(Opened(x)), Merged(x)],
             [Holding(Opened(x)), Holding(Left(x, x.thenMoves)), Holding(Left(x, x.elseMoves)), Holding({0, 1})])
  }

  lemma Applied(st: State, p: nat)
    requires IsForest(PATHS) && st.discriminants == map[] && p < 3
    ensures Apply(PATHS, st, StorageLive(p)) ==
            st.(mayLive := st.mayLive + {p}, mustLive := st.mustLive + {p},
                mayInit := st.mayInit - {p}, mustInit := st.mustInit - {p})
    ensures Apply(PATHS, st, Init(p)) == st.(mayInit := st.mayInit + {p}, mustInit := st.mustInit + {p})
    ensures Apply(PATHS, st, MoveOut(p)) == st.(mayInit := st.mayInit - {p}, mustInit := st.mustInit - {p})
  {
    Shape();
    assert MarkOf(PATHS, st, p, Must, p) == Marked(Must);
    var after := MarkWhole(PATHS, st, p, Must);
    assert after.discriminants == map[];
    assert after.mayInit == st.mayInit + {p} && after.mustInit == st.mustInit + {p};
  }

  /** A transfer moves the source to the destination, whatever its kind. */
  lemma Transferred(st: State, kind: TransferKind)
    requires IsForest(PATHS) && st.discriminants == map[]
    ensures Apply(PATHS, st, Transfer(2, 1, kind)) ==
            st.(mayInit := (st.mayInit - {2}) + {1}, mustInit := (st.mustInit - {2}) + {1})
  {
    Shape();
    Applied(st, 2);
    var moved := ClearPath(PATHS, st, 2);
    Applied(moved, 1);
    var cleared := ClearPath(PATHS, moved, 1);
    Applied(cleared, 1);
  }

  /** The states within the opening block. */
  const STEPS: seq<State> := [
    NONE, Simple({0}, {}, {}), Simple({0, 1}, {}, {}), Holding({}), Holding({0}), Holding({0, 2}), Holding(ALL)]

  lemma OpeningStep(x: Story, i: nat)
    requires i < |Opening(x)|
    ensures IsForest(PATHS) && Apply(PATHS, STEPS[i], Opening(x)[i]) == STEPS[i + 1]
  {
    Shape();
    hide Apply; hide IsForest;
    var st, op := STEPS[i], Opening(x)[i];
    match op {
      case StorageLive(l) => Applied(st, l);
      case Init(p) => Applied(st, p);
      case _ =>
    }
    assert {0} + {2} == {0, 2} && {0, 2} + {1} == {0, 1, 2} && {0} + {1} == {0, 1} && {0, 1} + {2} == {0, 1, 2};
  }

  lemma {:induction false} OpeningStates(x: Story, i: nat)
    requires i <= |Opening(x)|
    ensures IsForest(PATHS) && ApplyAll(PATHS, NONE, Opening(x)[..i]) == STEPS[i]
  {
    Shape();
    hide Apply; hide IsForest;
    ApplyAllPrefix(PATHS, NONE, Opening(x), i);
    if i > 0 {
      OpeningStates(x, i - 1);
      OpeningStep(x, i - 1);
    }
  }

  lemma MovingStates(held: set<nat>, moves: bool)
    ensures IsForest(PATHS)
    ensures ApplyAll(PATHS, Holding(held), Moving(moves)) == Holding(held - (if moves then {1} else {}))
  {
    Shape();
    Applied(Holding(held), 1);
    hide Apply; hide IsForest;
    ApplyAllPrefix(PATHS, Holding(held), Moving(moves), 0);
    if moves { ApplyAllPrefix(PATHS, Holding(held), Moving(moves), 1); }
    assert Moving(moves)[..|Moving(moves)|] == Moving(moves);
  }

  lemma LastStates(x: Story, kind: TransferKind)
    ensures IsForest(PATHS) && ApplyAll(PATHS, Merged(x), [Transfer(2, 1, kind)]) == Holding({0, 1})
  {
    Shape();
    Transferred(Merged(x), kind);
    hide Apply; hide IsForest;
    ApplyAllPrefix(PATHS, Merged(x), [Transfer(2, 1, kind)], 0);
    ApplyAllPrefix(PATHS, Merged(x), [Transfer(2, 1, kind)], 1);
    assert [Transfer(2, 1, kind)][..1] == [Transfer(2, 1, kind)];
  }

  lemma BlockFolds(x: Story, kind: TransferKind, b: nat)
    requires b < 4
    ensures IsForest(PATHS)
    ensures ApplyAll(PATHS, Found(x).blockEntry[b], Blocks(x, kind)[b].operations) == Found(x).blockExit[b]
  {
    hide ApplyAll; hide IsForest; hide Merged; hide Left;
    Shape();
    if b == 0 {
      OpeningStates(x, |Opening(x)|);
      assert Opening(x)[..|Opening(x)|] == Opening(x);
    } else if b < 3 {
      MovingStates(Opened(x), if b == 1 then x.thenMoves else x.elseMoves);
      LeftIs(x, if b == 1 then x.thenMoves else x.elseMoves);
    } else {
      LastStates(x, kind);
    }
  }

  lemma LeftIs(x: Story, moves: bool)
    ensures Left(x, moves) == Opened(x) - (if moves then {1} else {})
  {
  }

  /** No edge ends any storage. */
  lemma EdgeKeeps(x: Story, kind: TransferKind, b: nat, st: State, e: CleanupEdge)
    requires b < 4 && e in BlockEdges(Diamond(x, kind), b)
    ensures IsForest(PATHS) && EdgeState(Diamond(x, kind), st, e) == st
    ensures e.target < 4 && e == CleanupEdge(e.target, [])
    ensures (b, e.target) in {(0, 1), (0, 2), (1, 3), (2, 3)}
  {
    Shape();
  }

  lemma BlockFlows(x: Story, kind: TransferKind, b: nat)
    requires b < 4
    ensures IsForest(PATHS) && Flows(Diamond(x, kind), Found(x), b)
  {
    Shape();
    hide EdgeState; hide BlockEdges; hide IsForest;
    forall e | e in BlockEdges(Diamond(x, kind), b)
      ensures e.target < 4
      ensures Below(EdgeState(Diamond(x, kind), Found(x).blockExit[b], e), Found(x).blockEntry[e.target])
    {
      EdgeKeeps(x, kind, b, Found(x).blockExit[b], e);
    }
  }

  lemma IsFixpoint(x: Story, kind: TransferKind)
    ensures IsForest(PATHS) && Fixpoint(Diamond(x, kind), Found(x))
  {
    Shape();
    forall b: nat | b < 4 ensures Folds(Diamond(x, kind), Found(x), b) && Flows(Diamond(x, kind), Found(x), b) {
      hide Flows; hide IsForest; hide ApplyAll;
      BlockFolds(x, kind, b);
      BlockFlows(x, kind, b);
    }
    assert NewState(PATHS, true) == NONE;
    hide Folds; hide Flows; hide IsForest;
  }

  /* ----- it is the computed analysis ----- */

  /** Only one state lies below a state that leaves nothing open. */
  lemma NothingOpen(st: State, bound: State)
    requires IsForest(PATHS) && Proper(PATHS, 3, st) && st.reachable && Below(st, bound)
    requires bound.mayLive == bound.mustLive && bound.mayInit == bound.mustInit && bound.discriminants == map[]
    ensures st == bound
  {
    Shape();
  }

  lemma EdgeCarries(x: Story, kind: TransferKind, b: nat, e: CleanupEdge)
    requires b < 4 && e in BlockEdges(Diamond(x, kind), b)
    ensures IsForest(PATHS) && Carries(Diamond(x, kind), Found(x).blockEntry, b, e)
  {
    hide ApplyAll; hide EdgeState; hide Proper; hide IsForest; hide Below; hide BlockEdges; hide Merged;
    Shape();
    EdgeKeeps(x, kind, b, NONE, e);
    BlockFlows(x, kind, b);
    forall st | Proper(PATHS, 3, st) && st.reachable && Below(st, Found(x).blockEntry[b])
      ensures Below(EdgeState(Diamond(x, kind), ApplyAll(PATHS, st, Blocks(x, kind)[b].operations), e),
                    Found(x).blockEntry[e.target])
    {
      NothingOpen(st, Found(x).blockEntry[b]);
      BlockFolds(x, kind, b);
      EdgeKeeps(x, kind, b, Found(x).blockExit[b], e);
    }
  }

  lemma EntriesBound(x: Story, kind: TransferKind)
    ensures IsForest(PATHS) && Bounds(Diamond(x, kind), Found(x).blockEntry)
  {
    hide Carries; hide BlockEdges; hide IsForest; hide Below; hide Proper;
    IsFixpoint(x, kind);
    FixpointParts(Diamond(x, kind), Found(x));
    forall b: nat, e | b < 4 && e in BlockEdges(Diamond(x, kind), b)
      ensures Carries(Diamond(x, kind), Found(x).blockEntry, b, e)
    {
      EdgeCarries(x, kind, b, e);
    }
  }

  lemma Meeting(x: Story)
    ensures IsForest(PATHS) && Proper(PATHS, 3, Holding(Left(x, x.thenMoves)))
    ensures Proper(PATHS, 3, Holding(Left(x, x.elseMoves)))
    ensures Join(Holding(Left(x, x.thenMoves)), Holding(Left(x, x.elseMoves))) == Merged(x)
  {
    Shape();
    assert Join(Holding(Left(x, x.thenMoves)), Holding(Left(x, x.elseMoves))).discriminants == map[];
  }

  lemma EdgeBrings(x: Story, kind: TransferKind, b: nat, target: nat)
    requires (b, target) in {(0, 1), (0, 2), (1, 3), (2, 3)}
    ensures IsForest(PATHS) && CleanupEdge(target, []) in BlockEdges(Diamond(x, kind), b)
    ensures EdgeState(Diamond(x, kind), Found(x).blockExit[b], CleanupEdge(target, [])) == Found(x).blockExit[b]
  {
    assert CleanupEdge(target, []) in BlockEdges(Diamond(x, kind), b);
    EdgeKeeps(x, kind, b, Found(x).blockExit[b], CleanupEdge(target, []));
  }

  lemma IsComputed(x: Story, kind: TransferKind)
    ensures Structured(Diamond(x, kind)) && Computed(Diamond(x, kind)) == Found(x)
  {
    hide BelowAll; hide Bounds; hide Fixpoint; hide Structured; hide EdgeState; hide Computed; hide IsForest;
    hide Below; hide Proper; hide Join; hide BlockEdges;
    var plan := Diamond(x, kind);
    WellStructured(x, kind);
    IsFixpoint(x, kind);
    EntriesBound(x, kind);
    ComputedIsLeast(plan, Found(x).blockEntry);
    ComputedIsStable(plan);
    var c := Computed(plan);
    FixpointParts(plan, c);
    FixpointParts(plan, Found(x));
    PinAll(x, kind, c);
    SameAnalysis(plan, c, Found(x));
  }

  lemma StartsEmpty()
    ensures IsForest(PATHS) && NewState(PATHS, true) == NONE
  {
    Shape();
  }

  lemma PinAll(x: Story, kind: TransferKind, c: Analysis)
    requires IsForest(PATHS) && Fixpoint(Diamond(x, kind), c) && Fixpoint(Diamond(x, kind), Found(x))
    requires BelowAll(c.blockEntry, Found(x).blockEntry)
    ensures |c.blockEntry| == |c.blockExit| == 4
    ensures forall b: nat | b < 4 ::
              c.blockEntry[b] == Found(x).blockEntry[b] && c.blockExit[b] == Found(x).blockExit[b]
  {
    hide Fixpoint; hide EdgeState; hide IsForest; hide Below; hide Proper; hide Join; hide BlockEdges;
    var plan, a := Diamond(x, kind), Found(x);
    FixpointParts(plan, c);
    FixpointParts(plan, a);
    StartsEmpty();
    PinEntry(plan, c, a, 0);
    EdgeBrings(x, kind, 0, 1);
    PinEdge(plan, c, a, 0, CleanupEdge(1, []));
    EdgeBrings(x, kind, 0, 2);
    PinEdge(plan, c, a, 0, CleanupEdge(2, []));
    EdgeBrings(x, kind, 1, 3);
    EdgeBrings(x, kind, 2, 3);
    Meeting(x);
    PinJoin(plan, c, a, 1, CleanupEdge(3, []), 2, CleanupEdge(3, []));
  }

  /* ----- the verdict ----- */

  /** The kind that says what is left at the destination. */
  function Fitting(x: Story): TransferKind {
    if !x.initialized || (x.thenMoves && x.elseMoves) then Initialize
    else if x.thenMoves || x.elseMoves then MaybeOverwrite
    else OverwriteKind
  }

  lemma Ready(st: State, p: nat)
    requires IsForest(PATHS) && p < 3 && st.discriminants == map[]
    ensures PathReady(PATHS, st, p) <==> p in st.mustLive
    ensures Initialization(PATHS, st, p) ==
            if p in st.mustInit then Initialized else if p in st.mayInit then MaybeOrPartial else Uninitialized
  {
    Shape();
    assert p in Subtree(PATHS, p);
    assert MayHold(st, p) <==> p in st.mayInit;
  }

  lemma OpeningStable(x: Story, i: nat)
    requires i < |Opening(x)|
    ensures IsForest(PATHS) && OpStateOk(PATHS, STEPS[i], Opening(x)[i])
  {
    Shape();
    Ready(STEPS[i], 0);
    Ready(STEPS[i], 1);
    Ready(STEPS[i], 2);
    hide PathReady; hide IsForest;
  }

  lemma LastStable(x: Story, kind: TransferKind)
    ensures IsForest(PATHS)
    ensures OpStateOk(PATHS, Merged(x), Transfer(2, 1, kind)) <==> kind == Fitting(x)
  {
    Shape();
    Ready(Merged(x), 1);
    Ready(Merged(x), 2);
    hide PathReady; hide IsForest; hide Initialization;
  }

  lemma MovingStable(x: Story)
    requires x.initialized
    ensures IsForest(PATHS) && OpStateOk(PATHS, Holding(Opened(x)), MoveOut(1))
  {
    Shape();
    Ready(Holding(Opened(x)), 1);
    hide PathReady; hide IsForest; hide Initialization;
  }

  lemma OpeningBlock(x: Story, kind: TransferKind)
    ensures IsForest(PATHS) && StableBlock(Diamond(x, kind), Found(x), 0)
  {
    Shape();
    var ops := Opening(x);
    assert ops[..|ops|] == ops;
    assert RootStateOk(PATHS, Holding(Opened(x)), 0) by {
      Ready(Holding(Opened(x)), 0);
      assert PATHS[0].parent == None && LocalOf(PATHS, 0) == 0;
    }
    hide OpStateOk; hide IsForest; hide ApplyAll; hide Apply; hide RootStateOk;
    forall i | 0 <= i < |ops| ensures OpStateOk(PATHS, StateBefore(Diamond(x, kind), Found(x), 0, i), ops[i]) {
      OpeningStates(x, i);
      OpeningStable(x, i);
    }
    OpeningStates(x, |ops|);
  }

  lemma MovingBlock(x: Story, kind: TransferKind, b: nat)
    requires Possible(x) && 1 <= b <= 2
    ensures IsForest(PATHS) && StableBlock(Diamond(x, kind), Found(x), b)
  {
    Shape();
    if x.initialized { MovingStable(x); }
    hide OpStateOk; hide IsForest; hide ApplyAll; hide Apply;
    ApplyAllPrefix(PATHS, Holding(Opened(x)), Diamond(x, kind).blocks[b].operations, 0);
  }

  lemma LastBlock(x: Story, kind: TransferKind)
    ensures IsForest(PATHS) && (StableBlock(Diamond(x, kind), Found(x), 3) <==> kind == Fitting(x))
  {
    Shape();
    LastStable(x, kind);
    hide OpStateOk; hide IsForest; hide ApplyAll; hide Apply; hide Fitting; hide Merged;
    ApplyAllPrefix(PATHS, Merged(x), [Transfer(2, 1, kind)], 0);
    var plan := Diamond(x, kind);
    assert plan.blocks[3].operations[0] == Transfer(2, 1, kind);
    assert StateBefore(plan, Found(x), 3, 0) == Merged(x);
  }

  /** Every block but the last is accepted, and the last one if its transfer fits. */
  lemma BlockStable(x: Story, kind: TransferKind, b: nat)
    requires Possible(x) && b < 4
    ensures IsForest(PATHS) && (StableBlock(Diamond(x, kind), Found(x), b) <==> b < 3 || kind == Fitting(x))
  {
    hide *;
    if b == 0 { OpeningBlock(x, kind); } else if b < 3 { MovingBlock(x, kind, b); } else { LastBlock(x, kind); }
  }

  /**
   The diamond of every story is verified with the one kind of transfer that says what is
   left at the destination, and with no other. In particular `MaybeOverwrite` is for a
   destination that one branch has moved out, and not for one that was never initialized.
   */
  lemma VerifiedExactly(x: Story, kind: TransferKind)
    requires Possible(x)
    ensures Verified(Diamond(x, kind)) <==> kind == Fitting(x)
  {
    var plan, a := Diamond(x, kind), Found(x);
    hide Structured; hide StableBlock; hide Computed; hide Fixpoint; hide Fitting;
    WellStructured(x, kind);
    IsComputed(x, kind);
    IsFixpoint(x, kind);
    forall b: nat | b < 4 ensures StableBlock(plan, a, b) <==> b < 3 || kind == Fitting(x) {
      BlockStable(x, kind, b);
    }
    assert forall b: nat | b < 4 :: a.blockEntry[b].reachable;
    if kind != Fitting(x) { assert !StableBlock(plan, a, 3); }
  }
}
