/**
 In a verified plan every state the analysis computes is consistent with itself. The worklist
 passes through smaller states on the way, in which the operations are ready all the same.
 */
module TightPlans {
  import opened Wrappers
  import opened CleanupPlan
  import opened MovePaths
  import opened MoveStates
  import opened Checks
  import opened Semantics
  import opened Structure
  import opened Simulation
  import opened Lattice
  import opened Runs
  import PlanVerifier
  import opened Worklist
  import opened ComputedAnalysis
  import opened TightStates
  import opened Monotone
  import opened Exactness

  /* ----- one block ----- */

  lemma TightIsUnder(f: Forest, n: nat, s: State, t: State)
    requires Tight(f, s) && Proper(f, n, s) && Proper(f, n, t) && s.reachable && Below(s, t)
    ensures Under(f, s, t)
  {
    ProperIsShaped(f, n, s);
    ProperIsShaped(f, n, t);
    AllDiscsFit(f, s);
  }

  lemma OpOfBlock(plan: Plan, a: Analysis, b: nat, i: nat)
    requires Structured(plan) && |a.blockEntry| == |plan.blocks| && b < |plan.blocks| && StableBlock(plan, a, b)
    requires i < |plan.blocks[b].operations|
    ensures var op := plan.blocks[b].operations[i];
            && OpShapeOk(plan.movePaths, op) && LocalInRange(|plan.locals|, op)
            && OpReady(plan.movePaths, StateBefore(plan, a, b, i), op)
  {
    var op := plan.blocks[b].operations[i];
    assert op in plan.blocks[b].operations;
    VisibleShapes(plan, b, op);
    hide Structured; hide StateBefore;
    AcceptedIsReady(plan.movePaths, StateBefore(plan, a, b, i), op);
  }

  /** Folding from a smaller entry state: smaller states, and consistent ones. */
  lemma {:induction false} FoldTight(plan: Plan, a: Analysis, st: State, b: nat, i: nat)
    requires Structured(plan) && |a.blockEntry| == |plan.blocks| && b < |plan.blocks| && StableBlock(plan, a, b)
    requires Proper(plan.movePaths, |plan.locals|, a.blockEntry[b]) && Proper(plan.movePaths, |plan.locals|, st)
    requires st.reachable && Tight(plan.movePaths, st) && Below(st, a.blockEntry[b])
    requires i <= |plan.blocks[b].operations|
    ensures var s := ApplyAll(plan.movePaths, st, plan.blocks[b].operations[..i]);
            Under(plan.movePaths, s, StateBefore(plan, a, b, i)) && Tight(plan.movePaths, s)
  {
    var f, ops := plan.movePaths, plan.blocks[b].operations;
    ApplyAllPrefix(f, st, ops, i);
    ApplyAllPrefix(f, a.blockEntry[b], ops, i);
    if i == 0 {
      TightIsUnder(f, |plan.locals|, st, a.blockEntry[b]);
    } else {
      FoldTight(plan, a, st, b, i - 1);
      OpOfBlock(plan, a, b, i - 1);
      var s, t := ApplyAll(f, st, ops[..i - 1]), StateBefore(plan, a, b, i - 1);
      hide Structured; hide Tight; hide Apply; hide OpReady; hide StableBlock; hide Below; hide Proper;
      ReadyUnder(f, s, t, ops[i - 1]);
      ApplyKeeps(f, s, ops[i - 1]);
      ApplyUnder(f, s, t, ops[i - 1]);
    }
  }

  /* ----- the worklist ----- */

  ghost predicate AllTight(f: Forest, entries: seq<State>) {
    forall b | 0 <= b < |entries| && entries[b].reachable :: Tight(f, entries[b])
  }

  lemma BelowItself(f: Forest, n: nat, st: State)
    requires Proper(f, n, st)
    ensures Below(st, st)
  {
  }

  /** Following an edge only raises entry states, and keeps them consistent. */
  lemma FollowRaises(plan: Plan, w: Work, b: nat, e: CleanupEdge)
    requires Fits(plan, w) && b < |plan.blocks| && Proper(plan.movePaths, |plan.locals|, w.exits[b])
    requires forall c | 0 <= c < |w.entries| :: Proper(plan.movePaths, |plan.locals|, w.entries[c])
    ensures BelowAll(w.entries, Follow(plan, w, b, e).entries)
    ensures AllTight(plan.movePaths, w.entries) && w.exits[b].reachable && Tight(plan.movePaths, w.exits[b]) ==>
              AllTight(plan.movePaths, Follow(plan, w, b, e).entries)
  {
    var f, n := plan.movePaths, |plan.locals|;
    var after := Follow(plan, w, b, e).entries;
    forall c | 0 <= c < |w.entries| ensures Below(w.entries[c], w.entries[c]) { BelowItself(f, n, w.entries[c]); }
    if e.target < |plan.blocks| {
      var incoming := EdgeState(plan, w.exits[b], e);
      ProperEndAll(f, n, w.exits[b], ExitedLocals(plan, e.exitedScopes));
      JoinIsUpperBound(f, n, w.entries[e.target], incoming);
      if AllTight(f, w.entries) && w.exits[b].reachable && Tight(f, w.exits[b]) {
        EndAllKeeps(f, w.exits[b], ExitedLocals(plan, e.exitedScopes));
        ProperIsShaped(f, n, w.entries[e.target]);
        ProperIsShaped(f, n, incoming);
        JoinKeeps(f, w.entries[e.target], incoming);
      }
    }
  }

  lemma BelowAllTransitive(x: seq<State>, y: seq<State>, z: seq<State>)
    requires BelowAll(x, y) && BelowAll(y, z)
    ensures BelowAll(x, z)
  {
    forall b | 0 <= b < |x| ensures Below(x[b], z[b]) { BelowTransitive(x[b], y[b], z[b]); }
  }

  lemma {:induction false} FollowedRaises(plan: Plan, w: Work, b: nat, j: nat)
    requires Fits(plan, w) && b < |plan.blocks| && j <= |BlockEdges(plan, b)|
    requires Underway(plan, w.entries, w.exits, w.queue, b, 0)
    ensures BelowAll(w.entries, Followed(plan, w, b, j).entries)
    ensures AllTight(plan.movePaths, w.entries) && w.exits[b].reachable && Tight(plan.movePaths, w.exits[b]) ==>
              AllTight(plan.movePaths, Followed(plan, w, b, j).entries)
    decreases j
  {
    hide AllTight; hide Tight; hide BelowAll; hide Underway; hide Proper; hide IsForest; hide BlockEdges; hide Follow;
    if j == 0 {
      UnderwayIsProper(plan, w, b, 0);
      NothingRaised(plan, w);
    } else {
      FollowedRaises(plan, w, b, j - 1);
      FollowedUnderway(plan, w, b, j - 1);
      var v := Followed(plan, w, b, j - 1);
      UnderwayIsProper(plan, v, b, j - 1);
      FollowRaises(plan, v, b, BlockEdges(plan, b)[j - 1]);
      FollowedMore(plan, w, b, j - 1);
      BelowAllTransitive(w.entries, v.entries, Followed(plan, w, b, j).entries);
    }
  }

  lemma NothingRaised(plan: Plan, w: Work)
    requires IsForest(plan.movePaths)
    requires forall c | 0 <= c < |w.entries| :: Proper(plan.movePaths, |plan.locals|, w.entries[c])
    ensures BelowAll(w.entries, w.entries)
  {
    forall c | 0 <= c < |w.entries| ensures Below(w.entries[c], w.entries[c]) {
      BelowItself(plan.movePaths, |plan.locals|, w.entries[c]);
    }
  }

  lemma SettledProper(plan: Plan, w: Work)
    requires WorkSettled(plan, w)
    ensures IsForest(plan.movePaths) && |w.entries| == |plan.blocks|
    ensures forall c | 0 <= c < |w.entries| :: Proper(plan.movePaths, |plan.locals|, w.entries[c])
  {
  }

  lemma TurnRaises(plan: Plan, w: Work)
    requires WorkSettled(plan, w) && w.queue != [] && Fits(plan, w) && w.queue[0] < |plan.blocks|
    ensures BelowAll(w.entries, Turn(plan, w).entries)
    ensures AllTight(plan.movePaths, w.entries) && BlockResult(plan, w, w.queue[0]).reachable
            && Tight(plan.movePaths, BlockResult(plan, w, w.queue[0])) ==>
              AllTight(plan.movePaths, Turn(plan, w).entries)
  {
    hide AllTight; hide Tight; hide BelowAll; hide Underway; hide Proper; hide IsForest; hide BlockEdges; hide Settled;
    hide Followed; hide ApplyAll;
    TurnCases(plan, w);
    SettledProper(plan, w);
    NothingRaised(plan, w);
    var b := w.queue[0];
    var exit := BlockResult(plan, w, b);
    if exit != w.exits[b] {
      FollowedRaises(plan, Work(w.entries, w.exits[b := exit], w.queue[1..]), b, |BlockEdges(plan, b)|);
    }
  }

  /** What is drained lies above where it started. */
  lemma {:induction false} DrainedAbove(plan: Plan, w: Work)
    requires IsForest(plan.movePaths) && WorkSettled(plan, w)
    ensures BelowAll(w.entries, Drained(plan, w).blockEntry)
    decreases Measure(plan, w), |w.queue|
  {
    hide Settled; hide IsForest; hide BelowAll; hide Turn; hide Measure; hide Spent; hide Drained;
    if w.queue == [] {
      DrainedAtLast(plan, w);
      SettledProper(plan, w);
      NothingRaised(plan, w);
    } else {
      TurnDrains(plan, w);
      TurnRaises(plan, w);
      DrainedAbove(plan, Turn(plan, w));
      BelowAllTransitive(w.entries, Turn(plan, w).entries, Drained(plan, w).blockEntry);
    }
  }

  /** One turn, towards an analysis that passes the checks. */
  lemma TurnTight(plan: Plan, w: Work, a: Analysis)
    requires WorkSettled(plan, w) && w.queue != [] && Fits(plan, w) && w.queue[0] < |plan.blocks|
    requires Structured(plan) && Fixpoint(plan, a) && Stable(plan, a) && BelowAll(w.entries, a.blockEntry)
    requires AllTight(plan.movePaths, w.entries)
    ensures AllTight(plan.movePaths, Turn(plan, w).entries)
  {
    var b := w.queue[0];
    SettledIsProper(plan, w);
    var st, ops := w.entries[b], plan.blocks[b].operations;
    assert Tight(plan.movePaths, st) && Below(st, a.blockEntry[b]) && StableBlock(plan, a, b);
    FixpointParts(plan, a);
    hide Tight; hide Settled; hide Structured; hide Fixpoint; hide Stable; hide StableBlock; hide Proper; hide Turn;
    hide BelowAll; hide AllTight; hide IsForest; hide ApplyAll;
    FoldTight(plan, a, st, b, |ops|);
    assert ops[..|ops|] == ops;
    TurnRaises(plan, w);
  }

  lemma {:induction false} DrainedTight(plan: Plan, w: Work)
    requires Structured(plan) && WorkSettled(plan, w) && AllTight(plan.movePaths, w.entries)
    requires |Drained(plan, w).blockEntry| == |plan.blocks| && Stable(plan, Drained(plan, w))
    ensures AllTight(plan.movePaths, Drained(plan, w).blockEntry)
    decreases Measure(plan, w), |w.queue|
  {
    StructuredForest(plan);
    hide Settled; hide IsForest; hide BelowAll; hide Turn; hide Measure; hide Spent; hide Drained; hide Structured;
    hide AllTight; hide Stable; hide Fixpoint;
    if w.queue == [] {
      DrainedAtLast(plan, w);
    } else {
      TurnDrains(plan, w);
      DrainedIsStable(plan, w);
      DrainedAbove(plan, w);
      TurnTight(plan, w, Drained(plan, w));
      DrainedTight(plan, Turn(plan, w));
    }
  }

  lemma BeginningTight(plan: Plan)
    requires Structured(plan)
    ensures IsForest(plan.movePaths) && AllTight(plan.movePaths, Beginning(plan).entries)
  {
    NewIsTight(plan.movePaths);
  }

  /* ----- verified plans ----- */

  lemma EntriesTight(plan: Plan)
    requires Verified(plan)
    ensures IsForest(plan.movePaths) && AllTight(plan.movePaths, Computed(plan).blockEntry)
  {
    BeginningTight(plan);
    hide Drained; hide AllTight; hide Stable; hide Beginning; hide Structured;
    DrainedTight(plan, Beginning(plan));
  }

  /**
   Every state of a verified plan is consistent with itself. In particular an aggregate whose
   children are all certainly complete is certainly complete, and so is an enum known to have
   selected a variant whose payload is.
   */
  lemma VerifiedIsTight(plan: Plan, b: nat, i: nat)
    requires Verified(plan) && b < |plan.blocks| && i <= |plan.blocks[b].operations|
    requires Computed(plan).blockEntry[b].reachable
    ensures Tight(plan.movePaths, StateBefore(plan, Computed(plan), b, i))
  {
    EntriesTight(plan);
    ComputedIsStable(plan);
    var a := Computed(plan);
    assert StableBlock(plan, a, b) && Tight(plan.movePaths, a.blockEntry[b]);
    FixpointParts(plan, a);
    hide Tight; hide Computed; hide StableBlock; hide Fixpoint; hide Stable; hide Structured; hide AllTight;
    BelowItself(plan.movePaths, |plan.locals|, a.blockEntry[b]);
    hide Proper; hide Below;
    FoldTight(plan, a, a.blockEntry[b], b, i);
  }

  /**
   So in a verified plan every state says exactly what holds in all memories it describes, and
   every operation is checked for exactly what is safe in them.
   */
  lemma VerifiedIsExact(plan: Plan, b: nat, i: nat)
    requires Verified(plan) && b < |plan.blocks| && i < |plan.blocks[b].operations|
    requires Computed(plan).blockEntry[b].reachable
    ensures var f, st, op := plan.movePaths, StateBefore(plan, Computed(plan), b, i), plan.blocks[b].operations[i];
            && Consistent(f, st) && OpShapeOk(f, op) && AlwaysSafe(f, st, op) && KindFits(f, st, op)
            && forall q: nat | q < |f| ::
                 && (q in st.mustInit <==> forall c | Represents(f, st, c) :: Full(f, c, q))
                 && (q in st.mayInit <==> exists c :: Represents(f, st, c) && Full(f, c, q))
  {
    var a, f, op := Computed(plan), plan.movePaths, plan.blocks[b].operations[i];
    var st := StateBefore(plan, a, b, i);
    VerifiedIsTight(plan, b, i);
    ComputedIsStable(plan);
    assert StableBlock(plan, a, b) && OpStateOk(f, st, op);
    assert op in plan.blocks[b].operations;
    VisibleShapes(plan, b, op);
    PlanVerifier.ProperBefore(plan, a, b, i);
    hide Tight; hide Computed; hide StableBlock; hide Fixpoint; hide Stable; hide Structured; hide AllTight;
    hide OpShapeOk; hide OpStateOk; hide StateBefore; hide AlwaysSafe; hide KindFits;
    ProperIsShaped(f, |plan.locals|, st);
    ReachableBefore(plan, a, b, i);
    ChecksExact(f, st, op);
    forall q: nat | q < |f|
      ensures q in st.mustInit <==> forall c | Represents(f, st, c) :: Full(f, c, q)
      ensures q in st.mayInit <==> exists c :: Represents(f, st, c) && Full(f, c, q)
    {
      SaysExactly(f, st, q);
    }
  }

  lemma ReachableBefore(plan: Plan, a: Analysis, b: nat, i: nat)
    requires Structured(plan) && Fixpoint(plan, a) && b < |plan.blocks| && i <= |plan.blocks[b].operations|
    requires a.blockEntry[b].reachable
    ensures StateBefore(plan, a, b, i).reachable
  {
    var ops := plan.blocks[b].operations;
    forall op | op in ops[..i] ensures OpShapeOk(plan.movePaths, op) && LocalInRange(|plan.locals|, op) {
      assert op in ops;
      VisibleShapes(plan, b, op);
    }
    ProperApplyAll(plan.movePaths, |plan.locals|, a.blockEntry[b], ops[..i]);
  }
}
