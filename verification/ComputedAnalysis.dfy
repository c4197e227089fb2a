/**
 The analysis that the worklist of `MoveStateAnalysis::compute` arrives at, as a function of
 the plan: it is stable, and it lies below everything that bounds the states of the plan.
 */
module ComputedAnalysis {
  import opened CleanupPlan
  import opened MovePaths
  import opened MoveStates
  import opened Structure
  import opened Lattice
  import opened Runs
  import opened Worklist

  /** The states at the entries and exits of the blocks, and the blocks waiting. */
  datatype Work = Work(entries: seq<State>, exits: seq<State>, queue: seq<BlockId>)

  /** One entry and one exit state for each block. */
  ghost predicate Fits(plan: Plan, w: Work) {
    IsForest(plan.movePaths) && |w.entries| == |plan.blocks| == |w.exits|
  }

  /** An edge whose target exists; verified plans have no other. */
  ghost function Follow(plan: Plan, w: Work, b: nat, e: CleanupEdge): (w': Work)
    requires Fits(plan, w) && b < |plan.blocks|
    ensures Fits(plan, w') && w'.exits == w.exits
  {
    if e.target < |plan.blocks| then
      Work(AfterEdge(plan, w.entries, w.exits[b], e), w.exits,
           Pushed(w.queue, e.target, Changes(plan, w.entries, w.exits[b], e)))
    else w
  }

  /** The first `j` edges of `b`, one after the other. */
  ghost function Followed(plan: Plan, w: Work, b: nat, j: nat): (w': Work)
    requires Fits(plan, w) && b < |plan.blocks| && j <= |BlockEdges(plan, b)|
    ensures Fits(plan, w') && w'.exits == w.exits
  {
    if j == 0 then w else Follow(plan, Followed(plan, w, b, j - 1), b, BlockEdges(plan, b)[j - 1])
  }

  ghost function BlockResult(plan: Plan, w: Work, b: nat): State
    requires Fits(plan, w) && b < |plan.blocks|
  {
    ApplyAll(plan.movePaths, w.entries[b], plan.blocks[b].operations)
  }

  /** One turn: the first block in the queue, and its edges if its exit state is new. */
  ghost function Turn(plan: Plan, w: Work): (w': Work)
    requires Fits(plan, w) && w.queue != [] && w.queue[0] < |plan.blocks|
    ensures Fits(plan, w')
  {
    var b := w.queue[0];
    var exit := BlockResult(plan, w, b);
    if exit == w.exits[b] then w.(queue := w.queue[1..])
    else Followed(plan, Work(w.entries, w.exits[b := exit], w.queue[1..]), b, |BlockEdges(plan, b)|)
  }

  ghost predicate WorkSettled(plan: Plan, w: Work) {
    Settled(plan, w.entries, w.exits, w.queue)
  }

  lemma {:induction false} FollowedUnderway(plan: Plan, w: Work, b: nat, j: nat)
    requires Fits(plan, w) && b < |plan.blocks| && j <= |BlockEdges(plan, b)|
    requires Underway(plan, w.entries, w.exits, w.queue, b, 0)
    ensures var w' := Followed(plan, w, b, j);
            && Underway(plan, w'.entries, w'.exits, w'.queue, b, j)
            && Spent(plan, w'.entries, w'.queue, w.entries, w.queue)
    decreases j
  {
    hide Underway; hide Spent; hide IsForest; hide AfterEdge; hide Changes; hide Pushed; hide BlockEdges;
    if j == 0 {
      SpentNothing(plan, w.entries, w.queue);
    } else {
      FollowedUnderway(plan, w, b, j - 1);
      var v := Followed(plan, w, b, j - 1);
      FollowStep(plan, v.entries, v.exits, v.queue, b, j - 1, w.entries, w.queue);
    }
  }

  /** A turn keeps the invariant and uses up some of what is left to climb, or of the queue. */
  lemma TurnSettles(plan: Plan, w: Work)
    requires WorkSettled(plan, w) && w.queue != []
    ensures Fits(plan, w) && w.queue[0] < |plan.blocks| && WorkSettled(plan, Turn(plan, w))
    ensures Spent(plan, Turn(plan, w).entries, Turn(plan, w).queue, w.entries, w.queue[1..])
  {
    hide Settled; hide Underway; hide Spent; hide IsForest; hide Followed; hide ApplyAll; hide BlockEdges;
    SettledShape(plan, w.entries, w.exits, w.queue);
    TakeBlock(plan, w.entries, w.exits, w.queue);
    SpentNothing(plan, w.entries, w.queue[1..]);
    var b := w.queue[0];
    var exit := BlockResult(plan, w, b);
    if exit != w.exits[b] {
      var taken := Work(w.entries, w.exits[b := exit], w.queue[1..]);
      FollowedUnderway(plan, taken, b, |BlockEdges(plan, b)|);
      var done := Followed(plan, taken, b, |BlockEdges(plan, b)|);
      BlockDone(plan, done.entries, done.exits, done.queue, b);
    }
  }

  ghost function Measure(plan: Plan, w: Work): int
    requires IsForest(plan.movePaths)
  {
    TotalSlack(plan.movePaths, |plan.locals|, w.entries)
  }

  /** Turns until the queue is empty. */
  ghost function Drained(plan: Plan, w: Work): Analysis
    requires IsForest(plan.movePaths) && WorkSettled(plan, w)
    decreases Measure(plan, w), |w.queue|
  {
    if w.queue == [] then Analysis(w.entries, w.exits)
    else
      TurnSettles(plan, w);
      SettledSlack(plan, w.entries, w.exits, w.queue);
      SpentFalls(plan, Turn(plan, w).entries, Turn(plan, w).queue, w.entries, w.queue);
      Drained(plan, Turn(plan, w))
  }

  /** Nothing reached but the entry block, which waits. */
  ghost function Beginning(plan: Plan): (w: Work)
    requires Structured(plan)
    ensures WorkSettled(plan, w)
  {
    var entries := seq(|plan.blocks|, b => NewState(plan.movePaths, b == plan.entry));
    var exits := seq(|plan.blocks|, b => NewState(plan.movePaths, false));
    Begun(plan, entries, exits);
    Work(entries, exits, [plan.entry])
  }

  /** What `compute` computes. */
  ghost function Computed(plan: Plan): Analysis
    requires Structured(plan)
  {
    Drained(plan, Beginning(plan))
  }

  /** The verdict on a plan: it is structured, and its computed analysis is stable. */
  ghost predicate Verified(plan: Plan) {
    Structured(plan) && |Computed(plan).blockEntry| == |plan.blocks| && Stable(plan, Computed(plan))
  }

  /* ----- reading the definitions ----- */

  lemma FollowedMore(plan: Plan, w: Work, b: nat, j: nat)
    requires Fits(plan, w) && b < |plan.blocks| && j < |BlockEdges(plan, b)|
    ensures Followed(plan, w, b, j + 1) == Follow(plan, Followed(plan, w, b, j), b, BlockEdges(plan, b)[j])
  {
  }

  lemma TurnCases(plan: Plan, w: Work)
    requires WorkSettled(plan, w) && w.queue != []
    ensures Structured(plan) && Fits(plan, w) && |w.entries| == |plan.blocks| == |w.exits|
    ensures w.queue[0] < |plan.blocks|
    ensures var b := w.queue[0];
            var exit := ApplyAll(plan.movePaths, w.entries[b], plan.blocks[b].operations);
            Underway(plan, w.entries, w.exits[b := exit], w.queue[1..], b, 0)
    ensures var b := w.queue[0];
            var exit := ApplyAll(plan.movePaths, w.entries[b], plan.blocks[b].operations);
            Turn(plan, w) ==
            if exit == w.exits[b] then Work(w.entries, w.exits, w.queue[1..])
            else Followed(plan, Work(w.entries, w.exits[b := exit], w.queue[1..]), b, |BlockEdges(plan, b)|)
  {
    hide Settled; hide Followed; hide ApplyAll; hide BlockEdges;
    SettledShape(plan, w.entries, w.exits, w.queue);
    TakeBlock(plan, w.entries, w.exits, w.queue);
  }

  lemma TurnDrains(plan: Plan, w: Work)
    requires IsForest(plan.movePaths) && WorkSettled(plan, w) && w.queue != []
    ensures Fits(plan, w) && w.queue[0] < |plan.blocks| && WorkSettled(plan, Turn(plan, w))
    ensures Drained(plan, w) == Drained(plan, Turn(plan, w)) && 0 <= Measure(plan, w)
    ensures Measure(plan, Turn(plan, w)) < Measure(plan, w)
            || (Measure(plan, Turn(plan, w)) == Measure(plan, w) && |Turn(plan, w).queue| < |w.queue|)
  {
    hide Settled; hide IsForest; hide Turn; hide TotalSlack; hide Spent;
    TurnSettles(plan, w);
    SettledSlack(plan, w.entries, w.exits, w.queue);
    SpentFalls(plan, Turn(plan, w).entries, Turn(plan, w).queue, w.entries, w.queue);
  }

  lemma DrainedAtLast(plan: Plan, w: Work)
    requires IsForest(plan.movePaths) && WorkSettled(plan, w) && w.queue == []
    ensures Drained(plan, w) == Analysis(w.entries, w.exits)
  {
  }

  lemma StartsAtBeginning(plan: Plan, entries: seq<State>, exits: seq<State>)
    requires Structured(plan) && |entries| == |plan.blocks| == |exits|
    requires forall b | 0 <= b < |exits| :: exits[b] == NewState(plan.movePaths, false)
    requires forall b | 0 <= b < |entries| :: entries[b] == NewState(plan.movePaths, b == plan.entry)
    ensures IsForest(plan.movePaths) && WorkSettled(plan, Work(entries, exits, [plan.entry]))
    ensures Drained(plan, Work(entries, exits, [plan.entry])) == Computed(plan)
  {
    assert Work(entries, exits, [plan.entry]) == Beginning(plan);
  }

  /* ----- it is stable, and reaches what the edges reach ----- */

  lemma {:induction false} DrainedIsStable(plan: Plan, w: Work)
    requires IsForest(plan.movePaths) && WorkSettled(plan, w)
    ensures var a := Drained(plan, w);
            && Fixpoint(plan, a)
            && forall b: nat | b < |plan.blocks| :: a.blockEntry[b].reachable <==> CfgReachable(plan, b)
    decreases Measure(plan, w), |w.queue|
  {
    hide Fixpoint; hide Settled; hide IsForest; hide CfgReachable; hide Turn; hide TotalSlack; hide Spent;
    if w.queue == [] {
      Finished(plan, w.entries, w.exits);
      FixpointParts(plan, Drained(plan, w));
    } else {
      TurnSettles(plan, w);
      SettledSlack(plan, w.entries, w.exits, w.queue);
      SpentFalls(plan, Turn(plan, w).entries, Turn(plan, w).queue, w.entries, w.queue);
      DrainedIsStable(plan, Turn(plan, w));
    }
  }

  lemma ComputedIsStable(plan: Plan)
    requires Structured(plan)
    ensures Fixpoint(plan, Computed(plan)) && |Computed(plan).blockEntry| == |plan.blocks|
    ensures forall b: nat | b < |plan.blocks| :: Computed(plan).blockEntry[b].reachable <==> CfgReachable(plan, b)
  {
    DrainedIsStable(plan, Beginning(plan));
  }

  /** So every theorem about an accepted plan applies to a verified one, with its computed analysis. */
  lemma VerifiedIsAccepted(plan: Plan)
    ensures Verified(plan) <==> Structured(plan) && Accepted(plan, Computed(plan))
  {
    if Structured(plan) { ComputedIsStable(plan); }
  }

  /* ----- it is the least ----- */

  /** Whatever state below its bound enters `b`, what leaves along `e` is below the target's bound. */
  ghost predicate Carries(plan: Plan, bound: seq<State>, b: nat, e: CleanupEdge)
    requires IsForest(plan.movePaths) && b < |plan.blocks| == |bound|
  {
    && e.target < |plan.blocks|
    && forall st | Proper(plan.movePaths, |plan.locals|, st) && st.reachable && Below(st, bound[b]) ::
         Below(EdgeState(plan, ApplyAll(plan.movePaths, st, plan.blocks[b].operations), e), bound[e.target])
  }

  /** A state for each block, above the start and closed under blocks and edges. */
  ghost predicate Bounds(plan: Plan, bound: seq<State>)
    requires IsForest(plan.movePaths)
  {
    && |bound| == |plan.blocks| && plan.entry < |plan.blocks|
    && (forall b | 0 <= b < |bound| :: Proper(plan.movePaths, |plan.locals|, bound[b]))
    && Below(NewState(plan.movePaths, true), bound[plan.entry])
    && forall b: nat, e | b < |plan.blocks| && e in BlockEdges(plan, b) :: Carries(plan, bound, b, e)
  }

  ghost predicate BelowAll(entries: seq<State>, bound: seq<State>) {
    |entries| == |bound| && forall b | 0 <= b < |entries| :: Below(entries[b], bound[b])
  }

  /** Following one edge of a block whose state lies below its bound. */
  lemma FollowBelow(plan: Plan, bound: seq<State>, w: Work, b: nat, st: State, e: CleanupEdge)
    requires Fits(plan, w) && Bounds(plan, bound) && BelowAll(w.entries, bound)
    requires b < |plan.blocks| && e in BlockEdges(plan, b)
    requires Proper(plan.movePaths, |plan.locals|, st) && st.reachable && Below(st, bound[b])
    requires w.exits[b] == ApplyAll(plan.movePaths, st, plan.blocks[b].operations)
    requires Proper(plan.movePaths, |plan.locals|, w.exits[b])
    requires forall c | 0 <= c < |w.entries| :: Proper(plan.movePaths, |plan.locals|, w.entries[c])
    ensures BelowAll(Follow(plan, w, b, e).entries, bound)
  {
    assert Carries(plan, bound, b, e);
    var incoming := EdgeState(plan, w.exits[b], e);
    ProperEndAll(plan.movePaths, |plan.locals|, w.exits[b], ExitedLocals(plan, e.exitedScopes));
    JoinIsLeast(plan.movePaths, |plan.locals|, w.entries[e.target], incoming, bound[e.target]);
  }

  lemma UnderwayIsProper(plan: Plan, w: Work, b: nat, j: nat)
    requires Underway(plan, w.entries, w.exits, w.queue, b, j)
    ensures Fits(plan, w) && b < |plan.blocks| && Proper(plan.movePaths, |plan.locals|, w.exits[b])
    ensures forall c | 0 <= c < |w.entries| :: Proper(plan.movePaths, |plan.locals|, w.entries[c])
  {
  }

  lemma {:induction false} FollowedBelow(plan: Plan, bound: seq<State>, w: Work, b: nat, st: State, j: nat)
    requires Fits(plan, w) && Bounds(plan, bound) && BelowAll(w.entries, bound)
    requires b < |plan.blocks| && j <= |BlockEdges(plan, b)| && Underway(plan, w.entries, w.exits, w.queue, b, 0)
    requires Proper(plan.movePaths, |plan.locals|, st) && st.reachable && Below(st, bound[b])
    requires w.exits[b] == ApplyAll(plan.movePaths, st, plan.blocks[b].operations)
    ensures BelowAll(Followed(plan, w, b, j).entries, bound)
    decreases j
  {
    hide Bounds; hide BelowAll; hide Underway; hide Below; hide Proper; hide ApplyAll; hide IsForest; hide BlockEdges;
    hide Follow;
    if j > 0 {
      FollowedBelow(plan, bound, w, b, st, j - 1);
      FollowedUnderway(plan, w, b, j - 1);
      var v := Followed(plan, w, b, j - 1);
      UnderwayIsProper(plan, v, b, j - 1);
      FollowBelow(plan, bound, v, b, st, BlockEdges(plan, b)[j - 1]);
    }
  }

  lemma SettledIsProper(plan: Plan, w: Work)
    requires WorkSettled(plan, w) && w.queue != []
    ensures Fits(plan, w) && w.queue[0] < |plan.blocks| && w.entries[w.queue[0]].reachable
    ensures Proper(plan.movePaths, |plan.locals|, w.entries[w.queue[0]])
  {
    assert w.queue[0] in w.queue;
  }

  lemma TurnBelow(plan: Plan, bound: seq<State>, w: Work)
    requires WorkSettled(plan, w) && w.queue != [] && Fits(plan, w) && w.queue[0] < |plan.blocks|
    requires Bounds(plan, bound) && BelowAll(w.entries, bound)
    ensures BelowAll(Turn(plan, w).entries, bound)
  {
    hide Settled; hide Bounds; hide Underway; hide Proper; hide ApplyAll; hide IsForest; hide BlockEdges; hide Followed;
    hide Below;
    SettledIsProper(plan, w);
    TakeBlock(plan, w.entries, w.exits, w.queue);
    var b := w.queue[0];
    var exit := BlockResult(plan, w, b);
    if exit != w.exits[b] {
      assert |bound| == |w.entries| && Below(w.entries[b], bound[b]);
      FollowedBelow(plan, bound, Work(w.entries, w.exits[b := exit], w.queue[1..]), b, w.entries[b],
                    |BlockEdges(plan, b)|);
    }
  }

  lemma {:induction false} DrainedBelow(plan: Plan, bound: seq<State>, w: Work)
    requires IsForest(plan.movePaths) && WorkSettled(plan, w) && Bounds(plan, bound) && BelowAll(w.entries, bound)
    ensures BelowAll(Drained(plan, w).blockEntry, bound)
    decreases Measure(plan, w), |w.queue|
  {
    hide Settled; hide IsForest; hide Bounds; hide BelowAll; hide Turn; hide TotalSlack; hide Spent;
    if w.queue != [] {
      TurnSettles(plan, w);
      TurnBelow(plan, bound, w);
      SettledSlack(plan, w.entries, w.exits, w.queue);
      SpentFalls(plan, Turn(plan, w).entries, Turn(plan, w).queue, w.entries, w.queue);
      DrainedBelow(plan, bound, Turn(plan, w));
    }
  }

  /** The worklist joins no more than it must: its entry states lie below every bound. */
  lemma ComputedIsLeast(plan: Plan, bound: seq<State>)
    requires Structured(plan) && IsForest(plan.movePaths) && Bounds(plan, bound)
    ensures BelowAll(Computed(plan).blockEntry, bound)
  {
    DrainedBelow(plan, bound, Beginning(plan));
  }

  /* ----- recognizing it ----- */

  /** Bounded by `a`, and as large at `b`: then it is `a` at `b`. */
  lemma PinEntry(plan: Plan, c: Analysis, a: Analysis, b: nat)
    requires IsForest(plan.movePaths) && Fixpoint(plan, c) && Fixpoint(plan, a) && b < |plan.blocks|
    requires BelowAll(c.blockEntry, a.blockEntry) && Below(a.blockEntry[b], c.blockEntry[b])
    requires a.blockEntry[b].reachable
    ensures c.blockEntry[b] == a.blockEntry[b] && c.blockExit[b] == a.blockExit[b]
  {
    BelowAntisymmetric(a.blockEntry[b], c.blockEntry[b]);
    assert Folds(plan, c, b) && Folds(plan, a, b);
  }

  lemma BelowAntisymmetric(x: State, y: State)
    requires Below(x, y) && Below(y, x) && x.reachable
    ensures x == y
  {
    assert forall r | r in x.discriminants :: x.discriminants[r] == y.discriminants[r];
    assert x.discriminants == y.discriminants;
  }

  /** The entry of a block that one edge brings about. */
  lemma PinEdge(plan: Plan, c: Analysis, a: Analysis, b: nat, e: CleanupEdge)
    requires IsForest(plan.movePaths) && Fixpoint(plan, c) && Fixpoint(plan, a) && b < |plan.blocks|
    requires BelowAll(c.blockEntry, a.blockEntry) && e in BlockEdges(plan, b) && c.blockExit[b] == a.blockExit[b]
    requires e.target < |plan.blocks| && a.blockEntry[e.target].reachable
    requires a.blockEntry[e.target] == EdgeState(plan, a.blockExit[b], e)
    ensures c.blockEntry[e.target] == a.blockEntry[e.target] && c.blockExit[e.target] == a.blockExit[e.target]
  {
    assert Flows(plan, c, b);
    PinEntry(plan, c, a, e.target);
  }

  /** The entry of a block at which two edges meet. */
  lemma PinJoin(plan: Plan, c: Analysis, a: Analysis, b1: nat, e1: CleanupEdge, b2: nat, e2: CleanupEdge)
    requires IsForest(plan.movePaths) && Fixpoint(plan, c) && Fixpoint(plan, a)
    requires BelowAll(c.blockEntry, a.blockEntry)
    requires b1 < |plan.blocks| && e1 in BlockEdges(plan, b1) && c.blockExit[b1] == a.blockExit[b1]
    requires b2 < |plan.blocks| && e2 in BlockEdges(plan, b2) && c.blockExit[b2] == a.blockExit[b2]
    requires e1.target == e2.target < |plan.blocks| && a.blockEntry[e1.target].reachable
    requires var x, y := EdgeState(plan, a.blockExit[b1], e1), EdgeState(plan, a.blockExit[b2], e2);
             && Proper(plan.movePaths, |plan.locals|, x) && Proper(plan.movePaths, |plan.locals|, y)
             && a.blockEntry[e1.target] == Join(x, y)
    ensures c.blockEntry[e1.target] == a.blockEntry[e1.target] && c.blockExit[e1.target] == a.blockExit[e1.target]
  {
    assert Flows(plan, c, b1) && Flows(plan, c, b2);
    var x, y := EdgeState(plan, a.blockExit[b1], e1), EdgeState(plan, a.blockExit[b2], e2);
    JoinIsLeast(plan.movePaths, |plan.locals|, x, y, c.blockEntry[e1.target]);
    PinEntry(plan, c, a, e1.target);
  }

  lemma FixpointParts(plan: Plan, a: Analysis)
    requires IsForest(plan.movePaths) && Fixpoint(plan, a)
    ensures |a.blockEntry| == |plan.blocks| == |a.blockExit| && plan.entry < |plan.blocks|
    ensures Below(NewState(plan.movePaths, true), a.blockEntry[plan.entry])
    ensures forall b | 0 <= b < |plan.blocks| :: Proper(plan.movePaths, |plan.locals|, a.blockEntry[b])
  {
  }

  lemma SameAnalysis(plan: Plan, c: Analysis, a: Analysis)
    requires IsForest(plan.movePaths) && Fixpoint(plan, c) && Fixpoint(plan, a)
    requires forall b: nat | b < |plan.blocks| :: c.blockEntry[b] == a.blockEntry[b] && c.blockExit[b] == a.blockExit[b]
    ensures c == a
  {
  }
}
