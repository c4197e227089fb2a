/**
 The worklist of `MoveStateAnalysis::compute`: it terminates, and what it leaves
 behind is a stable analysis whose reachable blocks are those the edges can reach.
 */
module Worklist {
  import opened Sequences
  import opened CleanupPlan
  import opened MovePaths
  import opened MoveStates
  import opened Checks
  import opened Structure
  import opened Lattice
  import opened Runs

  /* ----- the invariant, on values ----- */

  /** Some edge leads from `b` to `target`. */
  ghost predicate Linked(plan: Plan, b: BlockId, target: BlockId)
    requires b < |plan.blocks|
  {
    exists e :: e in BlockEdges(plan, b) && e.target == target
  }

  /** A path of edges from the entry block. */
  ghost predicate IsPath(plan: Plan, path: seq<BlockId>) {
    && path != [] && path[0] == plan.entry
    && (forall i | 0 <= i < |path| :: path[i] < |plan.blocks|)
    && forall i | 0 <= i < |path| - 1 :: Linked(plan, path[i], path[i + 1])
  }

  ghost predicate CfgReachable(plan: Plan, b: BlockId) {
    exists path :: IsPath(plan, path) && path[|path| - 1] == b
  }

  lemma ReachEntry(plan: Plan)
    requires plan.entry < |plan.blocks|
    ensures CfgReachable(plan, plan.entry)
  {
    assert IsPath(plan, [plan.entry]);
  }

  lemma ReachEdge(plan: Plan, b: BlockId, e: CleanupEdge)
    requires CfgReachable(plan, b) && b < |plan.blocks| && e in BlockEdges(plan, b) && e.target < |plan.blocks|
    ensures CfgReachable(plan, e.target)
  {
    var path :| IsPath(plan, path) && path[|path| - 1] == b;
    var longer := path + [e.target];
    forall i | 0 <= i < |longer| - 1 ensures Linked(plan, longer[i], longer[i + 1]) {
      assert i < |path| - 1 ==> Linked(plan, path[i], path[i + 1]);
    }
    assert IsPath(plan, longer);
  }

  ghost predicate EdgeCovered(plan: Plan, entries: seq<State>, exit: State, e: CleanupEdge)
    requires IsForest(plan.movePaths)
  {
    e.target < |entries| && Below(EdgeState(plan, exit, e), entries[e.target])
  }

  ghost predicate BlockFolded(plan: Plan, entries: seq<State>, exits: seq<State>, b: nat)
    requires IsForest(plan.movePaths) && b < |plan.blocks| == |entries| == |exits|
  {
    entries[b].reachable ==> exits[b] == ApplyAll(plan.movePaths, entries[b], plan.blocks[b].operations)
  }

  ghost predicate BlockCovered(plan: Plan, entries: seq<State>, exits: seq<State>, b: nat)
    requires IsForest(plan.movePaths) && b < |plan.blocks| == |entries| == |exits|
  {
    exits[b].reachable ==> forall e | e in BlockEdges(plan, b) :: EdgeCovered(plan, entries, exits[b], e)
  }

  /** What holds of every block at any time. */
  ghost predicate Sized(plan: Plan, entries: seq<State>, exits: seq<State>) {
    && IsForest(plan.movePaths) && Structured(plan)
    && |entries| == |plan.blocks| == |exits|
    && Below(NewState(plan.movePaths, true), entries[plan.entry])
    && (forall b | 0 <= b < |plan.blocks| :: Proper(plan.movePaths, |plan.locals|, entries[b]))
    && (forall b | 0 <= b < |plan.blocks| :: Proper(plan.movePaths, |plan.locals|, exits[b]))
    && (forall b: nat | b < |plan.blocks| && entries[b].reachable :: CfgReachable(plan, b))
  }

  /** Blocks waiting in the queue are exempt from being folded. */
  ghost predicate Folded(plan: Plan, entries: seq<State>, exits: seq<State>, queue: seq<BlockId>)
    requires IsForest(plan.movePaths) && |plan.blocks| == |entries| == |exits|
  {
    forall b: nat | b < |plan.blocks| && b !in queue :: BlockFolded(plan, entries, exits, b)
  }

  /** All edges are covered, those of `except` only as far as `done`. */
  ghost predicate Covered(plan: Plan, entries: seq<State>, exits: seq<State>, except: BlockId, done: nat)
    requires IsForest(plan.movePaths) && |plan.blocks| == |entries| == |exits|
  {
    && (forall b: nat | b < |plan.blocks| && b != except :: BlockCovered(plan, entries, exits, b))
    && (except < |plan.blocks| ==>
          done <= |BlockEdges(plan, except)|
          && forall i | 0 <= i < done :: EdgeCovered(plan, entries, exits[except], BlockEdges(plan, except)[i]))
  }

  ghost predicate QueueOk(plan: Plan, queue: seq<BlockId>, queued: seq<bool>) {
    && |queued| == |plan.blocks|
    && (forall b | b in queue :: b < |plan.blocks|) && Distinct(queue)
    && forall b: nat | b < |plan.blocks| :: queued[b] <==> b in queue
  }

  /* ----- one edge ----- */

  ghost function Pushed(queue: seq<BlockId>, target: BlockId, changed: bool): seq<BlockId> {
    if changed && target !in queue then queue + [target] else queue
  }

  lemma StructuredEdge(plan: Plan, b: nat, e: CleanupEdge)
    requires Structured(plan) && b < |plan.blocks| && e in BlockEdges(plan, b)
    ensures e.target < |plan.blocks|
  {
    assert BlockOk(plan, b) && EdgeOk(plan, b, e);
  }

  /** Joining one edge's state into its target. */
  lemma EdgeStep(plan: Plan, entries: seq<State>, exits: seq<State>, b: nat, j: nat, queue: seq<BlockId>)
    requires Sized(plan, entries, exits) && b < |plan.blocks| && j < |BlockEdges(plan, b)|
    requires exits[b].reachable && entries[b].reachable
    requires Folded(plan, entries, exits, queue) && Covered(plan, entries, exits, b, j)
    ensures var e := BlockEdges(plan, b)[j];
            e.target < |entries| &&
            var joined := Join(entries[e.target], EdgeState(plan, exits[b], e));
            var entries' := entries[e.target := joined];
            && Sized(plan, entries', exits) && entries'[b].reachable
            && Folded(plan, entries', exits, Pushed(queue, e.target, joined != entries[e.target]))
            && Covered(plan, entries', exits, b, j + 1)
            && TotalSlack(plan.movePaths, |plan.locals|, entries') <= TotalSlack(plan.movePaths, |plan.locals|, entries)
            && (joined != entries[e.target] ==> joined.reachable)
            && (joined != entries[e.target] ==>
                  TotalSlack(plan.movePaths, |plan.locals|, entries') < TotalSlack(plan.movePaths, |plan.locals|,
                      entries))
  {
    var f, n := plan.movePaths, |plan.locals|;
    var e := BlockEdges(plan, b)[j];
    StructuredEdge(plan, b, e);
    var incoming := EdgeState(plan, exits[b], e);
    ProperEndAll(f, n, exits[b], ExitedLocals(plan, e.exitedScopes));
    var old_ := entries[e.target];
    var joined := Join(old_, incoming);
    JoinIsUpperBound(f, n, old_, incoming);
    var entries' := entries[e.target := joined];
    ReachEdge(plan, b, e);
    Raised(plan, entries, exits, e.target, joined);
    RaisedCovered(plan, entries, exits, e.target, joined, b, j);
    assert EdgeCovered(plan, entries', exits[b], e);
    forall c: nat | c < |plan.blocks| && c !in Pushed(queue, e.target, joined != old_)
      ensures BlockFolded(plan, entries', exits, c)
    {
      assert BlockFolded(plan, entries, exits, c);
    }
    if joined != old_ {
      SlackFalls(f, n, old_, joined);
      TotalSlackUpdate(f, n, entries, e.target, joined);
    } else {
      assert entries' == entries;
    }
  }

  lemma Raised(plan: Plan, entries: seq<State>, exits: seq<State>, t: nat, joined: State)
    requires Sized(plan, entries, exits) && t < |entries| && CfgReachable(plan, t)
    requires Below(entries[t], joined) && Proper(plan.movePaths, |plan.locals|, joined)
    ensures Sized(plan, entries[t := joined], exits)
  {
    BelowTransitive(NewState(plan.movePaths, true), entries[plan.entry], entries[t := joined][plan.entry]);
  }

  /** Entry states only grow, so covered edges stay covered. */
  lemma RaisedCovered(plan: Plan, entries: seq<State>, exits: seq<State>, t: nat, joined: State, b: nat, j: nat)
    requires IsForest(plan.movePaths) && |plan.blocks| == |entries| == |exits| && t < |entries|
        && Below(entries[t], joined)
    requires Covered(plan, entries, exits, b, j)
    ensures Covered(plan, entries[t := joined], exits, b, j)
  {
    var entries' := entries[t := joined];
    forall c: nat, e | c < |plan.blocks| && e in BlockEdges(plan, c) && EdgeCovered(plan, entries, exits[c], e)
      ensures EdgeCovered(plan, entries', exits[c], e)
    {
      if e.target == t { BelowTransitive(EdgeState(plan, exits[c], e), entries[t], joined); }
    }
    forall c: nat | c < |plan.blocks| && c != b ensures BlockCovered(plan, entries', exits, c) {
      assert BlockCovered(plan, entries, exits, c);
    }
  }

  /* ----- the measure ----- */

  ghost function TotalSlack(f: Forest, n: nat, entries: seq<State>): int {
    if entries == [] then 0
    else TotalSlack(f, n, entries[..|entries| - 1]) + Slack(f, n, entries[|entries| - 1])
  }

  lemma {:induction false} TotalSlackUpdate(f: Forest, n: nat, entries: seq<State>, i: nat, st: State)
    requires i < |entries|
    ensures TotalSlack(f, n, entries[i := st]) == TotalSlack(f, n, entries) - Slack(f, n, entries[i]) + Slack(f, n, st)
  {
    var last := |entries| - 1;
    var updated := entries[i := st];
    if i == last {
      assert updated[..last] == entries[..last];
    } else {
      assert updated[..last] == entries[..last][i := st];
      TotalSlackUpdate(f, n, entries[..last], i, st);
    }
  }

  lemma {:induction false} TotalSlackBound(f: Forest, n: nat, entries: seq<State>)
    requires forall b | 0 <= b < |entries| :: Proper(f, n, entries[b])
    ensures 0 <= TotalSlack(f, n, entries)
  {
    if entries != [] {
      TotalSlackBound(f, n, entries[..|entries| - 1]);
      SlackBounds(f, n, entries[|entries| - 1]);
    }
  }

  /* ----- start, one block, end ----- */

  lemma NewIsProper(f: Forest, n: nat, reachable: bool)
    ensures Proper(f, n, NewState(f, reachable))
  {
  }

  lemma StartOk(plan: Plan, entries: seq<State>, exits: seq<State>)
    requires Structured(plan) && |entries| == |plan.blocks| == |exits|
    requires forall b | 0 <= b < |exits| :: exits[b] == NewState(plan.movePaths, false)
    requires forall b | 0 <= b < |entries| :: entries[b] == NewState(plan.movePaths, b == plan.entry)
    ensures Sized(plan, entries, exits) && Folded(plan, entries, exits, [plan.entry])
    ensures Covered(plan, entries, exits, |plan.blocks|, 0)
  {
    ReachEntry(plan);
    NewIsProper(plan.movePaths, |plan.locals|, true);
    NewIsProper(plan.movePaths, |plan.locals|, false);
  }

  lemma OperationsShaped(plan: Plan, b: nat)
    requires Structured(plan) && b < |plan.blocks|
    ensures forall op | op in plan.blocks[b].operations ::
        OpShapeOk(plan.movePaths, op) && LocalInRange(|plan.locals|, op)
  {
    forall op | op in plan.blocks[b].operations
        ensures OpShapeOk(plan.movePaths, op) && LocalInRange(|plan.locals|, op) {
      VisibleShapes(plan, b, op);
    }
  }

  /** A block leaves the queue with its fresh exit state; its edges are still to be followed. */
  lemma PopBlock(plan: Plan, entries: seq<State>, exits: seq<State>, queue: seq<BlockId>)
    requires Sized(plan, entries, exits) && queue != [] && queue[0] < |plan.blocks|
    requires Folded(plan, entries, exits, queue) && Covered(plan, entries, exits, |plan.blocks|, 0)
    requires entries[queue[0]].reachable
    ensures var b := queue[0];
            var exit := ApplyAll(plan.movePaths, entries[b], plan.blocks[b].operations);
            && exit.reachable
            && Sized(plan, entries, exits[b := exit]) && Folded(plan, entries, exits[b := exit], queue[1..])
            && Covered(plan, entries, exits[b := exit], b, 0)
            && (exit == exits[b] ==>
                  Folded(plan, entries, exits, queue[1..]) && Covered(plan, entries, exits, |plan.blocks|, 0))
  {
    var b := queue[0];
    var exit := ApplyAll(plan.movePaths, entries[b], plan.blocks[b].operations);
    OperationsShaped(plan, b);
    ProperApplyAll(plan.movePaths, |plan.locals|, entries[b], plan.blocks[b].operations);
    var exits' := exits[b := exit];
    forall c: nat | c < |plan.blocks| && c !in queue[1..] ensures BlockFolded(plan, entries, exits', c) {
      if c != b { assert c !in queue; assert BlockFolded(plan, entries, exits, c); }
    }
    forall c: nat | c < |plan.blocks| && c != b ensures BlockCovered(plan, entries, exits', c) {
      assert BlockCovered(plan, entries, exits, c);
    }
    if exit == exits[b] { assert exits' == exits; }
  }

  lemma AllEdgesDone(plan: Plan, entries: seq<State>, exits: seq<State>, b: nat)
    requires IsForest(plan.movePaths) && |plan.blocks| == |entries| == |exits| && b < |plan.blocks|
    requires Covered(plan, entries, exits, b, |BlockEdges(plan, b)|)
    ensures Covered(plan, entries, exits, |plan.blocks|, 0)
  {
    forall c: nat | c < |plan.blocks| ensures BlockCovered(plan, entries, exits, c) {}
  }

  lemma EndOk(plan: Plan, entries: seq<State>, exits: seq<State>)
    requires Sized(plan, entries, exits)
    requires Folded(plan, entries, exits, []) && Covered(plan, entries, exits, |plan.blocks|, 0)
    ensures Fixpoint(plan, Analysis(entries, exits))
  {
    var a := Analysis(entries, exits);
    forall b: nat | b < |plan.blocks| ensures Flows(plan, a, b) {
      assert BlockCovered(plan, entries, exits, b);
      forall e | e in BlockEdges(plan, b)
        ensures e.target < |plan.blocks| && Below(EdgeState(plan, exits[b], e), entries[e.target])
      {
        StructuredEdge(plan, b, e);
        ProperEndAll(plan.movePaths, |plan.locals|, exits[b], ExitedLocals(plan, e.exitedScopes));
      }
    }
    forall b: nat | b < |plan.blocks| ensures Folds(plan, a, b) {
      assert BlockFolded(plan, entries, exits, b);
    }
  }

  /** A stable analysis reaches every block the edges reach. */
  lemma PathParts(plan: Plan, path: seq<BlockId>) returns (e: CleanupEdge)
    requires IsPath(plan, path) && |path| > 1
    ensures var n := |path| - 1;
            IsPath(plan, path[..n]) && e in BlockEdges(plan, path[n - 1]) && e.target == path[n]
  {
    var n := |path| - 1;
    var shorter := path[..n];
    assert Linked(plan, path[n - 1], path[n - 1 + 1]);
    e :| e in BlockEdges(plan, path[n - 1]) && e.target == path[n];
    hide Linked; hide BlockEdges;
    forall i | 0 <= i < |shorter| - 1 ensures Linked(plan, shorter[i], shorter[i + 1]) {
      assert Linked(plan, path[i], path[i + 1]);
    }
  }

  /** A stable analysis carries reachability along an edge. */
  lemma EdgeReaches(plan: Plan, a: Analysis, b: nat, e: CleanupEdge)
    requires Structured(plan) && Fixpoint(plan, a) && b < |plan.blocks| && e in BlockEdges(plan, b)
    requires a.blockEntry[b].reachable
    ensures e.target < |a.blockEntry| && a.blockEntry[e.target].reachable
  {
    assert Folds(plan, a, b) && Flows(plan, a, b);
    OperationsShaped(plan, b);
    ProperApplyAll(plan.movePaths, |plan.locals|, a.blockEntry[b], plan.blocks[b].operations);
    ProperEndAll(plan.movePaths, |plan.locals|, a.blockExit[b], ExitedLocals(plan, e.exitedScopes));
  }

  lemma {:induction false} ReachableIsReached(plan: Plan, a: Analysis, path: seq<BlockId>)
    requires Structured(plan) && Fixpoint(plan, a) && IsPath(plan, path)
    ensures a.blockEntry[path[|path| - 1]].reachable
    decreases |path|
  {
    if |path| > 1 {
      var n := |path| - 1;
      var e := PathParts(plan, path);
      ReachableIsReached(plan, a, path[..n]);
      EdgeReaches(plan, a, path[n - 1], e);
    }
  }

  /** The edges of `b` have been followed up to `j`. */
  ghost predicate Underway(plan: Plan, entries: seq<State>, exits: seq<State>, queue: seq<BlockId>, b: BlockId,
                           j: nat) {
    && Sized(plan, entries, exits) && Folded(plan, entries, exits, queue) && Covered(plan, entries, exits, b, j)
    && b < |plan.blocks| && entries[b].reachable && exits[b].reachable
    && forall c | c in queue :: c < |plan.blocks| && entries[c].reachable
  }

  /** Less room to climb, or nothing changed at all. */
  ghost predicate Spent(plan: Plan, entries: seq<State>, queue: seq<BlockId>, entries0: seq<State>,
                        queue0: seq<BlockId>)
    requires IsForest(plan.movePaths)
  {
    var now := TotalSlack(plan.movePaths, |plan.locals|, entries);
    var then_ := TotalSlack(plan.movePaths, |plan.locals|, entries0);
    now < then_ || (now == then_ && queue == queue0)
  }

  lemma SpentNothing(plan: Plan, entries: seq<State>, queue: seq<BlockId>)
    requires IsForest(plan.movePaths)
    ensures Spent(plan, entries, queue, entries, queue)
  {
  }

  /** The entry states after following edge `e` of `b`. */
  ghost function AfterEdge(plan: Plan, entries: seq<State>, exit: State, e: CleanupEdge): seq<State>
    requires IsForest(plan.movePaths) && e.target < |entries|
  {
    entries[e.target := Join(entries[e.target], EdgeState(plan, exit, e))]
  }

  ghost predicate Changes(plan: Plan, entries: seq<State>, exit: State, e: CleanupEdge)
    requires IsForest(plan.movePaths) && e.target < |entries|
  {
    Join(entries[e.target], EdgeState(plan, exit, e)) != entries[e.target]
  }

  lemma PushedQueued(plan: Plan, entries: seq<State>, queue: seq<BlockId>, target: BlockId, joined: State,
                     changed: bool)
    requires |entries| == |plan.blocks| && target < |entries| && (changed ==> joined.reachable)
    requires !changed ==> joined == entries[target]
    requires forall c | c in queue :: c < |plan.blocks| && entries[c].reachable
    ensures forall c | c in Pushed(queue, target, changed) ::
              c < |plan.blocks| && entries[target := joined][c].reachable
  {
  }

  lemma SpentStep(plan: Plan, entries: seq<State>, queue: seq<BlockId>, entries0: seq<State>, queue0: seq<BlockId>,
                  target: BlockId, joined: State, changed: bool)
    requires IsForest(plan.movePaths) && target < |entries| && Spent(plan, entries, queue, entries0, queue0)
    requires !changed ==> joined == entries[target]
    requires changed ==> TotalSlack(plan.movePaths, |plan.locals|, entries[target := joined])
                         < TotalSlack(plan.movePaths, |plan.locals|, entries)
    ensures Spent(plan, entries[target := joined], Pushed(queue, target, changed), entries0, queue0)
  {
    hide TotalSlack; hide IsForest;
    if !changed { assert entries[target := joined] == entries; }
  }

  lemma FollowStep(plan: Plan, entries: seq<State>, exits: seq<State>, queue: seq<BlockId>, b: BlockId, j: nat,
                   entries0: seq<State>, queue0: seq<BlockId>)
    requires Underway(plan, entries, exits, queue, b, j) && j < |BlockEdges(plan, b)|
    requires Spent(plan, entries, queue, entries0, queue0)
    ensures var e := BlockEdges(plan, b)[j];
            && e.target < |entries|
            && Underway(plan, AfterEdge(plan, entries, exits[b], e), exits,
                        Pushed(queue, e.target, Changes(plan, entries, exits[b], e)), b, j + 1)
            && Spent(plan, AfterEdge(plan, entries, exits[b], e),
                     Pushed(queue, e.target, Changes(plan, entries, exits[b], e)), entries0, queue0)
  {
    assert IsForest(plan.movePaths) && |entries| == |plan.blocks| == |exits|;
    hide Sized; hide Folded; hide Covered; hide Join; hide EdgeState; hide TotalSlack; hide BlockEdges; hide IsForest;
    hide Spent; hide Pushed;
    var e := BlockEdges(plan, b)[j];
    EdgeStep(plan, entries, exits, b, j, queue);
    var joined, changed := Join(entries[e.target], EdgeState(plan, exits[b], e)), Changes(plan, entries, exits[b], e);
    PushedQueued(plan, entries, queue, e.target, joined, changed);
    SpentStep(plan, entries, queue, entries0, queue0, e.target, joined, changed);
  }

  /** Between blocks: everything outside the queue is settled. */
  ghost predicate Settled(plan: Plan, entries: seq<State>, exits: seq<State>, queue: seq<BlockId>) {
    && Sized(plan, entries, exits) && Folded(plan, entries, exits, queue)
    && Covered(plan, entries, exits, |plan.blocks|, 0)
    && forall c | c in queue :: c < |plan.blocks| && entries[c].reachable
  }

  lemma SettledShape(plan: Plan, entries: seq<State>, exits: seq<State>, queue: seq<BlockId>)
    requires Settled(plan, entries, exits, queue)
    ensures Structured(plan) && IsForest(plan.movePaths) && |entries| == |plan.blocks| == |exits|
  {
  }

  /** Taking a block off the queue: nothing new, or its edges are to be followed. */
  lemma TakeBlock(plan: Plan, entries: seq<State>, exits: seq<State>, queue: seq<BlockId>)
    requires Settled(plan, entries, exits, queue) && queue != []
    ensures var b := queue[0];
            b < |plan.blocks| &&
            var exit := ApplyAll(plan.movePaths, entries[b], plan.blocks[b].operations);
            && (exit == exits[b] ==> Settled(plan, entries, exits, queue[1..]))
            && Underway(plan, entries, exits[b := exit], queue[1..], b, 0)
  {
    assert queue[0] in queue;
    PopBlock(plan, entries, exits, queue);
    assert forall c | c in queue[1..] :: c in queue;
  }

  lemma BlockDone(plan: Plan, entries: seq<State>, exits: seq<State>, queue: seq<BlockId>, b: BlockId)
    requires b < |plan.blocks| && Underway(plan, entries, exits, queue, b, |BlockEdges(plan, b)|)
    ensures Settled(plan, entries, exits, queue)
  {
    AllEdgesDone(plan, entries, exits, b);
  }

  lemma TakeQueue(plan: Plan, queue: seq<BlockId>, queued: seq<bool>)
    requires QueueOk(plan, queue, queued) && queue != []
    ensures queue[0] < |queued| && QueueOk(plan, queue[1..], queued[queue[0] := false])
  {
    assert queue[0] in queue && queue == [queue[0]] + queue[1..];
    assert queue[0] !in queue[1..];
    forall b: nat | b < |plan.blocks| ensures queued[queue[0] := false][b] <==> b in queue[1..] {
      assert b in queue <==> b == queue[0] || b in queue[1..];
    }
    forall b | b in queue[1..] ensures b < |plan.blocks| { assert b in queue; }
  }

  /** The measure of the worklist loop falls. */
  lemma SpentFalls(plan: Plan, entries: seq<State>, queue: seq<BlockId>, entries0: seq<State>, queue0: seq<BlockId>)
    requires IsForest(plan.movePaths) && queue0 != [] && Spent(plan, entries, queue, entries0, queue0[1..])
    ensures var f, n := plan.movePaths, |plan.locals|;
            TotalSlack(f, n, entries) < TotalSlack(f, n, entries0)
            || (TotalSlack(f, n, entries) == TotalSlack(f, n, entries0) && |queue| < |queue0|)
  {
  }

  lemma SettledSlack(plan: Plan, entries: seq<State>, exits: seq<State>, queue: seq<BlockId>)
    requires IsForest(plan.movePaths) && Settled(plan, entries, exits, queue)
    ensures 0 <= TotalSlack(plan.movePaths, |plan.locals|, entries)
  {
    TotalSlackBound(plan.movePaths, |plan.locals|, entries);
  }

  /** With an empty queue, the analysis is stable and reaches exactly what the edges reach. */
  lemma Finished(plan: Plan, entries: seq<State>, exits: seq<State>)
    requires Settled(plan, entries, exits, [])
    ensures Fixpoint(plan, Analysis(entries, exits))
    ensures forall b: nat | b < |plan.blocks| :: entries[b].reachable <==> CfgReachable(plan, b)
  {
    EndOk(plan, entries, exits);
    forall b: nat | b < |plan.blocks| && CfgReachable(plan, b) ensures entries[b].reachable {
      var path :| IsPath(plan, path) && path[|path| - 1] == b;
      ReachableIsReached(plan, Analysis(entries, exits), path);
    }
  }

  lemma StructuredForest(plan: Plan)
    requires Structured(plan)
    ensures IsForest(plan.movePaths) && plan.entry < |plan.blocks|
  {
  }

  lemma FirstQueue(plan: Plan, queued: seq<bool>)
    requires plan.entry < |plan.blocks| == |queued|
    requires forall b | 0 <= b < |queued| :: queued[b] <==> b == plan.entry
    ensures QueueOk(plan, [plan.entry], queued)
  {
  }

  lemma Begun(plan: Plan, entries: seq<State>, exits: seq<State>)
    requires Structured(plan) && |entries| == |plan.blocks| == |exits|
    requires forall b | 0 <= b < |exits| :: exits[b] == NewState(plan.movePaths, false)
    requires forall b | 0 <= b < |entries| :: entries[b] == NewState(plan.movePaths, b == plan.entry)
    ensures Settled(plan, entries, exits, [plan.entry])
  {
    StartOk(plan, entries, exits);
  }
}
