/** `MoveStateAnalysis::compute` and `state_before`, over vectors of `MoveState` objects. */
module MoveStateAnalyses {
  import opened Wrappers
  import opened CleanupPlan
  import opened MovePaths
  import opened Topologies
  import opened MoveStates
  import opened Structure
  import opened Runs
  import opened MoveStateObjects
  import opened Worklist
  import opened ComputedAnalysis

  /** The objects are valid, lie within `repr`, share nothing, and stand for `models`. */
  ghost predicate Stand(f: Forest, n: nat, objects: seq<MoveState>, models: seq<State>, repr: set<object>)
    reads repr
  {
    && |objects| == |models|
    && (forall i | 0 <= i < |objects| :: objects[i].Repr() <= repr)
    && (forall i | 0 <= i < |objects| :: objects[i].Valid(f, n) && objects[i].Model(f) == models[i])
    && (forall i, j | 0 <= i < j < |objects| :: objects[i].Repr() !! objects[j].Repr())
  }

  /** One more object, apart from the others. */
  lemma StandMore(f: Forest, n: nat, objects: seq<MoveState>, models: seq<State>, repr: set<object>, state: MoveState)
    requires Stand(f, n, objects, models, repr) && state.Valid(f, n) && state.Repr() !! repr
    ensures Stand(f, n, objects + [state], models + [state.Model(f)], repr + state.Repr())
  {
    hide MoveState.Valid; hide MoveState.Model; hide MoveState.Repr; hide IsForest;
  }

  method NewStates(f: Forest, n: nat, t: Topology, count: nat, start: nat, ghost models: seq<State>)
    returns (objects: seq<MoveState>, ghost repr: set<object>)
    requires Agrees(f, n, t) && |models| == count
    requires forall i | 0 <= i < count :: models[i] == NewState(f, i == start)
    ensures Stand(f, n, objects, models, repr) && fresh(repr)
  {
    objects, repr := [], {};
    assert Stand(f, n, objects, models[..0], repr);
    hide Agrees; hide NewState; hide Stand; hide MoveState.Valid; hide MoveState.Model; hide IsForest;
    for i := 0 to count
      invariant Stand(f, n, objects, models[..i], repr) && fresh(repr)
    {
      assert i < |models|;
      var state := new MoveState(f, n, t, i == start);
      StandMore(f, n, objects, models[..i], repr, state);
      assert models[..i + 1] == models[..i] + [models[i]];
      objects := objects + [state];
      repr := repr + state.Repr();
    }
    assert models[..count] == models;
  }

  method RunOperations(plan: Plan, t: Topology, state: MoveState, ops: seq<CleanupOp>)
    requires IsForest(plan.movePaths) && Agrees(plan.movePaths, |plan.locals|, t)
    requires state.Valid(plan.movePaths, |plan.locals|)
    requires forall op | op in ops :: state.OpInRange(plan.movePaths, |plan.locals|, op)
    modifies state.Repr()
    ensures state.Valid(plan.movePaths, |plan.locals|)
    ensures state.Model(plan.movePaths) == ApplyAll(plan.movePaths, old(state.Model(plan.movePaths)), ops)
  {
    for i := 0 to |ops|
      invariant state.Valid(plan.movePaths, |plan.locals|)
      invariant state.Model(plan.movePaths) == ApplyAll(plan.movePaths, old(state.Model(plan.movePaths)), ops[..i])
    {
      state.ApplyOperation(plan.movePaths, |plan.locals|, t, ops[i]);
      assert ops[..i + 1][..i] == ops[..i];
    }
    assert ops[..|ops|] == ops;
  }

  lemma {:induction false} EndAllConcat(f: Forest, st: State, a: seq<LocalId>, b: seq<LocalId>)
    ensures EndAll(f, st, a + b) == EndAll(f, EndAll(f, st, a), b)
    decreases |b|
  {
    if b == [] {
      assert a + b == a;
    } else {
      assert (a + b)[..|a + b| - 1] == a + b[..|b| - 1];
      EndAllConcat(f, st, a, b[..|b| - 1]);
    }
  }

  lemma NextState(plan: Plan, a: Analysis, b: nat, i: nat)
    requires IsForest(plan.movePaths) && b < |plan.blocks| && b < |a.blockEntry|
    requires i < |plan.blocks[b].operations|
    ensures StateBefore(plan, a, b, i + 1) ==
            Apply(plan.movePaths, StateBefore(plan, a, b, i), plan.blocks[b].operations[i])
  {
    var ops := plan.blocks[b].operations;
    assert ops[..i + 1][..i] == ops[..i];
  }

  ghost predicate LocalsInRange(plan: Plan, locals: seq<LocalId>) {
    forall i | 0 <= i < |locals| :: locals[i] < |plan.locals|
  }

  ghost predicate ScopesInRange(plan: Plan, scopes: seq<ScopeId>) {
    forall s | s in scopes :: s < |plan.scopes| && LocalsInRange(plan, plan.scopes[s].locals)
  }

  method ExitScope(plan: Plan, t: Topology, state: MoveState, scope: ScopeId)
    requires IsForest(plan.movePaths) && Agrees(plan.movePaths, |plan.locals|, t)
    requires state.Valid(plan.movePaths, |plan.locals|)
    requires scope < |plan.scopes| && LocalsInRange(plan, plan.scopes[scope].locals)
    modifies state.Repr()
    ensures state.Valid(plan.movePaths, |plan.locals|)
    ensures state.Model(plan.movePaths) ==
            EndAll(plan.movePaths, old(state.Model(plan.movePaths)), plan.scopes[scope].locals)
  {
    var locals := plan.scopes[scope].locals;
    for j := 0 to |locals|
      invariant state.Valid(plan.movePaths, |plan.locals|)
      invariant state.Model(plan.movePaths) == EndAll(plan.movePaths, old(state.Model(plan.movePaths)), locals[..j])
    {
      state.EndStorage(plan.movePaths, |plan.locals|, t, locals[j]);
      assert locals[..j + 1][..j] == locals[..j];
    }
    assert locals[..|locals|] == locals;
  }

  /** Ends the storage of every local of every exited scope. */
  method ExitScopes(plan: Plan, t: Topology, state: MoveState, scopes: seq<ScopeId>)
    requires IsForest(plan.movePaths) && Agrees(plan.movePaths, |plan.locals|, t)
    requires state.Valid(plan.movePaths, |plan.locals|)
    requires ScopesInRange(plan, scopes)
    modifies state.Repr()
    ensures state.Valid(plan.movePaths, |plan.locals|)
    ensures state.Model(plan.movePaths) ==
            EndAll(plan.movePaths, old(state.Model(plan.movePaths)), ExitedLocals(plan, scopes))
  {
    for i := 0 to |scopes|
      invariant state.Valid(plan.movePaths, |plan.locals|)
      invariant state.Model(plan.movePaths) ==
                EndAll(plan.movePaths, old(state.Model(plan.movePaths)), ExitedLocals(plan, scopes[..i]))
    {
      assert scopes[i] in scopes;
      ExitScope(plan, t, state, scopes[i]);
      EndAllConcat(plan.movePaths, old(state.Model(plan.movePaths)), ExitedLocals(plan, scopes[..i]),
                   plan.scopes[scopes[i]].locals);
      assert scopes[..i + 1][..i] == scopes[..i];
    }
    assert scopes[..|scopes|] == scopes;
  }

  /** Operations and exit chains of a structured plan stay within its tables. */
  lemma OpsInRange(plan: Plan, b: nat, st: MoveState)
    requires Structured(plan) && b < |plan.blocks|
    ensures forall op | op in plan.blocks[b].operations :: st.OpInRange(plan.movePaths, |plan.locals|, op)
  {
    assert BlockOk(plan, b);
    forall op | op in plan.blocks[b].operations ensures st.OpInRange(plan.movePaths, |plan.locals|, op) {
      assert OpVisible(plan, b, op);
    }
  }

  lemma EdgeInRange(plan: Plan, b: nat, e: CleanupEdge)
    requires Structured(plan) && b < |plan.blocks| && e in BlockEdges(plan, b)
    ensures ScopesInRange(plan, e.exitedScopes)
  {
    assert BlockOk(plan, b) && EdgeOk(plan, b, e);
    StructuredEdge(plan, b, e);
    assert BlockOk(plan, e.target);
    forall s | s in e.exitedScopes ensures s < |plan.scopes| && LocalsInRange(plan, plan.scopes[s].locals) {
      var i :| 0 <= i < |e.exitedScopes| && e.exitedScopes[i] == s;
      NextParent(plan, plan.blocks[b].scope, e.exitedScopes, i);
      assert ListingsOk(plan, s);
      forall order | 0 <= order < |plan.scopes[s].locals| ensures plan.scopes[s].locals[order] < |plan.locals| {
        assert ListingOk(plan, s, order);
      }
    }
  }

  /** A scope that is left has a parent, so it exists. */
  lemma NextParent(plan: Plan, source: ScopeId, exited: seq<ScopeId>, i: nat)
    requires ExitsChain(plan, source, exited) && i < |exited|
    ensures exited[i] < |plan.scopes|
  {
    if NthParent(plan.scopes, Some(source), i + 1).None? {
      NoneStays(plan.scopes, Some(source), i + 1, |exited|);
    }
  }

  /** The state that leaves along an edge. */
  method Leave(plan: Plan, t: Topology, state: MoveState, edge: CleanupEdge) returns (edgeState: MoveState)
    requires IsForest(plan.movePaths) && Agrees(plan.movePaths, |plan.locals|, t)
    requires state.Valid(plan.movePaths, |plan.locals|) && ScopesInRange(plan, edge.exitedScopes)
    ensures fresh(edgeState.Repr()) && edgeState.Valid(plan.movePaths, |plan.locals|)
    ensures edgeState.Model(plan.movePaths) == EdgeState(plan, state.Model(plan.movePaths), edge)
  {
    edgeState := new MoveState.Copy(plan.movePaths, |plan.locals|, state);
    ExitScopes(plan, t, edgeState, edge.exitedScopes);
  }

  /** Joins into one of several objects; the others do not notice. */
  method JoinInto(f: Forest, n: nat, objects: seq<MoveState>, target: nat, incoming: MoveState,
                  ghost models: seq<State>, ghost repr: set<object>)
    returns (changed: bool)
    requires Stand(f, n, objects, models, repr) && target < |objects| && incoming.Valid(f, n)
    requires repr !! incoming.Repr()
    modifies repr
    ensures Stand(f, n, objects, models[target := Join(models[target], incoming.Model(f))], repr)
    ensures changed <==> Join(models[target], incoming.Model(f)) != models[target]
  {
    changed := objects[target].JoinFrom(f, n, incoming);
    forall i | 0 <= i < |objects| && i != target
      ensures objects[i].Valid(f, n) && objects[i].Model(f) == models[i]
    {
      assert objects[i].Repr() !! objects[target].Repr() by { assert i < target || target < i; }
    }
  }

  /** Follows one edge: joins the state that leaves along it into the target's entry. */
  method FollowEdge(plan: Plan, t: Topology, entry: seq<MoveState>, state: MoveState, edge: CleanupEdge,
                    queue: seq<BlockId>, queued: seq<bool>, ghost models: seq<State>, ghost repr: set<object>)
    returns (queue': seq<BlockId>, queued': seq<bool>)
    requires IsForest(plan.movePaths) && Agrees(plan.movePaths, |plan.locals|, t)
    requires Stand(plan.movePaths, |plan.locals|, entry, models, repr) && |entry| == |plan.blocks|
    requires state.Valid(plan.movePaths, |plan.locals|)
    requires edge.target < |entry| && ScopesInRange(plan, edge.exitedScopes)
    requires QueueOk(plan, queue, queued)
    modifies repr
    ensures Stand(plan.movePaths, |plan.locals|, entry,
                  AfterEdge(plan, models, old(state.Model(plan.movePaths)), edge), repr)
    ensures queue' == Pushed(queue, edge.target, Changes(plan, models, old(state.Model(plan.movePaths)), edge))
    ensures QueueOk(plan, queue', queued')
  {
    queue', queued' := queue, queued;
    var edgeState := Leave(plan, t, state, edge);
    var changed := JoinInto(plan.movePaths, |plan.locals|, entry, edge.target, edgeState, models, repr);
    if changed && !queued[edge.target] {
      queue' := queue + [edge.target];
      queued' := queued[edge.target := true];
    }
  }

  /** One edge of a block whose exit state changed. */
  method StepEdge(plan: Plan, t: Topology, entry: seq<MoveState>, state: MoveState, b: BlockId, j: nat,
                  queue0: seq<BlockId>, queued0: seq<bool>, ghost entries0: seq<State>, ghost exits: seq<State>,
                      ghost repr: set<object>)
    returns (queue: seq<BlockId>, queued: seq<bool>, ghost entries: seq<State>)
    requires Underway(plan, entries0, exits, queue0, b, j) && QueueOk(plan, queue0, queued0)
    requires j < |BlockEdges(plan, b)|
    requires Agrees(plan.movePaths, |plan.locals|, t) && Stand(plan.movePaths, |plan.locals|, entry, entries0, repr)
    requires state.Valid(plan.movePaths, |plan.locals|) && state.Model(plan.movePaths) == exits[b]
    requires repr !! state.Repr()
    modifies repr
    ensures Stand(plan.movePaths, |plan.locals|, entry, entries, repr) && QueueOk(plan, queue, queued)
    ensures state.Valid(plan.movePaths, |plan.locals|) && state.Model(plan.movePaths) == exits[b]
    ensures Underway(plan, entries, exits, queue, b, j + 1)
    ensures Fits(plan, Work(entries0, exits, queue0))
    ensures Work(entries, exits, queue) == Follow(plan, Work(entries0, exits, queue0), b, BlockEdges(plan, b)[j])
  {
    var edge := BlockEdges(plan, b)[j];
    FollowStep(plan, entries0, exits, queue0, b, j, entries0, queue0);
    EdgeInRange(plan, b, edge);
    hide Sized; hide Folded; hide Covered; hide Spent; hide QueueOk; hide Agrees;
    queue, queued := FollowEdge(plan, t, entry, state, edge, queue0, queued0, entries0, repr);
    entries := AfterEdge(plan, entries0, exits[b], edge);
  }

  /** The edges of one block, after its exit state changed. */
  method FollowEdges(plan: Plan, t: Topology, entry: seq<MoveState>, state: MoveState, b: BlockId,
                     queue0: seq<BlockId>, queued0: seq<bool>, ghost entries0: seq<State>, ghost exits: seq<State>,
                         ghost repr: set<object>)
    returns (queue: seq<BlockId>, queued: seq<bool>, ghost entries: seq<State>)
    requires Underway(plan, entries0, exits, queue0, b, 0) && QueueOk(plan, queue0, queued0)
    requires Agrees(plan.movePaths, |plan.locals|, t) && Stand(plan.movePaths, |plan.locals|, entry, entries0, repr)
    requires state.Valid(plan.movePaths, |plan.locals|) && state.Model(plan.movePaths) == exits[b]
    requires repr !! state.Repr()
    modifies repr
    ensures Stand(plan.movePaths, |plan.locals|, entry, entries, repr) && QueueOk(plan, queue, queued)
    ensures Underway(plan, entries, exits, queue, b, |BlockEdges(plan, b)|)
    ensures Fits(plan, Work(entries0, exits, queue0))
    ensures Work(entries, exits, queue) == Followed(plan, Work(entries0, exits, queue0), b, |BlockEdges(plan, b)|)
  {
    queue, queued, entries := queue0, queued0, entries0;
    var edges := BlockEdges(plan, b);
    ghost var w := Work(entries0, exits, queue0);
    assert Fits(plan, w) && b < |plan.blocks| && b < |exits| && Followed(plan, w, b, 0) == w;
    hide *;
    for j := 0 to |edges|
      invariant Stand(plan.movePaths, |plan.locals|, entry, entries, repr) && QueueOk(plan, queue, queued)
      invariant Underway(plan, entries, exits, queue, b, j) && Work(entries, exits, queue) == Followed(plan, w, b, j)
      invariant state.Valid(plan.movePaths, |plan.locals|) && state.Model(plan.movePaths) == exits[b]
    {
      queue, queued, entries := StepEdge(plan, t, entry, state, b, j, queue, queued, entries, exits, repr);
      FollowedMore(plan, w, b, j);
    }
  }

  ghost predicate Mirror(f: Forest, n: nat, snapshots: seq<Snapshot>, models: seq<State>) {
    && |snapshots| == |models|
    && forall i | 0 <= i < |snapshots| :: snapshots[i].Valid(f, n) && snapshots[i].View(f) == models[i]
  }

  lemma MirrorUpdate(f: Forest, n: nat, snapshots: seq<Snapshot>, models: seq<State>, b: nat, s: Snapshot)
    requires Mirror(f, n, snapshots, models) && b < |snapshots| && s.Valid(f, n)
    ensures Mirror(f, n, snapshots[b := s], models[b := s.View(f)])
  {
  }

  /** Runs a block's operations over a copy of its entry state, and compares with the exit state so far. */
  method RunBlock(plan: Plan, t: Topology, entry: MoveState, b: BlockId, exit: Snapshot, ghost before: State)
    returns (state: MoveState, same: bool)
    requires Structured(plan) && b < |plan.blocks| && Agrees(plan.movePaths, |plan.locals|, t)
    requires entry.Valid(plan.movePaths, |plan.locals|) && entry.Model(plan.movePaths) == before
    requires exit.Valid(plan.movePaths, |plan.locals|)
    ensures fresh(state.Repr()) && state.Valid(plan.movePaths, |plan.locals|)
    ensures state.Model(plan.movePaths) == ApplyAll(plan.movePaths, before, plan.blocks[b].operations)
    ensures same <==> state.Model(plan.movePaths) == exit.View(plan.movePaths)
  {
    state := new MoveState.Copy(plan.movePaths, |plan.locals|, entry);
    OpsInRange(plan, b, state);
    RunOperations(plan, t, state, plan.blocks[b].operations);
    same := state.Equals(plan.movePaths, |plan.locals|, exit);
  }

  /** A block whose exit state changed: the new exit is kept and its edges are followed. */
  method Propagate(plan: Plan, t: Topology, entry: seq<MoveState>, exit0: seq<Snapshot>, b: BlockId, state: MoveState,
                   queue0: seq<BlockId>, queued0: seq<bool>, ghost entries0: seq<State>, ghost exits0: seq<State>,
                       ghost repr: set<object>)
    returns (exit: seq<Snapshot>, queue: seq<BlockId>, queued: seq<bool>, ghost entries: seq<State>,
             ghost exits: seq<State>)
    requires IsForest(plan.movePaths) && b < |exits0| && state.Valid(plan.movePaths, |plan.locals|)
    requires Underway(plan, entries0, exits0[b := state.Model(plan.movePaths)], queue0, b, 0)
        && QueueOk(plan, queue0, queued0)
    requires Agrees(plan.movePaths, |plan.locals|, t)
    requires Stand(plan.movePaths, |plan.locals|, entry, entries0, repr)
        && Mirror(plan.movePaths, |plan.locals|, exit0, exits0)
    requires repr !! state.Repr()
    modifies repr
    ensures Stand(plan.movePaths, |plan.locals|, entry, entries, repr)
        && Mirror(plan.movePaths, |plan.locals|, exit, exits)
    ensures QueueOk(plan, queue, queued)
    ensures var w := Work(entries0, exits0[b := old(state.Model(plan.movePaths))], queue0);
            Fits(plan, w) && b < |plan.blocks|
            && Work(entries, exits, queue) == Followed(plan, w, b, |BlockEdges(plan, b)|)
  {
    assert IsForest(plan.movePaths) && b < |plan.blocks| && |exit0| == |exits0|;
    hide Underway; hide QueueOk; hide Agrees; hide Stand; hide Mirror; hide Followed;
    hide MoveState.Valid; hide MoveState.Model; hide Snapshot.Valid; hide Snapshot.View;
    var frozen := state.Freeze(plan.movePaths, |plan.locals|);
    exit := exit0[b := frozen];
    exits := exits0[b := state.Model(plan.movePaths)];
    MirrorUpdate(plan.movePaths, |plan.locals|, exit0, exits0, b, frozen);
    queue, queued, entries := FollowEdges(plan, t, entry, state, b, queue0, queued0, entries0, exits, repr);
  }

  lemma StandAt(f: Forest, n: nat, objects: seq<MoveState>, models: seq<State>, repr: set<object>, b: nat)
    requires Stand(f, n, objects, models, repr)
    ensures |objects| == |models|
    ensures b < |objects| ==> objects[b].Valid(f, n) && objects[b].Model(f) == models[b]
  {
  }

  lemma MirrorAt(f: Forest, n: nat, snapshots: seq<Snapshot>, models: seq<State>, b: nat)
    requires Mirror(f, n, snapshots, models)
    ensures |snapshots| == |models|
    ensures b < |snapshots| ==> snapshots[b].Valid(f, n) && snapshots[b].View(f) == models[b]
  {
  }

  /** One turn of the worklist loop. */
  method ProcessBlock(plan: Plan, t: Topology, entry: seq<MoveState>, exit0: seq<Snapshot>,
                      queue0: seq<BlockId>, queued0: seq<bool>, ghost entries0: seq<State>, ghost exits0: seq<State>,
                          ghost repr: set<object>)
    returns (exit: seq<Snapshot>, queue: seq<BlockId>, queued: seq<bool>, ghost entries: seq<State>,
             ghost exits: seq<State>)
    requires IsForest(plan.movePaths)
    requires WorkSettled(plan, Work(entries0, exits0, queue0)) && QueueOk(plan, queue0, queued0) && queue0 != []
    requires Agrees(plan.movePaths, |plan.locals|, t)
    requires Stand(plan.movePaths, |plan.locals|, entry, entries0, repr)
        && Mirror(plan.movePaths, |plan.locals|, exit0, exits0)
    modifies repr
    ensures Stand(plan.movePaths, |plan.locals|, entry, entries, repr)
        && Mirror(plan.movePaths, |plan.locals|, exit, exits)
    ensures QueueOk(plan, queue, queued)
    ensures var w := Work(entries0, exits0, queue0);
            Fits(plan, w) && queue0[0] < |plan.blocks| && Work(entries, exits, queue) == Turn(plan, w)
  {
    hide *;
    var b := queue0[0];
    TakeQueue(plan, queue0, queued0);
    TurnCases(plan, Work(entries0, exits0, queue0));
    StandAt(plan.movePaths, |plan.locals|, entry, entries0, repr, b);
    MirrorAt(plan.movePaths, |plan.locals|, exit0, exits0, b);
    exit, queue, queued, entries, exits := exit0, queue0[1..], queued0[b := false], entries0, exits0;
    var state, same := RunBlock(plan, t, entry[b], b, exit[b], entries0[b]);
    if !same {
      exit, queue, queued, entries, exits :=
        Propagate(plan, t, entry, exit0, b, state, queue, queued, entries0, exits0, repr);
    }
  }

  /**
   `compute`. The loop ends with the computed analysis, which is stable: every reachable
   block's exit is its operations folded over its entry, every edge's state is covered by
   the target's entry, and a block is reachable in the analysis exactly when a path of
   edges leads to it. (`ComputedIsLeast` says that it is no larger than it must be.)
   */
  method Compute(plan: Plan, t: Topology)
    returns (entry: seq<MoveState>, exit: seq<Snapshot>, ghost a: Analysis, ghost repr: set<object>)
    requires Structured(plan) && Agrees(plan.movePaths, |plan.locals|, t)
    ensures fresh(repr) && Stand(plan.movePaths, |plan.locals|, entry, a.blockEntry, repr)
    ensures Mirror(plan.movePaths, |plan.locals|, exit, a.blockExit)
    ensures a == Computed(plan) && Fixpoint(plan, a)
    ensures forall b: nat | b < |plan.blocks| :: a.blockEntry[b].reachable <==> CfgReachable(plan, b)
  {
    hide *;
    StructuredForest(plan);
    ghost var entries, exits;
    entry, exit, entries, exits, repr := Initialize(plan, t);
    var queue := [plan.entry];
    var queued := seq(|plan.blocks|, b => b == plan.entry);
    StartsAtBeginning(plan, entries, exits);
    FirstQueue(plan, queued);
    while queue != []
      invariant Stand(plan.movePaths, |plan.locals|, entry, entries, repr)
      invariant Mirror(plan.movePaths, |plan.locals|, exit, exits)
      invariant fresh(repr)
      invariant QueueOk(plan, queue, queued) && WorkSettled(plan, Work(entries, exits, queue))
      invariant Drained(plan, Work(entries, exits, queue)) == Computed(plan)
      decreases Measure(plan, Work(entries, exits, queue)), |queue|
    {
      TurnDrains(plan, Work(entries, exits, queue));
      exit, queue, queued, entries, exits := ProcessBlock(plan, t, entry, exit, queue, queued, entries, exits, repr);
    }
    DrainedAtLast(plan, Work(entries, exits, queue));
    ComputedIsStable(plan);
    a := Analysis(entries, exits);
  }

  method Initialize(plan: Plan, t: Topology)
    returns (entry: seq<MoveState>, exit: seq<Snapshot>, ghost entries: seq<State>, ghost exits: seq<State>,
             ghost repr: set<object>)
    requires Structured(plan) && Agrees(plan.movePaths, |plan.locals|, t)
    ensures fresh(repr) && Stand(plan.movePaths, |plan.locals|, entry, entries, repr)
    ensures Mirror(plan.movePaths, |plan.locals|, exit, exits)
    ensures |entries| == |plan.blocks| == |exits|
    ensures forall b | 0 <= b < |exits| :: exits[b] == NewState(plan.movePaths, false)
    ensures forall b | 0 <= b < |entries| :: entries[b] == NewState(plan.movePaths, b == plan.entry)
  {
    var f, n := plan.movePaths, |plan.locals|;
    var unreached := new MoveState(f, n, t, false);
    var frozen := unreached.Freeze(f, n);
    exit := seq(|plan.blocks|, _ => frozen);
    entries := seq(|plan.blocks|, b => NewState(f, b == plan.entry));
    exits := seq(|plan.blocks|, b => NewState(f, false));
    entry, repr := NewStates(f, n, t, |plan.blocks|, plan.entry, entries);
  }

  /** `state_before`: the entry state with the first operations applied. */
  method StateAt(plan: Plan, t: Topology, entry: seq<MoveState>, b: BlockId, index: nat, ghost a: Analysis,
                 ghost repr: set<object>)
    returns (state: MoveState)
    requires Structured(plan) && Agrees(plan.movePaths, |plan.locals|, t)
    requires Stand(plan.movePaths, |plan.locals|, entry, a.blockEntry, repr) && |entry| == |plan.blocks|
    requires b < |plan.blocks| && index <= |plan.blocks[b].operations|
    ensures fresh(state.Repr()) && state.Valid(plan.movePaths, |plan.locals|)
    ensures state.Model(plan.movePaths) == StateBefore(plan, a, b, index)
  {
    state := new MoveState.Copy(plan.movePaths, |plan.locals|, entry[b]);
    OpsInRange(plan, b, state);
    RunOperations(plan, t, state, plan.blocks[b].operations[..index]);
  }
}
