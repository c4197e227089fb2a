/**
 Runs of a cleanup plan, and what acceptance by the verifier guarantees about
 every state of every run.
 */
module Runs {
  import opened Wrappers
  import opened CleanupPlan
  import opened MovePaths
  import opened MoveStates
  import opened Semantics
  import opened Checks
  import opened Structure
  import opened Simulation

  /* ----- the analysis result ----- */

  datatype Analysis = Analysis(blockEntry: seq<State>, blockExit: seq<State>)

  /** The locals whose storage an exit chain ends, in order. */
  function ExitedLocals(plan: Plan, scopes: seq<ScopeId>): seq<LocalId> {
    if scopes == [] then []
    else
      var s := scopes[|scopes| - 1];
      ExitedLocals(plan, scopes[..|scopes| - 1]) + (if s < |plan.scopes| then plan.scopes[s].locals else [])
  }

  ghost function EdgeState(plan: Plan, st: State, edge: CleanupEdge): State
    requires IsForest(plan.movePaths)
  {
    EndAll(plan.movePaths, st, ExitedLocals(plan, edge.exitedScopes))
  }

  function BlockEdges(plan: Plan, b: nat): seq<CleanupEdge>
    requires b < |plan.blocks|
  {
    if plan.blocks[b].terminator.Some? then Edges(plan.blocks[b].terminator.value) else []
  }

  ghost function StateBefore(plan: Plan, a: Analysis, b: nat, i: nat): State
    requires IsForest(plan.movePaths) && b < |plan.blocks| && b < |a.blockEntry|
    requires i <= |plan.blocks[b].operations|
  {
    ApplyAll(plan.movePaths, a.blockEntry[b], plan.blocks[b].operations[..i])
  }

  /** Whatever leaves `b` along an edge is covered by the target's entry state. */
  ghost predicate Flows(plan: Plan, a: Analysis, b: nat)
    requires IsForest(plan.movePaths) && b < |plan.blocks|
    requires |a.blockEntry| == |plan.blocks| && |a.blockExit| == |plan.blocks|
  {
    forall e | e in BlockEdges(plan, b) ::
      e.target < |plan.blocks| && Below(EdgeState(plan, a.blockExit[b], e), a.blockEntry[e.target])
  }

  /** The block's exit state is its operations folded over its entry state. */
  ghost predicate Folds(plan: Plan, a: Analysis, b: nat)
    requires IsForest(plan.movePaths) && b < |plan.blocks|
    requires |a.blockEntry| == |plan.blocks| && |a.blockExit| == |plan.blocks|
  {
    a.blockEntry[b].reachable ==>
      a.blockExit[b] == ApplyAll(plan.movePaths, a.blockEntry[b], plan.blocks[b].operations)
  }

  /** `a` is stable: it covers the start, each block and each edge. */
  ghost predicate Fixpoint(plan: Plan, a: Analysis)
    requires IsForest(plan.movePaths)
  {
    && |a.blockEntry| == |plan.blocks| && |a.blockExit| == |plan.blocks|
    && plan.entry < |plan.blocks|
    && Below(NewState(plan.movePaths, true), a.blockEntry[plan.entry])
    && (forall b: nat | b < |plan.blocks| :: Proper(plan.movePaths, |plan.locals|, a.blockEntry[b]))
    && (forall b: nat | b < |plan.blocks| :: Folds(plan, a, b))
    && (forall b: nat | b < |plan.blocks| :: Flows(plan, a, b))
  }

  ghost predicate RootStateOk(f: Forest, st: State, local: LocalId) {
    && Liveness(st, local) == Live
    && exists r: nat :: r < |f| && f[r].parent == None && LocalOf(f, r) == local
        && Initialization(f, st, r) == Initialized
  }

  ghost predicate TerminatorStateOk(plan: Plan, st: State, t: Terminator)
    requires IsForest(plan.movePaths)
  {
    match t
    case Branch(condition, _, _) => RootStateOk(plan.movePaths, st, condition)
    case Return(_) =>
      forall l: nat | l < |plan.locals| && plan.locals[l].kind == ReturnPlace :: RootStateOk(plan.movePaths, st, l)
    case _ => true
  }

  /** Every check of `verify_stable_move_state` passes. */
  ghost predicate Stable(plan: Plan, a: Analysis)
    requires IsForest(plan.movePaths) && |a.blockEntry| == |plan.blocks|
  {
    forall b: nat | b < |plan.blocks| && a.blockEntry[b].reachable :: StableBlock(plan, a, b)
  }

  ghost predicate StableBlock(plan: Plan, a: Analysis, b: nat)
    requires IsForest(plan.movePaths) && |a.blockEntry| == |plan.blocks| && b < |plan.blocks|
  {
    var ops := plan.blocks[b].operations;
    && (forall i | 0 <= i < |ops| :: OpStateOk(plan.movePaths, StateBefore(plan, a, b, i), ops[i]))
    && (plan.blocks[b].terminator.Some? ==>
        TerminatorStateOk(plan, StateBefore(plan, a, b, |ops|), plan.blocks[b].terminator.value))
  }

  /** The plan passed every check, with `a` as its computed analysis. */
  ghost predicate Accepted(plan: Plan, a: Analysis) {
    Structured(plan) && Fixpoint(plan, a) && Stable(plan, a)
  }

  /* ----- runs ----- */

  /** About to execute operation `index` of `block`, or its terminator. */
  datatype Config = At(block: BlockId, index: nat, memory: Concrete)

  ghost predicate ConfigOk(plan: Plan, x: Config) {
    x.block < |plan.blocks| && x.index <= |plan.blocks[x.block].operations|
  }

  ghost predicate OpMove(plan: Plan, x: Config, y: Config)
    requires IsForest(plan.movePaths) && ConfigOk(plan, x)
  {
    && x.index < |plan.blocks[x.block].operations|
    && y.block == x.block && y.index == x.index + 1
    && Step(plan.movePaths, x.memory, plan.blocks[x.block].operations[x.index], y.memory)
  }

  ghost predicate EdgeMove(plan: Plan, x: Config, e: CleanupEdge, y: Config)
    requires IsForest(plan.movePaths) && ConfigOk(plan, x)
  {
    && x.index == |plan.blocks[x.block].operations|
    && e in BlockEdges(plan, x.block)
    && y == At(e.target, 0, EndLocals(plan.movePaths, x.memory, ExitedLocals(plan, e.exitedScopes)))
  }

  ghost predicate Move(plan: Plan, x: Config, y: Config)
    requires IsForest(plan.movePaths)
  {
    && ConfigOk(plan, x) && ConfigOk(plan, y)
    && (OpMove(plan, x, y) || exists e :: EdgeMove(plan, x, e, y))
  }

  /** A run from the entry block, with nothing live and nothing initialized. */
  ghost predicate IsRun(plan: Plan, run: seq<Config>)
    requires IsForest(plan.movePaths)
  {
    && run != [] && run[0] == At(plan.entry, 0, START)
    && forall i | 0 <= i < |run| - 1 :: Move(plan, run[i], run[i + 1])
  }

  /* ----- safety ----- */

  ghost predicate RootFull(f: Forest, c: Concrete, local: LocalId) {
    local in c.live && exists r: nat :: r < |f| && f[r].parent == None && LocalOf(f, r) == local && Full(f, c, r)
  }

  ghost predicate TerminatorSafe(plan: Plan, c: Concrete, t: Terminator)
    requires IsForest(plan.movePaths)
  {
    match t
    case Branch(condition, _, _) => RootFull(plan.movePaths, c, condition)
    case Return(_) =>
      forall l: nat | l < |plan.locals| && plan.locals[l].kind == ReturnPlace :: RootFull(plan.movePaths, c, l)
    case _ => true
  }

  /** What is about to happen touches no dead, moved or wrong-variant storage. */
  ghost predicate SafeAt(plan: Plan, x: Config)
    requires IsForest(plan.movePaths) && ConfigOk(plan, x)
  {
    var block := plan.blocks[x.block];
    if x.index < |block.operations| then OpSafe(plan.movePaths, x.memory, block.operations[x.index])
    else block.terminator.Some? && TerminatorSafe(plan, x.memory, block.terminator.value)
  }

  /** The analysis tells the truth about `x`. */
  ghost predicate Described(plan: Plan, a: Analysis, x: Config)
    requires IsForest(plan.movePaths) && |a.blockEntry| == |plan.blocks| && ConfigOk(plan, x)
  {
    a.blockEntry[x.block].reachable
    && Represents(plan.movePaths, StateBefore(plan, a, x.block, x.index), x.memory)
  }

  lemma StartDescribed(f: Forest)
    ensures Represents(f, NewState(f, true), START)
  {
    forall q | 0 <= q < |f| ensures NodeOk(f, NewState(f, true), START, q) { EmptyNotFull(f, START, q); }
  }

  lemma MoveDescribed(plan: Plan, a: Analysis, x: Config, y: Config)
    requires Accepted(plan, a) && Move(plan, x, y) && Described(plan, a, x)
    ensures Described(plan, a, y)
  {
    var f := plan.movePaths;
    var ops := plan.blocks[x.block].operations;
    var before := StateBefore(plan, a, x.block, x.index);
    assert StableBlock(plan, a, x.block);
    if OpMove(plan, x, y) {
      VisibleShapes(plan, x.block, ops[x.index]);
      StepSound(f, before, x.memory, ops[x.index], y.memory);
      assert ops[..y.index][..|ops[..y.index]| - 1] == ops[..x.index];
    } else {
      var e :| EdgeMove(plan, x, e, y);
      assert ops[..x.index] == ops;
      assert Folds(plan, a, x.block) && Flows(plan, a, x.block);
      EndAllSound(f, before, x.memory, ExitedLocals(plan, e.exitedScopes));
      BelowSound(f, EdgeState(plan, before, e), a.blockEntry[e.target], y.memory);
      assert plan.blocks[e.target].operations[..0] == [];
    }
  }

  lemma {:induction false} RunDescribed(plan: Plan, a: Analysis, run: seq<Config>, i: nat)
    requires Accepted(plan, a) && IsRun(plan, run) && i < |run|
    ensures ConfigOk(plan, run[i]) && Described(plan, a, run[i])
    decreases i
  {
    if i == 0 {
      StartDescribed(plan.movePaths);
      BelowSound(plan.movePaths, NewState(plan.movePaths, true), a.blockEntry[plan.entry], START);
      assert plan.blocks[plan.entry].operations[..0] == [];
    } else {
      RunDescribed(plan, a, run, i - 1);
      assert Move(plan, run[i - 1], run[i - 1 + 1]);
      MoveDescribed(plan, a, run[i - 1], run[i]);
    }
  }

  lemma RootStateIsFull(f: Forest, st: State, c: Concrete, local: LocalId)
    requires Represents(f, st, c) && RootStateOk(f, st, local)
    ensures RootFull(f, c, local)
  {
    var r: nat :| r < |f| && f[r].parent == None && LocalOf(f, r) == local && Initialization(f, st, r) == Initialized;
    assert NodeOk(f, st, c, r);
  }

  /**
   Whole-run safety. In an accepted plan, on every run: values that are moved out,
   overwritten or transferred are complete and live; no operation projects through an
   inactive variant; storage becomes live only when it was dead and empty; every branch
   condition and every return place is live and complete.
   */
  lemma WholeRunSafety(plan: Plan, a: Analysis, run: seq<Config>, i: nat)
    requires Accepted(plan, a) && IsRun(plan, run) && i < |run|
    ensures ConfigOk(plan, run[i]) && SafeAt(plan, run[i])
    ensures Coherent(plan.movePaths, run[i].memory)
  {
    RunDescribed(plan, a, run, i);
    var x := run[i];
    var f := plan.movePaths;
    var block := plan.blocks[x.block];
    var st := StateBefore(plan, a, x.block, x.index);
    assert BlockOk(plan, x.block) && StableBlock(plan, a, x.block);
    if x.index < |block.operations| {
      VisibleShapes(plan, x.block, block.operations[x.index]);
      AcceptedIsSafe(f, st, x.memory, block.operations[x.index]);
    } else {
      match block.terminator.value
      case Branch(condition, _, _) => RootStateIsFull(f, st, x.memory, condition);
      case Return(_) =>
        forall l: nat | l < |plan.locals| && plan.locals[l].kind == ReturnPlace
          ensures RootFull(f, x.memory, l)
        {
          RootStateIsFull(f, st, x.memory, l);
        }
      case _ =>
    }
  }

  /* ----- scope discipline ----- */

  /** Whatever is live belongs to a scope that encloses the current block. */
  ghost predicate Disciplined(plan: Plan, x: Config)
    requires ConfigOk(plan, x)
  {
    forall l | l in x.memory.live ::
      l < |plan.locals| && IsAncestor(plan.scopes, plan.locals[l].scope, plan.blocks[x.block].scope)
  }

  lemma {:induction false} EndLocalsLive(f: Forest, c: Concrete, locals: seq<LocalId>)
    ensures EndLocals(f, c, locals).live == c.live - (set l | l in locals)
  {
    if locals != [] {
      EndLocalsLive(f, c, locals[..|locals| - 1]);
      assert locals == locals[..|locals| - 1] + [locals[|locals| - 1]];
    }
  }

  lemma {:induction false} ExitedContains(plan: Plan, scopes: seq<ScopeId>, i: nat, l: LocalId)
    requires i < |scopes| && scopes[i] < |plan.scopes| && l in plan.scopes[scopes[i]].locals
    ensures l in ExitedLocals(plan, scopes)
  {
    if i < |scopes| - 1 { ExitedContains(plan, scopes[..|scopes| - 1], i, l); }
  }

  /** `s` is among the first `n` scopes on the way up from `source`. */
  ghost predicate Exits(scopes: seq<ScopeData>, source: ScopeId, n: nat, s: ScopeId) {
    exists i: nat :: i < n && NthParent(scopes, Some(source), i) == Some(s)
  }

  /** Leaving `n` scopes, an enclosing scope is left or still encloses what remains. */
  lemma LeftOrEnclosing(scopes: seq<ScopeData>, s: ScopeId, source: ScopeId, n: nat)
    requires IsAncestor(scopes, s, source) && NthParent(scopes, Some(source), n).Some?
    ensures Exits(scopes, source, n, s) || IsAncestor(scopes, s, NthParent(scopes, Some(source), n).value)
  {
    var k: nat :| NthParent(scopes, Some(source), k) == Some(s);
    if k >= n {
      NthParentAdd(scopes, Some(source), n, k - n);
      var rest := NthParent(scopes, Some(source), n).value;
      assert NthParent(scopes, Some(rest), k - n) == Some(s);
      assert IsAncestor(scopes, s, rest);
    } else {
      assert Exits(scopes, source, n, s);
    }
  }

  /** An edge ends exactly the storage of the locals declared in the scopes it leaves. */
  lemma EndedExactly(plan: Plan, scopes: seq<ScopeId>, l: LocalId)
    requires ScopesOk(plan) && LocalsOk(plan) && l < |plan.locals|
    ensures l in ExitedLocals(plan, scopes) <==> plan.locals[l].scope in scopes
  {
    if scopes != [] {
      var s, front := scopes[|scopes| - 1], scopes[..|scopes| - 1];
      EndedExactly(plan, front, l);
      assert scopes == front + [s];
      assert LocalOk(plan, l);
      if s < |plan.scopes| { ScopeListsItsLocals(plan, s, l); }
    }
  }

  lemma EdgeDiscipline(plan: Plan, x: Config, e: CleanupEdge, y: Config)
    requires StructureOk(plan) && ConfigOk(plan, x) && ConfigOk(plan, y)
    requires Disciplined(plan, x) && EdgeMove(plan, x, e, y)
    ensures Disciplined(plan, y)
  {
    var source := plan.blocks[x.block].scope;
    assert BlockOk(plan, x.block) && BlockOk(plan, y.block);
    assert EdgeOk(plan, x.block, e);
    var rest := NthParent(plan.scopes, Some(source), |e.exitedScopes|).value;
    EndLocalsLive(plan.movePaths, x.memory, ExitedLocals(plan, e.exitedScopes));
    forall l | l in y.memory.live
      ensures l < |plan.locals| && IsAncestor(plan.scopes, plan.locals[l].scope, plan.blocks[y.block].scope)
    {
      assert LocalOk(plan, l);
      var s := plan.locals[l].scope;
      LeftOrEnclosing(plan.scopes, s, source, |e.exitedScopes|);
      if Exits(plan.scopes, source, |e.exitedScopes|, s) {
        var i: nat :| i < |e.exitedScopes| && NthParent(plan.scopes, Some(source), i) == Some(s);
        ScopeListsItsLocals(plan, s, l);
        ExitedContains(plan, e.exitedScopes, i, l);
      }
      AncestorTransitive(plan.scopes, s, rest, plan.blocks[y.block].scope);
    }
  }

  /**
   Scope discipline. On every run of an accepted plan, any live local belongs to a
   scope enclosing the current block.
   */
  lemma {:induction false} ScopeDiscipline(plan: Plan, run: seq<Config>, i: nat)
    requires Structured(plan) && IsRun(plan, run) && i < |run|
    ensures ConfigOk(plan, run[i]) && Disciplined(plan, run[i])
    decreases i
  {
    if i > 0 {
      ScopeDiscipline(plan, run, i - 1);
      var x, y := run[i - 1], run[i - 1 + 1];
      assert Move(plan, x, y);
      if OpMove(plan, x, y) {
        var op := plan.blocks[x.block].operations[x.index];
        assert BlockOk(plan, x.block) && OpVisible(plan, x.block, op);
        if op.StorageLive? {
          assert NthParent(plan.scopes, Some(plan.locals[op.local].scope), 0) == Some(plan.blocks[x.block].scope);
        }
      } else {
        var e :| EdgeMove(plan, x, e, y);
        EdgeDiscipline(plan, x, e, y);
      }
    }
  }
}
