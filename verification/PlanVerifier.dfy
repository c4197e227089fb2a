/**
 The rest of `CleanupPlan::verify`: blocks and edges, the checks that need the
 move-path index, and the checks against the computed states.
 */
module PlanVerifier {
  import opened Wrappers
  import opened CleanupPlan
  import opened MovePaths
  import opened Topologies
  import opened TopologyBuilder
  import opened MoveStates
  import opened Checks
  import opened Structure
  import opened StructureVerifier
  import opened Lattice
  import opened Runs
  import opened MoveStateObjects
  import opened MoveStateAnalyses

  /* ----- edges ----- */

  lemma ChainStep(plan: Plan, source: ScopeId, exited: seq<ScopeId>, i: nat, parent: ScopeId)
    requires i < |exited| && ExitsChain(plan, source, exited[..i])
    requires NthParent(plan.scopes, Some(source), i) == Some(exited[i]) && exited[i] != plan.rootScope
    requires ParentScope(plan.scopes, exited[i]) == Some(parent)
    ensures ExitsChain(plan, source, exited[..i + 1]) && NthParent(plan.scopes, Some(source), i + 1) == Some(parent)
  {
    var longer := exited[..i + 1];
    forall j | 0 <= j < |longer|
      ensures NthParent(plan.scopes, Some(source), j) == Some(longer[j]) && longer[j] != plan.rootScope
    {
      if j < i { assert exited[..i][j] == longer[j]; }
    }
  }

  /** A valid chain is valid at each of its members. */
  lemma ChainMember(plan: Plan, source: ScopeId, exited: seq<ScopeId>, i: nat)
    requires ExitsChain(plan, source, exited) && i < |exited|
    ensures NthParent(plan.scopes, Some(source), i) == Some(exited[i]) && exited[i] != plan.rootScope
    ensures ParentScope(plan.scopes, exited[i]).Some?
  {
    if NthParent(plan.scopes, Some(source), i + 1).None? {
      NoneStays(plan.scopes, Some(source), i + 1, |exited|);
    }
  }

  /** Follows the listed scopes upward; the chain is broken as soon as one does not fit. */
  method FollowChain(plan: Plan, source: ScopeId, exited: seq<ScopeId>) returns (end: Option<ScopeId>)
    ensures end.Some? <==> ExitsChain(plan, source, exited)
    ensures end.Some? ==> end == NthParent(plan.scopes, Some(source), |exited|)
  {
    var cursor := source;
    for i := 0 to |exited|
      invariant ExitsChain(plan, source, exited[..i])
      invariant NthParent(plan.scopes, Some(source), i) == Some(cursor)
    {
      if exited[i] != cursor || cursor == plan.rootScope {
        if ExitsChain(plan, source, exited) { ChainMember(plan, source, exited, i); }
        return None;
      }
      var parent := ParentScope(plan.scopes, cursor);
      if parent.None? {
        if ExitsChain(plan, source, exited) { ChainMember(plan, source, exited, i); }
        return None;
      }
      ChainStep(plan, source, exited, i, parent.value);
      cursor := parent.value;
    }
    assert exited[..|exited|] == exited;
    end := Some(cursor);
  }

  method VerifyEdge(plan: Plan, b: nat, edge: CleanupEdge) returns (errors: seq<VerifyError>)
    requires b < |plan.blocks|
    ensures errors == [] <==> EdgeOk(plan, b, edge)
  {
    if edge.target >= |plan.blocks| {
      return [BadTerminator(b)];
    }
    var source, target := plan.blocks[b].scope, plan.blocks[edge.target].scope;
    if source >= |plan.scopes| || target >= |plan.scopes| {
      return [];
    }
    var end := FollowChain(plan, source, edge.exitedScopes);
    if end.None? {
      return [BadTerminator(b)];
    }
    var reaches := IsAncestorScope(plan, end.value, target);
    errors := if reaches then [] else [BadTerminator(b)];
  }

  /** `return_exit_chain`: every scope up to the root, if the root is reached. */
  method ReturnExitChain(plan: Plan, source: ScopeId) returns (chain: Option<seq<ScopeId>>)
    ensures chain.Some? ==> ReturnOk(plan, source, chain.value)
    ensures chain.None? ==> forall exited :: !ReturnOk(plan, source, exited)
  {
    var result: seq<ScopeId> := [];
    var cursor := source;
    var visited: set<ScopeId> := {};
    while cursor != plan.rootScope
      invariant ExitsChain(plan, source, result)
      invariant NthParent(plan.scopes, Some(source), |result|) == Some(cursor)
      invariant visited == Steps(plan.scopes, source, |result|)
      decreases |plan.scopes| - |visited|
    {
      if cursor in visited {
        forall exited ensures !ReturnOk(plan, source, exited) { CycleNoReturn(plan, source, result, cursor, exited); }
        return None;
      }
      var next := ParentScope(plan.scopes, cursor);
      if next.None? {
        forall exited ensures !ReturnOk(plan, source, exited) {
          NoReturn(plan, source, result, cursor, exited);
        }
        return None;
      }
      var longer := result + [cursor];
      assert longer[..|result|] == result && longer[..|result| + 1] == longer;
      ChainStep(plan, source, longer, |result|, next.value);
      FewSteps(plan.scopes, source, |longer|);
      visited := visited + {cursor};
      result := longer;
      cursor := next.value;
    }
    chain := Some(result);
  }

  /** A chain that comes back never reaches the root. */
  lemma CycleNoReturn(plan: Plan, source: ScopeId, result: seq<ScopeId>, cursor: ScopeId, exited: seq<ScopeId>)
    requires ExitsChain(plan, source, result) && NthParent(plan.scopes, Some(source), |result|) == Some(cursor)
    requires cursor in Steps(plan.scopes, source, |result|)
    ensures !ReturnOk(plan, source, exited)
  {
    if ReturnOk(plan, source, exited) {
      var i := StepOf(plan.scopes, source, |result|, cursor);
      var j := CycleRepeats(plan.scopes, Some(source), i, |result|, |exited|);
      ChainMember(plan, source, result, j);
    }
  }

  lemma NoReturn(plan: Plan, source: ScopeId, result: seq<ScopeId>, cursor: ScopeId, exited: seq<ScopeId>)
    requires ExitsChain(plan, source, result) && NthParent(plan.scopes, Some(source), |result|) == Some(cursor)
    requires cursor != plan.rootScope && ParentScope(plan.scopes, cursor) == None
    ensures !ReturnOk(plan, source, exited)
  {
    assert |exited| < |result| ==>
             NthParent(plan.scopes, Some(source), |exited|) == Some(result[|exited|]) != Some(plan.rootScope);
    assert NthParent(plan.scopes, Some(source), |result| + 1) == None;
    if |exited| > |result| { NoneStays(plan.scopes, Some(source), |result| + 1, |exited|); }
  }

  lemma NotShorter(plan: Plan, source: ScopeId, a: seq<ScopeId>, b: seq<ScopeId>)
    requires ReturnOk(plan, source, a) && ExitsChain(plan, source, b)
    ensures |b| <= |a|
  {
    ListedIsInner(plan, source, b, |a|);
  }

  /** No scope on a chain is the root. */
  lemma ListedIsInner(plan: Plan, source: ScopeId, exited: seq<ScopeId>, i: nat)
    requires ExitsChain(plan, source, exited)
    ensures i < |exited| ==> NthParent(plan.scopes, Some(source), i) != Some(plan.rootScope)
  {
  }

  lemma ReturnUnique(plan: Plan, source: ScopeId, a: seq<ScopeId>, b: seq<ScopeId>)
    requires ReturnOk(plan, source, a) && ReturnOk(plan, source, b)
    ensures a == b
  {
    NotShorter(plan, source, a, b);
    NotShorter(plan, source, b, a);
    forall i | 0 <= i < |a| ensures a[i] == b[i] {
      ChainMember(plan, source, a, i);
      ChainMember(plan, source, b, i);
    }
  }

  method VerifyReturn(plan: Plan, b: nat, exited: seq<ScopeId>) returns (errors: seq<VerifyError>)
    requires b < |plan.blocks|
    ensures errors == [] <==> ReturnOk(plan, plan.blocks[b].scope, exited)
  {
    var expected := ReturnExitChain(plan, plan.blocks[b].scope);
    if expected == Some(exited) {
      errors := [];
    } else {
      if expected.Some? && ReturnOk(plan, plan.blocks[b].scope, exited) {
        ReturnUnique(plan, plan.blocks[b].scope, expected.value, exited);
      }
      errors := [BadTerminator(b)];
    }
  }

  method VerifyTerminator(plan: Plan, b: nat, t: Terminator) returns (errors: seq<VerifyError>)
    requires b < |plan.blocks|
    ensures errors == [] <==> TerminatorOk(plan, b, t)
  {
    errors := [];
    match t
    case Goto(edge) => errors := VerifyEdge(plan, b, edge);
    case Branch(condition, thenEdge, elseEdge) =>
      var conditionErrors := VerifyCondition(plan, b, condition);
      var thenErrors := VerifyEdge(plan, b, thenEdge);
      var elseErrors := VerifyEdge(plan, b, elseEdge);
      errors := conditionErrors + thenErrors + elseErrors;
    case Return(exited) => errors := VerifyReturn(plan, b, exited);
    case Abort =>
    case Unreachable =>
  }

  method VerifyCondition(plan: Plan, b: nat, condition: LocalId) returns (errors: seq<VerifyError>)
    requires b < |plan.blocks|
    ensures errors == [] <==>
            && condition < |plan.locals|
            && IsAncestor(plan.scopes, plan.locals[condition].scope, plan.blocks[b].scope)
            && plan.locals[condition].ownership == Owned
  {
    if condition >= |plan.locals| {
      return [BadTerminator(b)];
    }
    var visible := IsAncestorScope(plan, plan.locals[condition].scope, plan.blocks[b].scope);
    if !visible {
      return [BadTerminator(b)];
    }
    errors := if plan.locals[condition].ownership != Owned then [BadTerminator(b)] else [];
  }

  /* ----- operations ----- */

  method VerifyOperationLocal(plan: Plan, b: nat, l: LocalId, starts: bool) returns (errors: seq<VerifyError>)
    requires b < |plan.blocks|
    ensures errors == [] <==> OpVisible(plan, b, if starts then StorageLive(l) else StorageDead(l))
  {
    if l >= |plan.locals| {
      return [BadOperation(b)];
    }
    errors := if !starts && plan.locals[l].ownership != Owned then [BadOperation(b)] else [];
    var visible;
    if starts {
      visible := plan.locals[l].scope == plan.blocks[b].scope;
    } else {
      visible := IsAncestorScope(plan, plan.locals[l].scope, plan.blocks[b].scope);
    }
    if !visible {
      errors := errors + [BadOperation(b)];
    }
  }

  method VerifyOperationPath(plan: Plan, b: nat, p: MovePathId) returns (errors: seq<VerifyError>)
    requires b < |plan.blocks|
    ensures errors == [] <==> PathVisible(plan, b, p)
  {
    if p >= |plan.movePaths| {
      return [BadOperation(b)];
    }
    var l := plan.movePaths[p].place.local;
    if l >= |plan.locals| {
      return [BadOperation(b)];
    }
    errors := if plan.locals[l].ownership != Owned then [BadOperation(b)] else [];
    var visible := IsAncestorScope(plan, plan.locals[l].scope, plan.blocks[b].scope);
    if !visible {
      errors := errors + [BadOperation(b)];
    }
  }

  method VerifyOperation(plan: Plan, b: nat, op: CleanupOp) returns (errors: seq<VerifyError>)
    requires b < |plan.blocks|
    ensures errors == [] <==> OpVisible(plan, b, op)
  {
    match op
    case StorageLive(l) => errors := VerifyOperationLocal(plan, b, l, true);
    case StorageDead(l) => errors := VerifyOperationLocal(plan, b, l, false);
    case Init(p) => errors := VerifyOperationPath(plan, b, p);
    case MoveOut(p) => errors := VerifyOperationPath(plan, b, p);
    case Overwrite(p) => errors := VerifyOperationPath(plan, b, p);
    case SetDiscriminant(p, _) => errors := VerifyOperationPath(plan, b, p);
    case AssumeDiscriminant(r, _) => errors := VerifyOperationPath(plan, b, r);
    case Transfer(s, d, _) =>
      var sourceErrors := VerifyOperationPath(plan, b, s);
      var destinationErrors := VerifyOperationPath(plan, b, d);
      errors := sourceErrors + destinationErrors;
      if s == d {
        errors := errors + [BadOperation(b)];
      } else if s < |plan.movePaths| && d < |plan.movePaths|
                && Overlap(plan.movePaths[s].place, plan.movePaths[d].place) {
        errors := errors + [BadOperation(b)];
      }
  }

  method VerifyOperations(plan: Plan, b: nat) returns (errors: seq<VerifyError>)
    requires b < |plan.blocks|
    ensures errors == [] <==> OpsVisible(plan, b)
  {
    var ops := plan.blocks[b].operations;
    errors := [];
    for i := 0 to |ops|
      invariant errors == [] <==> forall j | 0 <= j < i :: OpVisible(plan, b, ops[j])
    {
      var found := VerifyOperation(plan, b, ops[i]);
      errors := errors + found;
    }
    if forall j | 0 <= j < |ops| :: OpVisible(plan, b, ops[j]) {
      assert OpsVisible(plan, b);
    }
  }

  /* ----- blocks ----- */

  method VerifyBlock(plan: Plan, b: nat) returns (errors: seq<VerifyError>)
    requires b < |plan.blocks|
    ensures errors == [] <==> BlockOk(plan, b)
  {
    var block := plan.blocks[b];
    var own := if block.id != b then [BadBlock(b)] else [];
    if block.scope >= |plan.scopes| {
      own := own + [BadBlock(b)];
    }
    var operations := VerifyOperations(plan, b);
    if block.terminator.None? {
      return own + operations + [BadBlock(b)];
    }
    var terminator := VerifyTerminator(plan, b, block.terminator.value);
    errors := own + operations + terminator;
  }

  method VerifyBlocks(plan: Plan) returns (errors: seq<VerifyError>)
    ensures errors == [] <==> BlocksOk(plan)
  {
    errors := [];
    if plan.entry >= |plan.blocks| {
      errors := [BadEntry];
    } else if plan.blocks[plan.entry].scope != plan.rootScope {
      errors := [BadEntry];
    }
    ghost var entryErrors := errors;
    for b := 0 to |plan.blocks|
      invariant errors == [] <==> entryErrors == [] && forall i: nat | i < b :: BlockOk(plan, i)
    {
      var found := VerifyBlock(plan, b);
      errors := errors + found;
    }
  }

  method VerifyStructure(plan: Plan) returns (errors: seq<VerifyError>)
    ensures errors == [] <==> StructureOk(plan)
  {
    var scopes := VerifyScopes(plan);
    var locals := VerifyLocals(plan);
    var paths := VerifyMovePaths(plan);
    var blocks := VerifyBlocks(plan);
    errors := scopes + locals + paths + blocks;
  }

  /* ----- checks with the index ----- */

  /** `enum_variants` and the binary search for one of them. */
  method HasVariant(f: Forest, locals: nat, t: Topology, p: MovePathId, v: nat) returns (r: bool)
    requires Agrees(f, locals, t) && p < |f|
    ensures r <==> v in Variants(f, p)
  {
    assert RuleAgrees(f, p, t.completion[p]);
    match t.completion[p]
    case EnumRoot(variants) =>
      var found := FindVariant(variants, v);
      if found.Some? {
        ghost var i :| 0 <= i < |variants| && variants[i] == (v, found.value);
        return true;
      }
      forall k | k in Kids(f, p) ensures Variant(f, k) != v { assert (Variant(f, k), k) in variants; }
      r := false;
    case _ =>
      assert forall k | k in Kids(f, p) :: !IsDowncast(f, k);
      r := false;
  }

  method VerifyTopologyOperation(plan: Plan, t: Topology, b: nat, op: CleanupOp) returns (errors: seq<VerifyError>)
    requires StructureOk(plan) && Agrees(plan.movePaths, |plan.locals|, t)
    requires b < |plan.blocks| && op in plan.blocks[b].operations
    ensures errors == [] <==> TopologyOpOk(plan.movePaths, op)
  {
    assert BlockOk(plan, b) && OpVisible(plan, b, op);
    errors := [];
    match op
    case SetDiscriminant(p, v) =>
      var valid := HasVariant(plan.movePaths, |plan.locals|, t, p, v);
      if !valid { errors := [BadVariant(b)]; }
    case AssumeDiscriminant(r, v) =>
      var valid := HasVariant(plan.movePaths, |plan.locals|, t, r, v);
      if !valid { errors := [BadVariant(b)]; }
    case Transfer(s, d, _) =>
      var matches := TransferShapesMatch(plan.movePaths, t, |plan.locals|, s, d);
      if !matches { errors := [IncompatibleShapes(b)]; }
    case _ =>
  }

  method VerifyBlockShapes(plan: Plan, t: Topology, b: nat) returns (errors: seq<VerifyError>)
    requires StructureOk(plan) && Agrees(plan.movePaths, |plan.locals|, t) && b < |plan.blocks|
    ensures errors == [] <==> BlockShapesOk(plan, b)
  {
    var ops := plan.blocks[b].operations;
    errors := [];
    for i := 0 to |ops|
      invariant errors == [] <==> forall j | 0 <= j < i :: TopologyOpOk(plan.movePaths, ops[j])
    {
      var found := VerifyTopologyOperation(plan, t, b, ops[i]);
      errors := errors + found;
    }
    if forall j | 0 <= j < |ops| :: TopologyOpOk(plan.movePaths, ops[j]) { assert BlockShapesOk(plan, b); }
  }

  method VerifyTopologyOperations(plan: Plan, t: Topology) returns (errors: seq<VerifyError>)
    requires StructureOk(plan) && Agrees(plan.movePaths, |plan.locals|, t)
    ensures errors == [] <==> OperationShapesOk(plan)
  {
    errors := [];
    for b := 0 to |plan.blocks|
      invariant errors == [] <==> forall i: nat | i < b :: BlockShapesOk(plan, i)
    {
      var found := VerifyBlockShapes(plan, t, b);
      errors := errors + found;
    }
  }

  /* ----- checks against the states ----- */

  /** `require_live` and `require_active_downcasts` for one path. */
  method CheckReady(f: Forest, n: nat, t: Topology, state: MoveState, p: MovePathId) returns (r: bool)
    requires state.Valid(f, n) && Agrees(f, n, t) && p < |f|
    ensures r <==> PathReady(f, state.Model(f), p)
  {
    var liveness := state.StorageLiveness(f, n, f[p].place.local);
    var offender := state.InactiveDowncast(f, n, t, p);
    r := liveness == Live && offender.None?;
  }

  method CheckOperation(f: Forest, n: nat, t: Topology, state: MoveState, op: CleanupOp) returns (r: bool)
    requires state.Valid(f, n) && Agrees(f, n, t) && state.OpInRange(f, n, op)
    ensures r <==> OpStateOk(f, state.Model(f), op)
  {
    match op
    case StorageLive(l) =>
      var liveness := state.StorageLiveness(f, n, l);
      r := liveness == Dead;
    case StorageDead(_) => r := true;
    case Init(p) => r := CheckReady(f, n, t, state, p);
    case MoveOut(p) =>
      var ready := CheckReady(f, n, t, state, p);
      var status := state.PathInitialization(f, n, t, p);
      r := ready && status == Initialized;
    case Overwrite(p) =>
      var ready := CheckReady(f, n, t, state, p);
      var status := state.PathInitialization(f, n, t, p);
      r := ready && status == Initialized;
    case Transfer(s, d, kind) =>
      var sourceReady := CheckReady(f, n, t, state, s);
      var destinationReady := CheckReady(f, n, t, state, d);
      var sourceStatus := state.PathInitialization(f, n, t, s);
      var destinationStatus := state.PathInitialization(f, n, t, d);
      var expected :=
        match kind
        case Initialize => Uninitialized
        case OverwriteKind => Initialized
        case MaybeOverwrite => MaybeOrPartial;
      r := sourceReady && destinationReady && sourceStatus == Initialized && destinationStatus == expected;
    case SetDiscriminant(p, _) =>
      var ready := CheckReady(f, n, t, state, p);
      var status := state.PathInitialization(f, n, t, p);
      r := ready && status == Uninitialized;
    case AssumeDiscriminant(s, _) =>
      var liveness := state.StorageLiveness(f, n, f[s].place.local);
      var status := state.PathInitialization(f, n, t, s);
      r := liveness == Live && status == Initialized;
  }

  ghost predicate LiveOk(st: State, l: nat) { l in st.mustLive ==> l in st.mayLive }

  ghost predicate InitOk(st: State, p: nat) { p in st.mustInit ==> p in st.mayInit }

  /** Must-live within may-live, must-init within may-init, bit by bit. */
  method CheckInvariants(f: Forest, n: nat, state: MoveState) returns (r: bool)
    requires state.Valid(f, n)
    ensures r <==>
              && (forall l: nat | l < n :: LiveOk(state.Model(f), l))
              && (forall p: nat | p < |f| :: InitOk(state.Model(f), p))
  {
    ghost var st := state.Model(f);
    r := true;
    for l := 0 to n
      invariant state.Valid(f, n) && state.Model(f) == st
      invariant r <==> forall i: nat | i < l :: LiveOk(st, i)
    {
      var must := state.mustLive.Contains(l);
      var may := state.mayLive.Contains(l);
      assert LiveOk(st, l) <==> !must || may;
      if must && !may { r := false; }
    }
    ghost var live := r;
    for p := 0 to |f|
      invariant state.Valid(f, n) && state.Model(f) == st
      invariant r <==> live && forall i: nat | i < p :: InitOk(st, i)
    {
      var must := state.mustInit.Contains(p);
      var may := state.mayInit.Contains(p);
      assert InitOk(st, p) <==> !must || may;
      if must && !may { r := false; }
    }
  }

  method CheckRoot(f: Forest, n: nat, t: Topology, state: MoveState, local: LocalId) returns (r: bool)
    requires state.Valid(f, n) && Agrees(f, n, t) && local < n
    ensures r <==> RootStateOk(f, state.Model(f), local)
  {
    var liveness := state.StorageLiveness(f, n, local);
    match t.rootsByLocal[local]
    case None =>
      r := false;
    case Some(root) =>
      var status := state.PathInitialization(f, n, t, root);
      r := liveness == Live && status == Initialized;
      OneRoot(f, n, t, local, root);
  }

  /** A local has one root path only. */
  lemma OneRoot(f: Forest, n: nat, t: Topology, local: LocalId, root: nat)
    requires Agrees(f, n, t) && local < n && t.rootsByLocal[local] == Some(root)
    ensures forall r: nat | r < |f| && f[r].parent == None && LocalOf(f, r) == local :: r == root
  {
    forall r: nat | r < |f| && f[r].parent == None && LocalOf(f, r) == local ensures r == root {
      RootSubtree(f, root);
      assert r in Subtree(f, root);
    }
  }

  method CheckTerminator(plan: Plan, t: Topology, state: MoveState, terminator: Terminator) returns (r: bool)
    requires IsForest(plan.movePaths) && Agrees(plan.movePaths, |plan.locals|, t)
    requires state.Valid(plan.movePaths, |plan.locals|)
    requires terminator.Branch? ==> terminator.condition < |plan.locals|
    ensures r <==> TerminatorStateOk(plan, state.Model(plan.movePaths), terminator)
  {
    r := true;
    match terminator
    case Branch(condition, _, _) => r := CheckRoot(plan.movePaths, |plan.locals|, t, state, condition);
    case Return(_) =>
      for l := 0 to |plan.locals|
        invariant r <==> forall i: nat | i < l && plan.locals[i].kind == ReturnPlace ::
                           RootStateOk(plan.movePaths, state.Model(plan.movePaths), i)
      {
        if plan.locals[l].kind == ReturnPlace {
          var ok := CheckRoot(plan.movePaths, |plan.locals|, t, state, l);
          r := r && ok;
        }
      }
    case _ =>
  }

  /* ----- the stable states ----- */

  ghost predicate OpOk(plan: Plan, a: Analysis, b: nat, i: nat)
    requires IsForest(plan.movePaths) && b < |plan.blocks| && b < |a.blockEntry|
    requires i < |plan.blocks[b].operations|
  {
    OpStateOk(plan.movePaths, StateBefore(plan, a, b, i), plan.blocks[b].operations[i])
  }

  /** Within a structured plan the computed states keep their shape. */
  lemma ProperBefore(plan: Plan, a: Analysis, b: nat, i: nat)
    requires Structured(plan) && Fixpoint(plan, a) && b < |plan.blocks|
    requires i <= |plan.blocks[b].operations|
    ensures Proper(plan.movePaths, |plan.locals|, StateBefore(plan, a, b, i))
  {
    var ops := plan.blocks[b].operations;
    forall op | op in ops[..i] ensures OpShapeOk(plan.movePaths, op) && LocalInRange(|plan.locals|, op) {
      assert op in ops;
      VisibleShapes(plan, b, op);
    }
    ProperApplyAll(plan.movePaths, |plan.locals|, a.blockEntry[b], ops[..i]);
  }

  /** One operation: its demands, its transfer, and the must-within-may checks, which never fail. */
  method VerifyStep(plan: Plan, t: Topology, state: MoveState, b: BlockId, i: nat, ghost a: Analysis)
    returns (errors: seq<VerifyError>)
    requires Structured(plan) && Fixpoint(plan, a) && Agrees(plan.movePaths, |plan.locals|, t)
    requires b < |plan.blocks| && i < |plan.blocks[b].operations|
    requires state.Valid(plan.movePaths, |plan.locals|) && state.Model(plan.movePaths) == StateBefore(plan, a, b, i)
    modifies state.Repr()
    ensures state.Valid(plan.movePaths, |plan.locals|) && state.Model(plan.movePaths) == StateBefore(plan, a, b, i + 1)
    ensures errors == [] <==> OpOk(plan, a, b, i)
  {
    var op := plan.blocks[b].operations[i];
    OpsInRange(plan, b, state);
    NextState(plan, a, b, i);
    ProperBefore(plan, a, b, i + 1);
    hide Structured; hide Fixpoint; hide Agrees; hide StateBefore; hide Apply; hide OpStateOk;
    var ok := CheckOperation(plan.movePaths, |plan.locals|, t, state, op);
    errors := if ok then [] else [UnstableOperation(b, i)];
    state.ApplyOperation(plan.movePaths, |plan.locals|, t, op);
    var consistent := CheckInvariants(plan.movePaths, |plan.locals|, state);
    if !consistent {
      errors := errors + [InconsistentState(b, i)];
    }
  }

  /** The operations of a block, each checked against the state before it; `state` ends before the terminator. */
  method VerifyStableOperations(plan: Plan, t: Topology, state: MoveState, b: BlockId, ghost a: Analysis)
    returns (errors: seq<VerifyError>)
    requires Structured(plan) && Fixpoint(plan, a) && Agrees(plan.movePaths, |plan.locals|, t)
    requires IsForest(plan.movePaths) && b < |plan.blocks| == |a.blockEntry|
    requires state.Valid(plan.movePaths, |plan.locals|) && state.Model(plan.movePaths) == StateBefore(plan, a, b, 0)
    modifies state.Repr()
    ensures state.Valid(plan.movePaths, |plan.locals|)
    ensures state.Model(plan.movePaths) == StateBefore(plan, a, b, |plan.blocks[b].operations|)
    ensures errors == [] <==> forall j: nat | j < |plan.blocks[b].operations| :: OpOk(plan, a, b, j)
  {
    hide *;
    errors := [];
    for i := 0 to |plan.blocks[b].operations|
      invariant state.Valid(plan.movePaths, |plan.locals|) && state.Model(plan.movePaths) == StateBefore(plan, a, b, i)
      invariant errors == [] <==> forall j: nat | j < i :: OpOk(plan, a, b, j)
    {
      var found := VerifyStep(plan, t, state, b, i, a);
      errors := errors + found;
    }
  }

  /** What the block brings along: its first state, a terminator, and a condition in range. */
  lemma BlockFacts(plan: Plan, a: Analysis, b: nat)
    requires Structured(plan) && Fixpoint(plan, a) && b < |plan.blocks|
    ensures IsForest(plan.movePaths) && |a.blockEntry| == |plan.blocks|
    ensures StateBefore(plan, a, b, 0) == a.blockEntry[b]
    ensures var terminator := plan.blocks[b].terminator;
            terminator.Some? && (terminator.value.Branch? ==> terminator.value.condition < |plan.locals|)
  {
    assert BlockOk(plan, b);
    assert plan.blocks[b].operations[..0] == [];
  }

  method VerifyStableBlock(plan: Plan, t: Topology, entry: MoveState, b: BlockId, ghost a: Analysis)
    returns (errors: seq<VerifyError>)
    requires Structured(plan) && Fixpoint(plan, a) && Agrees(plan.movePaths, |plan.locals|, t)
    requires IsForest(plan.movePaths) && b < |plan.blocks| == |a.blockEntry|
    requires entry.Valid(plan.movePaths, |plan.locals|) && entry.Model(plan.movePaths) == a.blockEntry[b]
    ensures errors == [] <==> (a.blockEntry[b].reachable ==> StableBlock(plan, a, b))
  {
    if !entry.reachable {
      return [];
    }
    assert a.blockEntry[b].reachable;
    hide *;
    BlockFacts(plan, a, b);
    var state := new MoveState.Copy(plan.movePaths, |plan.locals|, entry);
    errors := VerifyStableOperations(plan, t, state, b, a);
    ghost var operations := errors;
    var ok := CheckTerminator(plan, t, state, plan.blocks[b].terminator.value);
    if !ok {
      errors := errors + [UnstableTerminator(b)];
    }
    StableBlockIff(plan, a, b, operations == []);
  }

  lemma StableBlockIff(plan: Plan, a: Analysis, b: nat, operations: bool)
    requires IsForest(plan.movePaths) && |a.blockEntry| == |plan.blocks| && b < |plan.blocks|
    requires plan.blocks[b].terminator.Some?
    requires operations <==> forall j: nat | j < |plan.blocks[b].operations| :: OpOk(plan, a, b, j)
    ensures StableBlock(plan, a, b) <==>
            operations && TerminatorStateOk(plan, StateBefore(plan, a, b, |plan.blocks[b].operations|),
                                            plan.blocks[b].terminator.value)
  {
    if StableBlock(plan, a, b) {
      forall j: nat | j < |plan.blocks[b].operations| ensures OpOk(plan, a, b, j) {}
    }
    if operations {
      forall j: nat | j < |plan.blocks[b].operations|
        ensures OpStateOk(plan.movePaths, StateBefore(plan, a, b, j), plan.blocks[b].operations[j])
      {
        assert OpOk(plan, a, b, j);
      }
    }
  }

  lemma StableIff(plan: Plan, a: Analysis)
    requires Structured(plan) && Fixpoint(plan, a)
    ensures IsForest(plan.movePaths) && |a.blockEntry| == |plan.blocks|
    ensures Stable(plan, a) <==>
            forall b: nat | b < |plan.blocks| && a.blockEntry[b].reachable :: StableBlock(plan, a, b)
  {
    hide StableBlock;
  }

  /** `verify_stable_move_state`: no error is found exactly when every reachable block is stable. */
  method VerifyStableMoveState(plan: Plan, t: Topology, entry: seq<MoveState>, ghost a: Analysis,
                               ghost repr: set<object>)
    returns (errors: seq<VerifyError>)
    requires Structured(plan) && Fixpoint(plan, a) && Agrees(plan.movePaths, |plan.locals|, t)
    requires Stand(plan.movePaths, |plan.locals|, entry, a.blockEntry, repr)
    ensures errors == [] <==> Stable(plan, a)
  {
    hide *;
    StableIff(plan, a);
    ghost var f, n := plan.movePaths, |plan.locals|;
    StandAt(f, n, entry, a.blockEntry, repr, 0);
    errors := [];
    for b := 0 to |plan.blocks|
      invariant Stand(f, n, entry, a.blockEntry, repr)
      invariant errors == [] <==> forall i: nat | i < b && a.blockEntry[i].reachable :: StableBlock(plan, a, i)
    {
      StandAt(f, n, entry, a.blockEntry, repr, b);
      var found := VerifyStableBlock(plan, t, entry[b], b, a);
      errors := errors + found;
    }
  }
}
