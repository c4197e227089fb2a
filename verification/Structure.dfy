/**
 The structural demands of the verifier on a cleanup plan: scopes, locals, move
 paths, blocks and edges. `StructureVerifier` decides exactly these predicates.
 */
module Structure {
  import opened Wrappers
  import opened CleanupPlan
  import opened MovePaths
  import opened Checks

  /* ----- scopes ----- */

  function ParentScope(scopes: seq<ScopeData>, s: ScopeId): Option<ScopeId> {
    if s < |scopes| then scopes[s].parent else None
  }

  /** `k` parents up from `s`. */
  function NthParent(scopes: seq<ScopeData>, s: Option<ScopeId>, k: nat): Option<ScopeId> {
    if k == 0 then s
    else
      var below := NthParent(scopes, s, k - 1);
      if below.None? then None else ParentScope(scopes, below.value)
  }

  ghost predicate IsAncestor(scopes: seq<ScopeData>, ancestor: ScopeId, descendant: ScopeId) {
    exists k: nat :: NthParent(scopes, Some(descendant), k) == Some(ancestor)
  }

  /** Following parents from `s` comes to an end. */
  ghost predicate Ends(scopes: seq<ScopeData>, s: ScopeId) {
    exists k: nat :: NthParent(scopes, Some(s), k) == None
  }

  predicate ScopeIdsOk(plan: Plan) {
    forall s | 0 <= s < |plan.scopes| :: plan.scopes[s].id == s
  }

  predicate RootScopeOk(plan: Plan) {
    && plan.rootScope < |plan.scopes|
    && plan.scopes[plan.rootScope].id == plan.rootScope
    && plan.scopes[plan.rootScope].parent == None
    && plan.scopes[plan.rootScope].kind == RootScope
  }

  predicate InnerScopeOk(plan: Plan, s: nat)
    requires s < |plan.scopes|
  {
    var scope := plan.scopes[s];
    scope.id != plan.rootScope ==>
      scope.kind != RootScope && scope.parent.Some? && scope.parent.value < |plan.scopes|
  }

  ghost predicate ScopesOk(plan: Plan) {
    && ScopeIdsOk(plan) && RootScopeOk(plan)
    && forall s: nat | s < |plan.scopes| :: InnerScopeOk(plan, s) && Ends(plan.scopes, plan.scopes[s].id)
  }

  /* ----- locals ----- */

  predicate LocalOk(plan: Plan, l: nat)
    requires l < |plan.locals|
  {
    var local := plan.locals[l];
    && local.id == l
    && local.scope < |plan.scopes|
    && (local.kind == ReturnPlace ==> local.ownership == Owned)
  }

  function ReturnPlaces(locals: seq<LocalDecl>): nat {
    if locals == [] then 0
    else ReturnPlaces(locals[..|locals| - 1]) + (if locals[|locals| - 1].kind == ReturnPlace then 1 else 0)
  }

  /** The `order`-th local that scope `s` lists. */
  predicate ListingOk(plan: Plan, s: nat, order: nat)
    requires s < |plan.scopes| && order < |plan.scopes[s].locals|
  {
    var l := plan.scopes[s].locals[order];
    && l !in plan.scopes[s].locals[..order]
    && l < |plan.locals|
    && plan.locals[l].id == l && plan.locals[l].scope == plan.scopes[s].id
    && plan.locals[l].declarationOrder == order
  }

  predicate ListingsOk(plan: Plan, s: nat)
    requires s < |plan.scopes|
  {
    forall order | 0 <= order < |plan.scopes[s].locals| :: ListingOk(plan, s, order)
  }

  /** The number of scopes that list `l`. */
  function Memberships(scopes: seq<ScopeData>, l: LocalId): nat {
    if scopes == [] then 0
    else Memberships(scopes[..|scopes| - 1], l) + (if l in scopes[|scopes| - 1].locals then 1 else 0)
  }

  ghost predicate LocalsOk(plan: Plan) {
    && (forall l: nat | l < |plan.locals| :: LocalOk(plan, l))
    && ReturnPlaces(plan.locals) <= 1
    && (forall s: nat | s < |plan.scopes| :: ListingsOk(plan, s))
    && (forall l: nat | l < |plan.locals| :: Memberships(plan.scopes, l) == 1)
  }

  /* ----- move paths ----- */

  predicate PlaceOk(plan: Plan, p: nat)
    requires p < |plan.movePaths|
  {
    var place := plan.movePaths[p].place;
    && place.local < |plan.locals|
    && plan.locals[place.local].ownership == Owned
    && forall i | 0 <= i < |place.projections| :: !place.projections[i].Index?
  }

  /** The number of root paths of local `l` among the first paths. */
  function RootCount(ps: seq<MovePath>, l: LocalId): nat {
    if ps == [] then 0
    else RootCount(ps[..|ps| - 1], l)
         + (if ps[|ps| - 1].parent == None && ps[|ps| - 1].place.local == l then 1 else 0)
  }

  ghost predicate PathsOk(plan: Plan) {
    && WellFormed(plan.movePaths)
    && (forall p: nat | p < |plan.movePaths| :: PlaceOk(plan, p))
    && (forall l: nat | l < |plan.locals| ::
          RootCount(plan.movePaths, l) == if plan.locals[l].ownership == Owned then 1 else 0)
  }

  /* ----- blocks ----- */

  ghost predicate PathVisible(plan: Plan, b: nat, p: MovePathId)
    requires b < |plan.blocks|
  {
    && p < |plan.movePaths| && plan.movePaths[p].place.local < |plan.locals|
    && plan.locals[plan.movePaths[p].place.local].ownership == Owned
    && IsAncestor(plan.scopes, plan.locals[plan.movePaths[p].place.local].scope, plan.blocks[b].scope)
  }

  predicate Overlap(a: Place, b: Place) {
    a.local == b.local && (b.projections <= a.projections || a.projections <= b.projections)
  }

  ghost predicate OpVisible(plan: Plan, b: nat, op: CleanupOp)
    requires b < |plan.blocks|
  {
    match op
    case StorageLive(l) => l < |plan.locals| && plan.locals[l].scope == plan.blocks[b].scope
    case StorageDead(l) =>
      && l < |plan.locals| && plan.locals[l].ownership == Owned
      && IsAncestor(plan.scopes, plan.locals[l].scope, plan.blocks[b].scope)
    case Init(p) => PathVisible(plan, b, p)
    case MoveOut(p) => PathVisible(plan, b, p)
    case Overwrite(p) => PathVisible(plan, b, p)
    case Transfer(s, d, _) =>
      && PathVisible(plan, b, s) && PathVisible(plan, b, d) && s != d
      && !Overlap(plan.movePaths[s].place, plan.movePaths[d].place)
    case SetDiscriminant(p, _) => PathVisible(plan, b, p)
    case AssumeDiscriminant(r, _) => PathVisible(plan, b, r)
  }

  /** The listed scopes are `source` and its next parents, all below the root. */
  ghost predicate ExitsChain(plan: Plan, source: ScopeId, exited: seq<ScopeId>) {
    && NthParent(plan.scopes, Some(source), |exited|).Some?
    && forall i | 0 <= i < |exited| ::
         NthParent(plan.scopes, Some(source), i) == Some(exited[i]) && exited[i] != plan.rootScope
  }

  ghost predicate EdgeOk(plan: Plan, b: nat, edge: CleanupEdge)
    requires b < |plan.blocks|
  {
    && edge.target < |plan.blocks|
    && (plan.blocks[b].scope < |plan.scopes| && plan.blocks[edge.target].scope < |plan.scopes| ==>
        && ExitsChain(plan, plan.blocks[b].scope, edge.exitedScopes)
        && IsAncestor(plan.scopes,
             NthParent(plan.scopes, Some(plan.blocks[b].scope), |edge.exitedScopes|).value,
             plan.blocks[edge.target].scope))
  }

  ghost predicate ReturnOk(plan: Plan, source: ScopeId, exited: seq<ScopeId>) {
    && ExitsChain(plan, source, exited)
    && NthParent(plan.scopes, Some(source), |exited|) == Some(plan.rootScope)
  }

  ghost predicate TerminatorOk(plan: Plan, b: nat, t: Terminator)
    requires b < |plan.blocks|
  {
    match t
    case Goto(edge) => EdgeOk(plan, b, edge)
    case Branch(condition, thenEdge, elseEdge) =>
      && condition < |plan.locals|
      && IsAncestor(plan.scopes, plan.locals[condition].scope, plan.blocks[b].scope)
      && plan.locals[condition].ownership == Owned
      && EdgeOk(plan, b, thenEdge) && EdgeOk(plan, b, elseEdge)
    case Return(exited) => ReturnOk(plan, plan.blocks[b].scope, exited)
    case Abort => true
    case Unreachable => true
  }

  ghost predicate OpsVisible(plan: Plan, b: nat)
    requires b < |plan.blocks|
  {
    forall op | op in plan.blocks[b].operations :: OpVisible(plan, b, op)
  }

  ghost predicate BlockOk(plan: Plan, b: nat)
    requires b < |plan.blocks|
  {
    var block := plan.blocks[b];
    && block.id == b && block.scope < |plan.scopes|
    && OpsVisible(plan, b)
    && block.terminator.Some? && TerminatorOk(plan, b, block.terminator.value)
  }

  ghost predicate BlocksOk(plan: Plan) {
    && plan.entry < |plan.blocks| && plan.blocks[plan.entry].scope == plan.rootScope
    && forall b: nat | b < |plan.blocks| :: BlockOk(plan, b)
  }

  ghost predicate StructureOk(plan: Plan) {
    ScopesOk(plan) && LocalsOk(plan) && PathsOk(plan) && BlocksOk(plan)
  }

  /** The demands checked once the move-path index exists. */
  ghost predicate OperationShapesOk(plan: Plan)
    requires IsForest(plan.movePaths)
  {
    forall b: nat | b < |plan.blocks| :: BlockShapesOk(plan, b)
  }

  ghost predicate BlockShapesOk(plan: Plan, b: nat)
    requires IsForest(plan.movePaths) && b < |plan.blocks|
  {
    forall op | op in plan.blocks[b].operations :: TopologyOpOk(plan.movePaths, op)
  }

  ghost predicate TopologyOpOk(f: Forest, op: CleanupOp) {
    match op
    case SetDiscriminant(p, v) => v in Variants(f, p)
    case AssumeDiscriminant(r, v) => v in Variants(f, r)
    case Transfer(s, d, _) => ShapesMatch(f, s, d)
    case _ => true
  }

  ghost predicate Structured(plan: Plan) {
    StructureOk(plan) && OperationShapesOk(plan)
  }

  lemma VisibleShapes(plan: Plan, b: nat, op: CleanupOp)
    requires Structured(plan) && b < |plan.blocks| && op in plan.blocks[b].operations
    ensures OpShapeOk(plan.movePaths, op)
    ensures op.StorageLive? ==> op.local < |plan.locals|
  {
    assert BlockOk(plan, b) && OpVisible(plan, b, op);
    assert BlockShapesOk(plan, b) && TopologyOpOk(plan.movePaths, op);
    if op.Transfer? {
      WithinIsPrefix(plan.movePaths, op.source, op.destination);
      WithinIsPrefix(plan.movePaths, op.destination, op.source);
    }
  }

  /* ----- facts ----- */

  lemma {:induction false} NthParentAdd(scopes: seq<ScopeData>, s: Option<ScopeId>, j: nat, k: nat)
    ensures NthParent(scopes, NthParent(scopes, s, j), k) == NthParent(scopes, s, j + k)
  {
    if k > 0 {
      NthParentAdd(scopes, s, j, k - 1);
    }
  }

  lemma {:induction false} NoneStays(scopes: seq<ScopeData>, s: Option<ScopeId>, j: nat, k: nat)
    requires NthParent(scopes, s, j) == None && j <= k
    ensures NthParent(scopes, s, k) == None
    decreases k
  {
    if j < k { NoneStays(scopes, s, j, k - 1); }
  }

  /** A chain that comes back to a scope never ends. */
  lemma {:induction false} CycleNeverEnds(scopes: seq<ScopeData>, s: Option<ScopeId>, i: nat, j: nat, k: nat)
    requires i < j && NthParent(scopes, s, i).Some? && NthParent(scopes, s, i) == NthParent(scopes, s, j)
    ensures NthParent(scopes, s, k).Some?
    decreases k
  {
    if NthParent(scopes, s, k).None? {
      if k <= j {
        NoneStays(scopes, s, k, j);
      } else {
        NthParentAdd(scopes, s, i, k - j);
        NthParentAdd(scopes, s, j, k - j);
        CycleNeverEnds(scopes, s, i, j, i + (k - j));
      }
    }
  }

  lemma AncestorTransitive(scopes: seq<ScopeData>, a: ScopeId, b: ScopeId, c: ScopeId)
    requires IsAncestor(scopes, a, b) && IsAncestor(scopes, b, c)
    ensures IsAncestor(scopes, a, c)
  {
    var j: nat :| NthParent(scopes, Some(b), j) == Some(a);
    var k: nat :| NthParent(scopes, Some(c), k) == Some(b);
    NthParentAdd(scopes, Some(c), k, j);
  }

  ghost predicate IsRootOf(ps: seq<MovePath>, l: LocalId, r: nat) {
    r < |ps| && ps[r].parent == None && ps[r].place.local == l
  }

  /** An owned local has a root path. */
  lemma {:induction false} RootCountFinds(ps: seq<MovePath>, l: LocalId)
    ensures RootCount(ps, l) > 0 <==> exists r: nat :: IsRootOf(ps, l, r)
  {
    if ps != [] {
      var n := |ps| - 1;
      RootCountFinds(ps[..n], l);
      forall r: nat ensures IsRootOf(ps, l, r) <==> IsRootOf(ps[..n], l, r) || (r == n && IsRootOf(ps, l, n)) {}
      if r: nat :| IsRootOf(ps[..n], l, r) { assert IsRootOf(ps, l, r); }
      assert IsRootOf(ps, l, n) <==> ps[n].parent == None && ps[n].place.local == l;
    }
  }

  lemma {:induction false} MembershipFinds(scopes: seq<ScopeData>, l: LocalId) returns (s: nat)
    requires Memberships(scopes, l) > 0
    ensures s < |scopes| && l in scopes[s].locals
  {
    if l in scopes[|scopes| - 1].locals { s := |scopes| - 1; }
    else { s := MembershipFinds(scopes[..|scopes| - 1], l); }
  }

  /** A scope lists exactly its own locals. */
  lemma ScopeListsItsLocals(plan: Plan, s: ScopeId, l: LocalId)
    requires ScopesOk(plan) && LocalsOk(plan) && s < |plan.scopes| && l < |plan.locals|
    ensures l in plan.scopes[s].locals <==> plan.locals[l].scope == s
  {
    if l in plan.scopes[s].locals {
      var order :| 0 <= order < |plan.scopes[s].locals| && plan.scopes[s].locals[order] == l;
      assert ListingsOk(plan, s) && ListingOk(plan, s, order);
    }
    if plan.locals[l].scope == s {
      var t := MembershipFinds(plan.scopes, l);
      var order :| 0 <= order < |plan.scopes[t].locals| && plan.scopes[t].locals[order] == l;
      assert ListingsOk(plan, t) && ListingOk(plan, t, order);
    }
  }
}
