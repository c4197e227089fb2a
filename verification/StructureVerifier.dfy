/** The structural half of `CleanupPlan::verify`: loops that collect errors. */
module StructureVerifier {
  import opened Wrappers
  import opened Sequences
  import opened CleanupPlan
  import opened MovePaths
  import opened Structure

  datatype VerifyError =
    | ScopeIdMismatch(slot: nat)
    | MissingRootScope
    | BadRootScope
    | BadInnerScope(scope: ScopeId)
    | ScopeCycle(scope: ScopeId)
    | BadLocal(local: LocalId)
    | TooManyReturnPlaces
    | BadListing(scope: ScopeId, order: nat)
    | BadMembership(local: LocalId)
    | BadMovePath(path: MovePathId)
    | DuplicatePlace(path: MovePathId)
    | BadPlace(path: MovePathId)
    | BadRootCount(local: LocalId)
    | MixedChildren(path: MovePathId)
    | BadEntry
    | BadBlock(block: BlockId)
    | BadOperation(block: BlockId)
    | BadTerminator(block: BlockId)
    | BadVariant(block: BlockId)
    | IncompatibleShapes(block: BlockId)
    | UnstableOperation(block: BlockId, index: nat)
    | InconsistentState(block: BlockId, index: nat)
    | UnstableTerminator(block: BlockId)

  /* ----- walking up scopes ----- */

  lemma {:induction false} CycleRepeats(scopes: seq<ScopeData>, s: Option<ScopeId>, i: nat, j: nat, m: nat)
    returns (k: nat)
    requires i < j && NthParent(scopes, s, i) == NthParent(scopes, s, j)
    ensures k < j && NthParent(scopes, s, m) == NthParent(scopes, s, k)
    decreases m
  {
    if m < j {
      k := m;
    } else {
      NthParentAdd(scopes, s, i, m - j);
      NthParentAdd(scopes, s, j, m - j);
      k := CycleRepeats(scopes, s, i, j, i + (m - j));
    }
  }

  /** The scopes on the first `k` steps up from `s`. */
  ghost function Steps(scopes: seq<ScopeData>, s: ScopeId, k: nat): set<ScopeId> {
    if k == 0 then {}
    else
      var below := NthParent(scopes, Some(s), k - 1);
      Steps(scopes, s, k - 1) + (if below.Some? then {below.value} else {})
  }

  lemma {:induction false} StepOf(scopes: seq<ScopeData>, s: ScopeId, k: nat, x: ScopeId) returns (i: nat)
    requires x in Steps(scopes, s, k)
    ensures i < k && NthParent(scopes, Some(s), i) == Some(x)
  {
    if x in Steps(scopes, s, k - 1) { i := StepOf(scopes, s, k - 1, x); } else { i := k - 1; }
  }

  /** Scopes with a parent exist, so only so many can be visited. */
  lemma {:induction false} FewSteps(scopes: seq<ScopeData>, s: ScopeId, k: nat)
    requires NthParent(scopes, Some(s), k).Some?
    ensures Steps(scopes, s, k) <= UpTo(|scopes|) && |Steps(scopes, s, k)| <= |scopes|
  {
    if k > 0 {
      assert NthParent(scopes, Some(s), k - 1).value in UpTo(|scopes|);
      FewSteps(scopes, s, k - 1);
    }
    assert UpTo(|scopes|) == Steps(scopes, s, k) + (UpTo(|scopes|) - Steps(scopes, s, k));
  }

  method IsAncestorScope(plan: Plan, ancestor: ScopeId, descendant: ScopeId) returns (r: bool)
    ensures r <==> IsAncestor(plan.scopes, ancestor, descendant)
  {
    hide IsAncestor; hide NthParent; hide Steps;
    var cursor := Some(descendant);
    var visited: set<ScopeId> := {};
    ghost var k: nat := 0;
    NoStep(plan.scopes, descendant);
    while cursor.Some?
      invariant cursor == NthParent(plan.scopes, Some(descendant), k)
      invariant visited == Steps(plan.scopes, descendant, k)
      invariant forall i: nat | i < k :: NthParent(plan.scopes, Some(descendant), i) != Some(ancestor)
      decreases cursor.Some?, |plan.scopes| - |visited|
    {
      var scope := cursor.value;
      if scope == ancestor {
        AncestorAt(plan.scopes, descendant, k, ancestor);
        return true;
      }
      if scope in visited {
        var i := StepOf(plan.scopes, descendant, k, scope);
        AncestorNotOnCycle(plan.scopes, descendant, i, k, ancestor);
        return false;
      }
      OneStep(plan.scopes, descendant, k);
      cursor := ParentScope(plan.scopes, scope);
      if cursor.Some? { FewSteps(plan.scopes, descendant, k + 1); }
      visited := visited + {scope};
      k := k + 1;
    }
    NotAbove(plan.scopes, descendant, k, ancestor);
    r := false;
  }

  /** Once a chain repeats itself, it shows nothing new. */
  lemma AncestorNotOnCycle(scopes: seq<ScopeData>, s: ScopeId, i: nat, k: nat, ancestor: ScopeId)
    requires i < k && NthParent(scopes, Some(s), i) == NthParent(scopes, Some(s), k)
    requires forall j: nat | j < k :: NthParent(scopes, Some(s), j) != Some(ancestor)
    ensures !IsAncestor(scopes, ancestor, s)
  {
    forall m: nat ensures NthParent(scopes, Some(s), m) != Some(ancestor) {
      var j := CycleRepeats(scopes, Some(s), i, k, m);
    }
  }

  /** Past the end of a chain there is nothing more. */
  lemma NoStep(scopes: seq<ScopeData>, s: ScopeId)
    ensures NthParent(scopes, Some(s), 0) == Some(s) && Steps(scopes, s, 0) == {}
  {
  }

  lemma OneStep(scopes: seq<ScopeData>, s: ScopeId, k: nat)
    requires NthParent(scopes, Some(s), k).Some?
    ensures var scope := NthParent(scopes, Some(s), k).value;
            && NthParent(scopes, Some(s), k + 1) == ParentScope(scopes, scope)
            && Steps(scopes, s, k + 1) == Steps(scopes, s, k) + {scope}
  {
  }

  lemma AncestorAt(scopes: seq<ScopeData>, s: ScopeId, k: nat, ancestor: ScopeId)
    requires NthParent(scopes, Some(s), k) == Some(ancestor)
    ensures IsAncestor(scopes, ancestor, s)
  {
  }

  lemma NotAbove(scopes: seq<ScopeData>, s: ScopeId, k: nat, ancestor: ScopeId)
    requires NthParent(scopes, Some(s), k) == None
    requires forall i: nat | i < k :: NthParent(scopes, Some(s), i) != Some(ancestor)
    ensures !IsAncestor(scopes, ancestor, s)
  {
    forall m: nat ensures NthParent(scopes, Some(s), m) != Some(ancestor) {
      if m >= k { NoneStays(scopes, Some(s), k, m); }
    }
  }

  method ChainEnds(plan: Plan, s: ScopeId) returns (r: bool)
    ensures r <==> Ends(plan.scopes, s)
  {
    var cursor := Some(s);
    var seen: set<ScopeId> := {};
    ghost var k: nat := 0;
    while cursor.Some?
      invariant cursor == NthParent(plan.scopes, Some(s), k)
      invariant seen == Steps(plan.scopes, s, k)
      decreases cursor.Some?, |plan.scopes| - |seen|
    {
      var id := cursor.value;
      if id >= |plan.scopes| {
        assert NthParent(plan.scopes, Some(s), k + 1) == None;
        return true;
      }
      if id in seen {
        var i := StepOf(plan.scopes, s, k, id);
        forall m: nat ensures NthParent(plan.scopes, Some(s), m) != None {
          CycleNeverEnds(plan.scopes, Some(s), i, k, m);
        }
        return false;
      }
      seen := seen + {id};
      cursor := plan.scopes[id].parent;
      if cursor.Some? { FewSteps(plan.scopes, s, k + 1); }
      k := k + 1;
    }
    return true;
  }

  /* ----- scopes ----- */

  method VerifyScopes(plan: Plan) returns (errors: seq<VerifyError>)
    ensures errors == [] <==> ScopesOk(plan)
  {
    errors := [];
    for s := 0 to |plan.scopes|
      invariant errors == [] <==> forall i | 0 <= i < s :: plan.scopes[i].id == i
    {
      if plan.scopes[s].id != s {
        errors := errors + [ScopeIdMismatch(s)];
      }
    }
    assert errors == [] <==> ScopeIdsOk(plan);
    if plan.rootScope >= |plan.scopes| {
      errors := errors + [MissingRootScope];
      return;
    }
    var root := plan.scopes[plan.rootScope];
    if root.id != plan.rootScope { errors := errors + [BadRootScope]; }
    if root.parent.Some? { errors := errors + [BadRootScope]; }
    if root.kind != RootScope { errors := errors + [BadRootScope]; }
    for s := 0 to |plan.scopes|
      invariant errors == [] <==>
        ScopeIdsOk(plan) && RootScopeOk(plan)
        && forall i: nat | i < s :: InnerScopeOk(plan, i) && Ends(plan.scopes, plan.scopes[i].id)
    {
      var scope := plan.scopes[s];
      if scope.id != plan.rootScope {
        if scope.kind == RootScope {
          errors := errors + [BadInnerScope(scope.id)];
        }
        match scope.parent {
          case Some(parent) =>
            if parent >= |plan.scopes| { errors := errors + [BadInnerScope(scope.id)]; }
          case None =>
            errors := errors + [BadInnerScope(scope.id)];
        }
      }
      var ends := ChainEnds(plan, scope.id);
      if !ends {
        errors := errors + [ScopeCycle(scope.id)];
      }
    }
  }

  /* ----- locals ----- */

  method VerifyLocalDecl(plan: Plan, l: nat) returns (errors: seq<VerifyError>)
    requires l < |plan.locals|
    ensures errors == [] <==> LocalOk(plan, l)
  {
    errors := [];
    var local := plan.locals[l];
    if local.id != l { errors := errors + [BadLocal(l)]; }
    if local.scope >= |plan.scopes| { errors := errors + [BadLocal(l)]; }
    if local.kind == ReturnPlace && local.ownership != Owned { errors := errors + [BadLocal(l)]; }
  }

  method VerifyLocalDecls(plan: Plan) returns (errors: seq<VerifyError>)
    ensures errors == [] <==>
            (forall l: nat | l < |plan.locals| :: LocalOk(plan, l)) && ReturnPlaces(plan.locals) <= 1
  {
    errors := [];
    var returnPlaces := 0;
    for l := 0 to |plan.locals|
      invariant errors == [] <==> forall i: nat | i < l :: LocalOk(plan, i)
      invariant returnPlaces == ReturnPlaces(plan.locals[..l])
    {
      var found := VerifyLocalDecl(plan, l);
      errors := errors + found;
      if plan.locals[l].kind == ReturnPlace {
        returnPlaces := returnPlaces + 1;
      }
      assert plan.locals[..l + 1][..l] == plan.locals[..l];
    }
    assert plan.locals[..|plan.locals|] == plan.locals;
    if returnPlaces > 1 {
      errors := errors + [TooManyReturnPlaces];
    }
  }

  /** One entry of a scope's list: its errors, and whether it counts as a membership. */
  method VerifyEntry(plan: Plan, s: nat, order: nat, inScope: set<LocalId>)
    returns (errors: seq<VerifyError>, counts: bool)
    requires s < |plan.scopes| && order < |plan.scopes[s].locals|
    requires forall l :: l in inScope <==> l in plan.scopes[s].locals[..order]
    ensures errors == [] <==> ListingOk(plan, s, order)
    ensures counts <==>
            plan.scopes[s].locals[order] !in inScope && plan.scopes[s].locals[order] < |plan.locals|
  {
    var scope := plan.scopes[s];
    var id := scope.locals[order];
    if id in inScope {
      return [BadListing(scope.id, order)], false;
    }
    if id >= |plan.locals| {
      return [BadListing(scope.id, order)], false;
    }
    errors, counts := [], true;
    var local := plan.locals[id];
    if local.id != id || local.scope != scope.id {
      errors := errors + [BadListing(scope.id, order)];
    }
    if local.declarationOrder != order {
      errors := errors + [BadListing(scope.id, order)];
    }
  }

  /** Checks one scope's list and counts its valid entries. */
  method VerifyListing(plan: Plan, s: nat, memberships0: seq<nat>)
    returns (errors: seq<VerifyError>, memberships: seq<nat>)
    requires s < |plan.scopes| && |memberships0| == |plan.locals|
    ensures errors == [] <==> ListingsOk(plan, s)
    ensures |memberships| == |plan.locals|
    ensures forall l: nat | l < |plan.locals| ::
              memberships[l] == memberships0[l] + if l in plan.scopes[s].locals then 1 else 0
  {
    var scope := plan.scopes[s];
    errors, memberships := [], memberships0;
    var inScope: set<LocalId> := {};
    for order := 0 to |scope.locals|
      invariant errors == [] <==> forall o | 0 <= o < order :: ListingOk(plan, s, o)
      invariant |memberships| == |plan.locals|
      invariant forall l :: l in inScope <==> l in scope.locals[..order]
      invariant forall l: nat | l < |plan.locals| ::
                  memberships[l] == memberships0[l] + if l in inScope then 1 else 0
    {
      var id := scope.locals[order];
      assert scope.locals[..order + 1] == scope.locals[..order] + [id];
      var found, counts := VerifyEntry(plan, s, order, inScope);
      errors := errors + found;
      inScope := inScope + {id};
      if counts {
        memberships := memberships[id := memberships[id] + 1];
      }
    }
    assert scope.locals[..|scope.locals|] == scope.locals;
  }

  method VerifyMemberships(plan: Plan) returns (errors: seq<VerifyError>)
    ensures errors == [] <==>
            && (forall s: nat | s < |plan.scopes| :: ListingsOk(plan, s))
            && (forall l: nat | l < |plan.locals| :: Memberships(plan.scopes, l) == 1)
  {
    errors := [];
    var memberships := seq(|plan.locals|, _ => 0);
    for s := 0 to |plan.scopes|
      invariant |memberships| == |plan.locals|
      invariant errors == [] <==> forall i: nat | i < s :: ListingsOk(plan, i)
      invariant forall l: nat | l < |plan.locals| :: memberships[l] == Memberships(plan.scopes[..s], l)
    {
      var found, counted := VerifyListing(plan, s, memberships);
      errors, memberships := errors + found, counted;
      assert plan.scopes[..s + 1][..s] == plan.scopes[..s];
    }
    assert plan.scopes[..|plan.scopes|] == plan.scopes;
    ghost var listings := errors;
    for l := 0 to |memberships|
      invariant errors == [] <==> listings == [] && forall i: nat | i < l :: Memberships(plan.scopes, i) == 1
    {
      if memberships[l] != 1 {
        errors := errors + [BadMembership(l)];
      }
    }
  }

  method VerifyLocals(plan: Plan) returns (errors: seq<VerifyError>)
    ensures errors == [] <==> LocalsOk(plan)
  {
    var declarations := VerifyLocalDecls(plan);
    var memberships := VerifyMemberships(plan);
    errors := declarations + memberships;
    if declarations == [] && memberships == [] { assert LocalsOk(plan); }
    if LocalsOk(plan) { assert declarations == []; assert memberships == []; }
  }

  /* ----- move paths ----- */

  method VerifyPlace(plan: Plan, p: nat) returns (errors: seq<VerifyError>)
    requires p < |plan.movePaths|
    ensures errors == [] <==> PlaceOk(plan, p)
  {
    errors := [];
    var place := plan.movePaths[p].place;
    if place.local >= |plan.locals| { errors := errors + [BadPlace(p)]; }
    ghost var before := errors;
    for i := 0 to |place.projections|
      invariant errors == [] <==> before == [] && forall j | 0 <= j < i :: !place.projections[j].Index?
    {
      if place.projections[i].Index? { errors := errors + [BadPlace(p)]; }
    }
    if place.local < |plan.locals| && plan.locals[place.local].ownership != Owned {
      errors := errors + [BadPlace(p)];
    }
  }

  method VerifyParent(plan: Plan, p: nat) returns (errors: seq<VerifyError>)
    requires p < |plan.movePaths|
    ensures errors == [] <==> ParentOk(plan.movePaths, p)
  {
    errors := [];
    var path := plan.movePaths[p];
    match path.parent {
      case None =>
        if path.place.projections != [] { errors := errors + [BadMovePath(p)]; }
      case Some(q) =>
        if q >= |plan.movePaths| {
          return [BadMovePath(p)];
        }
        var parent := plan.movePaths[q];
        if path.place.projections == [] {
          return [BadMovePath(p)];
        }
        if parent.place.local != path.place.local
           || parent.place.projections != path.place.projections[..|path.place.projections| - 1] {
          errors := errors + [BadMovePath(p)];
        }
        if path.needsDrop && !parent.needsDrop { errors := errors + [BadMovePath(p)]; }
    }
  }

  ghost predicate DistinctPlaces(ps: seq<MovePath>, n: nat)
    requires n <= |ps|
  {
    forall i, j | 0 <= i < j < n :: ps[i].place != ps[j].place
  }

  predicate EachPathOk(plan: Plan, p: nat)
    requires p < |plan.movePaths|
  {
    plan.movePaths[p].id == p && PlaceOk(plan, p) && ParentOk(plan.movePaths, p)
  }

  ghost function Places(ps: seq<MovePath>, n: nat): set<Place>
    requires n <= |ps|
  {
    set i | 0 <= i < n :: ps[i].place
  }

  method VerifyOnePath(plan: Plan, p: nat) returns (errors: seq<VerifyError>)
    requires p < |plan.movePaths|
    ensures errors == [] <==> EachPathOk(plan, p)
  {
    errors := if plan.movePaths[p].id != p then [BadMovePath(p)] else [];
    var placed := VerifyPlace(plan, p);
    var parented := VerifyParent(plan, p);
    errors := errors + placed + parented;
  }

  /** The first pass over the paths: identities, places, parents, and root counts. */
  method VerifyEachPath(plan: Plan) returns (errors: seq<VerifyError>, roots: seq<nat>)
    ensures errors == [] <==>
            && (forall p: nat | p < |plan.movePaths| :: EachPathOk(plan, p))
            && DistinctPlaces(plan.movePaths, |plan.movePaths|)
    ensures |roots| == |plan.locals|
    ensures forall l: nat | l < |plan.locals| :: roots[l] == RootCount(plan.movePaths, l)
  {
    var ps := plan.movePaths;
    errors := [];
    roots := seq(|plan.locals|, _ => 0);
    var places: set<Place> := {};
    for p := 0 to |ps|
      invariant |roots| == |plan.locals|
      invariant forall l: nat | l < |plan.locals| :: roots[l] == RootCount(ps[..p], l)
      invariant places == Places(ps, p)
      invariant errors == [] <==> (forall i: nat | i < p :: EachPathOk(plan, i)) && DistinctPlaces(ps, p)
    {
      assert ps[..p + 1][..p] == ps[..p];
      if ps[p].place in places { errors := errors + [DuplicatePlace(p)]; }
      places := places + {ps[p].place};
      var found := VerifyOnePath(plan, p);
      errors := errors + found;
      if ps[p].parent.None? && ps[p].place.local < |roots| {
        roots := roots[ps[p].place.local := roots[ps[p].place.local] + 1];
      }
    }
    assert ps[..|ps|] == ps;
  }

  method VerifyRootCounts(plan: Plan, roots: seq<nat>) returns (errors: seq<VerifyError>)
    requires |roots| == |plan.locals|
    ensures errors == [] <==> forall l: nat | l < |plan.locals| :: roots[l] == if plan.locals[l].ownership == Owned
        then 1 else 0
  {
    errors := [];
    for l := 0 to |plan.locals|
      invariant errors == []
          <==> forall i: nat | i < l :: roots[i] == if plan.locals[i].ownership == Owned then 1 else 0
    {
      var expected := if plan.locals[l].ownership == Owned then 1 else 0;
      if roots[l] != expected { errors := errors + [BadRootCount(l)]; }
    }
  }

  /** Children are gathered by parent while scanning. */
  method GatherChildren(plan: Plan) returns (children: seq<seq<MovePathId>>)
    ensures |children| == |plan.movePaths|
    ensures forall p: nat, k: nat | p < |children| :: k in children[p] <==> k in Kids(plan.movePaths, p)
  {
    var ps := plan.movePaths;
    children := seq(|ps|, _ => []);
    for i := 0 to |ps|
      invariant |children| == |ps|
      invariant forall p: nat, k: nat | p < |ps| :: k in children[p] <==> k < i && k in Kids(ps, p)
    {
      if ps[i].parent.Some? && ps[i].parent.value < |ps| {
        var parent := ps[i].parent.value;
        children := children[parent := children[parent] + [i]];
      }
    }
  }

  predicate EndsInDowncast(ps: seq<MovePath>, k: nat) {
    k < |ps| && ps[k].place.projections != [] && Last(ps, k).Downcast?
  }

  predicate EndsInCapture(ps: seq<MovePath>, k: nat) {
    k < |ps| && ps[k].place.projections != [] && Last(ps, k).Capture?
  }

  /** All children end alike. */
  ghost predicate Uniform(ps: seq<MovePath>, ks: seq<MovePathId>) {
    forall i, j | 0 <= i < |ks| && 0 <= j < |ks| ::
      EndsInDowncast(ps, ks[i]) == EndsInDowncast(ps, ks[j]) && EndsInCapture(ps, ks[i]) == EndsInCapture(ps, ks[j])
  }

  method VerifySiblings(ps: seq<MovePath>, ks: seq<MovePathId>) returns (uniform: bool)
    ensures uniform <==> Uniform(ps, ks)
  {
    var downcasts, captures := 0, 0;
    for i := 0 to |ks|
      invariant 0 <= downcasts <= i && 0 <= captures <= i
      invariant downcasts == 0 <==> forall j | 0 <= j < i :: !EndsInDowncast(ps, ks[j])
      invariant downcasts == i <==> forall j | 0 <= j < i :: EndsInDowncast(ps, ks[j])
      invariant captures == 0 <==> forall j | 0 <= j < i :: !EndsInCapture(ps, ks[j])
      invariant captures == i <==> forall j | 0 <= j < i :: EndsInCapture(ps, ks[j])
    {
      if EndsInDowncast(ps, ks[i]) { downcasts := downcasts + 1; }
      if EndsInCapture(ps, ks[i]) { captures := captures + 1; }
    }
    uniform := (downcasts == 0 || downcasts == |ks|) && (captures == 0 || captures == |ks|);
    if uniform {
      assert Uniform(ps, ks);
    } else if downcasts != 0 && downcasts != |ks| {
      var i :| 0 <= i < |ks| && EndsInDowncast(ps, ks[i]);
      var j :| 0 <= j < |ks| && !EndsInDowncast(ps, ks[j]);
      assert !Uniform(ps, ks);
    } else {
      var i :| 0 <= i < |ks| && EndsInCapture(ps, ks[i]);
      var j :| 0 <= j < |ks| && !EndsInCapture(ps, ks[j]);
      assert !Uniform(ps, ks);
    }
  }

  method VerifyChildren(plan: Plan) returns (errors: seq<VerifyError>)
    ensures (forall p: nat | p < |plan.movePaths| :: ParentOk(plan.movePaths, p)) ==>
            (errors == [] <==> SiblingsOk(plan.movePaths))
  {
    var ps := plan.movePaths;
    var children := GatherChildren(plan);
    errors := [];
    for p := 0 to |ps|
      invariant errors == [] <==> forall q: nat | q < p :: Uniform(ps, children[q])
    {
      var uniform := VerifySiblings(ps, children[p]);
      if !uniform { errors := errors + [MixedChildren(p)]; }
    }
    if forall p: nat | p < |ps| :: ParentOk(ps, p) {
      UniformIsAgreement(ps, children);
    }
  }

  ghost predicate SiblingsOk(ps: seq<MovePath>) {
    forall i, j | 0 <= i < |ps| && 0 <= j < |ps| :: SiblingsAgree(ps, i, j)
  }

  lemma UniformIsAgreement(ps: seq<MovePath>, children: seq<seq<MovePathId>>)
    requires |children| == |ps| && forall p: nat | p < |ps| :: ParentOk(ps, p)
    requires forall p: nat, k: nat | p < |children| :: k in children[p] <==> k in Kids(ps, p)
    ensures (forall q: nat | q < |ps| :: Uniform(ps, children[q])) <==> SiblingsOk(ps)
  {
    if forall q: nat | q < |ps| :: Uniform(ps, children[q]) {
      forall i, j | 0 <= i < |ps| && 0 <= j < |ps| ensures SiblingsAgree(ps, i, j) {
        if ps[i].parent.Some? && ps[i].parent == ps[j].parent {
          assert ParentOk(ps, i);
          var q := ps[i].parent.value;
          assert i in Kids(ps, q) && j in Kids(ps, q);
          var a :| 0 <= a < |children[q]| && children[q][a] == i;
          var b :| 0 <= b < |children[q]| && children[q][b] == j;
          assert Uniform(ps, children[q]);
        }
      }
    }
    if SiblingsOk(ps) {
      forall q: nat | q < |ps| ensures Uniform(ps, children[q]) {
        forall a, b | 0 <= a < |children[q]| && 0 <= b < |children[q]|
          ensures EndsInDowncast(ps, children[q][a]) == EndsInDowncast(ps, children[q][b])
          ensures EndsInCapture(ps, children[q][a]) == EndsInCapture(ps, children[q][b])
        {
          var i: nat, j: nat := children[q][a], children[q][b];
          assert i in children[q] && j in children[q];
          assert i in Kids(ps, q) && j in Kids(ps, q);
          assert ParentOk(ps, i) && ParentOk(ps, j) && SiblingsAgree(ps, i, j);
        }
      }
    }
  }

  method VerifyMovePaths(plan: Plan) returns (errors: seq<VerifyError>)
    ensures errors == [] <==> PathsOk(plan)
  {
    var each, roots := VerifyEachPath(plan);
    var counts := VerifyRootCounts(plan, roots);
    var mixed := VerifyChildren(plan);
    errors := each + counts + mixed;
    if each == [] && counts == [] && mixed == [] {
      forall p | 0 <= p < |plan.movePaths|
        ensures plan.movePaths[p].id == p && PlaceOk(plan, p) && ParentOk(plan.movePaths, p)
      {
        assert EachPathOk(plan, p);
      }
      assert SiblingsOk(plan.movePaths) && WellFormed(plan.movePaths);
    }
    if PathsOk(plan) {
      assert forall p: nat | p < |plan.movePaths| :: ParentOk(plan.movePaths, p) && EachPathOk(plan, p);
      assert SiblingsOk(plan.movePaths) && each == [];
    }
  }
}
