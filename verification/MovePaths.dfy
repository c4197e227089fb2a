/**
 The forest of move paths, read off the parent links alone. Everything the
 analysis proves is stated over these definitions; `MovePathTopology` is the
 indexed form that `cleanup.rs` computes with, and is shown to agree with them.
 */
module MovePaths {
  import opened Wrappers
  import opened CleanupPlan

  /* ----- well-formed forests ----- */

  predicate ParentOk(ps: seq<MovePath>, i: nat)
    requires i < |ps|
  {
    match ps[i].parent
    case None => ps[i].place.projections == []
    case Some(q) =>
      && q < |ps|
      && ps[i].place.projections != []
      && ps[q].place.local == ps[i].place.local
      && ps[q].place.projections == ps[i].place.projections[..|ps[i].place.projections| - 1]
      && (ps[i].needsDrop ==> ps[q].needsDrop)
  }

  /** Siblings are all enum variants or none is, and all captures or none is. */
  predicate SiblingsAgree(ps: seq<MovePath>, i: nat, j: nat)
    requires i < |ps| && j < |ps|
  {
    ps[i].parent.Some? && ps[i].parent == ps[j].parent
      && ps[i].place.projections != [] && ps[j].place.projections != []
    ==>
      && Last(ps, i).Downcast? == Last(ps, j).Downcast?
      && Last(ps, i).Capture? == Last(ps, j).Capture?
  }

  function Last(ps: seq<MovePath>, i: nat): Projection
    requires i < |ps| && ps[i].place.projections != []
  {
    ps[i].place.projections[|ps[i].place.projections| - 1]
  }

  /** What `verify_move_paths` demands of the paths among themselves. */
  ghost predicate WellFormed(ps: seq<MovePath>) {
    && (forall i | 0 <= i < |ps| :: ps[i].id == i)
    && (forall i, j | 0 <= i < j < |ps| :: ps[i].place != ps[j].place)
    && (forall i | 0 <= i < |ps| :: ParentOk(ps, i))
    && (forall i, j | 0 <= i < |ps| && 0 <= j < |ps| :: SiblingsAgree(ps, i, j))
  }

  ghost predicate IsForest(ps: seq<MovePath>) { WellFormed(ps) }

  type Forest = ps: seq<MovePath> | IsForest(ps) witness []

  /* ----- structure ----- */

  function Depth(f: seq<MovePath>, p: nat): nat {
    if p < |f| then |f[p].place.projections| else 0
  }

  function Parent(f: seq<MovePath>, p: nat): Option<nat> {
    if p < |f| then f[p].parent else None
  }

  function LocalOf(f: seq<MovePath>, p: nat): LocalId {
    if p < |f| then f[p].place.local else 0
  }

  function Kids(f: seq<MovePath>, p: nat): set<nat> {
    set q: nat | q < |f| && f[q].parent == Some(p)
  }

  predicate IsDowncast(f: seq<MovePath>, p: nat) {
    p < |f| && f[p].place.projections != [] && Last(f, p).Downcast?
  }

  predicate IsCapture(f: seq<MovePath>, p: nat) {
    p < |f| && f[p].place.projections != [] && Last(f, p).Capture?
  }

  function Variant(f: seq<MovePath>, p: nat): nat {
    if IsDowncast(f, p) then Last(f, p).variant else 0
  }

  /** The final projection, which tells siblings apart. */
  function Label(f: seq<MovePath>, p: nat): Option<Projection> {
    if p < |f| && f[p].place.projections != [] then Some(Last(f, p)) else None
  }

  predicate IsLeaf(f: seq<MovePath>, p: nat) { Kids(f, p) == {} }

  /** An enum root: its children are the downcasts to its variants. */
  ghost predicate IsEnum(f: seq<MovePath>, p: nat) {
    exists k :: k in Kids(f, p) && IsDowncast(f, k)
  }

  ghost function EnumRoots(f: seq<MovePath>): set<nat> {
    set p: nat | p < |f| && IsEnum(f, p)
  }

  function Variants(f: seq<MovePath>, p: nat): set<nat> {
    set k | k in Kids(f, p) && IsDowncast(f, k) :: Variant(f, k)
  }

  /** `a` is `d` or one of its ancestors. */
  ghost predicate Within(f: Forest, a: nat, d: nat)
    decreases Depth(f, d)
  {
    a == d || (Parent(f, d).Some? && (ParentFacts(f, d); Within(f, a, Parent(f, d).value)))
  }

  ghost function Subtree(f: Forest, a: nat): set<nat> {
    set d: nat | d < |f| && Within(f, a, d)
  }

  /** The proper ancestors of `d`. */
  ghost function Ancestors(f: Forest, d: nat): set<nat> {
    set a: nat | a < |f| && a != d && Within(f, a, d)
  }

  /** All paths rooted in a local. */
  ghost function LocalPaths(f: seq<MovePath>, local: LocalId): set<nat> {
    set p: nat | p < |f| && LocalOf(f, p) == local
  }

  function Bound(f: seq<MovePath>): (b: nat)
    ensures forall p: nat :: Depth(f, p) < b
  {
    if f == [] then 1
    else
      var b := Bound(f[..|f| - 1]);
      var last := Depth(f, |f| - 1);
      assert forall p: nat :: p != |f| - 1 ==> Depth(f, p) == Depth(f[..|f| - 1], p);
      if last < b then b else last + 1
  }

  /** Distance still available below `p`: a measure for recursion on children. */
  function Height(f: seq<MovePath>, p: nat): (h: nat)
  {
    Bound(f) - Depth(f, p)
  }

  lemma ParentFacts(f: Forest, d: nat)
    requires Parent(f, d).Some?
    ensures d < |f| && Parent(f, d).value < |f|
    ensures Depth(f, d) == Depth(f, Parent(f, d).value) + 1
    ensures LocalOf(f, d) == LocalOf(f, Parent(f, d).value)
    ensures d in Kids(f, Parent(f, d).value)
    ensures f[d].place.projections ==
            f[Parent(f, d).value].place.projections + [Last(f, d)]
    ensures f[d].needsDrop ==> f[Parent(f, d).value].needsDrop
  {
    assert ParentOk(f, d);
  }

  lemma KidFacts(f: Forest, p: nat, k: nat)
    requires k in Kids(f, p)
    ensures Parent(f, k) == Some(p) && p < |f| && k < |f|
    ensures Depth(f, k) == Depth(f, p) + 1 && Height(f, k) < Height(f, p)
    ensures LocalOf(f, k) == LocalOf(f, p)
    ensures f[k].needsDrop ==> f[p].needsDrop
    ensures Within(f, p, k) && k != p
  {
    ParentFacts(f, k);
  }

  lemma KidsAgree(f: Forest, p: nat, k: nat)
    requires k in Kids(f, p)
    ensures IsDowncast(f, k) <==> IsEnum(f, p)
    ensures IsEnum(f, p) ==> Variant(f, k) in Variants(f, p)
  {
    KidFacts(f, p, k);
    if IsEnum(f, p) {
      var k' :| k' in Kids(f, p) && IsDowncast(f, k');
      KidFacts(f, p, k');
      assert SiblingsAgree(f, k, k');
    }
  }

  /** Two downcasts of one enum select different variants. */
  lemma VariantInjective(f: Forest, p: nat, k1: nat, k2: nat)
    requires k1 in Kids(f, p) && k2 in Kids(f, p)
    requires IsEnum(f, p) && Variant(f, k1) == Variant(f, k2)
    ensures k1 == k2
  {
    KidsAgree(f, p, k1);
    KidsAgree(f, p, k2);
    ParentFacts(f, k1);
    ParentFacts(f, k2);
    assert Last(f, k1) == Last(f, k2);
    assert f[k1].place == f[k2].place;
  }

  /* ----- the ancestor order ----- */

  lemma {:induction false} WithinRange(f: Forest, a: nat, d: nat)
    requires Within(f, a, d) && d < |f|
    ensures a < |f| && Depth(f, a) <= Depth(f, d) && LocalOf(f, a) == LocalOf(f, d)
    ensures a != d ==> Depth(f, a) < Depth(f, d)
    decreases Depth(f, d)
  {
    if a != d {
      ParentFacts(f, d);
      WithinRange(f, a, Parent(f, d).value);
    }
  }

  lemma {:induction false} WithinTrans(f: Forest, a: nat, b: nat, d: nat)
    requires Within(f, a, b) && Within(f, b, d)
    ensures Within(f, a, d)
    decreases Depth(f, d)
  {
    if b != d {
      ParentFacts(f, d);
      WithinTrans(f, a, b, Parent(f, d).value);
    }
  }

  /** The ancestors of one path form a chain. */
  lemma {:induction false} WithinChain(f: Forest, a: nat, b: nat, d: nat)
    requires Within(f, a, d) && Within(f, b, d)
    ensures Within(f, a, b) || Within(f, b, a)
    decreases Depth(f, d)
  {
    if a != d && b != d {
      ParentFacts(f, d);
      WithinChain(f, a, b, Parent(f, d).value);
    }
  }

  lemma AncestorStep(f: Forest, d: nat)
    requires Parent(f, d).Some?
    ensures Ancestors(f, d) == Ancestors(f, Parent(f, d).value) + {Parent(f, d).value}
  {
    ParentFacts(f, d);
    var p := Parent(f, d).value;
    assert Within(f, p, p) && Within(f, p, d) && p != d;
    forall a | a in Ancestors(f, p) ensures a in Ancestors(f, d) { WithinRange(f, a, p); }
  }

  lemma WithinAntisymmetric(f: Forest, a: nat, b: nat)
    requires a < |f| && b < |f| && Within(f, a, b) && Within(f, b, a)
    ensures a == b
  {
    WithinRange(f, a, b);
    WithinRange(f, b, a);
  }

  /** The child of `a` through which `d` is reached. */
  ghost function Toward(f: Forest, a: nat, d: nat): (k: nat)
    requires Within(f, a, d) && a != d
    ensures k in Kids(f, a) && Within(f, k, d)
    decreases Depth(f, d)
  {
    ParentFacts(f, d);
    var p := Parent(f, d).value;
    if p == a then d else Toward(f, a, p)
  }

  /** Different children of one path have disjoint subtrees. */
  lemma KidsDisjoint(f: Forest, p: nat, k1: nat, k2: nat, d: nat)
    requires k1 in Kids(f, p) && k2 in Kids(f, p)
    requires Within(f, k1, d) && Within(f, k2, d)
    ensures k1 == k2
  {
    KidFacts(f, p, k1);
    KidFacts(f, p, k2);
    WithinChain(f, k1, k2, d);
    if Within(f, k1, k2) { WithinRange(f, k1, k2); } else { WithinRange(f, k2, k1); }
  }

  /** `a` encloses `d` exactly when a's place is a prefix of d's place. */
  lemma {:induction false} WithinIsPrefix(f: Forest, a: nat, d: nat)
    requires a < |f| && d < |f|
    ensures Within(f, a, d) <==>
            f[a].place.local == f[d].place.local && f[a].place.projections <= f[d].place.projections
    decreases Depth(f, d)
  {
    if a == d {
      return;
    }
    assert f[a].place != f[d].place by { assert a < d || d < a; }
    if Parent(f, d).None? {
      assert ParentOk(f, d);
    } else {
      ParentFacts(f, d);
      var p := Parent(f, d).value;
      WithinIsPrefix(f, a, p);
      if f[a].place.local == f[d].place.local && f[a].place.projections <= f[d].place.projections {
        assert |f[a].place.projections| != |f[d].place.projections|;
        assert f[a].place.projections <= f[p].place.projections;
      }
    }
  }

  lemma {:induction false} NeedsDropUpward(f: Forest, a: nat, d: nat)
    requires d < |f| && Within(f, a, d) && f[d].needsDrop
    ensures a < |f| && f[a].needsDrop
    decreases Depth(f, d)
  {
    if a != d {
      ParentFacts(f, d);
      NeedsDropUpward(f, a, Parent(f, d).value);
    }
  }

  /** The root above `p`. */
  ghost function RootOf(f: Forest, p: nat): (r: nat)
    requires p < |f|
    ensures r < |f| && f[r].parent == None && Within(f, r, p) && LocalOf(f, r) == LocalOf(f, p)
    decreases Depth(f, p)
  {
    if f[p].parent == None then p
    else ParentFacts(f, p); RootOf(f, f[p].parent.value)
  }

  /** A root's subtree is everything rooted in its local. */
  lemma RootSubtree(f: Forest, r: nat)
    requires r < |f| && f[r].parent == None
    ensures Subtree(f, r) == LocalPaths(f, LocalOf(f, r))
  {
    assert ParentOk(f, r);
    forall q: nat | q < |f| ensures q in Subtree(f, r) <==> q in LocalPaths(f, LocalOf(f, r)) {
      WithinIsPrefix(f, r, q);
    }
  }

  lemma KidLabel(f: Forest, p: nat, k: nat)
    requires k in Kids(f, p)
    ensures k < |f| && f[k].place.projections != [] && Label(f, k) == Some(Last(f, k))
  {
    ParentFacts(f, k);
  }

  /** Siblings are told apart by their final projection. */
  lemma LabelInjective(f: Forest, p: nat, k1: nat, k2: nat)
    requires k1 in Kids(f, p) && k2 in Kids(f, p) && Label(f, k1) == Label(f, k2)
    ensures k1 == k2
  {
    ParentFacts(f, k1);
    ParentFacts(f, k2);
    assert f[k1].place == f[k2].place;
  }
}
