/**
 What a cleanup operation does when the program runs: which storage is live, which
 leaves hold a value, and which variant each enum root has selected. The analysis
 never sees these states; it is judged against them.
 */
module Semantics {
  import opened CleanupPlan
  import opened MovePaths

  datatype Concrete = Concrete(
    live: set<LocalId>, leaves: set<MovePathId>, active: map<MovePathId, nat>)

  const START: Concrete := Concrete({}, {}, map[])

  /** The children whose completeness decides whether `p` is complete. */
  function ActiveKids(f: Forest, c: Concrete, p: nat): set<nat> {
    set k | k in Kids(f, p) && ActiveEdge(f, c, k)
  }

  /** `q` is not a downcast, or its enum has selected q's variant. */
  predicate ActiveEdge(f: seq<MovePath>, c: Concrete, q: nat) {
    IsDowncast(f, q) ==>
      Parent(f, q).Some? && Parent(f, q).value in c.active && c.active[Parent(f, q).value] == Variant(f, q)
  }

  /** The value at `p` is complete. */
  ghost predicate Full(f: Forest, c: Concrete, p: nat)
    decreases Height(f, p)
  {
    if IsLeaf(f, p) then p in c.leaves
    else
      && ActiveKids(f, c, p) != {}
      && forall k | k in ActiveKids(f, c, p) :: (KidFacts(f, p, k); Full(f, c, k))
  }

  /** No variant on the way to `q` is inactive. */
  ghost predicate ActiveChain(f: Forest, c: Concrete, q: nat)
    decreases Depth(f, q)
  {
    Parent(f, q).Some? ==>
      (ParentFacts(f, q); ActiveEdge(f, c, q) && ActiveChain(f, c, Parent(f, q).value))
  }

  /** `q` lies within `p`, through active variants only. */
  ghost predicate Selected(f: Forest, c: Concrete, p: nat, q: nat)
    decreases Depth(f, q)
  {
    q == p || (Parent(f, q).Some? && ActiveEdge(f, c, q)
               && (ParentFacts(f, q); Selected(f, c, p, Parent(f, q).value)))
  }

  /** Something is present at `q` itself. */
  predicate Present(c: Concrete, q: nat) { q in c.leaves || q in c.active }

  /** Nothing is present anywhere within `p`. */
  ghost predicate Empty(f: Forest, c: Concrete, p: nat) {
    forall q | q in Subtree(f, p) :: !Present(c, q)
  }

  /** What is present is live, is not hidden behind an inactive variant, and has the right kind. */
  ghost predicate PresentOk(f: Forest, c: Concrete, q: nat) {
    && q < |f| && LocalOf(f, q) in c.live && ActiveChain(f, c, q)
    && (q in c.leaves ==> IsLeaf(f, q))
    && (q in c.active ==> IsEnum(f, q) && c.active[q] in Variants(f, q))
  }

  ghost predicate Coherent(f: Forest, c: Concrete) {
    forall q | Present(c, q) :: PresentOk(f, c, q)
  }

  /* ----- operations ----- */

  function Erase(c: Concrete, ps: set<nat>): Concrete {
    c.(leaves := c.leaves - ps, active := c.active - ps)
  }

  ghost function BeginLocal(f: Forest, c: Concrete, local: LocalId): Concrete {
    Erase(c, LocalPaths(f, local)).(live := c.live + {local})
  }

  ghost function EndLocal(f: Forest, c: Concrete, local: LocalId): Concrete {
    Erase(c, LocalPaths(f, local)).(live := c.live - {local})
  }

  ghost function EndLocals(f: Forest, c: Concrete, locals: seq<LocalId>): Concrete {
    if locals == [] then c
    else EndLocal(f, EndLocals(f, c, locals[..|locals| - 1]), locals[|locals| - 1])
  }

  ghost predicate SameAt(c: Concrete, c': Concrete, q: nat) {
    && (q in c.leaves <==> q in c'.leaves)
    && (q in c.active <==> q in c'.active)
    && (q in c.active ==> c.active[q] == c'.active[q])
  }

  /** What filling leaves at a path within the filled one. */
  ghost predicate FilledAt(f: Forest, c: Concrete, p: nat, c': Concrete, q: nat) {
    if Selected(f, c', p, q) then
      && (q in c'.leaves <==> IsLeaf(f, q))
      && (q in c'.active <==> IsEnum(f, q))
      && (q in c'.active ==> c'.active[q] in Variants(f, q))
      && (q in c'.active && q in c.active ==> c'.active[q] == c.active[q])
    else !Present(c', q)
  }

  /**
   `c'` is a way of writing a complete value to `p`: a variant already selected is
   kept, any other enum picks one; the active variants are filled, the rest is clear.
   */
  ghost predicate Fill(f: Forest, c: Concrete, p: nat, c': Concrete) {
    && c'.live == c.live
    && (forall q | q !in Subtree(f, p) :: SameAt(c, c', q))
    && (forall q | q in Subtree(f, p) :: FilledAt(f, c, p, c', q))
  }

  /** The destination of a transfer takes over the source's own variant. */
  ghost function MoveVariant(f: Forest, c: Concrete, from: Concrete, source: nat, destination: nat): Concrete {
    if IsEnum(f, source) && IsEnum(f, destination) && source in from.active
    then c.(active := c.active[destination := from.active[source]]) else c
  }

  /** `op` may take `c` to `c'`. A failed `AssumeDiscriminant` has no successor. */
  ghost predicate Step(f: Forest, c: Concrete, op: CleanupOp, c': Concrete) {
    match op
    case StorageLive(local) => c' == BeginLocal(f, c, local)
    case StorageDead(local) => c' == EndLocal(f, c, local)
    case Init(p) => Fill(f, c, p, c')
    case MoveOut(p) => c' == Erase(c, Subtree(f, p))
    case Overwrite(p) => Fill(f, Erase(c, Subtree(f, p)), p, c')
    case Transfer(source, destination, _) =>
      var erased := Erase(c, Subtree(f, source) + Subtree(f, destination));
      Fill(f, MoveVariant(f, erased, c, source, destination), destination, c')
    case SetDiscriminant(p, v) => c' == c.(active := c.active[p := v])
    case AssumeDiscriminant(r, v) => r in c.active && c.active[r] == v && c' == c
  }

  /* ----- what an operation relies on ----- */

  ghost predicate Usable(f: Forest, c: Concrete, p: nat) {
    p < |f| && LocalOf(f, p) in c.live && ActiveChain(f, c, p)
  }

  /** The operation touches no dead, moved or wrong-variant storage. */
  ghost predicate OpSafe(f: Forest, c: Concrete, op: CleanupOp) {
    match op
    case StorageLive(local) => local !in c.live && forall p | p in LocalPaths(f, local) :: !Present(c, p)
    case StorageDead(_) => true
    case Init(p) => Usable(f, c, p)
    case MoveOut(p) => Usable(f, c, p) && Full(f, c, p)
    case Overwrite(p) => Usable(f, c, p) && Full(f, c, p)
    case Transfer(source, destination, kind) =>
      && Usable(f, c, source) && Full(f, c, source) && Usable(f, c, destination)
      && (kind == Initialize ==> Empty(f, c, destination))
      && (kind == OverwriteKind ==> Full(f, c, destination))
    case SetDiscriminant(p, v) => Usable(f, c, p) && Empty(f, c, p) && v in Variants(f, p)
    case AssumeDiscriminant(r, v) => Usable(f, c, r) && Full(f, c, r) && v in Variants(f, r)
  }

  /* ----- facts about completeness ----- */

  lemma {:induction false} EmptyNotFull(f: Forest, c: Concrete, p: nat)
    requires p < |f| && Empty(f, c, p)
    ensures !Full(f, c, p)
    decreases Height(f, p)
  {
    assert p in Subtree(f, p);
    if !IsLeaf(f, p) && Full(f, c, p) {
      var k :| k in ActiveKids(f, c, p);
      KidFacts(f, p, k);
      forall q | q in Subtree(f, k) ensures q in Subtree(f, p) { WithinTrans(f, p, k, q); }
      EmptyNotFull(f, c, k);
    }
  }

  /** A complete value holds something, so nothing above it hides it. */
  lemma {:induction false} FullIsPresent(f: Forest, c: Concrete, p: nat) returns (q: nat)
    requires p < |f| && Full(f, c, p)
    ensures q in Subtree(f, p) && Present(c, q)
  {
    if Empty(f, c, p) { EmptyNotFull(f, c, p); }
    q :| q in Subtree(f, p) && Present(c, q);
  }

  lemma {:induction false} ChainUpward(f: Forest, c: Concrete, a: nat, q: nat)
    requires Within(f, a, q) && ActiveChain(f, c, q)
    ensures ActiveChain(f, c, a) && Selected(f, c, a, q)
    decreases Depth(f, q)
  {
    if a != q {
      ParentFacts(f, q);
      ChainUpward(f, c, a, Parent(f, q).value);
    }
  }

  lemma FullIsUsable(f: Forest, c: Concrete, p: nat)
    requires p < |f| && Full(f, c, p) && Coherent(f, c)
    ensures Usable(f, c, p)
  {
    var q := FullIsPresent(f, c, p);
    assert PresentOk(f, c, q);
    ChainUpward(f, c, p, q);
    WithinRange(f, p, q);
  }

  lemma {:induction false} FullFrame(f: Forest, c: Concrete, c': Concrete, p: nat)
    requires p < |f| && forall q | q in Subtree(f, p) :: SameAt(c, c', q)
    ensures Full(f, c, p) <==> Full(f, c', p)
    decreases Height(f, p)
  {
    assert p in Subtree(f, p);
    assert SameAt(c, c', p);
    forall k | k in Kids(f, p)
      ensures Full(f, c, k) <==> Full(f, c', k)
      ensures ActiveEdge(f, c, k) <==> ActiveEdge(f, c', k)
    {
      KidFacts(f, p, k);
      forall q | q in Subtree(f, k) ensures q in Subtree(f, p) { WithinTrans(f, p, k, q); }
      FullFrame(f, c, c', k);
    }
    assert ActiveKids(f, c, p) == ActiveKids(f, c', p);
  }

  /** The chain above `q` depends only on the variants of q's ancestors. */
  lemma {:induction false} ChainFrame(f: Forest, c: Concrete, c': Concrete, q: nat)
    requires forall a | a in Ancestors(f, q) :: SameAt(c, c', a)
    ensures ActiveChain(f, c, q) <==> ActiveChain(f, c', q)
    decreases Depth(f, q)
  {
    if Parent(f, q).Some? {
      ParentFacts(f, q);
      AncestorStep(f, q);
      var a := Parent(f, q).value;
      assert SameAt(c, c', a);
      ChainFrame(f, c, c', a);
    }
  }

  /** A part that is missing keeps every enclosing value, reached through active variants, incomplete. */
  lemma {:induction false} MissingPart(f: Forest, c: Concrete, a: nat, q: nat)
    requires q < |f| && Selected(f, c, a, q) && !Full(f, c, q)
    ensures !Full(f, c, a)
    decreases Depth(f, q)
  {
    if a != q {
      ParentFacts(f, q);
      var p := Parent(f, q).value;
      assert q in ActiveKids(f, c, p);
      assert !Full(f, c, p);
      MissingPart(f, c, a, p);
    }
  }

  /** Filling makes every selected path complete. */
  lemma {:induction false} FilledIsFull(f: Forest, c: Concrete, p: nat, c': Concrete, q: nat)
    requires q < |f| && q in Subtree(f, p) && Fill(f, c, p, c') && Selected(f, c', p, q)
    ensures Full(f, c', q)
    decreases Height(f, q)
  {
    assert FilledAt(f, c, p, c', q);
    if !IsLeaf(f, q) {
      forall k | k in ActiveKids(f, c', q) ensures Full(f, c', k) {
        KidFacts(f, q, k);
        WithinTrans(f, p, q, k);
        if k == p { WithinAntisymmetric(f, p, q); }
        FilledIsFull(f, c, p, c', k);
      }
      if IsEnum(f, q) {
        var k :| k in Kids(f, q) && IsDowncast(f, k) && Variant(f, k) == c'.active[q];
        assert k in ActiveKids(f, c', q);
      } else {
        var k :| k in Kids(f, q);
        assert !IsDowncast(f, k) by { KidsAgree(f, q, k); }
        assert k in ActiveKids(f, c', q);
      }
    }
  }

  lemma {:induction false} SelectedAbove(f: Forest, c: Concrete, p: nat, q: nat, x: nat)
    requires Within(f, p, q) && Within(f, q, x) && Selected(f, c, p, x) && q < |f| && x < |f| && p < |f|
    ensures Selected(f, c, p, q)
    decreases Depth(f, x)
  {
    if x != q {
      if x == p { WithinAntisymmetric(f, p, q); return; }
      ParentFacts(f, x);
      SelectedAbove(f, c, p, q, Parent(f, x).value);
    }
  }

  lemma UnselectedIsEmpty(f: Forest, c: Concrete, p: nat, c': Concrete, q: nat)
    requires q in Subtree(f, p) && Fill(f, c, p, c') && !Selected(f, c', p, q)
    ensures Empty(f, c', q)
  {
    WithinRange(f, p, q);
    forall x | x in Subtree(f, q) ensures !Present(c', x) {
      WithinTrans(f, p, q, x);
      assert FilledAt(f, c, p, c', x);
      if Selected(f, c', p, x) { SelectedAbove(f, c', p, q, x); }
    }
  }
}
