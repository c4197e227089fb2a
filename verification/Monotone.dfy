/**
 Ready operations are monotone: from a smaller state they lead to a smaller one. (Operations
 that are not ready need not be: recomputing leaves an enum alone whose variant is not known.)
 */
module Monotone {
  import opened Wrappers
  import opened CleanupPlan
  import opened MovePaths
  import opened MoveStates
  import opened Checks
  import opened Simulation
  import opened Lattice
  import opened TightStates

  predicate DiscBelow(x: Discriminant, y: Discriminant) {
    (x.mayBeUnset ==> y.mayBeUnset) && x.possible <= y.possible
  }

  /** Smaller, and with sense in the smaller one's discriminants. */
  ghost predicate Under(f: Forest, s: State, t: State) {
    s.reachable && Below(s, t) && Shaped(f, s) && Shaped(f, t) && forall a :: DiscFits(s, a)
  }

  lemma UnderDisc(f: Forest, s: State, t: State, a: nat)
    requires Under(f, s, t)
    ensures DiscBelow(Disc(s, a), Disc(t, a))
    ensures forall v | IsKnown(t, a, v) :: IsKnown(s, a, v)
  {
    forall v | IsKnown(t, a, v) ensures IsKnown(s, a, v) {
      assert DiscFits(s, a);
      var w :| w in Disc(s, a).possible;
    }
  }

  lemma {:induction false} ActiveUnder(f: Forest, s: State, t: State, q: nat)
    requires Under(f, s, t) && DowncastsActive(f, t, q)
    ensures DowncastsActive(f, s, q)
    decreases Depth(f, q)
  {
    if Parent(f, q).Some? {
      ParentFacts(f, q);
      var a := Parent(f, q).value;
      UnderDisc(f, s, t, a);
      ActiveUnder(f, s, t, a);
      assert IsDowncast(f, q) ==> IsKnown(t, a, Variant(f, q));
    }
  }

  /** What is ready in the larger state is ready in the smaller one. */
  lemma ReadyUnder(f: Forest, s: State, t: State, op: CleanupOp)
    requires Under(f, s, t) && OpReady(f, t, op)
    ensures OpReady(f, s, op)
  {
    match op
    case Init(p) => ActiveUnder(f, s, t, p);
    case MoveOut(p) => ActiveUnder(f, s, t, p);
    case Overwrite(p) => ActiveUnder(f, s, t, p);
    case Transfer(a, b, _) => ActiveUnder(f, s, t, a); ActiveUnder(f, s, t, b);
    case SetDiscriminant(p, _) => ActiveUnder(f, s, t, p);
    case _ =>
  }

  /* ----- clearing ----- */

  lemma ClearUnder(f: Forest, s: State, t: State, p: nat)
    requires Under(f, s, t)
    ensures Under(f, ClearPath(f, s, p), ClearPath(f, t, p))
  {
    ClearShaped(f, s, p);
    ClearShaped(f, t, p);
    forall a ensures DiscFits(ClearPath(f, s, p), a) { assert DiscFits(s, a); }
  }

  lemma StorageUnder(f: Forest, s: State, t: State, local: LocalId)
    requires Under(f, s, t)
    ensures Under(f, StartStorage(f, s, local), StartStorage(f, t, local))
    ensures Under(f, EndStorage(f, s, local), EndStorage(f, t, local))
  {
    hide LocalPaths; hide Variants; hide EnumRoots;
    forall a ensures DiscFits(StartStorage(f, s, local), a) && DiscFits(EndStorage(f, s, local), a) {
      assert DiscFits(s, a);
    }
  }

  lemma {:induction false} EndAllUnder(f: Forest, s: State, t: State, locals: seq<LocalId>)
    requires Under(f, s, t)
    ensures Under(f, EndAll(f, s, locals), EndAll(f, t, locals))
  {
    if locals != [] {
      EndAllUnder(f, s, t, locals[..|locals| - 1]);
      StorageUnder(f, EndAll(f, s, locals[..|locals| - 1]), EndAll(f, t, locals[..|locals| - 1]), locals[|locals| - 1]);
    }
  }

  /* ----- marking ----- */

  /** A mark that says less. */
  predicate MarkBelow(x: Mark, y: Mark) { x == y || y == Marked(May) }

  lemma MarkDiscBelow(f: Forest, r: nat, x: Discriminant, y: Discriminant, mark: Mark, other: Mark)
    requires DiscBelow(x, y) && MarkBelow(mark, other)
    ensures DiscBelow(MarkDiscriminant(f, x, r, mark), MarkDiscriminant(f, y, r, other))
  {
  }

  lemma {:induction false} MarkUnder(f: Forest, s: State, t: State, p: nat, q: nat)
    requires Under(f, s, t)
    ensures MarkBelow(MarkOf(f, s, p, Must, q), MarkOf(f, t, p, Must, q))
    decreases Depth(f, q)
  {
    if q != p && Parent(f, q).Some? {
      ParentFacts(f, q);
      var a := Parent(f, q).value;
      MarkUnder(f, s, t, p, a);
      UnderDisc(f, s, t, a);
      KidMarkUnder(f, s, t, a, MarkOf(f, s, p, Must, a), MarkOf(f, t, p, Must, a), q);
    }
  }

  lemma KidMarkUnder(f: Forest, s: State, t: State, a: nat, mark: Mark, other: Mark, k: nat)
    requires Under(f, s, t) && MarkBelow(mark, other) && k in Kids(f, a)
    ensures MarkBelow(KidMark(f, s, a, mark, k), KidMark(f, t, a, other, k))
  {
    UnderDisc(f, s, t, a);
    MarkDiscBelow(f, a, Disc(s, a), Disc(t, a), mark, other);
    if IsDowncast(f, k) {
      assert Variant(f, k) in Variants(f, a);
      assert DiscFits(s, a);
      var x, y := MarkDiscriminant(f, Disc(s, a), a, mark), MarkDiscriminant(f, Disc(t, a), a, other);
      if other == Marked(Must) && y.possible == {Variant(f, k)} {
        assert x.possible != {} && x.possible <= {Variant(f, k)};
        assert x.possible == {Variant(f, k)};
      }
    }
  }

  /** One path after marking. */
  ghost predicate UnderAt(f: Forest, s: State, t: State, q: nat) {
    && (q in s.mayInit ==> q in t.mayInit) && (q in t.mustInit ==> q in s.mustInit)
    && DiscBelow(Disc(s, q), Disc(t, q)) && DiscFits(s, q)
    && Disc(s, q).possible <= Variants(f, q) && Disc(t, q).possible <= Variants(f, q)
  }

  lemma MarkedUnderAt(f: Forest, s: State, t: State, p: nat, q: nat)
    requires Under(f, s, t)
    ensures UnderAt(f, MarkWhole(f, s, p, Must), MarkWhole(f, t, p, Must), q)
  {
    MarkUnder(f, s, t, p, q);
    MarkedSets(f, s, p, q);
    MarkedSets(f, t, p, q);
    UnderDisc(f, s, t, q);
    assert DiscFits(s, q);
    ShapedVariants(f, s, q);
    ShapedVariants(f, t, q);
    if IsEnum(f, q) {
      HasVariant(f, q);
      MarkDiscBelow(f, q, Disc(s, q), Disc(t, q), MarkOf(f, s, p, Must, q), MarkOf(f, t, p, Must, q));
      MarkedVariants(f, Disc(s, q), q, MarkOf(f, s, p, Must, q));
      MarkedVariants(f, Disc(t, q), q, MarkOf(f, t, p, Must, q));
    }
    if q < |f| {
      MarkedDisc(f, s, p, q);
      MarkedDisc(f, t, p, q);
    }
    hide MarkOf; hide MarkWhole; hide IsEnum; hide Variants; hide MarkDiscriminant; hide Subtree; hide EnumRoots;
    if q >= |f| { NoPath(f, s, t, p, q); }
  }

  lemma NoPath(f: Forest, s: State, t: State, p: nat, q: nat)
    requires Under(f, s, t) && q >= |f|
    ensures q !in EnumRoots(f) && q !in Subtree(f, p)
    ensures Disc(MarkWhole(f, s, p, Must), q) == UNSELECTED && Disc(MarkWhole(f, t, p, Must), q) == UNSELECTED
    ensures (q in s.mayInit ==> q in t.mayInit) && (q in t.mustInit ==> q in s.mustInit)
  {
    hide MarkOf;
  }

  lemma MarkWholeUnder(f: Forest, s: State, t: State, p: nat)
    requires Under(f, s, t)
    ensures Under(f, MarkWhole(f, s, p, Must), MarkWhole(f, t, p, Must))
  {
    var s', t' := MarkWhole(f, s, p, Must), MarkWhole(f, t, p, Must);
    MarkKeepsMay(f, s, p);
    MarkKeepsMay(f, t, p);
    MarkKeys(f, s, p);
    MarkKeys(f, t, p);
    hide MarkWhole; hide EnumRoots; hide Variants;
    forall q: nat ensures UnderAt(f, s', t', q) { MarkedUnderAt(f, s, t, p, q); }
    UnderEverywhere(f, s', t');
  }

  lemma MarkKeys(f: Forest, st: State, p: nat)
    ensures var s := MarkWhole(f, st, p, Must);
            && s.reachable == st.reachable && s.mayLive == st.mayLive && s.mustLive == st.mustLive
            && s.discriminants.Keys == st.discriminants.Keys
  {
    hide MarkOf;
  }

  lemma UnderEverywhere(f: Forest, s: State, t: State)
    requires forall q: nat :: UnderAt(f, s, t, q)
    requires s.reachable && t.reachable && s.mayLive <= t.mayLive && t.mustLive <= s.mustLive
    requires s.discriminants.Keys == t.discriminants.Keys == EnumRoots(f)
    requires s.mustInit <= s.mayInit && t.mustInit <= t.mayInit && s.mustLive <= s.mayLive && t.mustLive <= t.mayLive
    ensures Under(f, s, t)
  {
    hide EnumRoots; hide Variants;
    assert forall q | q in s.mayInit :: UnderAt(f, s, t, q);
    assert forall q | q in t.mustInit :: UnderAt(f, s, t, q);
    forall r | r in s.discriminants
      ensures (s.discriminants[r].mayBeUnset ==> t.discriminants[r].mayBeUnset)
      ensures s.discriminants[r].possible <= t.discriminants[r].possible
    {
      assert UnderAt(f, s, t, r);
    }
    forall a ensures DiscFits(s, a) && Disc(s, a).possible <= Variants(f, a) && Disc(t, a).possible <= Variants(f, a) {
      assert UnderAt(f, s, t, a);
    }
  }

  /* ----- recomputing ----- */

  lemma RecomposeNodeUnder(f: Forest, s: State, t: State, p: nat)
    requires Under(f, s, t) && Parent(f, p).Some? && DowncastsActive(f, t, p)
    ensures Under(f, RecomposeNode(f, s, Parent(f, p).value), RecomposeNode(f, t, Parent(f, p).value))
  {
    ParentFacts(f, p);
    var a := Parent(f, p).value;
    ActiveUnder(f, s, t, p);
    RecomposedNode(f, s, p);
    RecomposedNode(f, t, p);
    hide RecomposeNode;
    RecomposedUnder(f, s, t, RecomposeNode(f, s, a), RecomposeNode(f, t, a), a, p);
  }

  lemma RecomposedUnder(f: Forest, s: State, t: State, s': State, t': State, a: nat, k: nat)
    requires Under(f, s, t) && k in Kids(f, a)
    requires Recomposed(f, s', a, k) && Recomposed(f, t', a, k)
    requires s'.discriminants == s.discriminants && t'.discriminants == t.discriminants
    requires s'.mustInit <= s'.mayInit && t'.mustInit <= t'.mayInit
    requires s'.reachable == s.reachable && s'.mayLive == s.mayLive && s'.mustLive == s.mustLive
    requires t'.reachable == t.reachable && t'.mayLive == t.mayLive && t'.mustLive == t.mustLive
    requires forall q | q != a :: (q in s'.mayInit <==> q in s.mayInit) && (q in s'.mustInit <==> q in s.mustInit)
    requires forall q | q != a :: (q in t'.mayInit <==> q in t.mayInit) && (q in t'.mustInit <==> q in t.mustInit)
    ensures Under(f, s', t')
  {
    assert a !in Kids(f, a) by { if a in Kids(f, a) { KidFacts(f, a, a); } }
    assert a in s'.mayInit ==> a in t'.mayInit;
    assert a in t'.mustInit ==> a in s'.mustInit;
    forall q | q in s'.mayInit ensures q in t'.mayInit {}
    forall q | q in t'.mustInit ensures q in s'.mustInit {}
    forall q ensures DiscFits(s', q) { assert DiscFits(s, q); }
  }

  lemma {:induction false} RecomposeUnder(f: Forest, s: State, t: State, p: nat)
    requires Under(f, s, t) && DowncastsActive(f, t, p)
    ensures Under(f, Recompose(f, s, p), Recompose(f, t, p))
    decreases Depth(f, p)
  {
    if Parent(f, p).Some? {
      ParentFacts(f, p);
      var a := Parent(f, p).value;
      RecomposeNodeUnder(f, s, t, p);
      RecomposedNode(f, t, p);
      DowncastsFrame(f, t, RecomposeNode(f, t, a), a);
      RecomposeUnder(f, RecomposeNode(f, s, a), RecomposeNode(f, t, a), a);
    }
  }

  lemma InitUnder(f: Forest, s: State, t: State, p: nat)
    requires Under(f, s, t) && p < |f| && DowncastsActive(f, t, p)
    ensures Under(f, InitializePath(f, s, p), InitializePath(f, t, p))
  {
    MarkWholeUnder(f, s, t, p);
    var t' := MarkWhole(f, t, p, Must);
    forall a | a in Ancestors(f, p) ensures Disc(t', a) == Disc(t, a) {
      OwnAncestorsOutside(f, p, a);
      MarkedDisc(f, t, p, a);
    }
    DowncastsFrame(f, t, t', p);
    RecomposeUnder(f, MarkWhole(f, s, p, Must), t', p);
  }

  /* ----- every operation ----- */

  lemma SetUnder(f: Forest, s: State, t: State, p: nat, x: Discriminant, y: Discriminant)
    requires Under(f, s, t) && p in EnumRoots(f) && DiscBelow(x, y) && x.possible <= Variants(f, p)
    requires y.possible <= Variants(f, p) && (!x.mayBeUnset ==> x.possible != {})
    ensures Under(f, s.(discriminants := s.discriminants[p := x]), t.(discriminants := t.discriminants[p := y]))
  {
    var s1 := s.(discriminants := s.discriminants[p := x]);
    forall a ensures DiscFits(s1, a) { assert DiscFits(s, a); }
  }

  lemma TransferUnder(f: Forest, s: State, t: State, source: nat, d: nat)
    requires Under(f, s, t) && source < |f| && d < |f| && ShapesMatch(f, source, d)
    ensures Under(f, Handed(f, s, source, d), Handed(f, t, source, d))
  {
    ClearUnder(f, s, t, source);
    ClearUnder(f, ClearPath(f, s, source), ClearPath(f, t, source), d);
    HandedForm(f, s, source, d);
    HandedForm(f, t, source, d);
    hide ClearPath; hide Handed;
    if IsEnum(f, source) && IsEnum(f, d) {
      UnderDisc(f, s, t, source);
      assert DiscFits(s, source);
      ShapedVariants(f, t, source);
      forall v | v in Disc(t, source).possible ensures v in Variants(f, d) { MatchingVariants(f, source, d, v); }
      SetUnder(f, ClearPath(f, ClearPath(f, s, source), d), ClearPath(f, ClearPath(f, t, source), d), d,
               Disc(s, source), Disc(t, source));
    }
  }

  lemma RuledUnder(f: Forest, s: State, t: State, r: nat, v: nat)
    requires Under(f, s, t) && v in Variants(f, r)
    ensures Under(f, Ruled(f, s, r, v), Ruled(f, t, r, v))
  {
    VariantsMeanEnum(f, r, v);
    RuledShaped(f, s, r, v);
    RuledShaped(f, t, r, v);
    SetUnder(f, s, t, r, Discriminant(false, {v}), Discriminant(false, {v}));
    hide OtherVariants; hide Kids;
  }

  /** Above the destination of a transfer nothing is disturbed. */
  lemma HandedActive(f: Forest, st: State, s: nat, d: nat)
    requires Shaped(f, st) && s < |f| && d < |f| && !Within(f, s, d) && DowncastsActive(f, st, d)
    ensures DowncastsActive(f, Handed(f, st, s, d), d)
  {
    TransferDowncasts(f, st, s, d);
  }

  /** A ready operation leads from a smaller state to a smaller one. */
  lemma ApplyUnder(f: Forest, s: State, t: State, op: CleanupOp)
    requires Under(f, s, t) && OpShapeOk(f, op) && OpReady(f, t, op)
    ensures Under(f, Apply(f, s, op), Apply(f, t, op))
  {
    match op
    case StorageLive(local) => StorageUnder(f, s, t, local);
    case StorageDead(local) => StorageUnder(f, s, t, local);
    case Init(p) => InitUnder(f, s, t, p);
    case MoveOut(p) => ClearUnder(f, s, t, p);
    case Overwrite(p) =>
      ClearUnder(f, s, t, p);
      ClearKeepsReady(f, t, p, p);
      InitUnder(f, ClearPath(f, s, p), ClearPath(f, t, p), p);
    case Transfer(a, b, _) =>
      TransferUnder(f, s, t, a, b);
      HandedActive(f, t, a, b);
      InitUnder(f, Handed(f, s, a, b), Handed(f, t, a, b), b);
    case SetDiscriminant(p, v) =>
      VariantsMeanEnum(f, p, v);
      ClearUnder(f, s, t, p);
      SetUnder(f, ClearPath(f, s, p), ClearPath(f, t, p), p, Discriminant(false, {v}), Discriminant(false, {v}));
    case AssumeDiscriminant(r, v) =>
      var k := VariantKid(f, r, v);
      RuledUnder(f, s, t, r, v);
      AssumeForm(f, s, r, v, k);
      AssumeForm(f, t, r, v, k);
      MarkWholeUnder(f, Ruled(f, s, r, v), Ruled(f, t, r, v), k);
  }
}
