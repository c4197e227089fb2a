/**
 One step of the program is simulated by one step of the analysis: for every
 operation the verifier accepts, enums included, a concrete state described by the
 abstract state before is described by the abstract state after.
 */
module Simulation {
  import opened CleanupPlan
  import opened MovePaths
  import opened MoveStates
  import opened Semantics
  import opened Checks

  /** must-init ⊆ complete ⊆ may-init, at one path. */
  ghost predicate NodeOk(f: Forest, st: State, c: Concrete, q: nat) {
    (q in st.mustInit ==> Full(f, c, q)) && (Full(f, c, q) ==> q in st.mayInit)
  }

  ghost predicate DiscOk(st: State, c: Concrete, r: nat) {
    if r in c.active then c.active[r] in Disc(st, r).possible else Disc(st, r).mayBeUnset
  }

  ghost predicate NodesOk(f: Forest, st: State, c: Concrete) {
    forall q | 0 <= q < |f| :: NodeOk(f, st, c, q)
  }

  ghost predicate DiscsOk(f: Forest, st: State, c: Concrete) {
    forall r | r in EnumRoots(f) :: DiscOk(st, c, r)
  }

  /** `c` is one of the concrete states that `st` describes. */
  ghost predicate Represents(f: Forest, st: State, c: Concrete) {
    && st.reachable && st.discriminants.Keys == EnumRoots(f)
    && st.mustLive <= c.live <= st.mayLive
    && NodesOk(f, st, c) && DiscsOk(f, st, c) && Coherent(f, c)
  }

  /* ----- reading a state ----- */

  lemma DeadIsEmpty(f: Forest, st: State, c: Concrete, p: nat)
    requires p < |f| && Represents(f, st, c) && Initialization(f, st, p) == Uninitialized
    ensures Empty(f, c, p)
  {
    forall q | q in Subtree(f, p) ensures !Present(c, q) {
      assert !MayHold(st, q);
      assert NodeOk(f, st, c, q);
      assert Present(c, q) ==> PresentOk(f, c, q);
      assert q in c.leaves ==> Full(f, c, q);
      assert q in c.active ==> DiscOk(st, c, q);
    }
  }

  lemma {:induction false} DowncastsAreActive(f: Forest, st: State, c: Concrete, p: nat)
    requires Represents(f, st, c) && DowncastsActive(f, st, p)
    ensures ActiveChain(f, c, p)
    decreases Depth(f, p)
  {
    if Parent(f, p).Some? {
      ParentFacts(f, p);
      var a := Parent(f, p).value;
      DowncastsAreActive(f, st, c, a);
      if IsDowncast(f, p) {
        KidsAgree(f, a, p);
        assert DiscOk(st, c, a);
      }
    }
  }

  lemma ReadyIsUsable(f: Forest, st: State, c: Concrete, p: nat)
    requires p < |f| && Represents(f, st, c) && PathReady(f, st, p)
    ensures Usable(f, c, p)
  {
    DowncastsAreActive(f, st, c, p);
  }

  /** An accepted operation relies on nothing that is dead, moved or of another variant. */
  lemma AcceptedIsSafe(f: Forest, st: State, c: Concrete, op: CleanupOp)
    requires Represents(f, st, c) && OpShapeOk(f, op) && OpStateOk(f, st, op)
    ensures OpSafe(f, c, op)
  {
    match op
    case StorageLive(local) =>
      forall p | p in LocalPaths(f, local) ensures !Present(c, p) {
        assert Present(c, p) ==> PresentOk(f, c, p);
      }
    case StorageDead(_) =>
    case Init(p) => ReadyIsUsable(f, st, c, p);
    case MoveOut(p) => ReadyIsUsable(f, st, c, p); assert NodeOk(f, st, c, p);
    case Overwrite(p) => ReadyIsUsable(f, st, c, p); assert NodeOk(f, st, c, p);
    case Transfer(s, d, kind) =>
      ReadyIsUsable(f, st, c, s);
      ReadyIsUsable(f, st, c, d);
      assert NodeOk(f, st, c, s) && NodeOk(f, st, c, d);
      if kind == Initialize { DeadIsEmpty(f, st, c, d); }
    case SetDiscriminant(p, _) => ReadyIsUsable(f, st, c, p); DeadIsEmpty(f, st, c, p);
    case AssumeDiscriminant(r, _) =>
      assert NodeOk(f, st, c, r);
      FullIsUsable(f, c, r);
  }

  /* ----- clearing ----- */

  lemma DisjointSubtrees(f: Forest, p: nat, q: nat, x: nat)
    requires p < |f| && q < |f| && !Within(f, p, q) && q !in Ancestors(f, p)
    requires x in Subtree(f, q)
    ensures x !in Subtree(f, p)
  {
    if x in Subtree(f, p) {
      WithinChain(f, p, q, x);
    }
  }

  lemma AncestorsOutside(f: Forest, p: nat, q: nat, a: nat)
    requires a in Ancestors(f, q) && q !in Subtree(f, p) && q < |f|
    ensures a !in Subtree(f, p)
  {
    if a in Subtree(f, p) { WithinTrans(f, p, a, q); }
  }

  lemma OwnAncestorsOutside(f: Forest, p: nat, a: nat)
    requires a in Ancestors(f, p) && p < |f|
    ensures a !in Subtree(f, p)
  {
    if a in Subtree(f, p) { WithinAntisymmetric(f, a, p); }
  }

  lemma EraseCoherent(f: Forest, c: Concrete, p: nat)
    requires Coherent(f, c)
    ensures Coherent(f, Erase(c, Subtree(f, p)))
  {
    var c1 := Erase(c, Subtree(f, p));
    forall q | Present(c1, q) ensures PresentOk(f, c1, q) {
      assert PresentOk(f, c, q);
      forall a | a in Ancestors(f, q) ensures SameAt(c, c1, a) { AncestorsOutside(f, p, q, a); }
      ChainFrame(f, c, c1, q);
    }
  }

  lemma EraseKeepsChain(f: Forest, c: Concrete, p: nat, q: nat)
    requires p < |f| && q < |f| && (q == p || q !in Subtree(f, p))
    ensures ActiveChain(f, c, q) <==> ActiveChain(f, Erase(c, Subtree(f, p)), q)
  {
    var c1 := Erase(c, Subtree(f, p));
    forall a | a in Ancestors(f, q) ensures SameAt(c, c1, a) {
      if q == p { OwnAncestorsOutside(f, p, a); } else { AncestorsOutside(f, p, q, a); }
    }
    ChainFrame(f, c, c1, q);
  }

  lemma ClearSound(f: Forest, st: State, c: Concrete, p: nat)
    requires Represents(f, st, c) && Usable(f, c, p)
    ensures Represents(f, ClearPath(f, st, p), Erase(c, Subtree(f, p)))
    ensures Usable(f, Erase(c, Subtree(f, p)), p) && Empty(f, Erase(c, Subtree(f, p)), p)
  {
    var s, c1 := ClearPath(f, st, p), Erase(c, Subtree(f, p));
    EraseCoherent(f, c, p);
    EraseKeepsChain(f, c, p, p);
    EmptyNotFull(f, c1, p);
    forall q | 0 <= q < |f| ensures NodeOk(f, s, c1, q) {
      assert NodeOk(f, st, c, q);
      if q in Subtree(f, p) {
        forall x | x in Subtree(f, q) ensures !Present(c1, x) { WithinTrans(f, p, q, x); }
        EmptyNotFull(f, c1, q);
      } else if q in Ancestors(f, p) {
        ChainUpward(f, c1, q, p);
        MissingPart(f, c1, q, p);
      } else {
        forall x | x in Subtree(f, q) ensures SameAt(c, c1, x) { DisjointSubtrees(f, p, q, x); }
        FullFrame(f, c, c1, q);
      }
    }
    forall r | r in EnumRoots(f) ensures DiscOk(s, c1, r) { assert DiscOk(st, c, r); }
  }

  /* ----- storage ----- */

  lemma EraseLocalSound(f: Forest, st: State, c: Concrete, local: LocalId, live: set<LocalId>)
    requires Represents(f, st, c) && c.live - {local} <= live
    ensures var s, c1 := ClearPaths(st, LocalPaths(f, local)), Erase(c, LocalPaths(f, local)).(live := live);
            NodesOk(f, s, c1) && DiscsOk(f, s, c1) && Coherent(f, c1)
  {
    var s, c1 := ClearPaths(st, LocalPaths(f, local)), Erase(c, LocalPaths(f, local)).(live := live);
    forall q | Present(c1, q) ensures PresentOk(f, c1, q) {
      assert PresentOk(f, c, q);
      forall a | a in Ancestors(f, q) ensures SameAt(c, c1, a) { WithinRange(f, a, q); }
      ChainFrame(f, c, c1, q);
    }
    forall q | 0 <= q < |f| ensures NodeOk(f, s, c1, q) {
      assert NodeOk(f, st, c, q);
      forall x | x in Subtree(f, q) ensures LocalOf(f, x) == LocalOf(f, q) { WithinRange(f, q, x); }
      if LocalOf(f, q) == local {
        assert forall x | x in Subtree(f, q) :: x in LocalPaths(f, local);
        EmptyNotFull(f, c1, q);
      } else {
        FullFrame(f, c, c1, q);
      }
    }
    forall r | r in EnumRoots(f) ensures DiscOk(s, c1, r) { assert DiscOk(st, c, r); }
  }

  lemma StartSound(f: Forest, st: State, c: Concrete, local: LocalId)
    requires Represents(f, st, c)
    ensures Represents(f, StartStorage(f, st, local), BeginLocal(f, c, local))
  {
    EraseLocalSound(f, st, c, local, c.live + {local});
    assert NodesOk(f, StartStorage(f, st, local), BeginLocal(f, c, local)) by {
      forall q | 0 <= q < |f| ensures NodeOk(f, StartStorage(f, st, local), BeginLocal(f, c, local), q) {
        assert NodeOk(f, ClearPaths(st, LocalPaths(f, local)), BeginLocal(f, c, local), q);
      }
    }
    forall r | r in EnumRoots(f) ensures DiscOk(StartStorage(f, st, local), BeginLocal(f, c, local), r) {
      assert DiscOk(ClearPaths(st, LocalPaths(f, local)), BeginLocal(f, c, local), r);
    }
  }

  lemma EndSound(f: Forest, st: State, c: Concrete, local: LocalId)
    requires Represents(f, st, c)
    ensures Represents(f, EndStorage(f, st, local), EndLocal(f, c, local))
  {
    EraseLocalSound(f, st, c, local, c.live - {local});
    assert NodesOk(f, EndStorage(f, st, local), EndLocal(f, c, local)) by {
      forall q | 0 <= q < |f| ensures NodeOk(f, EndStorage(f, st, local), EndLocal(f, c, local), q) {
        assert NodeOk(f, ClearPaths(st, LocalPaths(f, local)), EndLocal(f, c, local), q);
      }
    }
    forall r | r in EnumRoots(f) ensures DiscOk(EndStorage(f, st, local), EndLocal(f, c, local), r) {
      assert DiscOk(ClearPaths(st, LocalPaths(f, local)), EndLocal(f, c, local), r);
    }
  }

  lemma {:induction false} EndAllSound(f: Forest, st: State, c: Concrete, locals: seq<LocalId>)
    requires Represents(f, st, c)
    ensures Represents(f, EndAll(f, st, locals), EndLocals(f, c, locals))
  {
    if locals != [] {
      EndAllSound(f, st, c, locals[..|locals| - 1]);
      EndSound(f, EndAll(f, st, locals[..|locals| - 1]), EndLocals(f, c, locals[..|locals| - 1]),
               locals[|locals| - 1]);
    }
  }

  /* ----- marking ----- */

  /** The marks bracket the paths that end up selected. */
  lemma {:induction false} MarkMeaning(f: Forest, st: State, c: Concrete, p: nat, c': Concrete, q: nat)
    requires q in Subtree(f, p) && Fill(f, c, p, c') && DiscsOk(f, st, c)
    ensures MarkOf(f, st, p, Must, q) == Marked(Must) ==> Selected(f, c', p, q)
    ensures MarkOf(f, st, p, Must, q) == Cleared ==> !Selected(f, c', p, q)
    decreases Depth(f, q)
  {
    if q != p {
      ParentFacts(f, q);
      var a := Parent(f, q).value;
      MarkMeaning(f, st, c, p, c', a);
      if IsDowncast(f, q) {
        KidsAgree(f, a, q);
        assert DiscOk(st, c, a) && FilledAt(f, c, p, c', a);
      }
    }
  }

  /** Completeness within a written path lies between the two kinds of marks. */
  lemma MarkedNode(f: Forest, st: State, c: Concrete, p: nat, c': Concrete, q: nat)
    requires q in Subtree(f, p) && Fill(f, c, p, c') && DiscsOk(f, st, c)
    ensures NodeOk(f, MarkWhole(f, st, p, Must), c', q)
  {
    MarkMeaning(f, st, c, p, c', q);
    if Selected(f, c', p, q) {
      FilledIsFull(f, c, p, c', q);
    } else if MarkOf(f, st, p, Must, q) == Cleared {
      UnselectedIsEmpty(f, c, p, c', q);
      EmptyNotFull(f, c', q);
    }
    hide Fill; hide DiscsOk; hide Full; hide Selected; hide MarkOf; hide Kids; hide EnumRoots;
  }

  lemma MarkedDiscriminant(f: Forest, st: State, c: Concrete, p: nat, c': Concrete, q: nat)
    requires q in Subtree(f, p) && Fill(f, c, p, c') && DiscsOk(f, st, c)
    requires st.discriminants.Keys == EnumRoots(f) && q in EnumRoots(f)
    ensures DiscOk(MarkWhole(f, st, p, Must), c', q)
  {
    MarkMeaning(f, st, c, p, c', q);
    assert FilledAt(f, c, p, c', q) && DiscOk(st, c, q);
    hide Fill; hide DiscsOk; hide Full; hide Selected; hide MarkOf; hide Kids; hide IsEnum;
  }


  /** After filling `p`, the marked state describes everything within `p`. */
  lemma MarkSound(f: Forest, st: State, c: Concrete, p: nat, c': Concrete, q: nat)
    requires q in Subtree(f, p) && Fill(f, c, p, c') && DiscsOk(f, st, c)
    requires st.discriminants.Keys == EnumRoots(f)
    ensures NodeOk(f, MarkWhole(f, st, p, Must), c', q)
    ensures q in EnumRoots(f) ==> DiscOk(MarkWhole(f, st, p, Must), c', q)
  {
    MarkedNode(f, st, c, p, c', q);
    if q in EnumRoots(f) { MarkedDiscriminant(f, st, c, p, c', q); }
  }

  /* ----- recomputing ancestors ----- */

  lemma {:induction false} DowncastsFrame(f: Forest, s: State, t: State, p: nat)
    requires forall a | a in Ancestors(f, p) :: Disc(s, a) == Disc(t, a)
    ensures DowncastsActive(f, s, p) <==> DowncastsActive(f, t, p)
    decreases Depth(f, p)
  {
    if Parent(f, p).Some? {
      ParentFacts(f, p);
      var a := Parent(f, p).value;
      AncestorStep(f, p);
      DowncastsFrame(f, s, t, a);
    }
  }

  lemma RecomposeNodeSound(f: Forest, st: State, c: Concrete, p: nat)
    requires Parent(f, p).Some? && DiscsOk(f, st, c)
    requires forall k | k in Kids(f, Parent(f, p).value) :: NodeOk(f, st, c, k)
    requires IsDowncast(f, p) ==> Disc(st, Parent(f, p).value) == Discriminant(false, {Variant(f, p)})
    ensures NodeOk(f, RecomposeNode(f, st, Parent(f, p).value), c, Parent(f, p).value)
  {
    ParentFacts(f, p);
    var a := Parent(f, p).value;
    KidsAgree(f, a, p);
    if IsEnum(f, a) {
      assert DiscOk(st, c, a);
      var active := set k | k in Kids(f, a) && Disc(st, a) == Discriminant(false, {Variant(f, k)});
      forall k | k in Kids(f, a) ensures k in active <==> k == p ensures k in ActiveKids(f, c, a) <==> k == p {
        KidsAgree(f, a, k);
        KidFacts(f, a, k);
        if k != p && Variant(f, k) == Variant(f, p) { VariantInjective(f, a, k, p); }
        if k in active { assert Variant(f, k) in Disc(st, a).possible; }
      }
      assert p in active;
      assert active == {p} && ActiveKids(f, c, a) == {p};
    } else {
      forall k | k in Kids(f, a) ensures k in ActiveKids(f, c, a) { KidsAgree(f, a, k); }
      assert ActiveKids(f, c, a) == Kids(f, a);
    }
  }

  /** Recomputing changes nothing but the status of the ancestors. */
  lemma {:induction false} RecomposeFrame(f: Forest, st: State, p: nat)
    ensures var s := Recompose(f, st, p);
            && s.discriminants == st.discriminants && s.reachable == st.reachable
            && s.mayLive == st.mayLive && s.mustLive == st.mustLive
            && forall q | q < |f| && q !in Ancestors(f, p) ::
                 (q in s.mayInit <==> q in st.mayInit) && (q in s.mustInit <==> q in st.mustInit)
    decreases Depth(f, p)
  {
    if Parent(f, p).Some? {
      ParentFacts(f, p);
      var a := Parent(f, p).value;
      AncestorStep(f, p);
      RecomposeFrame(f, RecomposeNode(f, st, a), a);
    }
  }

  lemma {:induction false} RecomposeSound(f: Forest, st: State, c: Concrete, p: nat)
    requires p < |f| && DiscsOk(f, st, c) && DowncastsActive(f, st, p)
    requires forall q | 0 <= q < |f| && q !in Ancestors(f, p) :: NodeOk(f, st, c, q)
    ensures NodesOk(f, Recompose(f, st, p), c)
    decreases Depth(f, p)
  {
    if Parent(f, p).None? {
      forall q | 0 <= q < |f| ensures q !in Ancestors(f, p) {}
    } else {
      ParentFacts(f, p);
      AncestorStep(f, p);
      var a := Parent(f, p).value;
      var s := RecomposeNode(f, st, a);
      forall k | k in Kids(f, a) ensures NodeOk(f, st, c, k) {
        KidFacts(f, a, k);
        if k in Ancestors(f, p) { WithinRange(f, k, p); }
      }
      RecomposeNodeSound(f, st, c, p);
      forall q | 0 <= q < |f| && q !in Ancestors(f, a) ensures NodeOk(f, s, c, q) {
        if q != a {
          assert NodeOk(f, st, c, q);
        }
      }
      DowncastsFrame(f, st, s, a);
      forall r | r in EnumRoots(f) ensures DiscOk(s, c, r) { assert DiscOk(st, c, r); }
      RecomposeSound(f, s, c, a);
    }
  }

  /* ----- filling ----- */

  lemma FillCoherent(f: Forest, c: Concrete, p: nat, c': Concrete)
    requires Coherent(f, c) && Usable(f, c, p) && Fill(f, c, p, c')
    ensures Coherent(f, c')
  {
    forall a | a in Ancestors(f, p) ensures SameAt(c, c', a) { OwnAncestorsOutside(f, p, a); }
    ChainFrame(f, c, c', p);
    forall q | Present(c', q) ensures PresentOk(f, c', q) {
      if q in Subtree(f, p) {
        assert FilledAt(f, c, p, c', q);
        WithinRange(f, p, q);
        SelectedChain(f, c', p, q);
      } else {
        assert SameAt(c, c', q);
        assert PresentOk(f, c, q);
        forall a | a in Ancestors(f, q) ensures SameAt(c, c', a) { AncestorsOutside(f, p, q, a); }
        ChainFrame(f, c, c', q);
      }
    }
  }

  lemma {:induction false} SelectedChain(f: Forest, c: Concrete, p: nat, q: nat)
    requires Selected(f, c, p, q) && ActiveChain(f, c, p)
    ensures ActiveChain(f, c, q)
    decreases Depth(f, q)
  {
    if q != p {
      ParentFacts(f, q);
      SelectedChain(f, c, p, Parent(f, q).value);
    }
  }

  lemma InitSound(f: Forest, st: State, c: Concrete, p: nat, c': Concrete)
    requires Represents(f, st, c) && Usable(f, c, p) && DowncastsActive(f, st, p)
    requires Fill(f, c, p, c')
    ensures Represents(f, InitializePath(f, st, p), c')
  {
    var s := MarkWhole(f, st, p, Must);
    FillCoherent(f, c, p, c');
    forall r | r in EnumRoots(f) ensures DiscOk(s, c', r) {
      if r in Subtree(f, p) {
        MarkSound(f, st, c, p, c', r);
      } else {
        assert DiscOk(st, c, r) && SameAt(c, c', r);
      }
    }
    forall q | 0 <= q < |f| && q !in Ancestors(f, p) ensures NodeOk(f, s, c', q) {
      if q in Subtree(f, p) {
        MarkSound(f, st, c, p, c', q);
      } else {
        forall x | x in Subtree(f, q) ensures SameAt(c, c', x) { DisjointSubtrees(f, p, q, x); }
        FullFrame(f, c, c', q);
        assert NodeOk(f, st, c, q);
      }
    }
    forall a | a in Ancestors(f, p) ensures Disc(s, a) == Disc(st, a) { OwnAncestorsOutside(f, p, a); }
    DowncastsFrame(f, st, s, p);
    RecomposeSound(f, s, c', p);
    RecomposeFrame(f, s, p);
    forall r | r in EnumRoots(f) ensures DiscOk(InitializePath(f, st, p), c', r) { assert DiscOk(s, c', r); }
  }

  /* ----- discriminants ----- */

  /** A selected variant alone completes nothing. */
  lemma SelectedOnly(f: Forest, c: Concrete, p: nat, v: nat, q: nat)
    requires p < |f| && q in Subtree(f, p) && Empty(f, c, p)
    ensures !Full(f, c.(active := c.active[p := v]), q)
    decreases q == p
  {
    var c' := c.(active := c.active[p := v]);
    if q != p {
      forall x | x in Subtree(f, q) ensures !Present(c', x) {
        WithinTrans(f, p, q, x);
        assert x in Subtree(f, p) && !Present(c, x);
        if x == p { WithinAntisymmetric(f, p, q); }
      }
      EmptyNotFull(f, c', q);
    } else if Full(f, c', p) && !IsLeaf(f, p) {
      var k :| k in ActiveKids(f, c', p);
      KidFacts(f, p, k);
      assert k in Subtree(f, p);
      SelectedOnly(f, c, p, v, k);
    }
  }

  /** Selecting a variant of an empty enum leaves everything enclosing it incomplete. */
  lemma SelectSound(f: Forest, st: State, c: Concrete, p: nat, v: nat, d: Discriminant)
    requires Represents(f, st, c) && Usable(f, c, p) && Empty(f, c, p)
    requires IsEnum(f, p) && v in Variants(f, p) && v in d.possible
    ensures Represents(f, st.(discriminants := st.discriminants[p := d]), c.(active := c.active[p := v]))
    ensures Usable(f, c.(active := c.active[p := v]), p)
  {
    var s, c' := st.(discriminants := st.discriminants[p := d]), c.(active := c.active[p := v]);
    assert p in EnumRoots(f);
    forall a | a in Ancestors(f, p) ensures SameAt(c, c', a) { OwnAncestorsOutside(f, p, a); assert a != p; }
    ChainFrame(f, c, c', p);
    EmptyNotFull(f, c, p);
    assert !Present(c, p) by { assert p in Subtree(f, p); }
    forall q | Present(c', q) ensures PresentOk(f, c', q) {
      if q != p {
        assert PresentOk(f, c, q);
        assert q !in Subtree(f, p);
        assert forall a | a in Ancestors(f, q) :: SameAt(c, c', a);
        ChainFrame(f, c, c', q);
      }
    }
    SelectedOnly(f, c, p, v, p);
    forall q | 0 <= q < |f| ensures NodeOk(f, s, c', q) {
      assert NodeOk(f, st, c, q);
      if q == p {
      } else if q in Ancestors(f, p) {
        ChainUpward(f, c, q, p);
        MissingPart(f, c, q, p);
        ChainUpward(f, c', q, p);
        MissingPart(f, c', q, p);
      } else {
        assert p !in Subtree(f, q);
        FullFrame(f, c, c', q);
      }
    }
    forall r | r in EnumRoots(f) ensures DiscOk(s, c', r) { assert DiscOk(st, c, r); }
  }

  lemma VariantsMeanEnum(f: Forest, p: nat, v: nat)
    requires v in Variants(f, p)
    ensures IsEnum(f, p) && p < |f| && p in EnumRoots(f)
  {
    var k :| k in Kids(f, p) && IsDowncast(f, k) && Variant(f, k) == v;
    KidFacts(f, p, k);
  }

  lemma SetDiscriminantSound(f: Forest, st: State, c: Concrete, p: nat, v: nat)
    requires Represents(f, st, c) && Usable(f, c, p) && Empty(f, c, p) && v in Variants(f, p)
    ensures Represents(f, SelectVariant(f, st, p, v), c.(active := c.active[p := v]))
  {
    VariantsMeanEnum(f, p, v);
    ClearSound(f, st, c, p);
    assert Erase(c, Subtree(f, p)) == c by {
      forall q | q in Subtree(f, p) ensures !Present(c, q) {}
      assert c.leaves - Subtree(f, p) == c.leaves;
      assert c.active - Subtree(f, p) == c.active;
    }
    SelectSound(f, ClearPath(f, st, p), c, p, v, Discriminant(false, {v}));
  }

  /** A complete value is what filling it again could have produced. */
  lemma FillSelf(f: Forest, c: Concrete, p: nat)
    requires p < |f| && Coherent(f, c) && Full(f, c, p)
    ensures Fill(f, c, p, c)
  {
    forall q | q in Subtree(f, p) ensures FilledAt(f, c, p, c, q) {
      if Selected(f, c, p, q) {
        SelectedIsFull(f, c, p, q);
        if Present(c, q) { assert PresentOk(f, c, q); }
        if IsEnum(f, q) {
          var k :| k in ActiveKids(f, c, q);
          KidsAgree(f, q, k);
          KidFacts(f, q, k);
          assert PresentOk(f, c, q);
        } else if IsLeaf(f, q) {
          assert Full(f, c, q);
        }
        assert IsLeaf(f, q) ==> !IsEnum(f, q);
      } else if Present(c, q) {
        assert PresentOk(f, c, q);
        ChainUpward(f, c, p, q);
      }
    }
  }

  lemma {:induction false} SelectedIsFull(f: Forest, c: Concrete, p: nat, q: nat)
    requires Full(f, c, p) && Selected(f, c, p, q)
    ensures Full(f, c, q)
    decreases Depth(f, q)
  {
    if q != p {
      ParentFacts(f, q);
      var a := Parent(f, q).value;
      SelectedIsFull(f, c, p, a);
      assert q in ActiveKids(f, c, a);
    }
  }

  lemma OneVariantKid(f: Forest, r: nat, v: nat, k: nat)
    requires k in Kids(f, r) && IsDowncast(f, k) && Variant(f, k) == v
    ensures VariantKids(f, r, v) == {k}
  {
    KidFacts(f, r, k);
    forall k' | k' in VariantKids(f, r, v) ensures k' == k { VariantInjective(f, r, k', k); }
    assert k in VariantKids(f, r, v);
  }

  /** Marking says nothing outside the marked subtree. */
  lemma MarkFrame(f: Forest, st: State, c: Concrete, p: nat, q: nat)
    requires q !in Subtree(f, p) && q < |f|
    ensures NodeOk(f, st, c, q) ==> NodeOk(f, MarkWhole(f, st, p, Must), c, q)
    ensures DiscOk(st, c, q) ==> DiscOk(MarkWhole(f, st, p, Must), c, q)
  {
    hide Full; hide MarkOf;
  }

  /** What lies in a variant that is not selected is empty, and apart from the one that is. */
  lemma OtherIsApart(f: Forest, c: Concrete, r: nat, v: nat, k: nat, q: nat)
    requires Coherent(f, c) && r in c.active && c.active[r] == v
    requires k in Kids(f, r) && IsDowncast(f, k) && Variant(f, k) == v && q in OtherVariants(f, r, v)
    ensures q < |f| && q != r && q !in Subtree(f, k) && !Present(c, q) && !Full(f, c, q)
  {
    OthersAreEmpty(f, c, r, v, q);
    var k' :| k' in Kids(f, r) && IsDowncast(f, k') && Variant(f, k') != v && q in Subtree(f, k');
    KidFacts(f, r, k');
    WithinRange(f, k', q);
    if q in Subtree(f, k) { KidsDisjoint(f, r, k, k', q); }
    assert q in Subtree(f, q);
    EmptyNotFull(f, c, q);
  }

  /** Fixing the variant and forgetting the others keeps all but the chosen payload described. */
  lemma ForgetSound(f: Forest, st: State, c: Concrete, r: nat, v: nat, k: nat)
    requires Represents(f, st, c) && r in c.active && c.active[r] == v && r in EnumRoots(f)
    requires k in Kids(f, r) && IsDowncast(f, k) && Variant(f, k) == v
    ensures var s := ClearPaths(SetKnown(st, r, v), OtherVariants(f, r, v));
            && s.discriminants.Keys == EnumRoots(f) && DiscsOk(f, s, c)
            && forall q | 0 <= q < |f| && q !in Subtree(f, k) :: NodeOk(f, s, c, q)
  {
    var s := ClearPaths(SetKnown(st, r, v), OtherVariants(f, r, v));
    forall q | q in OtherVariants(f, r, v)
      ensures q < |f| && q != r && q !in Subtree(f, k) && !Present(c, q) && !Full(f, c, q)
    {
      OtherIsApart(f, c, r, v, k, q);
    }
    hide OtherVariants; hide Kids; hide Full; hide Coherent; hide IsEnum;
    forall q | q in EnumRoots(f) ensures DiscOk(s, c, q) { assert DiscOk(st, c, q); }
    forall q | 0 <= q < |f| && q !in Subtree(f, k) ensures NodeOk(f, s, c, q) { assert NodeOk(f, st, c, q); }
  }

  /** Marking a part that is complete anyway. */
  lemma RemarkSound(f: Forest, s: State, c: Concrete, k: nat)
    requires k < |f| && Fill(f, c, k, c) && s.reachable && s.mustLive <= c.live <= s.mayLive && Coherent(f, c)
    requires s.discriminants.Keys == EnumRoots(f) && DiscsOk(f, s, c)
    requires forall q | 0 <= q < |f| && q !in Subtree(f, k) :: NodeOk(f, s, c, q)
    ensures Represents(f, MarkWhole(f, s, k, Must), c)
  {
    var t := MarkWhole(f, s, k, Must);
    forall q | 0 <= q < |f| ensures NodeOk(f, t, c, q) && (q in EnumRoots(f) ==> DiscOk(t, c, q)) {
      assert q in EnumRoots(f) ==> DiscOk(s, c, q);
      if q in Subtree(f, k) { MarkSound(f, s, c, k, c, q); } else { MarkFrame(f, s, c, k, q); }
    }
    hide Full; hide Fill; hide Coherent; hide NodeOk; hide DiscOk; hide MarkOf; hide IsEnum;
  }

  lemma ActivePayload(f: Forest, c: Concrete, r: nat, k: nat)
    requires r in c.active && Full(f, c, r) && Coherent(f, c)
    requires k in Kids(f, r) && IsDowncast(f, k) && c.active[r] == Variant(f, k)
    ensures k < |f| && Fill(f, c, k, c)
  {
    KidFacts(f, r, k);
    SelectedIsFull(f, c, r, k) by { assert Selected(f, c, r, r); assert Selected(f, c, r, k); }
    FillSelf(f, c, k);
  }

  lemma AssumeSound(f: Forest, st: State, c: Concrete, r: nat, v: nat)
    requires Represents(f, st, c) && Full(f, c, r) && v in Variants(f, r)
    requires r in c.active && c.active[r] == v
    ensures Represents(f, AssumeVariant(f, st, r, v), c)
  {
    VariantsMeanEnum(f, r, v);
    var k :| k in Kids(f, r) && IsDowncast(f, k) && Variant(f, k) == v;
    OneVariantKid(f, r, v, k);
    assert AssumeVariant(f, st, r, v) == MarkWhole(f, ClearPaths(SetKnown(st, r, v), OtherVariants(f, r, v)), k, Must);
    hide OtherVariants; hide VariantKids; hide AssumeVariant; hide MarkWhole; hide Full; hide Fill; hide IsEnum;
    hide NodesOk; hide DiscsOk; hide Coherent; hide Subtree;
    ForgetSound(f, st, c, r, v, k);
    ActivePayload(f, c, r, k);
    RemarkSound(f, ClearPaths(SetKnown(st, r, v), OtherVariants(f, r, v)), c, k);
  }

  lemma OthersAreEmpty(f: Forest, c: Concrete, r: nat, v: nat, q: nat)
    requires Coherent(f, c) && r in c.active && c.active[r] == v && q in OtherVariants(f, r, v)
    ensures q < |f| && Empty(f, c, q)
  {
    var k :| k in Kids(f, r) && IsDowncast(f, k) && Variant(f, k) != v && q in Subtree(f, k);
    KidFacts(f, r, k);
    forall x | x in Subtree(f, q) ensures !Present(c, x) {
      if Present(c, x) {
        assert PresentOk(f, c, x);
        WithinTrans(f, k, q, x);
        ChainUpward(f, c, k, x);
      }
    }
  }

  /* ----- transfers ----- */

  lemma MatchingVariants(f: Forest, s: nat, d: nat, v: nat)
    requires ShapesMatch(f, s, d) && IsEnum(f, s) && IsEnum(f, d) && v in Variants(f, s)
    ensures v in Variants(f, d)
  {
    var k :| k in Kids(f, s) && IsDowncast(f, k) && Variant(f, k) == v;
    var kd0 :| kd0 in Kids(f, d) && IsDowncast(f, kd0);
    assert !IsEnvironment(f, s) && !IsEnvironment(f, d);
    var kd := Partner(f, s, d, k);
    KidLabel(f, s, k);
    KidLabel(f, d, kd);
    assert Variant(f, kd) == v;
  }

  /** After a transfer gave up the source and cleared the destination. */
  lemma TransferCleared(f: Forest, st: State, c: Concrete, s: nat, d: nat)
    requires Represents(f, st, c) && s < |f| && d < |f| && !Within(f, s, d)
    requires Usable(f, c, s) && Usable(f, c, d)
    ensures var c2 := Erase(c, Subtree(f, s) + Subtree(f, d));
            && Represents(f, ClearPath(f, ClearPath(f, st, s), d), c2)
            && Usable(f, c2, d) && Empty(f, c2, d)
  {
    var c1 := Erase(c, Subtree(f, s));
    ClearSound(f, st, c, s);
    EraseKeepsChain(f, c, s, d);
    ClearSound(f, ClearPath(f, st, s), c1, d);
    var c2 := Erase(c, Subtree(f, s) + Subtree(f, d));
    assert Erase(c1, Subtree(f, d)).leaves == c2.leaves;
    assert Erase(c1, Subtree(f, d)).active == c2.active;
  }

  /** A transfer reads the downcasts above its destination undisturbed. */
  lemma TransferDowncasts(f: Forest, st: State, s: nat, d: nat)
    requires s < |f| && d < |f| && !Within(f, s, d) && DowncastsActive(f, st, d)
    ensures var t := ClearPath(f, ClearPath(f, st, s), d);
            DowncastsActive(f, MoveDiscriminant(t, Disc(st, s), s, d), d)
  {
    var t := MoveDiscriminant(ClearPath(f, ClearPath(f, st, s), d), Disc(st, s), s, d);
    forall a | a in Ancestors(f, d) ensures Disc(t, a) == Disc(st, a) {
      OwnAncestorsOutside(f, d, a);
      AncestorsOutside(f, s, d, a);
    }
    DowncastsFrame(f, st, t, d);
  }

  /** A complete enum has selected one of its variants. */
  lemma FullEnumIsActive(f: Forest, c: Concrete, s: nat)
    requires Full(f, c, s) && IsEnum(f, s) && Coherent(f, c)
    ensures s in c.active && c.active[s] in Variants(f, s)
  {
    var k :| k in ActiveKids(f, c, s);
    KidsAgree(f, s, k);
    KidFacts(f, s, k);
    assert PresentOk(f, c, s);
  }

  lemma TransferSound(f: Forest, st: State, c: Concrete, s: nat, d: nat, kind: TransferKind, c': Concrete)
    requires Represents(f, st, c) && OpShapeOk(f, Transfer(s, d, kind))
    requires Usable(f, c, s) && Usable(f, c, d) && Full(f, c, s) && DowncastsActive(f, st, d)
    requires Step(f, c, Transfer(s, d, kind), c')
    ensures Represents(f, TransferValue(f, st, s, d), c')
  {
    var c2 := Erase(c, Subtree(f, s) + Subtree(f, d));
    var t := ClearPath(f, ClearPath(f, st, s), d);
    TransferCleared(f, st, c, s, d);
    TransferDowncasts(f, st, s, d);
    if IsEnum(f, s) && IsEnum(f, d) {
      FullEnumIsActive(f, c, s);
      MatchingVariants(f, s, d, c.active[s]);
      assert s in EnumRoots(f) && d in EnumRoots(f);
      assert DiscOk(st, c, s);
      SelectSound(f, t, c2, d, c.active[s], Disc(st, s));
    } else {
      assert MoveDiscriminant(t, Disc(st, s), s, d) == t;
    }
    InitSound(f, MoveDiscriminant(t, Disc(st, s), s, d), MoveVariant(f, c2, c, s, d), d, c');
  }

  /* ----- the step theorem ----- */

  lemma OverwriteSound(f: Forest, st: State, c: Concrete, p: nat, c': Concrete)
    requires Represents(f, st, c) && Usable(f, c, p) && DowncastsActive(f, st, p)
    requires Step(f, c, Overwrite(p), c')
    ensures Represents(f, InitializePath(f, ClearPath(f, st, p), p), c')
  {
    ClearSound(f, st, c, p);
    forall a | a in Ancestors(f, p) ensures Disc(ClearPath(f, st, p), a) == Disc(st, a) {
      OwnAncestorsOutside(f, p, a);
    }
    DowncastsFrame(f, st, ClearPath(f, st, p), p);
    InitSound(f, ClearPath(f, st, p), Erase(c, Subtree(f, p)), p, c');
  }

  /** One accepted step keeps the analysis truthful. */
  lemma StepSound(f: Forest, st: State, c: Concrete, op: CleanupOp, c': Concrete)
    requires Represents(f, st, c) && OpShapeOk(f, op) && OpStateOk(f, st, op) && Step(f, c, op, c')
    ensures Represents(f, Apply(f, st, op), c')
  {
    AcceptedIsSafe(f, st, c, op);
    match op
    case StorageLive(local) => StartSound(f, st, c, local);
    case StorageDead(local) => EndSound(f, st, c, local);
    case Init(p) => InitSound(f, st, c, p, c');
    case MoveOut(p) => ClearSound(f, st, c, p);
    case Overwrite(p) => OverwriteSound(f, st, c, p, c');
    case Transfer(s, d, kind) => TransferSound(f, st, c, s, d, kind, c');
    case SetDiscriminant(p, v) => SetDiscriminantSound(f, st, c, p, v);
    case AssumeDiscriminant(r, v) => AssumeSound(f, st, c, r, v);
  }

  /** Joins forget, they never lie. */
  lemma BelowSound(f: Forest, s: State, t: State, c: Concrete)
    requires Represents(f, s, c) && Below(s, t)
    ensures Represents(f, t, c)
  {
    forall q | 0 <= q < |f| ensures NodeOk(f, t, c, q) { assert NodeOk(f, s, c, q); }
    forall r | r in EnumRoots(f) ensures DiscOk(t, c, r) { assert DiscOk(s, c, r); }
  }
}
