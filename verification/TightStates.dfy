/**
 States that are consistent with themselves: what is certain of the parts is certain of the
 whole and the other way round, and nothing is held behind a variant that is ruled out.
 Every operation that is ready keeps a state so, and so do joins and edges.
 */
module TightStates {
  import opened Wrappers
  import opened CleanupPlan
  import opened MovePaths
  import opened MoveStates
  import opened Checks
  import opened Semantics
  import opened Simulation
  import opened Lattice

  /** No enum projected through on the way to `q` rules the variant of `q` out. */
  ghost predicate Reach(f: Forest, st: State, q: nat)
    decreases Depth(f, q)
  {
    Parent(f, q).Some? ==>
      (ParentFacts(f, q);
       var a := Parent(f, q).value;
       (IsDowncast(f, q) ==> Variant(f, q) in Disc(st, a).possible) && Reach(f, st, a))
  }

  predicate IsKnown(st: State, a: nat, v: nat) { Disc(st, a) == Discriminant(false, {v}) }

  /** What may be held is within reach, in storage that may be live. */
  ghost predicate HeldOk(f: Forest, st: State, q: nat) {
    MayHold(st, q) ==> Reach(f, st, q) && LocalOf(f, q) in st.mayLive
  }

  /** What is certain lies in known variants, in storage that is certainly live. */
  ghost predicate SureOk(f: Forest, st: State, q: nat) {
    q in st.mustInit || !Disc(st, q).mayBeUnset ==> DowncastsActive(f, st, q) && LocalOf(f, q) in st.mustLive
  }

  predicate DiscFits(st: State, q: nat) { !Disc(st, q).mayBeUnset ==> Disc(st, q).possible != {} }

  /** The parts that decide whether `a` is certainly complete are certainly complete. */
  ghost predicate PartsSure(f: Forest, st: State, a: nat) {
    if IsEnum(f, a) then exists k :: k in Kids(f, a) && IsKnown(st, a, Variant(f, k)) && k in st.mustInit
    else !IsLeaf(f, a) && Kids(f, a) <= st.mustInit
  }

  ghost predicate SureUp(f: Forest, st: State, a: nat) { PartsSure(f, st, a) ==> a in st.mustInit }

  ghost predicate SureDown(f: Forest, st: State, a: nat) {
    a in st.mustInit ==>
      if IsEnum(f, a) then
        && !Disc(st, a).mayBeUnset
        && forall k | k in Kids(f, a) && IsKnown(st, a, Variant(f, k)) :: k in st.mustInit
      else Kids(f, a) <= st.mustInit
  }

  ghost predicate MayDown(f: Forest, st: State, a: nat) {
    a in st.mayInit ==>
      if IsEnum(f, a) then exists k :: k in Kids(f, a) && k in st.mayInit else Kids(f, a) <= st.mayInit
  }

  /** All children but `k` are certainly complete. */
  ghost predicate OthersSure(f: Forest, st: State, a: nat, k: nat) {
    IsEnum(f, a) || forall j | j in Kids(f, a) && j != k :: j in st.mustInit
  }

  ghost predicate MayUp(f: Forest, st: State, a: nat) {
    forall k | k in Kids(f, a) && k in st.mayInit && OthersSure(f, st, a, k) :: a in st.mayInit
  }

  /** Within what is certainly complete, everything in reach may be. */
  ghost predicate Saturated(f: Forest, st: State, m: nat) {
    m in st.mustInit ==> forall q | q in Subtree(f, m) && Reach(f, st, q) :: q in st.mayInit
  }

  ghost predicate TightAt(f: Forest, st: State, q: nat) {
    && HeldOk(f, st, q) && SureOk(f, st, q) && DiscFits(st, q)
    && SureUp(f, st, q) && SureDown(f, st, q) && MayDown(f, st, q) && MayUp(f, st, q) && Saturated(f, st, q)
  }

  ghost predicate Tight(f: Forest, st: State) {
    forall q | 0 <= q < |f| :: TightAt(f, st, q)
  }

  /* ----- frames ----- */

  lemma {:induction false} ReachFrame(f: Forest, s: State, t: State, q: nat)
    requires forall a | a in Ancestors(f, q) :: Disc(s, a) == Disc(t, a)
    ensures Reach(f, s, q) <==> Reach(f, t, q)
    decreases Depth(f, q)
  {
    if Parent(f, q).Some? {
      ParentFacts(f, q);
      AncestorStep(f, q);
      ReachFrame(f, s, t, Parent(f, q).value);
    }
  }

  lemma {:induction false} ActiveIsReached(f: Forest, st: State, q: nat)
    requires DowncastsActive(f, st, q)
    ensures Reach(f, st, q)
    decreases Depth(f, q)
  {
    if Parent(f, q).Some? {
      ParentFacts(f, q);
      ActiveIsReached(f, st, Parent(f, q).value);
    }
  }

  lemma {:induction false} ReachUpward(f: Forest, st: State, a: nat, q: nat)
    requires Within(f, a, q)
    ensures Reach(f, st, q) ==> Reach(f, st, a)
    ensures DowncastsActive(f, st, q) ==> DowncastsActive(f, st, a)
    decreases Depth(f, q)
  {
    if a != q {
      ParentFacts(f, q);
      ReachUpward(f, st, a, Parent(f, q).value);
    }
  }

  /** The variant on the way from `a` to what is in reach is possible, or even known. */
  lemma StepInReach(f: Forest, st: State, a: nat, k: nat, q: nat)
    requires k in Kids(f, a) && Within(f, k, q)
    ensures Reach(f, st, q) && IsDowncast(f, k) ==> Variant(f, k) in Disc(st, a).possible
    ensures DowncastsActive(f, st, q) && IsDowncast(f, k) ==> IsKnown(st, a, Variant(f, k))
  {
    KidFacts(f, a, k);
    ReachUpward(f, st, k, q);
  }

  /* ----- nothing at all ----- */

  lemma NewIsTight(f: Forest)
    ensures Tight(f, NewState(f, true))
  {
    var st := NewState(f, true);
    forall q | 0 <= q < |f| ensures TightAt(f, st, q) {
      assert forall r :: Disc(st, r) == UNSELECTED;
    }
  }

  /* ----- clearing a path ----- */

  /** The part of a state that `TightAt` looks at is the same around `q`. */
  ghost predicate SameAround(f: Forest, s: State, t: State, q: nat) {
    && (forall x | x == q || x in Kids(f, q) ::
          (x in s.mayInit <==> x in t.mayInit) && (x in s.mustInit <==> x in t.mustInit))
    && Disc(s, q) == Disc(t, q) && (forall a | a in Ancestors(f, q) :: Disc(s, a) == Disc(t, a))
    && (LocalOf(f, q) in s.mayLive <==> LocalOf(f, q) in t.mayLive)
    && (LocalOf(f, q) in s.mustLive <==> LocalOf(f, q) in t.mustLive)
  }

  /** All but the last condition at `q` depend on its surroundings only. */
  ghost predicate LocallyTight(f: Forest, st: State, q: nat) {
    && HeldOk(f, st, q) && SureOk(f, st, q) && DiscFits(st, q)
    && SureUp(f, st, q) && SureDown(f, st, q) && MayDown(f, st, q) && MayUp(f, st, q)
  }

  lemma SurroundingsDecide(f: Forest, s: State, t: State, q: nat)
    requires SameAround(f, s, t, q) && LocallyTight(f, s, q)
    ensures LocallyTight(f, t, q)
  {
    ReachFrame(f, s, t, q);
    DowncastsFrame(f, s, t, q);
    assert PartsSure(f, s, q) <==> PartsSure(f, t, q);
    if !IsEnum(f, q) {
      forall k | k in Kids(f, q) ensures OthersSure(f, s, q, k) <==> OthersSure(f, t, q, k) {}
    }
  }

  /** A path off the way to `p` keeps its surroundings when only `p`, what is in it and what encloses it changes. */
  lemma OffTheWay(f: Forest, p: nat, q: nat)
    requires p < |f| && q < |f| && q !in Subtree(f, p) && q !in Ancestors(f, p)
    ensures forall k | k in Kids(f, q) :: k !in Subtree(f, p) && k !in Ancestors(f, p)
    ensures forall a | a in Ancestors(f, q) :: a !in Subtree(f, p)
  {
    forall k | k in Kids(f, q) ensures k !in Subtree(f, p) && k !in Ancestors(f, p) {
      KidFacts(f, q, k);
      if k in Subtree(f, p) && k != p { ParentFacts(f, k); }
      if k in Ancestors(f, p) { WithinTrans(f, q, k, p); }
    }
    forall a | a in Ancestors(f, q) ensures a !in Subtree(f, p) { AncestorsOutside(f, p, q, a); }
  }

  lemma ClearFacts(f: Forest, st: State, p: nat, q: nat)
    requires p < |f| && q < |f|
    ensures var s := ClearPath(f, st, p);
            && (q in Subtree(f, p) || q in Ancestors(f, p) ==> q !in s.mayInit && q !in s.mustInit)
            && (q in Subtree(f, p) ==> Disc(s, q) == UNSELECTED)
            && (q !in Subtree(f, p) ==> Disc(s, q) == Disc(st, q))
            && (q !in Subtree(f, p) && q !in Ancestors(f, p) ==>
                  (q in s.mayInit <==> q in st.mayInit) && (q in s.mustInit <==> q in st.mustInit))
            && s.mayLive == st.mayLive && s.mustLive == st.mustLive
  {
  }

  /** The child on the way down to `p`. */
  lemma TowardFacts(f: Forest, a: nat, p: nat) returns (k: nat)
    requires p < |f| && a in Ancestors(f, p)
    ensures k in Kids(f, a) && Within(f, k, p) && (k == p || k in Ancestors(f, p))
    ensures forall j | j in Kids(f, a) && j != k :: j !in Ancestors(f, p) && j !in Subtree(f, p)
  {
    k := Toward(f, a, p);
    KidFacts(f, a, k);
    forall j | j in Kids(f, a) && j != k ensures j !in Ancestors(f, p) && j !in Subtree(f, p) {
      KidFacts(f, a, j);
      if Within(f, j, p) { KidsDisjoint(f, a, j, k, p); }
      if Within(f, p, j) {
        WithinTrans(f, k, p, j);
        KidsDisjoint(f, a, j, k, j);
      }
    }
  }

  lemma ClearedPart(f: Forest, st: State, p: nat, q: nat)
    requires p < |f| && q in Subtree(f, p)
    ensures LocallyTight(f, ClearPath(f, st, p), q)
  {
    var s := ClearPath(f, st, p);
    WithinRange(f, p, q);
    ClearFacts(f, st, p, q);
    forall k | k in Kids(f, q) ensures k !in s.mayInit && k !in s.mustInit {
      KidFacts(f, q, k);
      WithinTrans(f, p, q, k);
      ClearFacts(f, st, p, k);
    }
  }

  lemma ClearedAround(f: Forest, st: State, p: nat, a: nat)
    requires a in Ancestors(f, p) && p < |f| && Tight(f, st) && DowncastsActive(f, st, p)
    ensures LocallyTight(f, ClearPath(f, st, p), a)
  {
    var s := ClearPath(f, st, p);
    var k := TowardFacts(f, a, p);
    KidFacts(f, a, k);
    OwnAncestorsOutside(f, p, a);
    ClearFacts(f, st, p, a);
    ClearFacts(f, st, p, k);
    assert TightAt(f, st, a);
    forall x | x in Ancestors(f, a) ensures Disc(s, x) == Disc(st, x) {
      WithinTrans(f, x, a, p);
      ClearFacts(f, st, p, x);
      WithinRange(f, x, a);
      OwnAncestorsOutside(f, p, x);
    }
    ReachFrame(f, s, st, a);
    DowncastsFrame(f, s, st, a);
    StepInReach(f, st, a, k, p);
    forall j | j in Kids(f, a) && j != k ensures j in s.mayInit ==> !IsEnum(f, a) {
      KidFacts(f, a, j);
      KidsAgree(f, a, j);
      KidsAgree(f, a, k);
      ClearFacts(f, st, p, j);
      if j in s.mayInit && IsEnum(f, a) {
        assert TightAt(f, st, j);
        VariantInjective(f, a, j, k);
      }
    }
    KidsAgree(f, a, k);
  }

  lemma ClearKeeps(f: Forest, st: State, p: nat)
    requires Tight(f, st) && p < |f| && DowncastsActive(f, st, p)
    ensures Tight(f, ClearPath(f, st, p))
  {
    var s := ClearPath(f, st, p);
    forall q | 0 <= q < |f| ensures TightAt(f, s, q) {
      assert TightAt(f, st, q);
      if q in Subtree(f, p) {
        ClearedPart(f, st, p, q);
      } else if q in Ancestors(f, p) {
        ClearedAround(f, st, p, q);
      } else {
        ClearedElsewhere(f, st, p, q);
      }
      ClearSaturated(f, st, p, q);
    }
  }

  lemma ClearedElsewhere(f: Forest, st: State, p: nat, q: nat)
    requires p < |f| && q < |f| && q !in Subtree(f, p) && q !in Ancestors(f, p) && LocallyTight(f, st, q)
    ensures LocallyTight(f, ClearPath(f, st, p), q)
  {
    OffTheWay(f, p, q);
    ClearFacts(f, st, p, q);
    forall k | k in Kids(f, q) ensures k < |f| { KidFacts(f, q, k); ClearFacts(f, st, p, k); }
    forall a | a in Ancestors(f, q) ensures Disc(st, a) == Disc(ClearPath(f, st, p), a) { ClearFacts(f, st, p, a); }
    SurroundingsDecide(f, st, ClearPath(f, st, p), q);
  }

  lemma ClearSaturated(f: Forest, st: State, p: nat, m: nat)
    requires Tight(f, st) && p < |f| && m < |f|
    ensures Saturated(f, ClearPath(f, st, p), m)
  {
    var s := ClearPath(f, st, p);
    ClearFacts(f, st, p, m);
    if m in s.mustInit {
      assert TightAt(f, st, m);
      forall q | q in Subtree(f, m) && Reach(f, s, q) ensures q in s.mayInit {
        WithinRange(f, m, q);
        if q in Subtree(f, p) { WithinChain(f, m, p, q); }
        if q in Ancestors(f, p) { WithinTrans(f, m, q, p); }
        OffTheWay(f, p, q);
        forall a | a in Ancestors(f, q) ensures Disc(st, a) == Disc(s, a) { ClearFacts(f, st, p, a); }
        ReachFrame(f, st, s, q);
        ClearFacts(f, st, p, q);
      }
    }
  }

  /* ----- storage ----- */

  /** The paths of one local only concern each other. */
  lemma LocalKeeps(f: Forest, st: State, s: State, local: LocalId)
    requires Tight(f, st) && s.mayInit == st.mayInit - LocalPaths(f, local)
    requires s.mustInit == st.mustInit - LocalPaths(f, local)
    requires s.discriminants == ResetAll(st.discriminants, LocalPaths(f, local))
    requires forall l: nat | l != local ::
               (l in s.mayLive <==> l in st.mayLive) && (l in s.mustLive <==> l in st.mustLive)
    ensures Tight(f, s)
  {
    forall q | 0 <= q < |f| ensures TightAt(f, s, q) {
      assert TightAt(f, st, q);
      forall x | x in Kids(f, q) ensures x < |f| && LocalOf(f, x) == LocalOf(f, q) { KidFacts(f, q, x); }
      forall a | a in Ancestors(f, q) ensures LocalOf(f, a) == LocalOf(f, q) { WithinRange(f, a, q); }
      if LocalOf(f, q) == local {
        assert forall x | x == q || x in Kids(f, q) :: x !in s.mayInit && x !in s.mustInit;
        assert Disc(s, q) == UNSELECTED;
      } else {
        SurroundingsDecide(f, st, s, q);
        if q in s.mustInit {
          forall x | x in Subtree(f, q) && Reach(f, s, x) ensures x in s.mayInit {
            WithinRange(f, q, x);
            forall a | a in Ancestors(f, x) ensures Disc(st, a) == Disc(s, a) { WithinRange(f, a, x); }
            ReachFrame(f, st, s, x);
          }
        }
      }
    }
  }

  lemma StorageKeeps(f: Forest, st: State, local: LocalId)
    requires Tight(f, st)
    ensures Tight(f, StartStorage(f, st, local)) && Tight(f, EndStorage(f, st, local))
  {
    LocalKeeps(f, st, StartStorage(f, st, local), local);
    LocalKeeps(f, st, EndStorage(f, st, local), local);
  }

  lemma {:induction false} EndAllKeeps(f: Forest, st: State, locals: seq<LocalId>)
    requires Tight(f, st)
    ensures Tight(f, EndAll(f, st, locals))
  {
    if locals != [] {
      EndAllKeeps(f, st, locals[..|locals| - 1]);
      StorageKeeps(f, EndAll(f, st, locals[..|locals| - 1]), locals[|locals| - 1]);
    }
  }

  /* ----- selecting a variant ----- */

  /** Nothing is held at `p`, in it, or around it as a whole. */
  ghost predicate Bare(f: Forest, st: State, p: nat) {
    && (forall q | q in Subtree(f, p) :: q !in st.mayInit && q !in st.mustInit && Disc(st, q) == UNSELECTED)
    && (forall a | a in Ancestors(f, p) :: a !in st.mayInit && a !in st.mustInit)
  }

  lemma ClearedIsBare(f: Forest, st: State, p: nat)
    requires p < |f|
    ensures Bare(f, ClearPath(f, st, p), p)
  {
    forall q | q in Subtree(f, p) || q in Ancestors(f, p)
      ensures var s := ClearPath(f, st, p); q !in s.mayInit && q !in s.mustInit
      ensures q in Subtree(f, p) ==> Disc(ClearPath(f, st, p), q) == UNSELECTED
    {
      ClearFacts(f, st, p, q);
    }
  }

  lemma SelectKeeps(f: Forest, st: State, p: nat, d: Discriminant)
    requires Tight(f, st) && p < |f| && Bare(f, st, p) && PathReady(f, st, p)
    requires !d.mayBeUnset && d.possible != {} && st.mustLive <= st.mayLive
    ensures Tight(f, st.(discriminants := st.discriminants[p := d]))
  {
    var s := st.(discriminants := st.discriminants[p := d]);
    ActiveIsReached(f, st, p);
    assert p in Subtree(f, p) && LocalOf(f, p) in st.mustLive;
    forall q | 0 <= q < |f| ensures TightAt(f, s, q) {
      assert TightAt(f, st, q);
      if p in Ancestors(f, q) {
        assert q in Subtree(f, p);
        SelectedPart(f, st, s, p, q);
      } else {
        ReachFrame(f, st, s, q);
        DowncastsFrame(f, st, s, q);
        if q == p {
          SelectedItself(f, st, s, p);
        } else {
          assert SameAround(f, st, s, q);
          SurroundingsDecide(f, st, s, q);
        }
      }
      SelectSaturated(f, st, s, p, q);
    }
  }

  lemma SelectedPart(f: Forest, st: State, s: State, p: nat, q: nat)
    requires q in Subtree(f, p) && q != p && Bare(f, st, p) && p < |f|
    requires s.mayInit == st.mayInit && s.mustInit == st.mustInit && Disc(s, q) == Disc(st, q)
    ensures LocallyTight(f, s, q)
  {
    forall k | k in Kids(f, q) ensures k !in s.mayInit && k !in s.mustInit {
      KidFacts(f, q, k);
      WithinTrans(f, p, q, k);
      assert k in Subtree(f, p);
    }
  }

  lemma SelectedItself(f: Forest, st: State, s: State, p: nat)
    requires p < |f| && Bare(f, st, p) && Reach(f, s, p) && DowncastsActive(f, s, p)
    requires LocalOf(f, p) in s.mustLive && LocalOf(f, p) in s.mayLive && Disc(s, p).possible != {}
    requires s.mayInit == st.mayInit && s.mustInit == st.mustInit
    ensures LocallyTight(f, s, p)
  {
    assert p in Subtree(f, p);
    forall k | k in Kids(f, p) ensures k !in s.mayInit && k !in s.mustInit {
      KidFacts(f, p, k);
      assert k in Subtree(f, p);
    }
  }

  lemma SelectSaturated(f: Forest, st: State, s: State, p: nat, m: nat)
    requires Tight(f, st) && p < |f| && m < |f| && Bare(f, st, p)
    requires s.mayInit == st.mayInit && s.mustInit == st.mustInit
    requires forall a | a != p :: Disc(s, a) == Disc(st, a)
    ensures Saturated(f, s, m)
  {
    if m in s.mustInit {
      assert TightAt(f, st, m);
      forall q | q in Subtree(f, m) && Reach(f, s, q) ensures q in s.mayInit {
        WithinRange(f, m, q);
        if p in Ancestors(f, q) {
          WithinChain(f, m, p, q);
        }
        ReachFrame(f, s, st, q);
      }
    }
  }

  /* ----- marking ----- */

  /** Below `p`, the marks are reachability and certainty in the state they lead to. */
  lemma {:induction false} MarkIsReach(f: Forest, st: State, p: nat, q: nat)
    requires q in Subtree(f, p) && st.discriminants.Keys == EnumRoots(f)
    requires Reach(f, MarkWhole(f, st, p, Must), p) && DowncastsActive(f, MarkWhole(f, st, p, Must), p)
    ensures var s, mark := MarkWhole(f, st, p, Must), MarkOf(f, st, p, Must, q);
            && (mark.Marked? <==> Reach(f, s, q)) && (mark == Marked(Must) <==> DowncastsActive(f, s, q))
    decreases Depth(f, q)
  {
    if q != p {
      ParentFacts(f, q);
      var a := Parent(f, q).value;
      MarkIsReach(f, st, p, a);
      MarkedDisc(f, st, p, a);
      if IsDowncast(f, q) { KidsAgree(f, a, q); }
    }
  }

  /** The discriminants that marking leaves. */
  lemma MarkedDisc(f: Forest, st: State, p: nat, q: nat)
    requires q < |f| && st.discriminants.Keys == EnumRoots(f)
    ensures var s := MarkWhole(f, st, p, Must);
            && (q !in Subtree(f, p) ==> Disc(s, q) == Disc(st, q))
            && (q in Subtree(f, p) && IsEnum(f, q) ==>
                  Disc(s, q) == MarkDiscriminant(f, Disc(st, q), q, MarkOf(f, st, p, Must, q)))
            && (!IsEnum(f, q) ==> Disc(s, q) == UNSELECTED)
  {
    hide MarkOf; hide IsEnum; hide MarkDiscriminant;
    assert q in EnumRoots(f) <==> IsEnum(f, q);
  }

  lemma MarkedSets(f: Forest, st: State, p: nat, q: nat)
    ensures var s := MarkWhole(f, st, p, Must);
            && (q in Subtree(f, p) ==> (q in s.mayInit <==> MarkOf(f, st, p, Must, q).Marked?))
            && (q in Subtree(f, p) ==> (q in s.mustInit <==> MarkOf(f, st, p, Must, q) == Marked(Must)))
            && (q !in Subtree(f, p) ==>
                  (q in s.mayInit <==> q in st.mayInit) && (q in s.mustInit <==> q in st.mustInit))
            && s.mayLive == st.mayLive && s.mustLive == st.mustLive
  {
    hide MarkOf;
  }

  /** A state in which everything in reach from `p` may be complete, and is if certainly reached. */
  ghost predicate WrittenWhole(f: Forest, st: State, p: nat) {
    forall q | q in Subtree(f, p) :: WholeAt(f, st, q)
  }

  /** Where the marks are reachability and certainty, so are the sets. */
  ghost predicate WholeAt(f: Forest, st: State, q: nat) {
    && (q in st.mayInit <==> Reach(f, st, q)) && (q in st.mustInit <==> DowncastsActive(f, st, q))
    && (IsEnum(f, q) ==>
          && (!Disc(st, q).mayBeUnset <==> DowncastsActive(f, st, q))
          && (Disc(st, q).possible != {} <==> Reach(f, st, q))
          && Disc(st, q).possible <= Variants(f, q))
    && (!IsEnum(f, q) ==> Disc(st, q) == UNSELECTED)
  }

  lemma MarkedWholeAt(f: Forest, st: State, p: nat, q: nat)
    requires q in Subtree(f, p) && st.discriminants.Keys == EnumRoots(f)
    requires Reach(f, MarkWhole(f, st, p, Must), p) && DowncastsActive(f, MarkWhole(f, st, p, Must), p)
    requires DiscFits(st, q) && Disc(st, q).possible <= Variants(f, q)
    ensures WholeAt(f, MarkWhole(f, st, p, Must), q)
  {
    assert q < |f|;
    hide MarkOf; hide Reach; hide DowncastsActive; hide MarkWhole; hide IsEnum; hide Variants; hide EnumRoots;
    hide Subtree; hide MarkDiscriminant; hide Disc;
    MarkIsReach(f, st, p, q);
    MarkedSets(f, st, p, q);
    MarkedDisc(f, st, p, q);
    if IsEnum(f, q) {
      HasVariant(f, q);
      MarkedVariants(f, Disc(st, q), q, MarkOf(f, st, p, Must, q));
    }
  }

  lemma MarkedVariants(f: Forest, d: Discriminant, r: nat, mark: Mark)
    requires Variants(f, r) != {} && (!d.mayBeUnset ==> d.possible != {}) && d.possible <= Variants(f, r)
    ensures var e := MarkDiscriminant(f, d, r, mark);
            && (!e.mayBeUnset <==> mark == Marked(Must)) && (e.possible != {} <==> mark.Marked?)
            && e.possible <= Variants(f, r)
  {
    hide Variants;
  }

  /** `p` has been marked, in a state whose discriminants within `p` make sense. */
  lemma MarkedIsWhole(f: Forest, st: State, p: nat)
    requires p < |f| && st.discriminants.Keys == EnumRoots(f) && DowncastsActive(f, st, p)
    requires forall q | q in Subtree(f, p) :: DiscFits(st, q) && Disc(st, q).possible <= Variants(f, q)
    ensures WrittenWhole(f, MarkWhole(f, st, p, Must), p)
  {
    var s := MarkWhole(f, st, p, Must);
    forall a | a in Ancestors(f, p) ensures Disc(s, a) == Disc(st, a) {
      OwnAncestorsOutside(f, p, a);
      MarkedDisc(f, st, p, a);
    }
    DowncastsFrame(f, s, st, p);
    ActiveIsReached(f, s, p);
    hide MarkWhole; hide Reach; hide DowncastsActive; hide IsEnum; hide WholeAt; hide EnumRoots;
    forall q | q in Subtree(f, p) ensures WholeAt(f, s, q) { MarkedWholeAt(f, st, p, q); }
  }

  lemma HasVariant(f: Forest, r: nat)
    requires IsEnum(f, r)
    ensures Variants(f, r) != {}
  {
    var k :| k in Kids(f, r) && IsDowncast(f, k);
    assert Variant(f, k) in Variants(f, r);
  }

  /** The child that a possible variant selects. */
  lemma VariantKid(f: Forest, r: nat, v: nat) returns (k: nat)
    requires v in Variants(f, r)
    ensures k in Kids(f, r) && IsDowncast(f, k) && Variant(f, k) == v
  {
    k :| k in Kids(f, r) && IsDowncast(f, k) && Variant(f, k) == v;
  }

  /** A step down in what has been written as a whole. */
  lemma WrittenKid(f: Forest, s: State, p: nat, q: nat, k: nat)
    requires WrittenWhole(f, s, p) && q in Subtree(f, p) && k in Kids(f, q) && p < |f|
    ensures k in Subtree(f, p) && (IsDowncast(f, k) <==> IsEnum(f, q))
    ensures Reach(f, s, k) <==> Reach(f, s, q) && (IsEnum(f, q) ==> Variant(f, k) in Disc(s, q).possible)
    ensures DowncastsActive(f, s, k)
            <==> DowncastsActive(f, s, q) && (IsEnum(f, q) ==> IsKnown(s, q, Variant(f, k)))
  {
    KidFacts(f, q, k);
    KidsAgree(f, q, k);
    WithinTrans(f, p, q, k);
  }

  lemma WholeIsTight(f: Forest, s: State, p: nat, q: nat)
    requires WrittenWhole(f, s, p) && q in Subtree(f, p) && p < |f|
    requires LocalOf(f, p) in s.mayLive && LocalOf(f, p) in s.mustLive
    ensures LocallyTight(f, s, q)
  {
    WithinRange(f, p, q);
    if DowncastsActive(f, s, q) { ActiveIsReached(f, s, q); }
    forall k | k in Kids(f, q)
      ensures k in Subtree(f, p) && (IsDowncast(f, k) <==> IsEnum(f, q))
      ensures Reach(f, s, k) <==> Reach(f, s, q) && (IsEnum(f, q) ==> Variant(f, k) in Disc(s, q).possible)
      ensures DowncastsActive(f, s, k)
              <==> DowncastsActive(f, s, q) && (IsEnum(f, q) ==> IsKnown(s, q, Variant(f, k)))
    {
      WrittenKid(f, s, p, q, k);
    }
    if q in s.mayInit && IsEnum(f, q) {
      var v :| v in Disc(s, q).possible;
      var k := VariantKid(f, q, v);
      assert k in s.mayInit;
    }
    if !IsEnum(f, q) && !IsLeaf(f, q) {
      var k :| k in Kids(f, q);
    }
  }

  /* ----- recomputing ancestors ----- */

  /** What an ancestor of `p` is recomputed from, once `k` on the way is known to be selected. */
  ghost predicate Recomposed(f: Forest, s: State, a: nat, k: nat) {
    if IsEnum(f, a) then (a in s.mustInit <==> k in s.mustInit) && (a in s.mayInit <==> k in s.mayInit)
    else (a in s.mustInit <==> Kids(f, a) <= s.mustInit) && (a in s.mayInit <==> Kids(f, a) <= s.mayInit)
  }

  lemma RecomposedNode(f: Forest, st: State, p: nat)
    requires Parent(f, p).Some? && DowncastsActive(f, st, p) && st.mustInit <= st.mayInit
    ensures var a := Parent(f, p).value;
            var s := RecomposeNode(f, st, a);
            && s.mustInit <= s.mayInit && s.discriminants == st.discriminants
            && (forall q | q != a :: (q in s.mayInit <==> q in st.mayInit) && (q in s.mustInit <==> q in st.mustInit))
            && Recomposed(f, s, a, p)
  {
    ParentFacts(f, p);
    var a := Parent(f, p).value;
    KidsAgree(f, a, p);
    assert a !in Kids(f, a) by { if a in Kids(f, a) { KidFacts(f, a, a); } }
    if IsEnum(f, a) {
      var active := set k | k in Kids(f, a) && Disc(st, a) == Discriminant(false, {Variant(f, k)});
      forall k | k in active ensures k == p {
        assert Variant(f, k) in Disc(st, a).possible;
        VariantInjective(f, a, k, p);
      }
      assert active == {p};
    }
  }

  lemma {:induction false} RecomposeMeaning(f: Forest, st: State, p: nat)
    requires p < |f| && DowncastsActive(f, st, p) && st.mustInit <= st.mayInit
    ensures var s := Recompose(f, st, p);
            && s.mustInit <= s.mayInit
            && forall a, k | a in Ancestors(f, p) && k in Kids(f, a) && Within(f, k, p) :: Recomposed(f, s, a, k)
    decreases Depth(f, p)
  {
    if Parent(f, p).None? {
      forall a | a in Ancestors(f, p) ensures false {}
      return;
    }
    ParentFacts(f, p);
    AncestorStep(f, p);
    var a0 := Parent(f, p).value;
    var s0 := RecomposeNode(f, st, a0);
    RecomposedNode(f, st, p);
    DowncastsFrame(f, st, s0, a0);
    RecomposeMeaning(f, s0, a0);
    RecomposeFrame(f, s0, a0);
    var s := Recompose(f, s0, a0);
    forall a, k | a in Ancestors(f, p) && k in Kids(f, a) && Within(f, k, p) ensures Recomposed(f, s, a, k) {
      KidFacts(f, a, k);
      if a == a0 {
        if k != p { KidsDisjoint(f, a, k, p, p); }
        forall x | x == a0 || x in Kids(f, a0) ensures x !in Ancestors(f, a0) && x < |f| {
          if x in Kids(f, a0) { KidFacts(f, a0, x); }
          if x in Ancestors(f, a0) { WithinRange(f, x, a0); }
        }
      } else {
        WithinUpward(f, a, k, p);
      }
    }
  }

  lemma WithinUpward(f: Forest, a: nat, k: nat, p: nat)
    requires Parent(f, p).Some? && k in Kids(f, a) && Within(f, k, p) && a != Parent(f, p).value
    ensures Within(f, k, Parent(f, p).value)
  {
    KidFacts(f, a, k);
  }

  /* ----- initializing ----- */

  /** Nothing outside of `p` and of what encloses it is touched. */
  lemma InitFacts(f: Forest, st: State, p: nat, q: nat)
    requires p < |f| && q < |f|
    ensures var s, t := MarkWhole(f, st, p, Must), InitializePath(f, st, p);
            && Disc(t, q) == Disc(s, q) && t.mayLive == st.mayLive && t.mustLive == st.mustLive
            && (q !in Ancestors(f, p) ==>
                  (q in t.mayInit <==> q in s.mayInit) && (q in t.mustInit <==> q in s.mustInit))
            && (q !in Subtree(f, p) ==> Disc(t, q) == Disc(st, q))
            && (q !in Subtree(f, p) && q !in Ancestors(f, p) ==>
                  (q in t.mayInit <==> q in st.mayInit) && (q in t.mustInit <==> q in st.mustInit))
  {
    RecomposeFrame(f, MarkWhole(f, st, p, Must), p);
    MarkedSets(f, st, p, q);
    hide MarkOf;
  }

  /** All that an initialization leaves, in one place. */
  lemma InitMeaning(f: Forest, st: State, p: nat)
    requires p < |f| && st.discriminants.Keys == EnumRoots(f) && DowncastsActive(f, st, p)
    requires st.mustInit <= st.mayInit
    requires forall q | q in Subtree(f, p) :: DiscFits(st, q) && Disc(st, q).possible <= Variants(f, q)
    ensures var t := InitializePath(f, st, p);
            && WrittenWhole(f, t, p) && DowncastsActive(f, t, p) && t.mustInit <= t.mayInit
            && forall a, k | a in Ancestors(f, p) && k in Kids(f, a) && Within(f, k, p) :: Recomposed(f, t, a, k)
  {
    var s, t := MarkWhole(f, st, p, Must), InitializePath(f, st, p);
    MarkedIsWhole(f, st, p);
    forall a | a in Ancestors(f, p) ensures Disc(s, a) == Disc(st, a) {
      OwnAncestorsOutside(f, p, a);
      MarkedDisc(f, st, p, a);
    }
    DowncastsFrame(f, s, st, p);
    MarkKeepsMay(f, st, p);
    RecomposeMeaning(f, s, p);
    RecomposeFrame(f, s, p);
    DowncastsFrame(f, s, t, p);
    forall q | q in Subtree(f, p)
      ensures (q in t.mayInit <==> q in s.mayInit) && (q in t.mustInit <==> q in s.mustInit) && Disc(t, q) == Disc(s, q)
      ensures (Reach(f, t, q) <==> Reach(f, s, q)) && (DowncastsActive(f, t, q) <==> DowncastsActive(f, s, q))
    {
      if q in Ancestors(f, p) { WithinAntisymmetric(f, p, q); }
      ReachFrame(f, t, s, q);
      DowncastsFrame(f, t, s, q);
    }
  }

  lemma MarkKeepsMay(f: Forest, st: State, p: nat)
    requires st.mustInit <= st.mayInit
    ensures var s := MarkWhole(f, st, p, Must); s.mustInit <= s.mayInit
  {
    hide MarkOf;
  }

  /** What an operation on `p` may find: discriminants within bounds, certainty within possibility. */
  ghost predicate Shaped(f: Forest, st: State) {
    && st.discriminants.Keys == EnumRoots(f) && st.mustInit <= st.mayInit && st.mustLive <= st.mayLive
    && forall q :: Disc(st, q).possible <= Variants(f, q)
  }

  lemma ProperIsShaped(f: Forest, n: nat, st: State)
    requires Proper(f, n, st)
    ensures Shaped(f, st)
  {
  }

  lemma TightDiscs(f: Forest, st: State, p: nat)
    requires Tight(f, st)
    ensures forall q | q in Subtree(f, p) :: DiscFits(st, q)
  {
    forall q | q in Subtree(f, p) ensures DiscFits(st, q) { assert TightAt(f, st, q); }
  }

  lemma InitAround(f: Forest, st: State, p: nat, a: nat)
    requires Tight(f, st) && Shaped(f, st) && p < |f| && a in Ancestors(f, p) && PathReady(f, st, p)
    ensures LocallyTight(f, InitializePath(f, st, p), a)
  {
    var t := InitializePath(f, st, p);
    TightDiscs(f, st, p);
    InitMeaning(f, st, p);
    var k := TowardFacts(f, a, p);
    KidFacts(f, a, k);
    KidsAgree(f, a, k);
    WithinRange(f, a, p);
    OwnAncestorsOutside(f, p, a);
    InitFacts(f, st, p, a);
    assert TightAt(f, st, a);
    assert Recomposed(f, t, a, k);
    ReachUpward(f, t, a, p);
    ActiveIsReached(f, t, a);
    StepInReach(f, t, a, k, p);
    forall j | j in Kids(f, a) && j != k && IsEnum(f, a) ensures j !in t.mayInit && Variant(f, j) != Variant(f, k) {
      KidFacts(f, a, j);
      KidsAgree(f, a, j);
      if Variant(f, j) == Variant(f, k) { VariantInjective(f, a, j, k); }
      InitFacts(f, st, p, j);
      assert TightAt(f, st, j);
    }
  }

  lemma InitElsewhere(f: Forest, st: State, p: nat, q: nat)
    requires p < |f| && q < |f| && q !in Subtree(f, p) && q !in Ancestors(f, p) && LocallyTight(f, st, q)
    ensures LocallyTight(f, InitializePath(f, st, p), q)
  {
    OffTheWay(f, p, q);
    InitFacts(f, st, p, q);
    var t := InitializePath(f, st, p);
    forall k | k in Kids(f, q)
      ensures (k in st.mayInit <==> k in t.mayInit) && (k in st.mustInit <==> k in t.mustInit)
    {
      KidFacts(f, q, k);
      InitFacts(f, st, p, k);
    }
    forall a | a in Ancestors(f, q) ensures Disc(st, a) == Disc(t, a) { InitFacts(f, st, p, a); }
    hide InitializePath;
    SurroundingsDecide(f, st, t, q);
  }

  lemma {:induction false} InitSaturated(f: Forest, st: State, p: nat, m: nat, q: nat)
    requires Tight(f, st) && Shaped(f, st) && p < |f| && m < |f| && PathReady(f, st, p)
    requires var t := InitializePath(f, st, p);
             m in t.mustInit && q in Subtree(f, m) && Reach(f, t, q)
    ensures q in InitializePath(f, st, p).mayInit
    decreases Height(f, m)
  {
    var t := InitializePath(f, st, p);
    TightDiscs(f, st, p);
    InitMeaning(f, st, p);
    WithinRange(f, m, q);
    if m in Subtree(f, p) {
      WithinTrans(f, p, m, q);
    } else if m in Ancestors(f, p) {
      if q != m {
        var k := TowardFacts(f, m, p);
        var j := Toward(f, m, q);
        KidFacts(f, m, k);
        KidFacts(f, m, j);
        KidsAgree(f, m, k);
        KidsAgree(f, m, j);
        StepInReach(f, t, m, k, p);
        StepInReach(f, t, m, j, q);
        assert Recomposed(f, t, m, k);
        if IsEnum(f, m) { VariantInjective(f, m, j, k); }
        InitSaturated(f, st, p, j, q);
      }
    } else {
      if q in Subtree(f, p) { WithinChain(f, m, p, q); }
      if q in Ancestors(f, p) { WithinTrans(f, m, q, p); }
      OffTheWay(f, p, q);
      InitFacts(f, st, p, m);
      InitFacts(f, st, p, q);
      forall a | a in Ancestors(f, q) ensures Disc(st, a) == Disc(t, a) { InitFacts(f, st, p, a); }
      ReachFrame(f, st, t, q);
      assert TightAt(f, st, m);
    }
  }

  lemma InitKeeps(f: Forest, st: State, p: nat)
    requires Tight(f, st) && Shaped(f, st) && p < |f| && PathReady(f, st, p)
    ensures Tight(f, InitializePath(f, st, p))
  {
    var t := InitializePath(f, st, p);
    TightDiscs(f, st, p);
    InitMeaning(f, st, p);
    InitFacts(f, st, p, p);
    hide InitializePath; hide DowncastsActive; hide Reach;
    forall q | 0 <= q < |f| ensures TightAt(f, t, q) {
      if q in Subtree(f, p) {
        WholeIsTight(f, t, p, q);
      } else if q in Ancestors(f, p) {
        InitAround(f, st, p, q);
      } else {
        assert TightAt(f, st, q);
        InitElsewhere(f, st, p, q);
      }
      if q in t.mustInit {
        forall x | x in Subtree(f, q) && Reach(f, t, x) ensures x in t.mayInit { InitSaturated(f, st, p, q, x); }
      }
    }
  }

  /* ----- moving out, overwriting, transferring ----- */

  lemma ClearShaped(f: Forest, st: State, p: nat)
    requires Shaped(f, st)
    ensures Shaped(f, ClearPath(f, st, p))
  {
  }

  /** Clearing elsewhere leaves what is above `d` alone. */
  lemma ClearKeepsReady(f: Forest, st: State, p: nat, d: nat)
    requires p < |f| && d < |f| && (d == p || !Within(f, p, d)) && PathReady(f, st, d)
    ensures PathReady(f, ClearPath(f, st, p), d)
  {
    forall a | a in Ancestors(f, d) ensures Disc(ClearPath(f, st, p), a) == Disc(st, a) {
      if d == p { OwnAncestorsOutside(f, p, a); } else { AncestorsOutside(f, p, d, a); }
      ClearFacts(f, st, p, a);
    }
    DowncastsFrame(f, st, ClearPath(f, st, p), d);
  }

  lemma OverwriteKeeps(f: Forest, st: State, p: nat)
    requires Tight(f, st) && Shaped(f, st) && p < |f| && PathReady(f, st, p)
    ensures Tight(f, InitializePath(f, ClearPath(f, st, p), p))
  {
    ClearKeeps(f, st, p);
    ClearShaped(f, st, p);
    ClearKeepsReady(f, st, p, p);
    InitKeeps(f, ClearPath(f, st, p), p);
  }

  /** The destination of a transfer, before it is filled. */
  ghost function Handed(f: Forest, st: State, s: nat, d: nat): State {
    MoveDiscriminant(ClearPath(f, ClearPath(f, st, s), d), Disc(st, s), s, d)
  }

  lemma HandedKeeps(f: Forest, st: State, s: nat, d: nat)
    requires Tight(f, st) && Shaped(f, st) && s < |f| && d < |f| && s in st.mustInit
    requires PathReady(f, st, s) && PathReady(f, st, d) && !Within(f, s, d) && ShapesMatch(f, s, d)
    ensures Tight(f, Handed(f, st, s, d)) && Shaped(f, Handed(f, st, s, d)) && PathReady(f, Handed(f, st, s, d), d)
  {
    TransferClearKeeps(f, st, s, d);
    assert TightAt(f, st, s);
    var s2 := ClearPath(f, ClearPath(f, st, s), d);
    hide Tight; hide ClearPath; hide PathReady; hide Shaped;
    if IsEnum(f, s) && IsEnum(f, d) {
      forall v | v in Disc(st, s).possible ensures v in Variants(f, d) {
        ShapedVariants(f, st, s);
        MatchingVariants(f, s, d, v);
      }
      HandOver(f, s2, d, Disc(st, s));
    }
    HandedForm(f, st, s, d);
  }

  lemma ShapedVariants(f: Forest, st: State, q: nat)
    requires Shaped(f, st)
    ensures Disc(st, q).possible <= Variants(f, q)
  {
  }

  lemma HandedForm(f: Forest, st: State, s: nat, d: nat)
    requires Shaped(f, st) && s < |f| && d < |f|
    ensures var s2 := ClearPath(f, ClearPath(f, st, s), d);
            Handed(f, st, s, d) == if IsEnum(f, s) && IsEnum(f, d)
                                   then s2.(discriminants := s2.discriminants[d := Disc(st, s)]) else s2
  {
    ClearShaped(f, st, s);
    ClearShaped(f, ClearPath(f, st, s), d);
    assert s in EnumRoots(f) <==> IsEnum(f, s);
    assert d in EnumRoots(f) <==> IsEnum(f, d);
    hide ClearPath; hide IsEnum;
  }

  lemma TransferClearKeeps(f: Forest, st: State, s: nat, d: nat)
    requires Tight(f, st) && Shaped(f, st) && s < |f| && d < |f|
    requires PathReady(f, st, s) && PathReady(f, st, d) && !Within(f, s, d)
    ensures var s2 := ClearPath(f, ClearPath(f, st, s), d);
            Tight(f, s2) && Shaped(f, s2) && PathReady(f, s2, d) && Bare(f, s2, d)
  {
    var s1 := ClearPath(f, st, s);
    ClearKeeps(f, st, s);
    ClearShaped(f, st, s);
    ClearKeepsReady(f, st, s, d);
    hide ClearPath;
    ClearKeeps(f, s1, d);
    ClearShaped(f, s1, d);
    ClearKeepsReady(f, s1, d, d);
    ClearedIsBare(f, s1, d);
  }

  lemma HandOver(f: Forest, st: State, d: nat, disc: Discriminant)
    requires Tight(f, st) && Shaped(f, st) && d < |f| && PathReady(f, st, d) && Bare(f, st, d) && IsEnum(f, d)
    requires !disc.mayBeUnset && disc.possible != {} && disc.possible <= Variants(f, d)
    ensures var t := st.(discriminants := st.discriminants[d := disc]);
            Tight(f, t) && Shaped(f, t) && PathReady(f, t, d)
  {
    var t := st.(discriminants := st.discriminants[d := disc]);
    SelectKeeps(f, st, d, disc);
    forall a | a in Ancestors(f, d) ensures Disc(t, a) == Disc(st, a) {
      OwnAncestorsOutside(f, d, a);
      assert d in Subtree(f, d);
    }
    DowncastsFrame(f, st, t, d);
    hide Tight;
    assert d in EnumRoots(f);
    forall q ensures Disc(t, q).possible <= Variants(f, q) {
      ShapedVariants(f, st, q);
    }
  }

  /* ----- learning a variant ----- */

  ghost function Ruled(f: Forest, st: State, r: nat, v: nat): State {
    ClearPaths(SetKnown(st, r, v), OtherVariants(f, r, v))
  }

  /** Where a path within an enum lies: in the chosen payload, or in another. */
  lemma WhichPayload(f: Forest, r: nat, v: nat, k: nat, q: nat)
    requires r < |f| && k in Kids(f, r) && IsDowncast(f, k) && Variant(f, k) == v && q in Subtree(f, r) && q != r
    ensures q in Subtree(f, k) || q in OtherVariants(f, r, v)
  {
    var j := Toward(f, r, q);
    KidsAgree(f, r, j);
    KidsAgree(f, r, k);
    if Variant(f, j) == v { VariantInjective(f, r, j, k); } else { InOther(f, r, v, j, q); }
  }

  lemma InOther(f: Forest, r: nat, v: nat, j: nat, q: nat)
    requires j in Kids(f, r) && IsDowncast(f, j) && Variant(f, j) != v && q in Subtree(f, j)
    ensures q in OtherVariants(f, r, v)
  {
    assert j in Kids(f, r) && IsDowncast(f, j) && Variant(f, j) != v && q in Subtree(f, j);
  }

  lemma PayloadsApart(f: Forest, r: nat, v: nat, k: nat, q: nat)
    requires k in Kids(f, r) && IsDowncast(f, k) && Variant(f, k) == v && q in OtherVariants(f, r, v)
    ensures q < |f| && q != r && q in Subtree(f, r) && q !in Subtree(f, k)
    ensures forall j | j in Kids(f, q) :: j in OtherVariants(f, r, v)
    ensures exists j :: j in Kids(f, r) && IsDowncast(f, j) && Variant(f, j) != v && Within(f, j, q)
  {
    var j :| j in Kids(f, r) && IsDowncast(f, j) && Variant(f, j) != v && q in Subtree(f, j);
    KidFacts(f, r, j);
    KidFacts(f, r, k);
    WithinRange(f, j, q);
    WithinTrans(f, r, j, q);
    if q in Subtree(f, k) { KidsDisjoint(f, r, k, j, q); }
    forall x | x in Kids(f, q) ensures x in OtherVariants(f, r, v) {
      KidFacts(f, q, x);
      WithinTrans(f, j, q, x);
      InOther(f, r, v, j, x);
    }
  }

  lemma RuledFacts(f: Forest, st: State, r: nat, v: nat, k: nat, q: nat)
    requires Shaped(f, st) && k in Kids(f, r) && IsDowncast(f, k) && Variant(f, k) == v && q < |f|
    ensures var s := Ruled(f, st, r, v);
            && (q in OtherVariants(f, r, v) ==> q !in s.mayInit && q !in s.mustInit && Disc(s, q) == UNSELECTED)
            && (q !in OtherVariants(f, r, v) ==>
                  (q in s.mayInit <==> q in st.mayInit) && (q in s.mustInit <==> q in st.mustInit))
            && (q !in OtherVariants(f, r, v) && q != r ==> Disc(s, q) == Disc(st, q))
            && Disc(s, r) == Discriminant(false, {v})
            && s.mayLive == st.mayLive && s.mustLive == st.mustLive
  {
    KidFacts(f, r, k);
    assert r in EnumRoots(f);
    if r in OtherVariants(f, r, v) { PayloadsApart(f, r, v, k, r); }
    hide OtherVariants;
  }

  lemma AssumeForm(f: Forest, st: State, r: nat, v: nat, k: nat)
    requires k in Kids(f, r) && IsDowncast(f, k) && Variant(f, k) == v
    ensures AssumeVariant(f, st, r, v) == MarkWhole(f, Ruled(f, st, r, v), k, Must)
  {
    OneVariantKid(f, r, v, k);
    hide MarkWhole; hide OtherVariants;
  }

  lemma RuledShaped(f: Forest, st: State, r: nat, v: nat)
    requires Shaped(f, st) && v in Variants(f, r)
    ensures Shaped(f, Ruled(f, st, r, v))
  {
    hide OtherVariants; hide Kids;
  }

  /** The chosen payload is written whole, the others are empty, everything else is as before. */
  lemma AssumeMeaning(f: Forest, st: State, r: nat, v: nat, k: nat)
    requires Tight(f, st) && Shaped(f, st) && r < |f| && r in st.mustInit
    requires k in Kids(f, r) && IsDowncast(f, k) && Variant(f, k) == v
    ensures var t := AssumeVariant(f, st, r, v);
            && k < |f| && WrittenWhole(f, t, k) && Disc(t, r) == Discriminant(false, {v})
            && DowncastsActive(f, t, k) && LocalOf(f, k) in t.mustLive && t.mustLive == st.mustLive
            && t.mayLive == st.mayLive
  {
    var s := Ruled(f, st, r, v);
    AssumeForm(f, st, r, v, k);
    KidFacts(f, r, k);
    RuledShaped(f, st, r, v);
    assert TightAt(f, st, r);
    RuledFacts(f, st, r, v, k, r);
    forall a | a in Ancestors(f, r) ensures Disc(s, a) == Disc(st, a) {
      if a in OtherVariants(f, r, v) { PayloadsApart(f, r, v, k, a); WithinAntisymmetric(f, a, r); }
      RuledFacts(f, st, r, v, k, a);
    }
    DowncastsFrame(f, s, st, r);
    assert DowncastsActive(f, s, k);
    forall q | q in Subtree(f, k) ensures DiscFits(s, q) && Disc(s, q).possible <= Variants(f, q) {
      if q in OtherVariants(f, r, v) { PayloadsApart(f, r, v, k, q); }
      if q == r { WithinAntisymmetric(f, r, k); }
      RuledFacts(f, st, r, v, k, q);
      assert TightAt(f, st, q);
    }
    MarkedIsWhole(f, s, k);
    forall a | a in Ancestors(f, k) ensures Disc(MarkWhole(f, s, k, Must), a) == Disc(s, a) {
      OwnAncestorsOutside(f, k, a);
      MarkedDisc(f, s, k, a);
    }
    DowncastsFrame(f, MarkWhole(f, s, k, Must), s, k);
    MarkedSets(f, s, k, r);
    assert r in Ancestors(f, k);
  }

  /** What learning a variant does outside of the chosen payload. */
  lemma AssumeElsewhere(f: Forest, st: State, r: nat, v: nat, k: nat, q: nat)
    requires Shaped(f, st) && r < |f| && k in Kids(f, r) && IsDowncast(f, k) && Variant(f, k) == v
    requires q < |f| && q !in Subtree(f, k)
    ensures var t := AssumeVariant(f, st, r, v);
            if q in OtherVariants(f, r, v) then q !in t.mayInit && q !in t.mustInit && Disc(t, q) == UNSELECTED
            else && (q in t.mayInit <==> q in st.mayInit) && (q in t.mustInit <==> q in st.mustInit)
                 && (q != r ==> Disc(t, q) == Disc(st, q))
  {
    AssumeForm(f, st, r, v, k);
    RuledFacts(f, st, r, v, k, q);
    RuledShaped(f, st, r, v);
    MarkedSets(f, Ruled(f, st, r, v), k, q);
    MarkedDisc(f, Ruled(f, st, r, v), k, q);
    hide OtherVariants; hide MarkWhole; hide AssumeVariant;
  }

  lemma AssumeLocally(f: Forest, st: State, r: nat, v: nat, k: nat, q: nat)
    requires Tight(f, st) && Shaped(f, st) && r < |f| && r in st.mustInit && q < |f|
    requires k in Kids(f, r) && IsDowncast(f, k) && Variant(f, k) == v
    ensures LocallyTight(f, AssumeVariant(f, st, r, v), q)
  {
    var t := AssumeVariant(f, st, r, v);
    AssumeMeaning(f, st, r, v, k);
    KidFacts(f, r, k);
    if q in Subtree(f, k) {
      AssumeMay(f, st, r, v, k);
      WholeIsTight(f, t, k, q);
    } else if q in OtherVariants(f, r, v) {
      PayloadsApart(f, r, v, k, q);
      AssumeElsewhere(f, st, r, v, k, q);
      forall j | j in Kids(f, q) ensures j !in t.mayInit && j !in t.mustInit {
        KidFacts(f, q, j);
        PayloadsApart(f, r, v, k, j);
        AssumeElsewhere(f, st, r, v, k, j);
      }
    } else if q == r {
      AssumedRoot(f, st, r, v, k);
    } else {
      AssumedApart(f, st, r, v, k, q);
    }
  }

  lemma AssumeMay(f: Forest, st: State, r: nat, v: nat, k: nat)
    requires Tight(f, st) && Shaped(f, st) && r < |f| && r in st.mustInit
    requires k in Kids(f, r) && IsDowncast(f, k) && Variant(f, k) == v
    ensures LocalOf(f, k) in AssumeVariant(f, st, r, v).mayLive
  {
    AssumeMeaning(f, st, r, v, k);
  }

  lemma AssumedRoot(f: Forest, st: State, r: nat, v: nat, k: nat)
    requires Tight(f, st) && Shaped(f, st) && r < |f| && r in st.mustInit
    requires k in Kids(f, r) && IsDowncast(f, k) && Variant(f, k) == v
    ensures LocallyTight(f, AssumeVariant(f, st, r, v), r)
  {
    var t := AssumeVariant(f, st, r, v);
    AssumeMeaning(f, st, r, v, k);
    KidFacts(f, r, k);
    KidsAgree(f, r, k);
    if r in Subtree(f, k) { WithinAntisymmetric(f, r, k); }
    if r in OtherVariants(f, r, v) { PayloadsApart(f, r, v, k, r); }
    AssumeElsewhere(f, st, r, v, k, r);
    ActiveIsReached(f, t, k);
    assert k in Subtree(f, k) && k in t.mustInit && k in t.mayInit;
    forall j | j in Kids(f, r) && IsKnown(t, r, Variant(f, j)) ensures j == k {
      assert Variant(f, j) in Disc(t, r).possible;
      VariantInjective(f, r, j, k);
    }
    assert TightAt(f, st, r);
  }

  lemma AssumedApart(f: Forest, st: State, r: nat, v: nat, k: nat, q: nat)
    requires Tight(f, st) && Shaped(f, st) && r < |f| && r in st.mustInit && q < |f| && q != r
    requires k in Kids(f, r) && IsDowncast(f, k) && Variant(f, k) == v
    requires q !in Subtree(f, k) && q !in OtherVariants(f, r, v)
    ensures q !in Subtree(f, r) && LocallyTight(f, AssumeVariant(f, st, r, v), q)
  {
    var t := AssumeVariant(f, st, r, v);
    KidFacts(f, r, k);
    if q in Subtree(f, r) { WhichPayload(f, r, v, k, q); }
    AssumeMeaning(f, st, r, v, k);
    forall x | x == q || x in Kids(f, q)
      ensures (x in st.mayInit <==> x in t.mayInit) && (x in st.mustInit <==> x in t.mustInit)
    {
      if x in Kids(f, q) { KidFacts(f, q, x); }
      NotWithin(f, r, q, x);
      if x in Subtree(f, k) { WithinTrans(f, r, k, x); }
      if x in OtherVariants(f, r, v) { PayloadsApart(f, r, v, k, x); }
      AssumeElsewhere(f, st, r, v, k, x);
    }
    forall a | a == q || a in Ancestors(f, q) ensures Disc(st, a) == Disc(t, a) {
      if a in Subtree(f, r) { WithinTrans(f, r, a, q); }
      if a in Subtree(f, k) { WithinTrans(f, r, k, a); }
      if a in OtherVariants(f, r, v) { PayloadsApart(f, r, v, k, a); }
      AssumeElsewhere(f, st, r, v, k, a);
    }
    assert TightAt(f, st, q);
    SurroundingsDecide(f, st, t, q);
  }

  /** A child of what is not within `r` is `r` or not within it. */
  lemma NotWithin(f: Forest, r: nat, q: nat, x: nat)
    requires q < |f| && q !in Subtree(f, r) && (x == q || x in Kids(f, q))
    ensures x == r || x !in Subtree(f, r)
  {
    if x in Kids(f, q) { KidFacts(f, q, x); }
  }

  /** In reach within the enum means within the chosen payload. */
  lemma ReachedPayload(f: Forest, t: State, r: nat, v: nat, k: nat, q: nat)
    requires r < |f| && k in Kids(f, r) && IsDowncast(f, k) && Variant(f, k) == v
    requires Disc(t, r) == Discriminant(false, {v}) && q in Subtree(f, r) && q != r && Reach(f, t, q)
    ensures q in Subtree(f, k)
  {
    var j := Toward(f, r, q);
    KidFacts(f, r, k);
    KidsAgree(f, r, j);
    KidsAgree(f, r, k);
    StepInReach(f, t, r, j, q);
    VariantInjective(f, r, j, k);
  }

  lemma AssumeSaturated(f: Forest, st: State, r: nat, v: nat, k: nat, m: nat, q: nat)
    requires Tight(f, st) && Shaped(f, st) && r < |f| && r in st.mustInit && m < |f|
    requires k in Kids(f, r) && IsDowncast(f, k) && Variant(f, k) == v
    requires var t := AssumeVariant(f, st, r, v);
             m in t.mustInit && q in Subtree(f, m) && Reach(f, t, q)
    ensures q in AssumeVariant(f, st, r, v).mayInit
  {
    var t := AssumeVariant(f, st, r, v);
    AssumeMeaning(f, st, r, v, k);
    KidFacts(f, r, k);
    WithinRange(f, m, q);
    if q in Subtree(f, k) {
      return;
    }
    if m in Subtree(f, k) { WithinTrans(f, k, m, q); }
    AssumeElsewhere(f, st, r, v, k, m);
    assert TightAt(f, st, m) && m in st.mustInit;
    if q in Subtree(f, r) {
      if q != r { ReachedPayload(f, t, r, v, k, q); }
      AssumeElsewhere(f, st, r, v, k, r);
      if r in OtherVariants(f, r, v) { PayloadsApart(f, r, v, k, r); }
      return;
    }
    if q in OtherVariants(f, r, v) { PayloadsApart(f, r, v, k, q); }
    forall a | a in Ancestors(f, q) ensures Disc(st, a) == Disc(t, a) {
      if a in Subtree(f, r) { WithinTrans(f, r, a, q); }
      if a in Subtree(f, k) { WithinTrans(f, r, k, a); }
      if a in OtherVariants(f, r, v) { PayloadsApart(f, r, v, k, a); }
      AssumeElsewhere(f, st, r, v, k, a);
    }
    ReachFrame(f, st, t, q);
    AssumeElsewhere(f, st, r, v, k, q);
  }

  lemma AssumeKeeps(f: Forest, st: State, r: nat, v: nat)
    requires Tight(f, st) && Shaped(f, st) && r < |f| && r in st.mustInit && v in Variants(f, r)
    ensures Tight(f, AssumeVariant(f, st, r, v))
  {
    var t := AssumeVariant(f, st, r, v);
    var k := VariantKid(f, r, v);
    hide AssumeVariant; hide LocallyTight; hide Reach;
    forall q | 0 <= q < |f| ensures TightAt(f, t, q) {
      AssumeLocally(f, st, r, v, k, q);
      if q in t.mustInit {
        forall x | x in Subtree(f, q) && Reach(f, t, x) ensures x in t.mayInit {
          AssumeSaturated(f, st, r, v, k, q, x);
        }
      }
      LocallyAndSaturated(f, t, q);
    }
  }

  lemma LocallyAndSaturated(f: Forest, t: State, q: nat)
    requires LocallyTight(f, t, q) && Saturated(f, t, q)
    ensures TightAt(f, t, q)
  {
  }

  /* ----- every operation ----- */

  /** What an operation asks of the state for the analysis to follow it: the weakest part of the checks. */
  ghost predicate OpReady(f: Forest, st: State, op: CleanupOp) {
    match op
    case StorageLive(_) => true
    case StorageDead(_) => true
    case Init(p) => PathReady(f, st, p)
    case MoveOut(p) => PathReady(f, st, p)
    case Overwrite(p) => PathReady(f, st, p)
    case Transfer(s, d, _) => PathReady(f, st, s) && PathReady(f, st, d) && s in st.mustInit
    case SetDiscriminant(p, _) => PathReady(f, st, p)
    case AssumeDiscriminant(r, _) => r in st.mustInit
  }

  lemma AcceptedIsReady(f: Forest, st: State, op: CleanupOp)
    requires OpStateOk(f, st, op)
    ensures OpReady(f, st, op)
  {
  }

  lemma SelectVariantKeeps(f: Forest, st: State, p: nat, v: nat)
    requires Tight(f, st) && Shaped(f, st) && p < |f| && PathReady(f, st, p) && v in Variants(f, p)
    ensures Tight(f, SelectVariant(f, st, p, v))
  {
    ClearKeeps(f, st, p);
    ClearShaped(f, st, p);
    ClearKeepsReady(f, st, p, p);
    ClearedIsBare(f, st, p);
    SelectKeeps(f, ClearPath(f, st, p), p, Discriminant(false, {v}));
    VariantsMeanEnum(f, p, v);
  }

  /** An operation that is ready keeps a state consistent with itself. */
  lemma ApplyKeeps(f: Forest, st: State, op: CleanupOp)
    requires Tight(f, st) && Shaped(f, st) && OpShapeOk(f, op) && OpReady(f, st, op)
    ensures Tight(f, Apply(f, st, op))
  {
    match op
    case StorageLive(local) => StorageKeeps(f, st, local);
    case StorageDead(local) => StorageKeeps(f, st, local);
    case Init(p) => InitKeeps(f, st, p);
    case MoveOut(p) => ClearKeeps(f, st, p);
    case Overwrite(p) => OverwriteKeeps(f, st, p);
    case Transfer(s, d, _) =>
      HandedKeeps(f, st, s, d);
      InitKeeps(f, Handed(f, st, s, d), d);
    case SetDiscriminant(p, v) => SelectVariantKeeps(f, st, p, v);
    case AssumeDiscriminant(r, v) => AssumeKeeps(f, st, r, v);
  }

  /* ----- joins ----- */

  /** What is in reach after a join was in reach before it on one side. */
  lemma {:induction false} ReachJoined(f: Forest, s: State, t: State, q: nat)
    requires Tight(f, s) && Tight(f, t) && s.reachable && t.reachable && Shaped(f, s) && Shaped(f, t)
    requires Reach(f, Join(s, t), q) && q < |f|
    ensures Reach(f, s, q) || Reach(f, t, q)
    decreases Depth(f, q)
  {
    if Parent(f, q).Some? {
      ParentFacts(f, q);
      var a := Parent(f, q).value;
      ReachJoined(f, s, t, a);
      if IsDowncast(f, q) {
        assert TightAt(f, s, a) && TightAt(f, t, a);
        JoinedDisc(f, s, t, a);
      }
    }
  }

  lemma JoinedDisc(f: Forest, s: State, t: State, a: nat)
    requires s.reachable && t.reachable && Shaped(f, s) && Shaped(f, t)
    ensures Disc(Join(s, t), a) == JoinDiscriminant(Disc(s, a), Disc(t, a))
  {
  }

  lemma {:induction false} ActiveJoined(f: Forest, s: State, t: State, q: nat)
    requires s.reachable && t.reachable && Shaped(f, s) && Shaped(f, t)
    requires forall a :: DiscFits(s, a) && DiscFits(t, a)
    ensures DowncastsActive(f, Join(s, t), q) <==> DowncastsActive(f, s, q) && DowncastsActive(f, t, q)
    decreases Depth(f, q)
  {
    if Parent(f, q).Some? {
      ParentFacts(f, q);
      var a := Parent(f, q).value;
      ActiveJoined(f, s, t, a);
      JoinedDisc(f, s, t, a);
      KnownJoined(s, t, a, Variant(f, q));
    }
  }

  /** A variant is known after a join exactly when it was on both sides. */
  lemma KnownJoined(s: State, t: State, a: nat, v: nat)
    requires DiscFits(s, a) && DiscFits(t, a)
    ensures JoinDiscriminant(Disc(s, a), Disc(t, a)) == Discriminant(false, {v})
            <==> IsKnown(s, a, v) && IsKnown(t, a, v)
  {
    var x, y := Disc(s, a), Disc(t, a);
    if JoinDiscriminant(x, y) == Discriminant(false, {v}) {
      assert x.possible <= {v} && y.possible <= {v};
      assert x.possible == {v} by { var w :| w in x.possible; }
      assert y.possible == {v} by { var w :| w in y.possible; }
    }
  }

  lemma AllDiscsFit(f: Forest, s: State)
    requires Tight(f, s) && Shaped(f, s)
    ensures forall a :: DiscFits(s, a)
  {
    forall a ensures DiscFits(s, a) {
      if a in EnumRoots(f) { assert TightAt(f, s, a); }
    }
  }

  /** What holds at `q` on both sides holds after the join. */
  lemma JoinLocally(f: Forest, s: State, t: State, q: nat)
    requires Tight(f, s) && Tight(f, t) && s.reachable && t.reachable && Shaped(f, s) && Shaped(f, t) && q < |f|
    ensures LocallyTight(f, Join(s, t), q)
  {
    var u := Join(s, t);
    assert TightAt(f, s, q) && TightAt(f, t, q);
    AllDiscsFit(f, s);
    AllDiscsFit(f, t);
    JoinedDisc(f, s, t, q);
    ActiveJoined(f, s, t, q);
    ReachUnion(f, s, t, q);
    forall v: nat ensures IsKnown(u, q, v) <==> IsKnown(s, q, v) && IsKnown(t, q, v) { KnownJoined(s, t, q, v); }
  }

  lemma {:induction false} ReachUnion(f: Forest, s: State, t: State, q: nat)
    requires s.reachable && t.reachable && Shaped(f, s) && Shaped(f, t)
    ensures Reach(f, s, q) || Reach(f, t, q) ==> Reach(f, Join(s, t), q)
    decreases Depth(f, q)
  {
    if Parent(f, q).Some? {
      ParentFacts(f, q);
      ReachUnion(f, s, t, Parent(f, q).value);
      JoinedDisc(f, s, t, Parent(f, q).value);
    }
  }

  lemma JoinKeeps(f: Forest, s: State, t: State)
    requires s.reachable ==> Tight(f, s)
    requires t.reachable ==> Tight(f, t)
    requires Shaped(f, s) && Shaped(f, t) && (s.reachable || t.reachable)
    ensures Tight(f, Join(s, t))
  {
    if s.reachable && t.reachable {
      var u := Join(s, t);
      forall q | 0 <= q < |f| ensures TightAt(f, u, q) {
        JoinLocally(f, s, t, q);
        if q in u.mustInit {
          forall x | x in Subtree(f, q) && Reach(f, u, x) ensures x in u.mayInit {
            ReachJoined(f, s, t, x);
            assert TightAt(f, s, q) && TightAt(f, t, q);
          }
        }
      }
    }
  }
}
