/**
 The ways of writing a complete value to a path: that there is one, which of them reach
 a given part, and when completing a part completes what encloses it.
 */
module Fills {
  import opened MovePaths
  import opened Semantics

  /* ----- writing a complete value is always possible ----- */

  lemma SomeVariant(f: Forest, r: nat)
    requires IsEnum(f, r)
    ensures Variants(f, r) != {}
  {
    var k :| k in Kids(f, r) && IsDowncast(f, k);
    assert Variant(f, k) in Variants(f, r);
  }

  /** The variant kept, or else one picked. */
  ghost function Choice(f: Forest, c: Concrete, r: nat): (v: nat)
    requires r < |f| && IsEnum(f, r)
    ensures v in Variants(f, r)
    ensures r in c.active && c.active[r] in Variants(f, r) ==> v == c.active[r]
  {
    SomeVariant(f, r);
    if r in c.active && c.active[r] in Variants(f, r) then c.active[r]
    else var v :| v in Variants(f, r); v
  }

  /** Every enum with its choice. */
  ghost function Chosen(f: Forest, c: Concrete): Concrete {
    c.(active := map r | r in EnumRoots(f) :: Choice(f, c, r))
  }

  ghost function Filled(f: Forest, c: Concrete, p: nat): Concrete {
    var all := Chosen(f, c);
    c.(leaves := (set q | q in c.leaves && q !in Subtree(f, p))
                 + (set q | q in Subtree(f, p) && IsLeaf(f, q) && Selected(f, all, p, q)),
       active := (map q | q in c.active && q !in Subtree(f, p) :: c.active[q])
                 + (map q | q in Subtree(f, p) && q in EnumRoots(f) && Selected(f, all, p, q) :: all.active[q]))
  }

  lemma {:induction false} SameSelection(f: Forest, c: Concrete, p: nat, q: nat)
    requires q in Subtree(f, p)
    ensures Selected(f, Filled(f, c, p), p, q) <==> Selected(f, Chosen(f, c), p, q)
    decreases Depth(f, q)
  {
    if q != p {
      ParentFacts(f, q);
      var a := Parent(f, q).value;
      SameSelection(f, c, p, a);
      if IsDowncast(f, q) {
        assert q in Kids(f, a) && IsEnum(f, a) && a in Subtree(f, p);
        assert Selected(f, Chosen(f, c), p, a) ==> Filled(f, c, p).active[a] == Chosen(f, c).active[a];
      }
    }
  }

  lemma FillExists(f: Forest, c: Concrete, p: nat)
    requires forall r | r in c.active && r in Subtree(f, p) :: r in EnumRoots(f) && c.active[r] in Variants(f, r)
    ensures Fill(f, c, p, Filled(f, c, p))
  {
    var c' := Filled(f, c, p);
    forall q | q in Subtree(f, p) ensures FilledAt(f, c, p, c', q) { SameSelection(f, c, p, q); }
  }

  /* ----- which parts a write reaches ----- */

  /** Every enum from `p` down to `q` has selected the variant of `q`, or none yet. */
  ghost predicate Open(f: Forest, c: Concrete, p: nat, q: nat)
    decreases Depth(f, q)
  {
    q == p ||
    (Parent(f, q).Some? &&
     (ParentFacts(f, q);
      var a := Parent(f, q).value;
      (IsDowncast(f, q) && a in c.active ==> c.active[a] == Variant(f, q)) && Open(f, c, p, a)))
  }

  /** Every enum from `p` down to `q` has selected the variant of `q`, or has no other to pick. */
  ghost predicate Forced(f: Forest, c: Concrete, p: nat, q: nat)
    decreases Depth(f, q)
  {
    q == p ||
    (Parent(f, q).Some? &&
     (ParentFacts(f, q);
      var a := Parent(f, q).value;
      (IsDowncast(f, q) ==>
         if a in c.active then c.active[a] == Variant(f, q) else Variants(f, a) == {Variant(f, q)})
      && Forced(f, c, p, a)))
  }

  /** Within `p`, only enums have selected a variant, and one of their own. */
  ghost predicate WellKinded(f: Forest, c: Concrete, p: nat) {
    forall r | r in c.active && r in Subtree(f, p) :: r in EnumRoots(f) && c.active[r] in Variants(f, r)
  }

  /** Some write reaches `q`. */
  ghost predicate MayReach(f: Forest, c: Concrete, p: nat, q: nat) {
    exists c' :: Fill(f, c, p, c') && Selected(f, c', p, q)
  }

  /** Every write reaches `q`. */
  ghost predicate MustReach(f: Forest, c: Concrete, p: nat, q: nat) {
    forall c' | Fill(f, c, p, c') :: Selected(f, c', p, q)
  }

  lemma {:induction false} SelectedIsOpen(f: Forest, c: Concrete, p: nat, c': Concrete, q: nat)
    requires q in Subtree(f, p) && Fill(f, c, p, c') && Selected(f, c', p, q)
    ensures Open(f, c, p, q)
    decreases Depth(f, q)
  {
    if q != p {
      ParentFacts(f, q);
      var a := Parent(f, q).value;
      SelectedIsOpen(f, c, p, c', a);
      assert FilledAt(f, c, p, c', a);
    }
  }

  lemma {:induction false} ForcedIsSelected(f: Forest, c: Concrete, p: nat, c': Concrete, q: nat)
    requires q in Subtree(f, p) && Fill(f, c, p, c') && Forced(f, c, p, q)
    ensures Selected(f, c', p, q)
    decreases Depth(f, q)
  {
    if q != p {
      ParentFacts(f, q);
      var a := Parent(f, q).value;
      ForcedIsSelected(f, c, p, c', a);
      assert FilledAt(f, c, p, c', a);
      if IsDowncast(f, q) { KidsAgree(f, a, q); }
    }
  }

  /** `c` with the variant of `v` selected at the enum `a`, unless one is selected already. */
  function Steered(c: Concrete, a: nat, v: nat): Concrete {
    if a in c.active then c else c.(active := c.active[a := v])
  }

  /** Selecting a variant beforehand leaves fewer writes. */
  lemma SteeredFill(f: Forest, c: Concrete, a: nat, v: nat, p: nat, c': Concrete)
    requires a in Subtree(f, p) && Fill(f, Steered(c, a, v), p, c')
    ensures Fill(f, c, p, c')
  {
    forall q | q !in Subtree(f, p) ensures SameAt(c, c', q) { assert SameAt(Steered(c, a, v), c', q); }
    forall q | q in Subtree(f, p) ensures FilledAt(f, c, p, c', q) {
      assert FilledAt(f, Steered(c, a, v), p, c', q);
    }
  }

  /** What is open can be reached: select its variants from `q` upward, then write. */
  lemma {:induction false} OpenIsReachable(f: Forest, c: Concrete, p: nat, q: nat, x: nat) returns (c': Concrete)
    requires q in Subtree(f, p) && x in Subtree(f, p) && Within(f, x, q) && WellKinded(f, c, p)
    requires Open(f, c, p, x) && Forced(f, c, x, q)
    ensures Fill(f, c, p, c') && Selected(f, c', p, q)
    decreases Depth(f, x)
  {
    if x == p {
      FillExists(f, c, p);
      c' := Filled(f, c, p);
      ForcedIsSelected(f, c, p, c', q);
    } else {
      ParentFacts(f, x);
      var a := Parent(f, x).value;
      WithinTrans(f, a, x, q);
      var v := Variant(f, x);
      if IsDowncast(f, x) {
        KidsAgree(f, a, x);
        var c1 := Steered(c, a, v);
        SteeredOpen(f, c, a, v, p, a);
        SteeredForced(f, c, a, v, x, q);
        ForcedStep(f, c1, x, q);
        c' := OpenIsReachable(f, c1, p, q, a);
        SteeredFill(f, c, a, v, p, c');
      } else {
        ForcedStep(f, c, x, q);
        c' := OpenIsReachable(f, c, p, q, a);
      }
    }
  }

  /** Selecting a variant at `a` says nothing about the way down to `a`. */
  lemma {:induction false} SteeredOpen(f: Forest, c: Concrete, a: nat, v: nat, p: nat, x: nat)
    requires Within(f, x, a) && x < |f| && a < |f| && Open(f, c, p, x)
    ensures Open(f, Steered(c, a, v), p, x)
    decreases Depth(f, x)
  {
    if x != p {
      ParentFacts(f, x);
      var b := Parent(f, x).value;
      WithinRange(f, x, a);
      WithinTrans(f, b, x, a);
      SteeredOpen(f, c, a, v, p, b);
    }
  }

  lemma {:induction false} SteeredForced(f: Forest, c: Concrete, a: nat, v: nat, x: nat, q: nat)
    requires Within(f, x, q) && x in Kids(f, a) && q < |f| && Forced(f, c, x, q)
    ensures Forced(f, Steered(c, a, v), x, q)
    decreases Depth(f, q)
  {
    if q != x {
      ParentFacts(f, q);
      var b := Parent(f, q).value;
      KidFacts(f, a, x);
      WithinRange(f, x, b);
      SteeredForced(f, c, a, v, x, b);
    }
  }

  /** One step further up. */
  lemma {:induction false} ForcedStep(f: Forest, c: Concrete, x: nat, q: nat)
    requires Parent(f, x).Some? && Within(f, x, q) && Forced(f, c, x, q)
    requires IsDowncast(f, x) ==> Parent(f, x).value in c.active && c.active[Parent(f, x).value] == Variant(f, x)
    ensures Forced(f, c, Parent(f, x).value, q)
    decreases Depth(f, q)
  {
    if q != x {
      ParentFacts(f, q);
      ForcedStep(f, c, x, Parent(f, q).value);
    }
  }

  /** What is not forced can be missed: some enum on the way may pick another variant. */
  lemma {:induction false} UnforcedIsAvoidable(f: Forest, c: Concrete, p: nat, q: nat) returns (c': Concrete)
    requires q in Subtree(f, p) && WellKinded(f, c, p) && !Forced(f, c, p, q)
    ensures Fill(f, c, p, c') && !Selected(f, c', p, q)
    decreases Depth(f, q)
  {
    ParentFacts(f, q);
    var a := Parent(f, q).value;
    if !Forced(f, c, p, a) {
      c' := UnforcedIsAvoidable(f, c, p, a);
    } else {
      KidsAgree(f, a, q);
      var v := if a in c.active then c.active[a] else OtherVariant(f, a, Variant(f, q));
      var c1 := Steered(c, a, v);
      FillExists(f, c1, p);
      c' := Filled(f, c1, p);
      SteeredFill(f, c, a, v, p, c');
      if Selected(f, c', p, q) { SelectedIsOpen(f, c1, p, c', q); }
    }
  }

  ghost function OtherVariant(f: Forest, a: nat, v: nat): (w: nat)
    requires v in Variants(f, a) && Variants(f, a) != {v}
    ensures w in Variants(f, a) && w != v
  {
    assert Variants(f, a) - {v} + {v} == Variants(f, a);
    var w :| w in Variants(f, a) - {v};
    w
  }

  /** The two conditions are exact. */
  lemma FillOutcomes(f: Forest, c: Concrete, p: nat, q: nat)
    requires q in Subtree(f, p) && WellKinded(f, c, p)
    ensures MayReach(f, c, p, q) <==> Open(f, c, p, q)
    ensures MustReach(f, c, p, q) <==> Forced(f, c, p, q)
  {
    if Open(f, c, p, q) { var c' := OpenIsReachable(f, c, p, q, q); }
    if c' :| Fill(f, c, p, c') && Selected(f, c', p, q) { SelectedIsOpen(f, c, p, c', q); }
    if Forced(f, c, p, q) {
      forall c' | Fill(f, c, p, c') ensures Selected(f, c', p, q) { ForcedIsSelected(f, c, p, c', q); }
    } else {
      var c' := UnforcedIsAvoidable(f, c, p, q);
    }
  }

  /** What a complete value holds is forced: writes keep the variants already selected. */
  lemma {:induction false} ActiveIsForced(f: Forest, c: Concrete, p: nat, q: nat)
    requires Within(f, p, q) && ActiveChain(f, c, q)
    ensures Forced(f, c, p, q)
    decreases Depth(f, q)
  {
    if q != p {
      ParentFacts(f, q);
      ActiveIsForced(f, c, p, Parent(f, q).value);
    }
  }

  /** Nothing is selected yet: every part is open. */
  lemma {:induction false} EmptyIsOpen(f: Forest, c: Concrete, p: nat, q: nat)
    requires q in Subtree(f, p) && Empty(f, c, p)
    ensures Open(f, c, p, q)
    decreases Depth(f, q)
  {
    if q != p {
      ParentFacts(f, q);
      EmptyIsOpen(f, c, p, Parent(f, q).value);
    }
  }

  /** A part of what was written is complete exactly when the write reached it. */
  lemma FilledPart(f: Forest, c: Concrete, p: nat, c': Concrete, q: nat)
    requires q in Subtree(f, p) && Fill(f, c, p, c')
    ensures Full(f, c', q) <==> Selected(f, c', p, q)
  {
    if Selected(f, c', p, q) {
      FilledIsFull(f, c, p, c', q);
    } else {
      UnselectedIsEmpty(f, c, p, c', q);
      EmptyNotFull(f, c', q);
    }
  }

  /* ----- what encloses a written part ----- */

  /** Everything that makes `a` complete is there, except perhaps its part `p`. */
  ghost predicate RestFull(f: Forest, c: Concrete, a: nat, p: nat)
    requires Within(f, a, p)
    decreases Height(f, a)
  {
    a == p ||
    (var toward := Toward(f, a, p);
     KidFacts(f, a, toward);
     (forall k | k in ActiveKids(f, c, a) && k != toward :: Full(f, c, k)) && RestFull(f, c, toward, p))
  }

  lemma TowardActive(f: Forest, c: Concrete, a: nat, p: nat)
    requires Within(f, a, p) && a != p && ActiveChain(f, c, p)
    ensures Toward(f, a, p) in ActiveKids(f, c, a)
  {
    var toward := Toward(f, a, p);
    KidFacts(f, a, toward);
    ChainUpward(f, c, toward, p);
  }

  lemma {:induction false} FullHasRest(f: Forest, c: Concrete, a: nat, p: nat)
    requires Within(f, a, p) && Full(f, c, a) && ActiveChain(f, c, p)
    ensures RestFull(f, c, a, p)
    decreases Height(f, a)
  {
    if a != p {
      var toward := Toward(f, a, p);
      KidFacts(f, a, toward);
      TowardActive(f, c, a, p);
      FullHasRest(f, c, toward, p);
    }
  }

  /** Once `p` is written, what encloses it is complete exactly when the rest of it is. */
  lemma {:induction false} RestDecides(f: Forest, c: Concrete, c': Concrete, a: nat, p: nat)
    requires p < |f| && Within(f, a, p) && Full(f, c', p) && ActiveChain(f, c', p)
    requires forall x | x in Subtree(f, a) && x !in Subtree(f, p) :: SameAt(c, c', x)
    ensures Full(f, c', a) <==> RestFull(f, c, a, p)
    decreases Height(f, a)
  {
    if a != p {
      WithinRange(f, a, p);
      var toward := Toward(f, a, p);
      KidFacts(f, a, toward);
      TowardActive(f, c', a, p);
      assert a in Subtree(f, a);
      if a in Subtree(f, p) { WithinAntisymmetric(f, p, a); }
      assert SameAt(c, c', a);
      assert ActiveKids(f, c, a) == ActiveKids(f, c', a) by {
        forall k | k in Kids(f, a) ensures ActiveEdge(f, c, k) <==> ActiveEdge(f, c', k) {}
      }
      forall x | x in Subtree(f, toward) ensures x in Subtree(f, a) { WithinTrans(f, a, toward, x); }
      RestDecides(f, c, c', toward, p);
      forall k | k in ActiveKids(f, c', a) && k != toward ensures Full(f, c, k) <==> Full(f, c', k) {
        SiblingFrame(f, c, c', a, p, k);
      }
    }
  }

  lemma SiblingFrame(f: Forest, c: Concrete, c': Concrete, a: nat, p: nat, k: nat)
    requires p < |f| && Within(f, a, p) && a != p && k in Kids(f, a) && k != Toward(f, a, p)
    requires forall x | x in Subtree(f, a) && x !in Subtree(f, p) :: SameAt(c, c', x)
    ensures Full(f, c, k) <==> Full(f, c', k)
  {
    var toward := Toward(f, a, p);
    KidFacts(f, a, k);
    forall x | x in Subtree(f, k) ensures SameAt(c, c', x) {
      WithinTrans(f, a, k, x);
      if x in Subtree(f, p) {
        WithinTrans(f, toward, p, x);
        KidsDisjoint(f, a, k, toward, x);
      }
    }
    FullFrame(f, c, c', k);
  }
}
