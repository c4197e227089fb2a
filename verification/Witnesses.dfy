/**
 Memories that a consistent state describes, built on purpose. They show that the state
 says no less than it could: what is in no must-set can be missing, and what is in a may-set
 can be there.
 */
module Witnesses {
  import opened Wrappers
  import opened CleanupPlan
  import opened MovePaths
  import opened MoveStates
  import opened Checks
  import opened Semantics
  import opened Simulation
  import opened TightStates

  /**
   What a memory is to show: a path to be complete besides what must be, the variants to
   choose, the enums to select without need, and the storage to be live.
   */
  datatype Aim = Aim(target: Option<nat>, choice: map<nat, nat>, on: set<nat>, live: set<LocalId>)

  /** Nothing is there, or what must be, or all that is selected. */
  datatype Mode = Off | Base | Whole

  predicate Wanted(st: State, x: Aim, q: nat) { q in st.mustInit || x.target == Some(q) }

  predicate Selects(st: State, x: Aim, a: nat, mode: Mode) {
    mode.Whole? || (mode.Base? && (!Disc(st, a).mayBeUnset || a in x.on))
  }

  function PickOf(x: Aim, a: nat): nat { if a in x.choice then x.choice[a] else 0 }

  ghost function ModeOf(f: Forest, st: State, x: Aim, q: nat): Mode
    decreases Depth(f, q)
  {
    if Parent(f, q).None? then (if Wanted(st, x, q) then Whole else Base)
    else
      ParentFacts(f, q);
      var a := Parent(f, q).value;
      var above := ModeOf(f, st, x, a);
      if above.Off? || (IsDowncast(f, q) && !(Selects(st, x, a, above) && PickOf(x, a) == Variant(f, q))) then Off
      else if above.Whole? || Wanted(st, x, q) then Whole
      else Base
  }

  ghost function Memory(f: Forest, st: State, x: Aim): Concrete {
    Concrete(x.live, set q | 0 <= q < |f| && IsLeaf(f, q) && ModeOf(f, st, x, q).Whole?,
             map r | r in EnumRoots(f) && Selects(st, x, r, ModeOf(f, st, x, r)) :: PickOf(x, r))
  }

  /** The aim can be met in a memory that the state describes. */
  ghost predicate Fit(f: Forest, st: State, x: Aim) {
    && (forall r | r in EnumRoots(f) && Disc(st, r).possible != {} ::
          r in x.choice && x.choice[r] in Disc(st, r).possible)
    && (forall r | r in x.on :: r in EnumRoots(f) && Disc(st, r).possible != {} && LocalOf(f, r) in x.live)
    && st.mustLive <= x.live <= st.mayLive
    && (x.target.Some? ==> TargetFits(f, st, x, x.target.value))
  }

  ghost predicate TargetFits(f: Forest, st: State, x: Aim, t: nat) {
    && t < |f| && t in st.mayInit && LocalOf(f, t) in x.live
    && forall a, k | a in Subtree(f, t) && a in st.mayInit && k in Kids(f, a) && IsDowncast(f, k)
                     && PickOf(x, a) == Variant(f, k) :: k in st.mayInit
  }

  ghost predicate Apt(f: Forest, st: State, x: Aim) {
    Tight(f, st) && Shaped(f, st) && st.reachable && Fit(f, st, x)
  }

  /* ----- what is whole may be ----- */

  /** Something certain, or the target, is what makes `q` whole. */
  ghost predicate Grounded(f: Forest, st: State, x: Aim, q: nat) {
    || (exists m :: m in st.mustInit && Within(f, m, q))
    || (x.target.Some? && Within(f, x.target.value, q))
  }

  lemma ChoiceIsPossible(f: Forest, st: State, x: Aim, a: nat)
    requires Apt(f, st, x) && a < |f| && IsEnum(f, a) && Selects(st, x, a, ModeOf(f, st, x, a))
    requires ModeOf(f, st, x, a).Whole? ==> a in st.mayInit
    ensures PickOf(x, a) in Disc(st, a).possible
  {
    assert TightAt(f, st, a) && a in EnumRoots(f);
    if ModeOf(f, st, x, a).Whole? {
      var k :| k in Kids(f, a) && k in st.mayInit;
      KidFacts(f, a, k);
      KidsAgree(f, a, k);
      assert TightAt(f, st, k);
    }
  }

  lemma {:induction false} WholeMay(f: Forest, st: State, x: Aim, q: nat)
    requires Apt(f, st, x) && q < |f|
    ensures !ModeOf(f, st, x, q).Off? ==> Reach(f, st, q)
    ensures ModeOf(f, st, x, q).Whole? ==> q in st.mayInit && Grounded(f, st, x, q)
    decreases Depth(f, q)
  {
    if Wanted(st, x, q) { assert Within(f, q, q); }
    if Parent(f, q).Some? && !ModeOf(f, st, x, q).Off? {
      ParentFacts(f, q);
      var a := Parent(f, q).value;
      WholeMay(f, st, x, a);
      KidsAgree(f, a, q);
      if IsDowncast(f, q) { ChoiceIsPossible(f, st, x, a); }
      assert Reach(f, st, q);
      if ModeOf(f, st, x, a).Whole? { WholeBelow(f, st, x, a, q); }
    }
  }

  /** A step down from what is whole. */
  lemma WholeBelow(f: Forest, st: State, x: Aim, a: nat, q: nat)
    requires Apt(f, st, x) && q in Kids(f, a) && Reach(f, st, q) && a in st.mayInit && Grounded(f, st, x, a)
    requires IsDowncast(f, q) ==> PickOf(x, a) == Variant(f, q)
    ensures q in st.mayInit && Grounded(f, st, x, q)
  {
    KidFacts(f, a, q);
    KidsAgree(f, a, q);
    assert TightAt(f, st, a);
    if m :| m in st.mustInit && Within(f, m, a) {
      WithinTrans(f, m, a, q);
      WithinRange(f, m, a);
      assert TightAt(f, st, m);
      assert q in Subtree(f, m);
    } else {
      WithinTrans(f, x.target.value, a, q);
      assert a in Subtree(f, x.target.value);
    }
  }

  /* ----- what the memory holds ----- */

  lemma MemoryAt(f: Forest, st: State, x: Aim, q: nat)
    requires q < |f|
    ensures var c, mode := Memory(f, st, x), ModeOf(f, st, x, q);
            && (q in c.leaves <==> IsLeaf(f, q) && mode.Whole?)
            && (q in c.active <==> IsEnum(f, q) && Selects(st, x, q, mode))
            && (q in c.active ==> c.active[q] == PickOf(x, q))
  {
    assert q in EnumRoots(f) <==> IsEnum(f, q);
    hide ModeOf; hide IsEnum;
  }

  lemma {:induction false} OnChain(f: Forest, st: State, x: Aim, q: nat)
    requires q < |f| && !ModeOf(f, st, x, q).Off?
    ensures ActiveChain(f, Memory(f, st, x), q)
    decreases Depth(f, q)
  {
    if Parent(f, q).Some? {
      ParentFacts(f, q);
      var a := Parent(f, q).value;
      OnChain(f, st, x, a);
      MemoryAt(f, st, x, a);
      KidsAgree(f, a, q);
    }
  }

  lemma {:induction false} OffBelow(f: Forest, st: State, x: Aim, p: nat, q: nat)
    requires Within(f, p, q) && ModeOf(f, st, x, p).Off?
    ensures ModeOf(f, st, x, q).Off?
    decreases Depth(f, q)
  {
    if p != q {
      ParentFacts(f, q);
      OffBelow(f, st, x, p, Parent(f, q).value);
    }
  }

  lemma OffIsEmpty(f: Forest, st: State, x: Aim, q: nat)
    requires q < |f| && ModeOf(f, st, x, q).Off?
    ensures Empty(f, Memory(f, st, x), q) && !Full(f, Memory(f, st, x), q)
  {
    forall y | y in Subtree(f, q) ensures !Present(Memory(f, st, x), y) {
      OffBelow(f, st, x, q, y);
      MemoryAt(f, st, x, y);
    }
    EmptyNotFull(f, Memory(f, st, x), q);
  }

  /** The children that count, in the memory. */
  lemma MemoryKids(f: Forest, st: State, x: Aim, a: nat, k: nat)
    requires a < |f| && k in Kids(f, a) && !ModeOf(f, st, x, a).Off?
    ensures k < |f|
    ensures k in ActiveKids(f, Memory(f, st, x), a) <==> !ModeOf(f, st, x, k).Off?
    ensures !ModeOf(f, st, x, k).Off? ==>
              ModeOf(f, st, x, k) == if ModeOf(f, st, x, a).Whole? || Wanted(st, x, k) then Whole else Base
  {
    KidFacts(f, a, k);
    KidsAgree(f, a, k);
    MemoryAt(f, st, x, a);
  }

  lemma {:induction false} WholeIsFull(f: Forest, st: State, x: Aim, q: nat)
    requires Apt(f, st, x) && q < |f| && ModeOf(f, st, x, q).Whole?
    ensures Full(f, Memory(f, st, x), q)
    decreases Height(f, q)
  {
    var c := Memory(f, st, x);
    MemoryAt(f, st, x, q);
    if !IsLeaf(f, q) {
      WholeMay(f, st, x, q);
      forall k | k in ActiveKids(f, c, q) ensures k < |f| && Full(f, c, k) {
        KidFacts(f, q, k);
        MemoryKids(f, st, x, q, k);
        WholeIsFull(f, st, x, k);
      }
      var k := SomeActiveKid(f, st, x, q);
    }
  }

  lemma SomeActiveKid(f: Forest, st: State, x: Aim, q: nat) returns (k: nat)
    requires Apt(f, st, x) && q < |f| && !IsLeaf(f, q) && ModeOf(f, st, x, q).Whole? && q in st.mayInit
    ensures k in ActiveKids(f, Memory(f, st, x), q)
  {
    MemoryAt(f, st, x, q);
    if IsEnum(f, q) {
      ChoiceIsPossible(f, st, x, q);
      ShapedVariants(f, st, q);
      k := VariantKid(f, q, PickOf(x, q));
      KidFacts(f, q, k);
    } else {
      k :| k in Kids(f, q);
      KidFacts(f, q, k);
      KidsAgree(f, q, k);
    }
  }

  /* ----- what is complete beyond that ----- */

  /** The target lies below `q`. */
  ghost predicate AimsBelow(f: Forest, x: Aim, q: nat) {
    x.target.Some? && x.target.value != q && Within(f, q, x.target.value)
  }

  /** A complete part is certain, or it is or holds the target. */
  lemma CompleteKid(f: Forest, st: State, x: Aim, q: nat, k: nat)
    requires Apt(f, st, x) && q < |f| && ModeOf(f, st, x, q).Base? && k in ActiveKids(f, Memory(f, st, x), q)
    requires Full(f, Memory(f, st, x), k)
    requires ModeOf(f, st, x, k).Base? ==> k in st.mayInit && AimsBelow(f, x, k)
    ensures k < |f| && k in st.mayInit
    ensures k in st.mustInit || (x.target.Some? && Within(f, k, x.target.value) && AimsBelow(f, x, q))
  {
    KidFacts(f, q, k);
    MemoryKids(f, st, x, q, k);
    WholeMay(f, st, x, k);
    if k !in st.mustInit {
      var t := x.target.value;
      WithinTrans(f, q, k, t);
      if t == q { WithinAntisymmetric(f, q, k); }
    }
  }

  lemma {:induction false} BaseFull(f: Forest, st: State, x: Aim, q: nat)
    requires Apt(f, st, x) && q < |f| && ModeOf(f, st, x, q).Base? && Full(f, Memory(f, st, x), q)
    ensures q in st.mayInit && AimsBelow(f, x, q)
    decreases Height(f, q)
  {
    var c := Memory(f, st, x);
    MemoryAt(f, st, x, q);
    NotSure(f, st, x, q);
    forall k | k in ActiveKids(f, c, q)
      ensures k < |f| && k in st.mayInit
      ensures k in st.mustInit || (x.target.Some? && Within(f, k, x.target.value) && AimsBelow(f, x, q))
    {
      KidFacts(f, q, k);
      if ModeOf(f, st, x, k).Base? { BaseFull(f, st, x, k); }
      CompleteKid(f, st, x, q, k);
    }
    assert TightAt(f, st, q);
    var k :| k in ActiveKids(f, c, q);
    KidFacts(f, q, k);
    KidsAgree(f, q, k);
    if IsEnum(f, q) {
      if k in st.mustInit { KnownAbove(f, st, q, k); }
    } else {
      forall j | j in Kids(f, q) ensures j in ActiveKids(f, c, q) { KidFacts(f, q, j); KidsAgree(f, q, j); }
      OneAimed(f, st, x, q);
    }
  }

  /** What is reached without being whole is not certain. */
  lemma NotSure(f: Forest, st: State, x: Aim, q: nat)
    requires q < |f| && ModeOf(f, st, x, q).Base?
    ensures q !in st.mustInit && x.target != Some(q)
  {
  }

  lemma KnownAbove(f: Forest, st: State, a: nat, k: nat)
    requires Tight(f, st) && k in Kids(f, a) && IsEnum(f, a) && k in st.mustInit
    ensures a in st.mustInit
  {
    KidFacts(f, a, k);
    KidsAgree(f, a, k);
    assert TightAt(f, st, k) && TightAt(f, st, a);
    assert IsKnown(st, a, Variant(f, k));
  }

  /** All parts may be complete, and all but the one with the target are certain. */
  lemma OneAimed(f: Forest, st: State, x: Aim, q: nat)
    requires Apt(f, st, x) && q < |f| && !IsLeaf(f, q) && !IsEnum(f, q) && q !in st.mustInit
    requires forall k | k in Kids(f, q) ::
               && k in st.mayInit
               && (k in st.mustInit || (x.target.Some? && Within(f, k, x.target.value) && AimsBelow(f, x, q)))
    ensures q in st.mayInit && AimsBelow(f, x, q)
  {
    assert TightAt(f, st, q);
    var k :| k in Kids(f, q) && k !in st.mustInit;
    forall j | j in Kids(f, q) && j != k ensures j in st.mustInit {
      if j !in st.mustInit { KidsDisjoint(f, q, j, k, x.target.value); }
    }
    assert OthersSure(f, st, q, k);
  }

  /* ----- the memory is described ----- */

  lemma {:induction false} SureIsOn(f: Forest, st: State, x: Aim, q: nat)
    requires Apt(f, st, x) && q < |f| && DowncastsActive(f, st, q)
    ensures !ModeOf(f, st, x, q).Off?
    decreases Depth(f, q)
  {
    if Parent(f, q).Some? {
      ParentFacts(f, q);
      var a := Parent(f, q).value;
      SureIsOn(f, st, x, a);
      KidsAgree(f, a, q);
      if IsDowncast(f, q) {
        assert IsKnown(st, a, Variant(f, q));
        assert a in EnumRoots(f) && Variant(f, q) in Disc(st, a).possible;
      }
    }
  }

  lemma SureIsWhole(f: Forest, st: State, x: Aim, q: nat)
    requires Apt(f, st, x) && q < |f| && q in st.mustInit
    ensures ModeOf(f, st, x, q).Whole?
  {
    assert TightAt(f, st, q);
    SureIsOn(f, st, x, q);
  }

  lemma MemoryNode(f: Forest, st: State, x: Aim, q: nat)
    requires Apt(f, st, x) && q < |f|
    ensures NodeOk(f, st, Memory(f, st, x), q)
  {
    if q in st.mustInit {
      SureIsWhole(f, st, x, q);
      WholeIsFull(f, st, x, q);
    }
    if Full(f, Memory(f, st, x), q) {
      match ModeOf(f, st, x, q)
      case Off => OffIsEmpty(f, st, x, q);
      case Base => BaseFull(f, st, x, q);
      case Whole => WholeMay(f, st, x, q);
    }
  }

  lemma MemoryDisc(f: Forest, st: State, x: Aim, r: nat)
    requires Apt(f, st, x) && r in EnumRoots(f)
    ensures DiscOk(st, Memory(f, st, x), r)
  {
    MemoryAt(f, st, x, r);
    WholeMay(f, st, x, r);
    assert TightAt(f, st, r);
    if r in Memory(f, st, x).active {
      ChoiceIsPossible(f, st, x, r);
    } else if !Disc(st, r).mayBeUnset {
      SureIsOn(f, st, x, r);
    }
  }

  lemma MemoryPresent(f: Forest, st: State, x: Aim, q: nat)
    requires Apt(f, st, x) && Present(Memory(f, st, x), q)
    ensures PresentOk(f, Memory(f, st, x), q)
  {
    assert q < |f|;
    MemoryAt(f, st, x, q);
    OnChain(f, st, x, q);
    WholeMay(f, st, x, q);
    assert TightAt(f, st, q);
    if ModeOf(f, st, x, q).Whole? { GroundIsLive(f, st, x, q); }
    if IsEnum(f, q) {
      ChoiceIsPossible(f, st, x, q);
      ShapedVariants(f, st, q);
    }
  }

  lemma GroundIsLive(f: Forest, st: State, x: Aim, q: nat)
    requires Apt(f, st, x) && q < |f| && Grounded(f, st, x, q)
    ensures LocalOf(f, q) in x.live
  {
    if m :| m in st.mustInit && Within(f, m, q) {
      WithinRange(f, m, q);
      assert TightAt(f, st, m);
    } else {
      WithinRange(f, x.target.value, q);
    }
  }

  /** The state describes the memory. */
  lemma MemoryDescribed(f: Forest, st: State, x: Aim)
    requires Apt(f, st, x)
    ensures Represents(f, st, Memory(f, st, x))
  {
    var c := Memory(f, st, x);
    forall q | 0 <= q < |f| ensures NodeOk(f, st, c, q) { MemoryNode(f, st, x, q); }
    forall r | r in EnumRoots(f) ensures DiscOk(st, c, r) { MemoryDisc(f, st, x, r); }
    forall q | Present(c, q) ensures PresentOk(f, c, q) { MemoryPresent(f, st, x, q); }
    hide NodeOk; hide DiscOk; hide PresentOk; hide Memory; hide Tight; hide Fit;
  }
}
