/**
 The transfer function is the best there is: after an accepted operation the state says of
 every path no less than what all outcomes have in common. (A guard on a variant filters
 memories instead of changing them and is treated apart.)
 */
module BestTransfer {
  import opened Wrappers
  import opened CleanupPlan
  import opened MovePaths
  import opened MoveStates
  import opened Checks
  import opened Semantics
  import opened Simulation
  import opened Fills
  import opened FlagTruth
  import opened Progress
  import opened TightStates
  import opened Exactness

  /** `c'` can come of the operation in a memory that the state describes. */
  ghost predicate Outcome(f: Forest, st: State, op: CleanupOp, c': Concrete) {
    exists c :: Represents(f, st, c) && Step(f, c, op, c')
  }

  /** An accepted operation in a consistent state. */
  ghost predicate Ready(f: Forest, st: State, op: CleanupOp) {
    Consistent(f, st) && OpShapeOk(f, op) && OpStateOk(f, st, op)
  }

  lemma SomeStep(f: Forest, st: State, c: Concrete, op: CleanupOp) returns (c': Concrete)
    requires Ready(f, st, op) && Represents(f, st, c) && !op.AssumeDiscriminant?
    ensures Step(f, c, op, c') && Outcome(f, st, op, c') && Represents(f, Apply(f, st, op), c')
  {
    Executable(f, st, c, op);
    hide OpStateOk; hide Consistent; hide Represents; hide OpShapeOk;
    c' :| Step(f, c, op, c');
    StepSound(f, st, c, op, c');
  }

  lemma SomeOutcome(f: Forest, st: State, op: CleanupOp) returns (c': Concrete)
    requires Ready(f, st, op) && !op.AssumeDiscriminant?
    ensures Outcome(f, st, op, c') && Represents(f, Apply(f, st, op), c')
  {
    var c := SomeMemory(f, st, st.mayLive);
    c' := SomeStep(f, st, c, op);
  }

  /* ----- what is not written ----- */

  /** Where an operation changes anything: within the paths it names or the local, and around them. */
  ghost predicate Affected(f: Forest, op: CleanupOp, q: nat) {
    match op
    case StorageLive(l) => LocalOf(f, q) == l
    case StorageDead(l) => LocalOf(f, q) == l
    case Init(p) => Within(f, p, q) || Within(f, q, p)
    case MoveOut(p) => Within(f, p, q) || Within(f, q, p)
    case Overwrite(p) => Within(f, p, q) || Within(f, q, p)
    case Transfer(s, d, _) => Within(f, s, q) || Within(f, q, s) || Within(f, d, q) || Within(f, q, d)
    case SetDiscriminant(p, _) => Within(f, p, q) || Within(f, q, p)
    case AssumeDiscriminant(r, _) => Within(f, r, q) || Within(f, q, r)
  }

  lemma ApartIsOff(f: Forest, p: nat, q: nat)
    requires p < |f| && q < |f|
    ensures Within(f, p, q) <==> q in Subtree(f, p)
    ensures Within(f, q, p) && q != p <==> q in Ancestors(f, p)
  {
  }

  /** The state elsewhere. */
  lemma UnaffectedState(f: Forest, st: State, op: CleanupOp, q: nat)
    requires Ready(f, st, op) && q < |f| && !Affected(f, op, q) && !op.AssumeDiscriminant?
    ensures var t := Apply(f, st, op);
            && (q in t.mayInit <==> q in st.mayInit) && (q in t.mustInit <==> q in st.mustInit)
            && Disc(t, q) == Disc(st, q)
  {
    match op
    case StorageLive(_) =>
    case StorageDead(_) =>
    case Init(p) => InitFacts(f, st, p, q);
    case MoveOut(p) => ClearFacts(f, st, p, q);
    case Overwrite(p) =>
      ClearFacts(f, st, p, q);
      InitFacts(f, ClearPath(f, st, p), p, q);
    case Transfer(s, d, _) =>
      ClearFacts(f, st, s, q);
      ClearFacts(f, ClearPath(f, st, s), d, q);
      InitFacts(f, Handed(f, st, s, d), d, q);
      HandedForm(f, st, s, d);
    case SetDiscriminant(p, v) => ClearFacts(f, st, p, q);
  }

  /** The memory elsewhere. */
  lemma UnaffectedMemory(f: Forest, c: Concrete, op: CleanupOp, c': Concrete, q: nat)
    requires OpShapeOk(f, op) && Step(f, c, op, c') && q < |f| && !Affected(f, op, q)
    ensures (Full(f, c', q) <==> Full(f, c, q)) && SameAt(c, c', q)
  {
    forall x | x in Subtree(f, q) ensures SameAt(c, c', x) { UnaffectedPart(f, c, op, c', q, x); }
    FullFrame(f, c, c', q);
    assert q in Subtree(f, q);
  }

  lemma UnaffectedPart(f: Forest, c: Concrete, op: CleanupOp, c': Concrete, q: nat, x: nat)
    requires OpShapeOk(f, op) && Step(f, c, op, c') && q < |f| && !Affected(f, op, q) && x in Subtree(f, q)
    ensures SameAt(c, c', x)
  {
    WithinRange(f, q, x);
    match op
    case StorageLive(_) =>
    case StorageDead(_) =>
    case Init(p) => Disjoint(f, p, q, x);
    case MoveOut(p) => Disjoint(f, p, q, x);
    case Overwrite(p) => Disjoint(f, p, q, x); WriteFrame(f, c, op, c', x);
    case Transfer(s, d, _) => Disjoint(f, s, q, x); Disjoint(f, d, q, x); WriteFrame(f, c, op, c', x);
    case SetDiscriminant(p, _) => Disjoint(f, p, q, x); assert p in Subtree(f, p);
    case AssumeDiscriminant(_, _) =>
  }

  lemma Disjoint(f: Forest, p: nat, q: nat, x: nat)
    requires p < |f| && q < |f| && !Within(f, p, q) && !Within(f, q, p) && x in Subtree(f, q)
    ensures x !in Subtree(f, p)
  {
    if x in Subtree(f, p) { WithinChain(f, p, q, x); }
  }

  /* ----- what is written ----- */

  /** The state that a writing operation marks, and then recomputes. */
  ghost function Before(f: Forest, st: State, op: CleanupOp): State {
    match op
    case Overwrite(p) => ClearPath(f, st, p)
    case Transfer(s, d, _) => Handed(f, st, s, d)
    case _ => st
  }

  /** What the state says of the written path, in it and around it. */
  lemma WrittenState(f: Forest, st: State, op: CleanupOp)
    requires Ready(f, st, op) && Written(op).Some?
    ensures var p, t := Written(op).value, Apply(f, st, op);
            && p < |f| && t == InitializePath(f, Before(f, st, op), p)
            && WrittenWhole(f, t, p) && DowncastsActive(f, t, p) && t.mustInit <= t.mayInit
            && forall a, k | a in Ancestors(f, p) && k in Kids(f, a) && Within(f, k, p) :: Recomposed(f, t, a, k)
  {
    var p := Written(op).value;
    match op
    case Init(_) =>
      TightDiscs(f, st, p);
      InitMeaning(f, st, p);
    case Overwrite(_) =>
      ClearKeeps(f, st, p);
      ClearShaped(f, st, p);
      ClearKeepsReady(f, st, p, p);
      TightDiscs(f, ClearPath(f, st, p), p);
      InitMeaning(f, ClearPath(f, st, p), p);
    case Transfer(s, d, _) =>
      HandedKeeps(f, st, s, d);
      TightDiscs(f, Handed(f, st, s, d), d);
      InitMeaning(f, Handed(f, st, s, d), d);
  }

  /** Where marking finds a discriminant that it fixes, from memories that differ in it. */
  lemma OpenEnum(f: Forest, st: State, op: CleanupOp, a: nat, v: nat) returns (c: Concrete)
    requires Ready(f, st, op) && Written(op).Some? && a in Subtree(f, Written(op).value) && IsEnum(f, a)
    requires v in Variants(f, a)
    requires MarkDiscriminant(f, Disc(Before(f, st, op), a), a, Marked(Must)) != Discriminant(false, {v})
    ensures Represents(f, st, c)
    ensures var base := BeforeWrite(f, c, op);
            if a in base.active then base.active[a] != v else Variants(f, a) != {v}
  {
    var p := Written(op).value;
    var d := Disc(Before(f, st, op), a);
    BeforeShaped(f, st, op, a);
    match op {
      case Init(_) =>
        c := OtherSomewhere(f, st, a, v);
      case Overwrite(_) =>
        ClearFacts(f, st, p, a);
        c := SomeMemory(f, st, st.mayLive);
      case Transfer(_, _, _) =>
        c := OpenHanded(f, st, op, a, v);
    }
  }

  lemma OpenHanded(f: Forest, st: State, op: CleanupOp, a: nat, v: nat) returns (c: Concrete)
    requires Ready(f, st, op) && op.Transfer? && a in Subtree(f, op.destination) && IsEnum(f, a)
    requires v in Variants(f, a)
    requires MarkDiscriminant(f, Disc(Before(f, st, op), a), a, Marked(Must)) != Discriminant(false, {v})
    ensures Represents(f, st, c)
    ensures var base := BeforeWrite(f, c, op);
            if a in base.active then base.active[a] != v else Variants(f, a) != {v}
  {
    var s, d := op.source, op.destination;
    assert TightAt(f, st, s);
    assert OpShapeOk(f, op) && s in st.mustInit;
    HandedDisc(f, st, op, a);
    hide Tight; hide TightAt; hide OpStateOk; hide OpShapeOk; hide ShapesMatch; hide Handed; hide Represents;
    if a == d && IsEnum(f, s) {
      var w := OtherPossible(f, st, s, v);
      c := SelectedSomewhere(f, st, s, w);
    } else {
      c := SomeMemory(f, st, st.mayLive);
    }
  }

  /** What the destination knows before it is marked: nothing, or the variant handed over at its top. */
  lemma HandedDisc(f: Forest, st: State, op: CleanupOp, a: nat)
    requires Ready(f, st, op) && op.Transfer? && a in Subtree(f, op.destination) && IsEnum(f, a)
    ensures Disc(Before(f, st, op), a) ==
            if a == op.destination && IsEnum(f, op.source) then Disc(st, op.source) else UNSELECTED
    ensures a == op.destination && IsEnum(f, op.source) ==>
              !Disc(st, op.source).mayBeUnset && Disc(st, op.source).possible != {}
  {
    var s, d := op.source, op.destination;
    assert TightAt(f, st, s);
    hide Tight; hide ShapesMatch; hide PathReady;
    ClearFacts(f, ClearPath(f, st, s), d, a);
    HandedForm(f, st, s, d);
    hide ClearPath; hide Handed;
  }

  lemma BeforeShaped(f: Forest, st: State, op: CleanupOp, a: nat)
    requires Ready(f, st, op) && Written(op).Some?
    ensures DiscFits(Before(f, st, op), a) && Disc(Before(f, st, op), a).possible <= Variants(f, a)
  {
    match op
    case Init(p) => AllDiscsFit(f, st);
    case Overwrite(p) => ClearKeeps(f, st, p); ClearShaped(f, st, p); AllDiscsFit(f, ClearPath(f, st, p));
    case Transfer(s, d, _) => HandedKeeps(f, st, s, d); AllDiscsFit(f, Handed(f, st, s, d));
  }

  /** Some memory leaves the enum unset, or set to another variant. */
  lemma OtherSomewhere(f: Forest, st: State, a: nat, v: nat) returns (c: Concrete)
    requires Consistent(f, st) && a < |f| && IsEnum(f, a) && v in Variants(f, a)
    requires MarkDiscriminant(f, Disc(st, a), a, Marked(Must)) != Discriminant(false, {v})
    ensures Represents(f, st, c)
    ensures if a in c.active then c.active[a] != v else Variants(f, a) != {v}
  {
    ShapedVariants(f, st, a);
    assert TightAt(f, st, a);
    if Disc(st, a).mayBeUnset {
      c := UnsetSomewhere(f, st, a);
      assert Variants(f, a) == {v} ==> Disc(st, a).possible + Variants(f, a) == {v};
    } else {
      var w := OtherPossible(f, st, a, v);
      c := SelectedSomewhere(f, st, a, w);
    }
  }

  /** A part of what is written that is not certain can be missed. */
  lemma {:induction false} UnforcedMemory(f: Forest, st: State, op: CleanupOp, q: nat) returns (c: Concrete)
    requires Ready(f, st, op) && Written(op).Some? && q in Subtree(f, Written(op).value)
    requires !DowncastsActive(f, Apply(f, st, op), q)
    ensures Represents(f, st, c) && !Forced(f, BeforeWrite(f, c, op), Written(op).value, q)
    decreases Depth(f, q)
  {
    var p, t := Written(op).value, Apply(f, st, op);
    WrittenState(f, st, op);
    ParentFacts(f, q);
    var a := Parent(f, q).value;
    if !DowncastsActive(f, t, a) {
      c := UnforcedMemory(f, st, op, a);
    } else {
      MarkedEnum(f, st, op, a);
      KidsAgree(f, a, q);
      c := OpenEnum(f, st, op, a, Variant(f, q));
    }
  }

  /** The discriminant of an enum on the certain way down. */
  lemma MarkedEnum(f: Forest, st: State, op: CleanupOp, a: nat)
    requires Ready(f, st, op) && Written(op).Some? && a in Subtree(f, Written(op).value)
    requires DowncastsActive(f, Apply(f, st, op), a) && IsEnum(f, a)
    ensures Disc(Apply(f, st, op), a) == MarkDiscriminant(f, Disc(Before(f, st, op), a), a, Marked(Must))
  {
    var p, pre := Written(op).value, Before(f, st, op);
    WrittenState(f, st, op);
    BeforeKeys(f, st, op);
    InitFacts(f, pre, p, a);
    MarkedDisc(f, pre, p, a);
    MarkedSets(f, pre, p, a);
    if a in Ancestors(f, p) { WithinAntisymmetric(f, a, p); }
  }

  lemma BeforeKeys(f: Forest, st: State, op: CleanupOp)
    requires Ready(f, st, op) && Written(op).Some?
    ensures Before(f, st, op).discriminants.Keys == EnumRoots(f)
  {
    match op
    case Init(p) =>
    case Overwrite(p) => ClearShaped(f, st, p);
    case Transfer(s, d, _) => HandedKeeps(f, st, s, d);
  }

  lemma WrittenMissing(f: Forest, st: State, op: CleanupOp, q: nat) returns (c': Concrete)
    requires Ready(f, st, op) && Written(op).Some? && q in Subtree(f, Written(op).value)
    requires q !in Apply(f, st, op).mustInit
    ensures Outcome(f, st, op, c') && Represents(f, Apply(f, st, op), c') && !Full(f, c', q) && q !in c'.active
  {
    WrittenState(f, st, op);
    var p := Written(op).value;
    var c := UnforcedMemory(f, st, op, q);
    BaseWellKinded(f, st, c, op);
    c' := UnforcedIsAvoidable(f, BeforeWrite(f, c, op), p, q);
    WriteIsFill(f, c, op, c');
    StepSound(f, st, c, op, c');
    UnselectedIsEmpty(f, BeforeWrite(f, c, op), p, c', q);
    assert q in Subtree(f, q);
    EmptyNotFull(f, c', q);
  }

  /* ----- what encloses a written path ----- */

  /** What is not possibly complete is in no outcome. */
  lemma ImpossibleMissing(f: Forest, st: State, op: CleanupOp, q: nat) returns (c': Concrete)
    requires Ready(f, st, op) && !op.AssumeDiscriminant? && q < |f| && q !in Apply(f, st, op).mayInit
    ensures Outcome(f, st, op, c') && Represents(f, Apply(f, st, op), c') && !Full(f, c', q)
  {
    c' := SomeOutcome(f, st, op);
    assert NodeOk(f, Apply(f, st, op), c', q);
  }

  /** What an operation leaves alone is missing where it was. */
  lemma UnaffectedMissing(f: Forest, st: State, op: CleanupOp, q: nat) returns (c': Concrete)
    requires Ready(f, st, op) && !op.AssumeDiscriminant? && q < |f| && !Affected(f, op, q)
    requires q !in Apply(f, st, op).mustInit
    ensures Outcome(f, st, op, c') && Represents(f, Apply(f, st, op), c') && !Full(f, c', q)
  {
    UnaffectedState(f, st, op, q);
    var c := MissingSomewhere(f, st, q);
    c' := SomeStep(f, st, c, op);
    UnaffectedMemory(f, c, op, c', q);
  }

  /** A part of an enclosing aggregate beside the written path is untouched, or gone for good. */
  lemma BesideMissing(f: Forest, st: State, op: CleanupOp, a: nat, j: nat) returns (c': Concrete)
    requires Ready(f, st, op) && Written(op).Some? && a in Ancestors(f, Written(op).value) && j in Kids(f, a)
    requires j !in Subtree(f, Written(op).value) && j !in Ancestors(f, Written(op).value)
    requires j < |f| && j !in Apply(f, st, op).mustInit
    ensures Outcome(f, st, op, c') && Represents(f, Apply(f, st, op), c') && !Full(f, c', j)
  {
    if op.Transfer? && (Within(f, op.source, j) || Within(f, j, op.source)) {
      WrittenState(f, st, op);
      var s, d := op.source, op.destination;
      ClearFacts(f, st, s, j);
      ClearFacts(f, ClearPath(f, st, s), d, j);
      HandedForm(f, st, s, d);
      InitFacts(f, Handed(f, st, s, d), d, j);
      c' := ImpossibleMissing(f, st, op, j);
    } else {
      c' := UnaffectedMissing(f, st, op, j);
    }
  }

  /** Whatever lacks a part that counts is incomplete. */
  lemma LacksPart(f: Forest, t: State, c: Concrete, a: nat, k: nat)
    requires Represents(f, t, c) && k in Kids(f, a) && !Full(f, c, k)
    requires IsEnum(f, a) ==> IsKnown(t, a, Variant(f, k))
    ensures !Full(f, c, a)
  {
    KidFacts(f, a, k);
    KidsAgree(f, a, k);
    if IsEnum(f, a) {
      assert a in EnumRoots(f);
      assert DiscOk(t, c, a);
    }
    assert k in ActiveKids(f, c, a);
  }

  lemma {:induction false} EnclosingMissing(f: Forest, st: State, op: CleanupOp, a: nat) returns (c': Concrete)
    requires Ready(f, st, op) && Written(op).Some? && a in Ancestors(f, Written(op).value)
    requires a !in Apply(f, st, op).mustInit
    ensures Outcome(f, st, op, c') && Represents(f, Apply(f, st, op), c') && !Full(f, c', a)
    decreases Height(f, a)
  {
    var p, t := Written(op).value, Apply(f, st, op);
    WrittenState(f, st, op);
    var k := TowardFacts(f, a, p);
    KidFacts(f, a, k);
    KidsAgree(f, a, k);
    assert Recomposed(f, t, a, k);
    StepInReach(f, t, a, k, p);
    if k !in t.mustInit {
      assert p in Subtree(f, p) && k != p;
      c' := EnclosingMissing(f, st, op, k);
      LacksPart(f, t, c', a, k);
    } else {
      var j :| j in Kids(f, a) && j !in t.mustInit;
      KidFacts(f, a, j);
      c' := BesideMissing(f, st, op, a, j);
      LacksPart(f, t, c', a, j);
    }
  }

  /* ----- nothing certain is missed ----- */

  /** Where an affected path that no write concerns may still be complete: nowhere. */
  lemma AffectedIsGone(f: Forest, st: State, op: CleanupOp, q: nat)
    requires Ready(f, st, op) && !op.AssumeDiscriminant? && q < |f| && Affected(f, op, q)
    requires Written(op).Some? ==> q !in Subtree(f, Written(op).value) && q !in Ancestors(f, Written(op).value)
    ensures q !in Apply(f, st, op).mayInit
  {
    match op
    case StorageLive(_) =>
    case StorageDead(_) =>
    case Init(p) => ApartIsOff(f, p, q);
    case MoveOut(p) => ApartIsOff(f, p, q); ClearFacts(f, st, p, q);
    case Overwrite(p) => ApartIsOff(f, p, q);
    case Transfer(s, d, _) =>
      ApartIsOff(f, s, q);
      ApartIsOff(f, d, q);
      ClearFacts(f, st, s, q);
      ClearFacts(f, ClearPath(f, st, s), d, q);
      HandedForm(f, st, s, d);
      InitFacts(f, Handed(f, st, s, d), d, q);
    case SetDiscriminant(p, _) => ApartIsOff(f, p, q); ClearFacts(f, st, p, q);
  }

  lemma MissedSomewhere(f: Forest, st: State, op: CleanupOp, q: nat) returns (c': Concrete)
    requires Ready(f, st, op) && !op.AssumeDiscriminant? && q < |f| && q !in Apply(f, st, op).mustInit
    ensures Outcome(f, st, op, c') && Represents(f, Apply(f, st, op), c') && !Full(f, c', q)
  {
    if Written(op).Some? && q in Subtree(f, Written(op).value) {
      c' := WrittenMissing(f, st, op, q);
    } else if Written(op).Some? && q in Ancestors(f, Written(op).value) {
      c' := EnclosingMissing(f, st, op, q);
    } else if Affected(f, op, q) {
      AffectedIsGone(f, st, op, q);
      c' := ImpossibleMissing(f, st, op, q);
    } else {
      c' := UnaffectedMissing(f, st, op, q);
    }
  }

  /**
   After an accepted operation a path is certainly complete in the state if and only if it is
   complete in every outcome: nothing certain is missed, nothing uncertain is claimed.
   */
  lemma CertainExactly(f: Forest, st: State, op: CleanupOp, q: nat)
    requires Ready(f, st, op) && !op.AssumeDiscriminant? && q < |f|
    ensures q in Apply(f, st, op).mustInit <==> forall c' | Outcome(f, st, op, c') :: Full(f, c', q)
  {
    if q in Apply(f, st, op).mustInit {
      forall c' | Outcome(f, st, op, c') ensures Full(f, c', q) { OutcomeDescribed(f, st, op, c', q); }
    } else {
      var c' := MissedSomewhere(f, st, op, q);
    }
  }

  lemma OutcomeDescribed(f: Forest, st: State, op: CleanupOp, c': Concrete, q: nat)
    requires Ready(f, st, op) && Outcome(f, st, op, c') && q < |f|
    ensures NodeOk(f, Apply(f, st, op), c', q) && (IsEnum(f, q) ==> DiscOk(Apply(f, st, op), c', q))
  {
    var c :| Represents(f, st, c) && Step(f, c, op, c');
    StepSound(f, st, c, op, c');
    assert q in EnumRoots(f) <==> IsEnum(f, q);
  }

  /* ----- nothing impossible is kept ----- */

  /** An initialization finds its path empty; the other operations empty it themselves. */
  ghost predicate Fresh(f: Forest, st: State, op: CleanupOp) {
    op.Init? ==> !MayHoldPart(f, st, op.path)
  }

  /** Before a fresh write nothing is selected below the written path, and there what is handed over. */
  lemma FreshBefore(f: Forest, st: State, op: CleanupOp, a: nat)
    requires Ready(f, st, op) && Written(op).Some? && Fresh(f, st, op) && a in Subtree(f, Written(op).value)
    ensures Disc(Before(f, st, op), a) ==
            if op.Transfer? && a == op.destination && IsEnum(f, op.source) && IsEnum(f, a) then Disc(st, op.source)
            else UNSELECTED
  {
    var p := Written(op).value;
    match op
    case Init(_) => assert !MayHold(st, a);
    case Overwrite(_) => ClearFacts(f, st, p, a);
    case Transfer(s, d, _) =>
      ClearFacts(f, ClearPath(f, st, s), d, a);
      HandedForm(f, st, s, d);
  }

  lemma NothingHeld(f: Forest, st: State, p: nat)
    requires Shaped(f, st) && p < |f| && !MayHoldPart(f, st, p)
    ensures Initialization(f, st, p) == Uninitialized
  {
    assert p in Subtree(f, p);
    assert p in st.mustInit ==> MayHold(st, p);
  }

  /** The memory that leads to a part: any, or one with the variant of the source that is handed over. */
  lemma OpenMemory(f: Forest, st: State, op: CleanupOp, q: nat) returns (c: Concrete)
    requires Ready(f, st, op) && Written(op).Some? && Fresh(f, st, op) && q in Subtree(f, Written(op).value)
    requires Reach(f, Apply(f, st, op), q)
    ensures Represents(f, st, c) && Open(f, BeforeWrite(f, c, op), Written(op).value, q)
  {
    var p := Written(op).value;
    WrittenState(f, st, op);
    if op.Transfer? && q != p && IsEnum(f, op.source) && IsEnum(f, p) {
      var k := Toward(f, p, q);
      HandedVariant(f, st, op, k, q);
      c := SelectedSomewhere(f, st, op.source, Variant(f, k));
      SelectedBase(f, c, op, k);
      OpenBelow(f, BeforeWrite(f, c, op), p, k, q);
    } else {
      c := SomeMemory(f, st, st.mayLive);
      if op.Init? {
        NothingHeld(f, st, p);
        DeadIsEmpty(f, st, c, p);
      }
      if op.Transfer? && q != p && IsEnum(f, p) { NoSourceEnum(f, c, op); }
      EmptyBaseIsOpen(f, c, op, q);
    }
  }

  /** The variant on the way down is one that the source may have selected. */
  lemma HandedVariant(f: Forest, st: State, op: CleanupOp, k: nat, q: nat)
    requires Ready(f, st, op) && op.Transfer? && k in Kids(f, op.destination) && Within(f, k, q) && q < |f|
    requires IsEnum(f, op.source) && IsEnum(f, op.destination) && Reach(f, Apply(f, st, op), q)
    ensures Variant(f, k) in Disc(st, op.source).possible
  {
    var s, d, t := op.source, op.destination, Apply(f, st, op);
    hide Apply; hide Tight; hide OpStateOk; hide ShapesMatch; hide IsEnum; hide Reach; hide WrittenWhole;
    WrittenState(f, st, op);
    KidsAgree(f, d, k);
    StepInReach(f, t, d, k, q);
    assert d in Subtree(f, d);
    MarkedEnum(f, st, op, d);
    HandedDisc(f, st, op, d);
    hide Ready;
    assert Variant(f, k) in Disc(t, d).possible;
  }

  lemma SelectedBase(f: Forest, c: Concrete, op: CleanupOp, k: nat)
    requires op.Transfer? && OpShapeOk(f, op) && IsEnum(f, op.source) && IsEnum(f, op.destination)
    requires op.source in c.active && c.active[op.source] == Variant(f, k) && k in Kids(f, op.destination)
    ensures var base := BeforeWrite(f, c, op);
            && op.destination in base.active && base.active[op.destination] == Variant(f, k)
            && forall r | r in base.active && r in Subtree(f, op.destination) :: r == op.destination
  {
  }

  lemma NoSourceEnum(f: Forest, c: Concrete, op: CleanupOp)
    requires op.Transfer? && OpShapeOk(f, op) && !IsEnum(f, op.source)
    ensures BeforeWrite(f, c, op) == Erase(c, Subtree(f, op.source) + Subtree(f, op.destination))
  {
  }

  /** With nothing selected further down, the way is open. */
  lemma {:induction false} OpenBelow(f: Forest, base: Concrete, p: nat, k: nat, q: nat)
    requires k in Kids(f, p) && Within(f, k, q) && q < |f|
    requires p in base.active && base.active[p] == Variant(f, k)
    requires forall r | r in base.active && r in Subtree(f, p) :: r == p
    ensures Open(f, base, p, q)
    decreases Depth(f, q)
  {
    KidFacts(f, p, k);
    ParentFacts(f, q);
    var a := Parent(f, q).value;
    if q != k {
      WithinRange(f, k, a);
      WithinTrans(f, p, k, a);
      OpenBelow(f, base, p, k, a);
    }
  }

  lemma EmptyBaseIsOpen(f: Forest, c: Concrete, op: CleanupOp, q: nat)
    requires Written(op).Some? && OpShapeOk(f, op) && q in Subtree(f, Written(op).value)
    requires op.Init? ==> Empty(f, c, op.path)
    requires op.Transfer? && q != op.destination ==> !IsEnum(f, op.source) || !IsEnum(f, op.destination)
    ensures Open(f, BeforeWrite(f, c, op), Written(op).value, q)
  {
    var p := Written(op).value;
    if q != p {
      forall x | x in Subtree(f, p) ensures !Present(BeforeWrite(f, c, op), x) {}
      EmptyIsOpen(f, BeforeWrite(f, c, op), p, q);
    }
  }

  /** A part of what is written that is in reach is reached by some outcome. */
  lemma WrittenReached(f: Forest, st: State, op: CleanupOp, q: nat) returns (c': Concrete)
    requires Ready(f, st, op) && Written(op).Some? && Fresh(f, st, op) && q in Subtree(f, Written(op).value)
    requires Reach(f, Apply(f, st, op), q)
    ensures Outcome(f, st, op, c') && Full(f, c', q) && Selected(f, c', Written(op).value, q)
  {
    var p := Written(op).value;
    var c := OpenMemory(f, st, op, q);
    BaseWellKinded(f, st, c, op);
    c' := OpenIsReachable(f, BeforeWrite(f, c, op), p, q, q);
    WriteIsFill(f, c, op, c');
    FilledIsFull(f, BeforeWrite(f, c, op), p, c', q);
  }

  lemma ReachedSomewhere(f: Forest, st: State, op: CleanupOp, q: nat) returns (c': Concrete)
    requires Ready(f, st, op) && !op.AssumeDiscriminant? && Fresh(f, st, op) && q < |f|
    requires Written(op).Some? ==> q !in Ancestors(f, Written(op).value)
    requires q in Apply(f, st, op).mayInit
    ensures Outcome(f, st, op, c') && Full(f, c', q)
  {
    if Written(op).Some? && q in Subtree(f, Written(op).value) {
      WrittenState(f, st, op);
      c' := WrittenReached(f, st, op, q);
    } else {
      if Affected(f, op, q) { AffectedIsGone(f, st, op, q); }
      UnaffectedState(f, st, op, q);
      var c := CompleteSomewhere(f, st, q);
      c' := SomeStep(f, st, c, op);
      UnaffectedMemory(f, c, op, c', q);
    }
  }

  /**
   A path may be complete in the state if and only if it is complete in some outcome, for
   every path that does not enclose the written one. What encloses it is recomputed from its
   parts.
   */
  lemma PossibleExactly(f: Forest, st: State, op: CleanupOp, q: nat)
    requires Ready(f, st, op) && !op.AssumeDiscriminant? && Fresh(f, st, op) && q < |f|
    requires Written(op).Some? ==> q !in Ancestors(f, Written(op).value)
    ensures q in Apply(f, st, op).mayInit <==> exists c' :: Outcome(f, st, op, c') && Full(f, c', q)
  {
    if q in Apply(f, st, op).mayInit { var c' := ReachedSomewhere(f, st, op, q); }
    if c' :| Outcome(f, st, op, c') && Full(f, c', q) { OutcomeDescribed(f, st, op, c', q); }
  }

  /** An enclosing path is complete for certain, or possibly, as its parts are that count. */
  lemma EnclosingExactly(f: Forest, st: State, op: CleanupOp, a: nat, k: nat)
    requires Ready(f, st, op) && Written(op).Some? && a in Ancestors(f, Written(op).value)
    requires k in Kids(f, a) && Within(f, k, Written(op).value)
    ensures Recomposed(f, Apply(f, st, op), a, k)
  {
    WrittenState(f, st, op);
  }

  /* ----- variants ----- */

  /** Where an operation forgets which variants were selected. */
  ghost predicate Wiped(f: Forest, op: CleanupOp, r: nat) {
    match op
    case StorageLive(l) => LocalOf(f, r) == l
    case StorageDead(l) => LocalOf(f, r) == l
    case Init(p) => r in Subtree(f, p)
    case MoveOut(p) => r in Subtree(f, p)
    case Overwrite(p) => r in Subtree(f, p)
    case Transfer(s, d, _) => r in Subtree(f, s) || r in Subtree(f, d)
    case SetDiscriminant(p, _) => r in Subtree(f, p)
    case AssumeDiscriminant(_, _) => false
  }

  /** Elsewhere the state keeps what it knows of a discriminant, and the memory keeps the variant. */
  lemma KeptVariant(f: Forest, st: State, op: CleanupOp, r: nat)
    requires Ready(f, st, op) && !op.AssumeDiscriminant? && r < |f| && !Wiped(f, op, r)
    ensures Disc(Apply(f, st, op), r) == Disc(st, r)
    ensures forall c, c' | Step(f, c, op, c') :: SameAt(c, c', r)
  {
    match op
    case StorageLive(_) =>
    case StorageDead(_) =>
    case Init(p) => InitFacts(f, st, p, r);
    case MoveOut(p) => ClearFacts(f, st, p, r);
    case Overwrite(p) =>
      ClearFacts(f, st, p, r);
      InitFacts(f, ClearPath(f, st, p), p, r);
      forall c, c' | Step(f, c, op, c') ensures SameAt(c, c', r) { WriteFrame(f, c, op, c', r); }
    case Transfer(s, d, _) =>
      ClearFacts(f, st, s, r);
      ClearFacts(f, ClearPath(f, st, s), d, r);
      HandedForm(f, st, s, d);
      InitFacts(f, Handed(f, st, s, d), d, r);
      assert d in Subtree(f, d);
      hide ClearPath; hide Handed; hide InitializePath; hide Tight; hide ShapesMatch;
      forall c, c' | Step(f, c, op, c') ensures SameAt(c, c', r) { WriteFrame(f, c, op, c', r); }
    case SetDiscriminant(p, _) => ClearFacts(f, st, p, r); assert p in Subtree(f, p);
  }

  /** What is wiped and not written knows no variant, except the one that is set. */
  lemma WipedVariant(f: Forest, st: State, op: CleanupOp, r: nat)
    requires Ready(f, st, op) && !op.AssumeDiscriminant? && r < |f| && Wiped(f, op, r)
    requires Written(op).Some? ==> r !in Subtree(f, Written(op).value)
    ensures Disc(Apply(f, st, op), r) ==
            if op.SetDiscriminant? && r == op.destination then Discriminant(false, {op.variant}) else UNSELECTED
  {
    match op
    case StorageLive(_) =>
    case StorageDead(_) =>
    case Init(p) =>
    case MoveOut(p) => ClearFacts(f, st, p, r);
    case Overwrite(p) =>
    case Transfer(s, d, _) =>
      ClearFacts(f, st, s, r);
      ClearFacts(f, ClearPath(f, st, s), d, r);
      HandedForm(f, st, s, d);
      InitFacts(f, Handed(f, st, s, d), d, r);
      assert d in Subtree(f, d);
    case SetDiscriminant(p, v) =>
      ClearFacts(f, st, p, r);
      VariantsMeanEnum(f, p, v);
  }

  lemma VariantReached(f: Forest, st: State, op: CleanupOp, r: nat, v: nat) returns (c': Concrete)
    requires Ready(f, st, op) && !op.AssumeDiscriminant? && Fresh(f, st, op) && r < |f| && IsEnum(f, r)
    requires v in Disc(Apply(f, st, op), r).possible
    ensures Outcome(f, st, op, c') && r in c'.active && c'.active[r] == v
  {
    if Written(op).Some? && r in Subtree(f, Written(op).value) {
      c' := WrittenVariant(f, st, op, r, v);
    } else if Wiped(f, op, r) {
      WipedVariant(f, st, op, r);
      c' := SomeOutcome(f, st, op);
      assert r in EnumRoots(f) && DiscOk(Apply(f, st, op), c', r);
    } else {
      KeptVariant(f, st, op, r);
      var c := SelectedSomewhere(f, st, r, v);
      c' := SomeStep(f, st, c, op);
    }
  }

  lemma WrittenVariant(f: Forest, st: State, op: CleanupOp, r: nat, v: nat) returns (c': Concrete)
    requires Ready(f, st, op) && Written(op).Some? && Fresh(f, st, op) && r in Subtree(f, Written(op).value)
    requires IsEnum(f, r) && v in Disc(Apply(f, st, op), r).possible
    ensures Outcome(f, st, op, c') && r in c'.active && c'.active[r] == v
  {
    var p, t := Written(op).value, Apply(f, st, op);
    WrittenState(f, st, op);
    var k := VariantKid(f, r, v);
    WrittenKid(f, t, p, r, k);
    KidFacts(f, r, k);
    c' := WrittenReached(f, st, op, k);
    if k == p { WithinAntisymmetric(f, p, r); }
  }

  lemma UnsetReached(f: Forest, st: State, op: CleanupOp, r: nat) returns (c': Concrete)
    requires Ready(f, st, op) && !op.AssumeDiscriminant? && r < |f| && IsEnum(f, r)
    requires Disc(Apply(f, st, op), r).mayBeUnset
    ensures Outcome(f, st, op, c') && r !in c'.active
  {
    if Written(op).Some? && r in Subtree(f, Written(op).value) {
      WrittenState(f, st, op);
      c' := WrittenMissing(f, st, op, r);
    } else if Wiped(f, op, r) {
      WipedVariant(f, st, op, r);
      c' := SomeOutcome(f, st, op);
      assert r in EnumRoots(f) && DiscOk(Apply(f, st, op), c', r);
    } else {
      KeptVariant(f, st, op, r);
      var c := UnsetSomewhere(f, st, r);
      c' := SomeStep(f, st, c, op);
    }
  }

  /**
   The variants that the state holds possible are those of the outcomes, and an enum may be
   unset if and only if it is in some outcome. So a transfer hands over what is known of the
   source's variant, and selecting a variant leaves that one alone.
   */
  lemma VariantsExactly(f: Forest, st: State, op: CleanupOp, r: nat, v: nat)
    requires Ready(f, st, op) && !op.AssumeDiscriminant? && Fresh(f, st, op) && r < |f| && IsEnum(f, r)
    ensures v in Disc(Apply(f, st, op), r).possible
            <==> exists c' :: Outcome(f, st, op, c') && r in c'.active && c'.active[r] == v
    ensures Disc(Apply(f, st, op), r).mayBeUnset <==> exists c' :: Outcome(f, st, op, c') && r !in c'.active
  {
    hide Ready;
    if v in Disc(Apply(f, st, op), r).possible { var c' := VariantReached(f, st, op, r, v); }
    if Disc(Apply(f, st, op), r).mayBeUnset { var c' := UnsetReached(f, st, op, r); }
    forall c' | Outcome(f, st, op, c') ensures DiscOk(Apply(f, st, op), c', r) { OutcomeDescribed(f, st, op, c', r); }
    hide Outcome; hide Apply;
  }

  /* ----- storage ----- */

  lemma StepLive(f: Forest, c: Concrete, op: CleanupOp, c': Concrete)
    requires Step(f, c, op, c')
    ensures c'.live == match op
                       case StorageLive(l) => c.live + {l}
                       case StorageDead(l) => c.live - {l}
                       case _ => c.live
  {
  }

  lemma ApplyLive(f: Forest, st: State, op: CleanupOp)
    requires Ready(f, st, op)
    ensures var t := Apply(f, st, op);
            match op
            case StorageLive(l) => t.mustLive == st.mustLive + {l} && t.mayLive == st.mayLive + {l}
            case StorageDead(l) => t.mustLive == st.mustLive - {l} && t.mayLive == st.mayLive - {l}
            case _ => t.mustLive == st.mustLive && t.mayLive == st.mayLive
  {
    match op
    case StorageLive(_) =>
    case StorageDead(_) =>
    case Init(p) => InitFacts(f, st, p, p);
    case MoveOut(p) => ClearFacts(f, st, p, p);
    case Overwrite(p) => ClearFacts(f, st, p, p); InitFacts(f, ClearPath(f, st, p), p, p);
    case Transfer(s, d, _) =>
      ClearFacts(f, st, s, s);
      ClearFacts(f, ClearPath(f, st, s), d, d);
      HandedForm(f, st, s, d);
      InitFacts(f, Handed(f, st, s, d), d, d);
    case SetDiscriminant(p, _) => ClearFacts(f, st, p, p);
    case AssumeDiscriminant(r, v) =>
      var k := VariantKid(f, r, v);
      AssumeMeaning(f, st, r, v, k);
  }

  /** Storage is live for certain, or possibly, as it is in all outcomes, or in some. */
  lemma StorageExactly(f: Forest, st: State, op: CleanupOp, l: LocalId)
    requires Ready(f, st, op) && !op.AssumeDiscriminant?
    ensures l in Apply(f, st, op).mustLive <==> forall c' | Outcome(f, st, op, c') :: l in c'.live
    ensures l in Apply(f, st, op).mayLive <==> exists c' :: Outcome(f, st, op, c') && l in c'.live
  {
    ApplyLive(f, st, op);
    var least := SomeMemory(f, st, st.mustLive);
    var most := SomeMemory(f, st, st.mayLive);
    var low := SomeStep(f, st, least, op);
    var high := SomeStep(f, st, most, op);
    StepLive(f, least, op, low);
    StepLive(f, most, op, high);
    forall c' | Outcome(f, st, op, c')
      ensures l in Apply(f, st, op).mustLive ==> l in c'.live
      ensures l in c'.live ==> l in Apply(f, st, op).mayLive
    {
      var c :| Represents(f, st, c) && Step(f, c, op, c');
      StepLive(f, c, op, c');
    }
    hide Outcome; hide Apply; hide Represents; hide Step; hide Ready;
  }

  /* ----- guards ----- */

  /**
   A guard leaves exactly one possible variant and its payload complete; the other payloads
   are ruled out, and outside of the enum nothing changes.
   */
  lemma GuardExactly(f: Forest, st: State, r: nat, v: nat, q: nat)
    requires Ready(f, st, AssumeDiscriminant(r, v)) && q < |f|
    ensures var t := Apply(f, st, AssumeDiscriminant(r, v));
            && Disc(t, r) == Discriminant(false, {v}) && r in t.mustInit
            && (q in Kids(f, r) ==>
                  if Variant(f, q) == v then q in t.mustInit else !MayHoldPart(f, t, q))
            && (q !in Subtree(f, r) ==>
                  && (q in t.mustInit <==> q in st.mustInit) && (q in t.mayInit <==> q in st.mayInit)
                  && Disc(t, q) == Disc(st, q))
  {
    var t := Apply(f, st, AssumeDiscriminant(r, v));
    var k := VariantKid(f, r, v);
    AssumeMeaning(f, st, r, v, k);
    KidFacts(f, r, k);
    if r in Subtree(f, k) { WithinAntisymmetric(f, r, k); }
    if r in OtherVariants(f, r, v) { PayloadsApart(f, r, v, k, r); }
    AssumeElsewhere(f, st, r, v, k, r);
    if q in Kids(f, r) {
      GuardedPayload(f, st, r, v, k, q);
    }
    if q !in Subtree(f, r) {
      if q in Subtree(f, k) { WithinTrans(f, r, k, q); }
      if q in OtherVariants(f, r, v) { PayloadsApart(f, r, v, k, q); }
      AssumeElsewhere(f, st, r, v, k, q);
    }
  }

  lemma GuardedPayload(f: Forest, st: State, r: nat, v: nat, k: nat, q: nat)
    requires Ready(f, st, AssumeDiscriminant(r, v)) && q in Kids(f, r)
    requires k in Kids(f, r) && IsDowncast(f, k) && Variant(f, k) == v
    ensures var t := Apply(f, st, AssumeDiscriminant(r, v));
            if Variant(f, q) == v then q in t.mustInit else !MayHoldPart(f, t, q)
  {
    var t := Apply(f, st, AssumeDiscriminant(r, v));
    AssumeMeaning(f, st, r, v, k);
    KidFacts(f, r, q);
    KidsAgree(f, r, k);
    KidsAgree(f, r, q);
    if Variant(f, q) == v {
      VariantInjective(f, r, q, k);
      assert k in Subtree(f, k);
    } else {
      forall x | x in Subtree(f, q) ensures !MayHold(t, x) {
        InOther(f, r, v, q, x);
        PayloadsApart(f, r, v, k, x);
        AssumeElsewhere(f, st, r, v, k, x);
      }
    }
  }
}
