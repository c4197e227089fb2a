/**
 A consistent state says exactly what its memories say, and the verifier's checks ask for
 exactly what is safe in all of them.
 */
module Exactness {
  import opened Wrappers
  import opened CleanupPlan
  import opened MovePaths
  import opened MoveStates
  import opened Checks
  import opened Semantics
  import opened Simulation
  import opened Runs
  import opened TightStates
  import opened Witnesses

  /** A reachable state that is consistent with itself. */
  ghost predicate Consistent(f: Forest, st: State) { Tight(f, st) && Shaped(f, st) && st.reachable }

  /* ----- choosing variants ----- */

  /** A possible variant of `r`, one whose payload may be complete if there is such. */
  ghost function Suitable(f: Forest, st: State, r: nat): (v: nat)
    requires Disc(st, r).possible != {}
    ensures v in Disc(st, r).possible
    ensures (exists k :: k in Kids(f, r) && k in st.mayInit && Variant(f, k) in Disc(st, r).possible) ==>
              exists k :: k in Kids(f, r) && k in st.mayInit && Variant(f, k) == v
  {
    if exists k :: k in Kids(f, r) && k in st.mayInit && Variant(f, k) in Disc(st, r).possible then
      var k :| k in Kids(f, r) && k in st.mayInit && Variant(f, k) in Disc(st, r).possible;
      Variant(f, k)
    else
      var v :| v in Disc(st, r).possible; v
  }

  /** Leading to `goal`, or away from it where that can be avoided. */
  ghost function Lead(f: Forest, st: State, goal: nat, toward: bool, r: nat): (v: nat)
    requires goal < |f| && Disc(st, r).possible != {}
    ensures v in Disc(st, r).possible || (toward && r in Ancestors(f, goal))
  {
    if r in Ancestors(f, goal) then
      var w := Variant(f, Toward(f, r, goal));
      if toward then w
      else if exists v :: v in Disc(st, r).possible && v != w then
        var v :| v in Disc(st, r).possible && v != w; v
      else Suitable(f, st, r)
    else Suitable(f, st, r)
  }

  ghost function Leads(f: Forest, st: State, goal: nat, toward: bool): map<nat, nat>
    requires goal < |f|
  {
    map r | r in EnumRoots(f) && Disc(st, r).possible != {} :: Lead(f, st, goal, toward, r)
  }

  /** The enums on the way to `goal`. */
  ghost function EnumsAbove(f: Forest, goal: nat): set<nat> {
    set r | r in Ancestors(f, goal) && r in EnumRoots(f)
  }

  lemma EnumOnTheWay(f: Forest, st: State, goal: nat, r: nat) returns (k: nat)
    requires goal < |f| && Reach(f, st, goal) && r in EnumsAbove(f, goal)
    ensures k == Toward(f, r, goal) && k in Kids(f, r) && IsDowncast(f, k) && Within(f, k, goal)
    ensures Variant(f, k) in Disc(st, r).possible && LocalOf(f, r) == LocalOf(f, goal)
  {
    k := Toward(f, r, goal);
    KidsAgree(f, r, k);
    StepInReach(f, st, r, k, goal);
    WithinRange(f, r, goal);
  }

  /** Everything on the way selected, and complete in the end if wanted. */
  ghost function TowardAim(f: Forest, st: State, goal: nat, complete: bool): Aim
    requires goal < |f|
  {
    Aim(if complete then Some(goal) else None, Leads(f, st, goal, true), EnumsAbove(f, goal), st.mayLive)
  }

  ghost function AwayAim(f: Forest, st: State, goal: nat): Aim
    requires goal < |f|
  {
    Aim(None, Leads(f, st, goal, false), {}, st.mayLive)
  }

  lemma TowardFits(f: Forest, st: State, goal: nat, complete: bool)
    requires Consistent(f, st) && goal < |f| && Reach(f, st, goal) && LocalOf(f, goal) in st.mayLive
    requires complete ==> goal in st.mayInit
    ensures Apt(f, st, TowardAim(f, st, goal, complete))
  {
    var x := TowardAim(f, st, goal, complete);
    forall r | r in EnumRoots(f) && Disc(st, r).possible != {}
      ensures r in x.choice && x.choice[r] in Disc(st, r).possible
    {
      if r in Ancestors(f, goal) { var k := EnumOnTheWay(f, st, goal, r); }
    }
    forall r | r in x.on ensures r in EnumRoots(f) && Disc(st, r).possible != {} && LocalOf(f, r) in x.live {
      var k := EnumOnTheWay(f, st, goal, r);
    }
    if complete {
      forall a, k | a in Subtree(f, goal) && a in st.mayInit && k in Kids(f, a) && IsDowncast(f, k)
                    && PickOf(x, a) == Variant(f, k)
        ensures k in st.mayInit
      {
        SuitablePayload(f, st, goal, true, a, k);
      }
    }
  }

  /** Below the goal, the chosen payload of what may be complete may be complete. */
  lemma SuitablePayload(f: Forest, st: State, goal: nat, toward: bool, a: nat, k: nat)
    requires Consistent(f, st) && goal < |f| && a in Subtree(f, goal) && a in st.mayInit
    requires k in Kids(f, a) && IsDowncast(f, k)
    ensures a in Leads(f, st, goal, toward)
    ensures Leads(f, st, goal, toward)[a] == Variant(f, k) ==> k in st.mayInit
  {
    KidsAgree(f, a, k);
    assert TightAt(f, st, a);
    var j :| j in Kids(f, a) && j in st.mayInit;
    KidFacts(f, a, j);
    KidsAgree(f, a, j);
    assert TightAt(f, st, j) && Variant(f, j) in Disc(st, a).possible;
    assert a in EnumRoots(f);
    if a in Ancestors(f, goal) { WithinAntisymmetric(f, a, goal); }
    if Suitable(f, st, a) == Variant(f, k) {
      var i :| i in Kids(f, a) && i in st.mayInit && Variant(f, i) == Suitable(f, st, a);
      VariantInjective(f, a, i, k);
    }
  }

  lemma AwayFits(f: Forest, st: State, goal: nat)
    requires Consistent(f, st) && goal < |f|
    ensures Apt(f, st, AwayAim(f, st, goal))
  {
  }

  lemma OnTheWay(f: Forest, st: State, goal: nat, complete: bool, a: nat, q: nat)
    requires Consistent(f, st) && goal < |f| && Reach(f, st, goal) && q in Kids(f, a) && IsDowncast(f, q)
    requires Within(f, q, goal)
    ensures a in TowardAim(f, st, goal, complete).on && PickOf(TowardAim(f, st, goal, complete), a) == Variant(f, q)
  {
    hide Tight; hide Suitable;
    KidFacts(f, a, q);
    WithinTrans(f, a, q, goal);
    WithinRange(f, a, goal);
    WithinRange(f, q, goal);
    KidsAgree(f, a, q);
    assert a in Ancestors(f, goal) && a in EnumRoots(f);
    var k := EnumOnTheWay(f, st, goal, a);
    KidsDisjoint(f, a, k, q, goal);
  }

  /** On the way to `goal`, everything is there. */
  lemma {:induction false} TowardOn(f: Forest, st: State, goal: nat, complete: bool, q: nat)
    requires Consistent(f, st) && goal < |f| && Reach(f, st, goal) && LocalOf(f, goal) in st.mayLive
    requires (complete ==> goal in st.mayInit) && Within(f, q, goal)
    ensures q < |f| && !ModeOf(f, st, TowardAim(f, st, goal, complete), q).Off?
    decreases Depth(f, q)
  {
    var x := TowardAim(f, st, goal, complete);
    WithinRange(f, q, goal);
    if Parent(f, q).Some? {
      ParentFacts(f, q);
      var a := Parent(f, q).value;
      WithinTrans(f, a, q, goal);
      TowardOn(f, st, goal, complete, a);
      if IsDowncast(f, q) { OnTheWay(f, st, goal, complete, a, q); }
    }
  }

  /** Away from `goal`, only what is certain is whole on the way to it. */
  lemma {:induction false} AwayWhole(f: Forest, st: State, goal: nat, q: nat)
    requires Consistent(f, st) && goal < |f| && Within(f, q, goal)
    requires ModeOf(f, st, AwayAim(f, st, goal), q).Whole?
    ensures q in st.mustInit
    decreases Depth(f, q)
  {
    var x := AwayAim(f, st, goal);
    WithinRange(f, q, goal);
    if Parent(f, q).Some? && q !in st.mustInit {
      ParentFacts(f, q);
      var a := Parent(f, q).value;
      WithinTrans(f, a, q, goal);
      AwayWhole(f, st, goal, a);
      AwayStep(f, st, goal, a, q);
    }
  }

  lemma AwayStep(f: Forest, st: State, goal: nat, a: nat, k: nat)
    requires Consistent(f, st) && goal < |f| && k in Kids(f, a) && Within(f, k, goal) && a in st.mustInit
    requires IsDowncast(f, k) ==> PickOf(AwayAim(f, st, goal), a) == Variant(f, k)
    ensures k in st.mustInit
  {
    KidFacts(f, a, k);
    KidsAgree(f, a, k);
    WithinTrans(f, a, k, goal);
    WithinRange(f, k, goal);
    assert a in Ancestors(f, goal) && TightAt(f, st, a);
    if IsEnum(f, a) {
      KidsDisjoint(f, a, Toward(f, a, goal), k, goal);
      assert a in EnumRoots(f);
      var possible := Disc(st, a).possible;
      assert forall v | v in possible :: v == Variant(f, k);
      assert possible == {Variant(f, k)};
      assert IsKnown(st, a, Variant(f, k));
    }
  }

  /* ----- what a state says ----- */

  lemma SomeMemory(f: Forest, st: State, live: set<LocalId>) returns (c: Concrete)
    requires Consistent(f, st) && st.mustLive <= live <= st.mayLive
    ensures Represents(f, st, c) && c.live == live
  {
    var choice := map r | r in EnumRoots(f) && Disc(st, r).possible != {} :: Suitable(f, st, r);
    var x := Aim(None, choice, {}, live);
    MemoryDescribed(f, st, x);
    c := Memory(f, st, x);
  }

  /** What is not certainly complete is incomplete in some memory. */
  lemma MissingSomewhere(f: Forest, st: State, q: nat) returns (c: Concrete)
    requires Consistent(f, st) && q < |f| && q !in st.mustInit
    ensures Represents(f, st, c) && !Full(f, c, q)
  {
    var x := AwayAim(f, st, q);
    AwayFits(f, st, q);
    MemoryDescribed(f, st, x);
    c := Memory(f, st, x);
    match ModeOf(f, st, x, q)
    case Off => OffIsEmpty(f, st, x, q);
    case Base => if Full(f, c, q) { BaseFull(f, st, x, q); }
    case Whole => AwayWhole(f, st, q, q);
  }

  /** What may be complete is complete in some memory. */
  lemma CompleteSomewhere(f: Forest, st: State, q: nat) returns (c: Concrete)
    requires Consistent(f, st) && q < |f| && q in st.mayInit
    ensures Represents(f, st, c) && Full(f, c, q)
  {
    assert TightAt(f, st, q);
    var x := TowardAim(f, st, q, true);
    TowardFits(f, st, q, true);
    TowardOn(f, st, q, true, q);
    MemoryDescribed(f, st, x);
    c := Memory(f, st, x);
    assert Wanted(st, x, q);
    WholeIsFull(f, st, x, q);
  }

  /** A possible variant is selected in some memory. */
  lemma SelectedSomewhere(f: Forest, st: State, r: nat, v: nat) returns (c: Concrete)
    requires Consistent(f, st) && r < |f| && v in Disc(st, r).possible
    ensures Represents(f, st, c) && r in c.active && c.active[r] == v
  {
    assert TightAt(f, st, r);
    ShapedVariants(f, st, r);
    var k := VariantKid(f, r, v);
    KidFacts(f, r, k);
    KidsAgree(f, r, k);
    var x := TowardAim(f, st, k, false);
    assert Reach(f, st, k);
    TowardFits(f, st, k, false);
    TowardOn(f, st, k, false, r);
    MemoryDescribed(f, st, x);
    c := Memory(f, st, x);
    assert r in Ancestors(f, k) && r in EnumRoots(f);
    KidsDisjoint(f, r, Toward(f, r, k), k, k);
    MemoryAt(f, st, x, r);
  }

  /** An enum that may be unset is unset in some memory. */
  lemma UnsetSomewhere(f: Forest, st: State, r: nat) returns (c: Concrete)
    requires Consistent(f, st) && r < |f| && Disc(st, r).mayBeUnset
    ensures Represents(f, st, c) && r !in c.active
  {
    var x := AwayAim(f, st, r);
    AwayFits(f, st, r);
    MemoryDescribed(f, st, x);
    c := Memory(f, st, x);
    MemoryAt(f, st, x, r);
    assert TightAt(f, st, r);
    if ModeOf(f, st, x, r).Whole? && IsEnum(f, r) { AwayWhole(f, st, r, r); }
  }

  /**
   A consistent state says exactly what holds in all its memories: which paths are certainly
   or possibly complete, which variants are possible, which storage is live.
   */
  lemma SaysExactly(f: Forest, st: State, q: nat)
    requires Consistent(f, st) && q < |f|
    ensures q in st.mustInit <==> forall c | Represents(f, st, c) :: Full(f, c, q)
    ensures q in st.mayInit <==> exists c :: Represents(f, st, c) && Full(f, c, q)
    ensures IsEnum(f, q) ==> (Disc(st, q).mayBeUnset <==> exists c :: Represents(f, st, c) && q !in c.active)
    ensures forall v :: IsEnum(f, q) ==>
              (v in Disc(st, q).possible <==> exists c :: Represents(f, st, c) && q in c.active && c.active[q] == v)
  {
    hide Tight; hide Shaped;
    forall c | Represents(f, st, c)
      ensures NodeOk(f, st, c, q) && (IsEnum(f, q) ==> DiscOk(st, c, q))
    {
      assert q in EnumRoots(f) <==> IsEnum(f, q);
    }
    if q !in st.mustInit { var c := MissingSomewhere(f, st, q); }
    if q in st.mayInit { var c := CompleteSomewhere(f, st, q); }
    if Disc(st, q).mayBeUnset { var c := UnsetSomewhere(f, st, q); }
    forall v | v in Disc(st, q).possible ensures exists c :: Represents(f, st, c) && q in c.active && c.active[q] == v {
      var c := SelectedSomewhere(f, st, q, v);
    }
    hide Represents; hide Full;
  }

  /** The same for storage. */
  lemma LivenessExactly(f: Forest, st: State, l: LocalId)
    requires Consistent(f, st)
    ensures Liveness(st, l) == Live <==> forall c | Represents(f, st, c) :: l in c.live
    ensures Liveness(st, l) == Dead <==> forall c | Represents(f, st, c) :: l !in c.live
  {
    var least := SomeMemory(f, st, st.mustLive);
    var most := SomeMemory(f, st, st.mayLive);
    forall c | Represents(f, st, c) ensures st.mustLive <= c.live <= st.mayLive {}
    hide Represents;
  }

  /* ----- what the checks ask ----- */

  /** Some memory is in another variant than the way to `p` needs. */
  lemma {:induction false} AstraySomewhere(f: Forest, st: State, p: nat) returns (c: Concrete)
    requires Consistent(f, st) && p < |f| && !DowncastsActive(f, st, p)
    ensures Represents(f, st, c) && !ActiveChain(f, c, p)
    decreases Depth(f, p)
  {
    ParentFacts(f, p);
    var a := Parent(f, p).value;
    if !DowncastsActive(f, st, a) {
      c := AstraySomewhere(f, st, a);
    } else if Disc(st, a).mayBeUnset {
      c := UnsetSomewhere(f, st, a);
    } else {
      assert TightAt(f, st, a);
      var v := OtherPossible(f, st, a, Variant(f, p));
      c := SelectedSomewhere(f, st, a, v);
    }
  }

  lemma OtherPossible(f: Forest, st: State, a: nat, w: nat) returns (v: nat)
    requires DiscFits(st, a) && !Disc(st, a).mayBeUnset && !IsKnown(st, a, w)
    ensures v in Disc(st, a).possible && v != w
  {
    var x :| x in Disc(st, a).possible;
    if x != w { return x; }
    assert Disc(st, a).possible - {w} != {};
    v :| v in Disc(st, a).possible - {w};
  }

  /** What may hold something holds something in some memory. */
  lemma HeldSomewhere(f: Forest, st: State, p: nat) returns (c: Concrete)
    requires Consistent(f, st) && p < |f| && MayHoldPart(f, st, p)
    ensures Represents(f, st, c) && !Empty(f, c, p)
  {
    var q :| q in Subtree(f, p) && MayHold(st, q);
    assert TightAt(f, st, q);
    if q in st.mayInit {
      c := CompleteSomewhere(f, st, q);
      var x := FullIsPresent(f, c, q);
      WithinTrans(f, p, q, x);
    } else {
      var v :| v in Disc(st, q).possible;
      c := SelectedSomewhere(f, st, q, v);
    }
  }

  /** Ready means usable in every memory. */
  lemma ReadyExactly(f: Forest, st: State, p: nat)
    requires Consistent(f, st) && p < |f|
    ensures PathReady(f, st, p) <==> forall c | Represents(f, st, c) :: Usable(f, c, p)
  {
    LivenessExactly(f, st, LocalOf(f, p));
    forall c | Represents(f, st, c) && PathReady(f, st, p) ensures Usable(f, c, p) { ReadyIsUsable(f, st, c, p); }
    if !DowncastsActive(f, st, p) { var c := AstraySomewhere(f, st, p); }
    hide Represents; hide ActiveChain; hide DowncastsActive;
  }

  lemma EmptyExactly(f: Forest, st: State, p: nat)
    requires Consistent(f, st) && p < |f|
    ensures !MayHoldPart(f, st, p) <==> forall c | Represents(f, st, c) :: Empty(f, c, p)
    ensures p in st.mustInit ==> MayHoldPart(f, st, p)
  {
    if MayHoldPart(f, st, p) { var c := HeldSomewhere(f, st, p); }
    if p in st.mustInit { assert p in Subtree(f, p) && MayHold(st, p); }
    forall c | Represents(f, st, c) && !MayHoldPart(f, st, p) ensures Empty(f, c, p) { DeadIsEmpty(f, st, c, p); }
  }

  lemma CompleteExactly(f: Forest, st: State, p: nat)
    requires Consistent(f, st) && p < |f|
    ensures p in st.mustInit <==> forall c | Represents(f, st, c) :: Full(f, c, p)
  {
    SaysExactly(f, st, p);
  }

  ghost predicate AlwaysSafe(f: Forest, st: State, op: CleanupOp) {
    forall c | Represents(f, st, c) :: OpSafe(f, c, op)
  }

  /** Some memory is incomplete at `p`, and some holds something there. */
  ghost predicate Unsettled(f: Forest, st: State, p: nat) {
    && (exists c :: Represents(f, st, c) && !Full(f, c, p))
    && (exists c :: Represents(f, st, c) && !Empty(f, c, p))
  }

  /** `MaybeOverwrite` is for a destination that is neither always complete nor always empty. */
  ghost predicate KindFits(f: Forest, st: State, op: CleanupOp) {
    op.Transfer? && op.kind == MaybeOverwrite ==> Unsettled(f, st, op.destination)
  }

  /** The path on which an operation works, and the other one of a transfer. */
  function Touched(op: CleanupOp): set<nat> {
    match op
    case StorageLive(_) => {}
    case StorageDead(_) => {}
    case Init(p) => {p}
    case MoveOut(p) => {p}
    case Overwrite(p) => {p}
    case Transfer(s, d, _) => {s, d}
    case SetDiscriminant(p, _) => {p}
    case AssumeDiscriminant(r, _) => {r}
  }

  lemma SafeIsAccepted(f: Forest, st: State, op: CleanupOp)
    requires Consistent(f, st) && OpShapeOk(f, op) && AlwaysSafe(f, st, op) && KindFits(f, st, op)
    ensures OpStateOk(f, st, op)
  {
    forall p | p in Touched(op)
      ensures p < |f|
      ensures PathReady(f, st, p) <==> forall c | Represents(f, st, c) :: Usable(f, c, p)
      ensures !MayHoldPart(f, st, p) <==> forall c | Represents(f, st, c) :: Empty(f, c, p)
      ensures p in st.mustInit ==> MayHoldPart(f, st, p)
      ensures p in st.mustInit <==> forall c | Represents(f, st, c) :: Full(f, c, p)
    {
      ReadyExactly(f, st, p);
      EmptyExactly(f, st, p);
      CompleteExactly(f, st, p);
    }
    if op.StorageLive? { LivenessExactly(f, st, op.local); }
    hide Represents; hide Usable; hide Empty; hide Full; hide PathReady; hide MayHoldPart; hide Consistent;
    hide ShapesMatch;
    match op
    case AssumeDiscriminant(r, _) => ReadyPart(f, st, r);
    case _ =>
  }

  lemma ReadyPart(f: Forest, st: State, p: nat)
    ensures PathReady(f, st, p) ==> Liveness(st, LocalOf(f, p)) == Live
  {
  }

  /**
   The checks are exact: an operation is accepted if and only if it is safe in every memory
   that the state describes, and a transfer that may overwrite meets a destination that is
   neither always complete nor always empty.
   */
  lemma ChecksExact(f: Forest, st: State, op: CleanupOp)
    requires Consistent(f, st) && OpShapeOk(f, op)
    ensures OpStateOk(f, st, op) <==> AlwaysSafe(f, st, op) && KindFits(f, st, op)
  {
    if OpStateOk(f, st, op) {
      forall c | Represents(f, st, c) ensures OpSafe(f, c, op) { AcceptedIsSafe(f, st, c, op); }
      if op.Transfer? && op.kind == MaybeOverwrite {
        CompleteExactly(f, st, op.destination);
        EmptyExactly(f, st, op.destination);
      }
    }
    if AlwaysSafe(f, st, op) && KindFits(f, st, op) { SafeIsAccepted(f, st, op); }
  }

  /** Of the three kinds of transfer exactly one is accepted, by what is left at the destination. */
  lemma OneKindFits(f: Forest, st: State, s: nat, d: nat, kind: TransferKind)
    requires Shaped(f, st) && OpShapeOk(f, Transfer(s, d, kind))
    requires PathReady(f, st, s) && PathReady(f, st, d) && s in st.mustInit
    ensures OpStateOk(f, st, Transfer(s, d, kind)) <==>
            match kind
            case OverwriteKind => d in st.mustInit
            case Initialize =>
              forall q | q in Subtree(f, d) :: q !in st.mayInit && (IsEnum(f, q) ==> Disc(st, q) == UNSELECTED)
            case MaybeOverwrite =>
              && d !in st.mustInit
              && exists q :: q in Subtree(f, d) && (q in st.mayInit || (IsEnum(f, q) && Disc(st, q) != UNSELECTED))
  {
    assert forall q | q in Subtree(f, d) :: MayHold(st, q) <==> q in st.mayInit || Disc(st, q) != UNSELECTED;
    forall q | q in Subtree(f, d) ensures Disc(st, q) != UNSELECTED ==> IsEnum(f, q) {
      assert q in EnumRoots(f) <==> IsEnum(f, q);
    }
    assert d in Subtree(f, d);
    assert d in st.mustInit ==> MayHold(st, d);
  }

  /* ----- terminators ----- */

  /** The local is live and its value complete. */
  ghost predicate Held(f: Forest, c: Concrete, l: LocalId) {
    l in c.live && exists r: nat :: r < |f| && f[r].parent == None && LocalOf(f, r) == l && Full(f, c, r)
  }

  lemma HeldExactly(f: Forest, st: State, l: LocalId)
    requires Consistent(f, st)
    ensures RootStateOk(f, st, l) <==> forall c | Represents(f, st, c) :: Held(f, c, l)
  {
    LivenessExactly(f, st, l);
    if RootStateOk(f, st, l) {
      var r: nat :| r < |f| && f[r].parent == None && LocalOf(f, r) == l && Initialization(f, st, r) == Initialized;
      CompleteExactly(f, st, r);
    }
    if forall c | Represents(f, st, c) :: Held(f, c, l) {
      var c0 := SomeMemory(f, st, st.mayLive);
      var r: nat :| r < |f| && f[r].parent == None && LocalOf(f, r) == l && Full(f, c0, r);
      forall c | Represents(f, st, c) ensures Full(f, c, r) {
        assert Held(f, c, l);
        var s: nat :| s < |f| && f[s].parent == None && LocalOf(f, s) == l && Full(f, c, s);
        SameRoot(f, r, s);
      }
      CompleteExactly(f, st, r);
    }
  }

  lemma SameRoot(f: Forest, r: nat, s: nat)
    requires r < |f| && s < |f| && f[r].parent == None && f[s].parent == None && LocalOf(f, r) == LocalOf(f, s)
    ensures r == s
  {
    assert ParentOk(f, r) && ParentOk(f, s);
    assert f[r].place == f[s].place;
  }

  /**
   The checks of a terminator are exact: a branch passes if and only if its condition is live
   and complete in every memory, a return if and only if the return place is.
   */
  lemma TerminatorExact(plan: Plan, st: State, t: Terminator)
    requires IsForest(plan.movePaths) && Consistent(plan.movePaths, st)
    ensures TerminatorStateOk(plan, st, t) <==>
            match t
            case Branch(condition, _, _) =>
              forall c | Represents(plan.movePaths, st, c) :: Held(plan.movePaths, c, condition)
            case Return(_) =>
              forall l: nat, c | l < |plan.locals| && plan.locals[l].kind == ReturnPlace
                                 && Represents(plan.movePaths, st, c) :: Held(plan.movePaths, c, l)
            case _ => true
  {
    var f := plan.movePaths;
    forall l: nat ensures RootStateOk(f, st, l) <==> forall c | Represents(f, st, c) :: Held(f, c, l) {
      HeldExactly(f, st, l);
    }
    hide Represents; hide Held; hide RootStateOk; hide Consistent;
  }
}
