/**
 Drop obligations at the end of a local's storage, and what carrying them out drops.
 */
module DropObligations {
  import opened CleanupPlan
  import opened MovePaths
  import opened MoveStates
  import opened Topologies
  import opened Semantics
  import opened Simulation

  datatype DropCondition = Static | Flag(value: DropFlagId)

  /** When the condition holds `path` is dropped whole; when clear, the children are looked at. */
  datatype DropObligation = DropObligation(
    path: MovePathId, condition: DropCondition, childrenWhenClear: seq<DropObligation>)

  predicate NeedsDrop(f: seq<MovePath>, p: nat) { p < |f| && f[p].needsDrop }

  /* ----- the paths that need a flag ----- */

  ghost predicate IsConditional(f: Forest, st: State, p: nat) {
    Initialization(f, st, p) == MaybeOrPartial && NeedsDrop(f, p) && p in st.mayInit
  }

  /** What `collect_conditional_paths` adds for `p`. */
  ghost function Collect(f: Forest, st: State, p: nat): set<nat>
    decreases Height(f, p), 1
  {
    if Initialization(f, st, p) != MaybeOrPartial then {}
    else (if IsConditional(f, st, p) then {p} else {}) + CollectAll(f, st, p, Children(f, p))
  }

  ghost function CollectAll(f: Forest, st: State, p: nat, ks: seq<nat>): set<nat>
    requires forall k | k in ks :: k in Kids(f, p)
    decreases Height(f, p), 0, |ks|
  {
    if ks == [] then {}
    else KidFacts(f, p, ks[0]); Collect(f, st, ks[0]) + CollectAll(f, st, p, ks[1..])
  }

  lemma {:induction false} CollectNeedsDrop(f: Forest, st: State, p: nat)
    requires !NeedsDrop(f, p)
    ensures Collect(f, st, p) == {}
    decreases Height(f, p), 1
  {
    CollectAllNeedsDrop(f, st, p, Children(f, p));
  }

  lemma {:induction false} CollectAllNeedsDrop(f: Forest, st: State, p: nat, ks: seq<nat>)
    requires !NeedsDrop(f, p) && forall k | k in ks :: k in Kids(f, p)
    ensures CollectAll(f, st, p, ks) == {}
    decreases Height(f, p), 0, |ks|
  {
    if ks != [] {
      KidFacts(f, p, ks[0]);
      CollectNeedsDrop(f, st, ks[0]);
      CollectAllNeedsDrop(f, st, p, ks[1..]);
    }
  }

  /** Only paths with drop glue are collected. */
  lemma {:induction false} CollectRange(f: Forest, st: State, p: nat, q: nat)
    requires q in Collect(f, st, p)
    ensures NeedsDrop(f, q)
    decreases Height(f, p), 1
  {
    if !(q == p && IsConditional(f, st, p)) { CollectAllRange(f, st, p, Children(f, p), q); }
  }

  lemma {:induction false} CollectAllRange(f: Forest, st: State, p: nat, ks: seq<nat>, q: nat)
    requires (forall k | k in ks :: k in Kids(f, p)) && q in CollectAll(f, st, p, ks)
    ensures NeedsDrop(f, q)
    decreases Height(f, p), 0, |ks|
  {
    KidFacts(f, p, ks[0]);
    if q in Collect(f, st, ks[0]) { CollectRange(f, st, ks[0], q); } else { CollectAllRange(f, st, p, ks[1..], q); }
  }

  /* ----- obligations ----- */

  /** Looking up a flag never fails: the paths asked for were collected. */
  ghost function Obligations(f: Forest, st: State, p: nat, flags: map<MovePathId, DropFlagId>): seq<DropObligation>
    requires Collect(f, st, p) <= flags.Keys
    decreases Height(f, p), 1
  {
    match Initialization(f, st, p)
    case Uninitialized => []
    case Initialized =>
      if NeedsDrop(f, p) then [DropObligation(p, Static, [])]
      else
        CollectAllNeedsDrop(f, st, p, Children(f, p));
        ObligationsAll(f, st, p, Children(f, p), flags)
    case MaybeOrPartial =>
      if NeedsDrop(f, p) && p in st.mayInit then
        [DropObligation(p, Flag(flags[p]), ObligationsAll(f, st, p, Children(f, p), flags))]
      else ObligationsAll(f, st, p, Children(f, p), flags)
  }

  ghost function ObligationsAll(f: Forest, st: State, p: nat, ks: seq<nat>,
                                flags: map<MovePathId, DropFlagId>): seq<DropObligation>
    requires forall k | k in ks :: k in Kids(f, p)
    requires CollectAll(f, st, p, ks) <= flags.Keys
    decreases Height(f, p), 0, |ks|
  {
    if ks == [] then []
    else
      KidFacts(f, p, ks[0]);
      Obligations(f, st, ks[0], flags) + ObligationsAll(f, st, p, ks[1..], flags)
  }

  /* ----- carrying them out ----- */

  /** The paths dropped, given the flags that are set. */
  function Evaluate(obligation: DropObligation, on: set<DropFlagId>): seq<MovePathId> {
    match obligation.condition
    case Static => [obligation.path]
    case Flag(id) => if id in on then [obligation.path] else EvaluateAll(obligation.childrenWhenClear, on)
  }

  function EvaluateAll(obligations: seq<DropObligation>, on: set<DropFlagId>): seq<MovePathId> {
    if obligations == [] then []
    else Evaluate(obligations[0], on) + EvaluateAll(obligations[1..], on)
  }

  lemma {:induction false} EvaluateConcat(a: seq<DropObligation>, b: seq<DropObligation>, on: set<DropFlagId>)
    ensures EvaluateAll(a + b, on) == EvaluateAll(a, on) + EvaluateAll(b, on)
  {
    if a == [] {
      assert a + b == b;
    } else {
      assert (a + b)[1..] == a[1..] + b;
      EvaluateConcat(a[1..], b, on);
    }
  }

  /* ----- exactness ----- */

  /** The paths without parts: what a drop has to reach in the end. */
  ghost function Leaves(f: Forest): set<nat> {
    set q: nat | q < |f| && IsLeaf(f, q)
  }

  /** The paths whose drop glue no part has: it runs only if the path itself is dropped. */
  ghost function GlueUnits(f: Forest): set<nat> {
    set q: nat | q < |f| && forall k | k in Kids(f, q) :: !NeedsDrop(f, k)
  }

  /**
   The flag of `q` is right, as far as `units` are concerned: a set flag means complete,
   and a complete unit has its flag set. (The parts of a complete path that is not a unit
   may be dropped one by one.)
   */
  ghost predicate Truthful(f: Forest, c: Concrete, units: set<nat>, flags: map<MovePathId, DropFlagId>,
                           on: set<DropFlagId>, q: nat)
  {
    q in flags ==>
      && (flags[q] in on ==> Full(f, c, q))
      && (q in units && Full(f, c, q) ==> flags[q] in on)
  }

  /** A complete unit with drop glue. */
  ghost predicate Due(f: Forest, c: Concrete, units: set<nat>, q: nat) {
    q in units && NeedsDrop(f, q) && Full(f, c, q)
  }

  /** How many of the dropped paths take `q` with them. */
  ghost function Hits(f: Forest, dropped: seq<MovePathId>, q: nat): nat {
    if dropped == [] then 0
    else (if Within(f, dropped[0], q) then 1 else 0) + Hits(f, dropped[1..], q)
  }

  /** Each dropped path lies within `p` and has drop glue. */
  ghost predicate DropsBelow(f: Forest, p: nat, dropped: seq<MovePathId>) {
    forall d | d in dropped :: d < |f| && Within(f, p, d) && NeedsDrop(f, d)
  }

  /** Only complete paths are dropped, and each unit due within `p` is dropped exactly once. */
  ghost predicate DropsExact(f: Forest, c: Concrete, units: set<nat>, p: nat, dropped: seq<MovePathId>) {
    && DropsBelow(f, p, dropped)
    && (forall d | d in dropped :: Full(f, c, d))
    && forall q | q in Subtree(f, p) && Due(f, c, units, q) :: Hits(f, dropped, q) == 1
  }

  /* ----- the flags that are looked at ----- */

  /** The paths whose flags decide what carrying out the obligations of `p` drops. */
  ghost function Consulted(f: Forest, st: State, p: nat, flags: map<MovePathId, DropFlagId>,
                           on: set<DropFlagId>): set<nat>
    requires Collect(f, st, p) <= flags.Keys
    decreases Height(f, p), 1
  {
    if Initialization(f, st, p) != MaybeOrPartial then {}
    else if IsConditional(f, st, p) && flags[p] in on then {p}
    else (if IsConditional(f, st, p) then {p} else {}) + ConsultedAll(f, st, p, Children(f, p), flags, on)
  }

  ghost function ConsultedAll(f: Forest, st: State, p: nat, ks: seq<nat>, flags: map<MovePathId, DropFlagId>,
                              on: set<DropFlagId>): set<nat>
    requires (forall k | k in ks :: k in Kids(f, p)) && CollectAll(f, st, p, ks) <= flags.Keys
    decreases Height(f, p), 0, |ks|
  {
    if ks == [] then {}
    else
      KidFacts(f, p, ks[0]);
      Consulted(f, st, ks[0], flags, on) + ConsultedAll(f, st, p, ks[1..], flags, on)
  }

  ghost predicate AllTruthful(f: Forest, c: Concrete, units: set<nat>, flags: map<MovePathId, DropFlagId>,
                              on: set<DropFlagId>, qs: set<nat>)
  {
    forall q | q in qs :: Truthful(f, c, units, flags, on, q)
  }

  lemma {:induction false} ConsultedIsCollected(f: Forest, st: State, p: nat, flags: map<MovePathId, DropFlagId>,
                                                on: set<DropFlagId>)
    requires Collect(f, st, p) <= flags.Keys
    ensures Consulted(f, st, p, flags, on) <= Collect(f, st, p)
    decreases Height(f, p), 1
  {
    if Initialization(f, st, p) == MaybeOrPartial {
      ConsultedAllIsCollected(f, st, p, Children(f, p), flags, on);
    }
  }

  lemma {:induction false} ConsultedAllIsCollected(f: Forest, st: State, p: nat, ks: seq<nat>,
                                                   flags: map<MovePathId, DropFlagId>, on: set<DropFlagId>)
    requires (forall k | k in ks :: k in Kids(f, p)) && CollectAll(f, st, p, ks) <= flags.Keys
    ensures ConsultedAll(f, st, p, ks, flags, on) <= CollectAll(f, st, p, ks)
    decreases Height(f, p), 0, |ks|
  {
    if ks != [] {
      KidFacts(f, p, ks[0]);
      ConsultedIsCollected(f, st, ks[0], flags, on);
      ConsultedAllIsCollected(f, st, p, ks[1..], flags, on);
    }
  }

  lemma {:induction false} ConsultedBelow(f: Forest, st: State, p: nat, flags: map<MovePathId, DropFlagId>,
                                          on: set<DropFlagId>, q: nat)
    requires p < |f| && Collect(f, st, p) <= flags.Keys && q in Consulted(f, st, p, flags, on)
    ensures q in flags && q in Subtree(f, p)
    decreases Height(f, p), 1
  {
    ConsultedIsCollected(f, st, p, flags, on);
    if q != p { ConsultedAllBelow(f, st, p, Children(f, p), flags, on, q); }
  }

  lemma {:induction false} ConsultedAllBelow(f: Forest, st: State, p: nat, ks: seq<nat>,
                                             flags: map<MovePathId, DropFlagId>,
                                             on: set<DropFlagId>, q: nat)
    requires p < |f| && (forall k | k in ks :: k in Kids(f, p)) && CollectAll(f, st, p, ks) <= flags.Keys
    requires q in ConsultedAll(f, st, p, ks, flags, on)
    ensures q in Subtree(f, p)
    decreases Height(f, p), 0, |ks|
  {
    KidFacts(f, p, ks[0]);
    if q in Consulted(f, st, ks[0], flags, on) {
      ConsultedBelow(f, st, ks[0], flags, on, q);
      WithinTrans(f, p, ks[0], q);
    } else {
      ConsultedAllBelow(f, st, p, ks[1..], flags, on, q);
    }
  }

  /* ----- what is collected, and what is looked at ----- */

  lemma CollectsItself(f: Forest, st: State, p: nat)
    requires IsConditional(f, st, p)
    ensures p in Collect(f, st, p)
  {
  }

  lemma {:induction false} CollectedFrom(f: Forest, st: State, p: nat, ks: seq<nat>, k: nat)
    requires (forall x | x in ks :: x in Kids(f, p)) && k in ks
    ensures Collect(f, st, k) <= CollectAll(f, st, p, ks)
    decreases |ks|
  {
    KidFacts(f, p, ks[0]);
    if k != ks[0] { CollectedFrom(f, st, p, ks[1..], k); }
  }

  lemma CollectsKid(f: Forest, st: State, p: nat, k: nat)
    requires k in Kids(f, p) && IsConditional(f, st, p) && IsConditional(f, st, k)
    ensures k in Collect(f, st, p)
  {
    hide IsForest; hide MayHoldPart; hide Within; hide Subtree;
    CollectedFrom(f, st, p, Children(f, p), k);
    CollectsItself(f, st, k);
  }

  lemma CollectedInRange(f: Forest, st: State, p: nat, q: nat)
    requires q in Collect(f, st, p)
    ensures q < |f|
  {
    hide Collect;
    CollectRange(f, st, p, q);
  }

  lemma ConsultsItself(f: Forest, st: State, p: nat, flags: map<MovePathId, DropFlagId>, on: set<DropFlagId>)
    requires Collect(f, st, p) <= flags.Keys && IsConditional(f, st, p)
    ensures p in Consulted(f, st, p, flags, on)
  {
  }

  lemma {:induction false} ConsultedFrom(f: Forest, st: State, p: nat, ks: seq<nat>, k: nat,
                                         flags: map<MovePathId, DropFlagId>, on: set<DropFlagId>)
    requires (forall x | x in ks :: x in Kids(f, p)) && k in ks && CollectAll(f, st, p, ks) <= flags.Keys
    ensures Collect(f, st, k) <= flags.Keys
    ensures Consulted(f, st, k, flags, on) <= ConsultedAll(f, st, p, ks, flags, on)
    decreases |ks|
  {
    KidFacts(f, p, ks[0]);
    if k != ks[0] { ConsultedFrom(f, st, p, ks[1..], k, flags, on); }
  }

  /* ----- where nothing has drop glue, nothing is owed ----- */

  lemma {:induction false} NoObligations(f: Forest, st: State, p: nat, flags: map<MovePathId, DropFlagId>)
    requires !NeedsDrop(f, p) && Collect(f, st, p) <= flags.Keys
    ensures Obligations(f, st, p, flags) == []
    decreases Height(f, p), 1
  {
    CollectAllNeedsDrop(f, st, p, Children(f, p));
    NoObligationsAll(f, st, p, Children(f, p), flags);
  }

  lemma {:induction false} NoObligationsAll(f: Forest, st: State, p: nat, ks: seq<nat>,
                                            flags: map<MovePathId, DropFlagId>)
    requires !NeedsDrop(f, p) && (forall k | k in ks :: k in Kids(f, p)) && CollectAll(f, st, p, ks) <= flags.Keys
    ensures ObligationsAll(f, st, p, ks, flags) == []
    decreases Height(f, p), 0, |ks|
  {
    if ks != [] {
      KidFacts(f, p, ks[0]);
      NoObligations(f, st, ks[0], flags);
      NoObligationsAll(f, st, p, ks[1..], flags);
    }
  }

  /* ----- the obligations of one path ----- */

  lemma SingleDrop(f: Forest, c: Concrete, units: set<nat>, p: nat)
    requires p < |f| && NeedsDrop(f, p)
    ensures DropsBelow(f, p, [p])
    ensures DropsExact(f, c, units, p, [p]) <==> Full(f, c, p)
  {
    forall q | q in Subtree(f, p) ensures Hits(f, [p], q) == 1 {
      assert Hits(f, [p][1..], q) == 0;
    }
    assert p in [p];
  }

  lemma NoDrop(f: Forest, c: Concrete, units: set<nat>, p: nat)
    requires forall q | q in Subtree(f, p) :: !Due(f, c, units, q)
    ensures DropsBelow(f, p, []) && DropsExact(f, c, units, p, [])
  {
  }

  /**
   Exactly when the obligation tree is right, enums included: carrying out the obligations
   of `p` drops each complete unit within `p` through exactly one dropped path, and nothing
   incomplete, if and only if every flag looked at on the way is right about its path.
   */
  lemma {:induction false} ObligationsExact(f: Forest, st: State, c: Concrete, units: set<nat>, p: nat,
                                            flags: map<MovePathId, DropFlagId>, on: set<DropFlagId>)
    requires p < |f| && Represents(f, st, c) && Collect(f, st, p) <= flags.Keys
    ensures var dropped := EvaluateAll(Obligations(f, st, p, flags), on);
            DropsBelow(f, p, dropped)
            && (DropsExact(f, c, units, p, dropped)
                <==> AllTruthful(f, c, units, flags, on, Consulted(f, st, p, flags, on)))
    decreases Height(f, p), 1
  {
    assert NodeOk(f, st, c, p);
    var ks := Children(f, p);
    var status := Initialization(f, st, p);
    if !NeedsDrop(f, p) {
      NoObligations(f, st, p, flags);
      ConsultedIsCollected(f, st, p, flags, on);
      CollectNeedsDrop(f, st, p);
      NothingDue(f, c, units, p);
    } else if status == Uninitialized {
      DeadIsEmpty(f, st, c, p);
      EmptyOwesNothing(f, c, units, p);
    } else if status == Initialized {
      SingleDrop(f, c, units, p);
      EvaluateOne(DropObligation(p, Static, []), on);
    } else {
      ObligationsAllExact(f, st, c, units, p, ks, flags, on);
      var parts := ObligationsAll(f, st, p, ks, flags);
      FromKids(f, c, units, p, EvaluateAll(parts, on));
      if p in st.mayInit {
        EvaluateOne(DropObligation(p, Flag(flags[p]), parts), on);
        SingleDrop(f, c, units, p);
      }
    }
  }

  lemma NothingDue(f: Forest, c: Concrete, units: set<nat>, p: nat)
    requires !NeedsDrop(f, p)
    ensures DropsBelow(f, p, []) && DropsExact(f, c, units, p, [])
  {
    forall q | q in Subtree(f, p) ensures !Due(f, c, units, q) {
      if NeedsDrop(f, q) { NeedsDropUpward(f, p, q); }
    }
    NoDrop(f, c, units, p);
  }

  lemma EmptyOwesNothing(f: Forest, c: Concrete, units: set<nat>, p: nat)
    requires Empty(f, c, p)
    ensures DropsBelow(f, p, []) && DropsExact(f, c, units, p, [])
  {
    forall q | q in Subtree(f, p) ensures !Due(f, c, units, q) {
      forall x | x in Subtree(f, q) ensures !Present(c, x) { WithinTrans(f, p, q, x); }
      EmptyNotFull(f, c, q);
    }
    NoDrop(f, c, units, p);
  }

  lemma EvaluateOne(obligation: DropObligation, on: set<DropFlagId>)
    ensures EvaluateAll([obligation], on) == Evaluate(obligation, on)
  {
    assert EvaluateAll([obligation][1..], on) == [];
  }

  /** A path whose flag is looked at and set is dropped, rightly or not. */
  lemma {:induction false} SetIsDropped(f: Forest, st: State, p: nat, flags: map<MovePathId, DropFlagId>,
                                        on: set<DropFlagId>, q: nat)
    requires Collect(f, st, p) <= flags.Keys && q in Consulted(f, st, p, flags, on) && q in flags && flags[q] in on
    ensures q in EvaluateAll(Obligations(f, st, p, flags), on)
    decreases Height(f, p), 1
  {
    var ks := Children(f, p);
    var parts := ObligationsAll(f, st, p, ks, flags);
    if IsConditional(f, st, p) { EvaluateOne(DropObligation(p, Flag(flags[p]), parts), on); }
    if q in ConsultedAll(f, st, p, ks, flags, on) { SetIsDroppedAll(f, st, p, ks, flags, on, q); }
  }

  lemma {:induction false} SetIsDroppedAll(f: Forest, st: State, p: nat, ks: seq<nat>,
                                           flags: map<MovePathId, DropFlagId>, on: set<DropFlagId>, q: nat)
    requires (forall k | k in ks :: k in Kids(f, p)) && CollectAll(f, st, p, ks) <= flags.Keys
    requires q in ConsultedAll(f, st, p, ks, flags, on) && q in flags && flags[q] in on
    ensures q in EvaluateAll(ObligationsAll(f, st, p, ks, flags), on)
    decreases Height(f, p), 0, |ks|
  {
    KidFacts(f, p, ks[0]);
    EvaluateConcat(Obligations(f, st, ks[0], flags), ObligationsAll(f, st, p, ks[1..], flags), on);
    if q in Consulted(f, st, ks[0], flags, on) {
      SetIsDropped(f, st, ks[0], flags, on, q);
    } else {
      SetIsDroppedAll(f, st, p, ks[1..], flags, on, q);
    }
  }

  /* ----- the obligations of several children, taken together ----- */

  ghost predicate KidsBelow(f: Forest, ks: seq<nat>, dropped: seq<MovePathId>) {
    forall d | d in dropped :: d < |f| && NeedsDrop(f, d) && exists k :: k in ks && Within(f, k, d)
  }

  ghost predicate KidsExact(f: Forest, c: Concrete, units: set<nat>, ks: seq<nat>, dropped: seq<MovePathId>) {
    && (forall d | d in dropped :: Full(f, c, d))
    && forall k, q | k in ks && q in Subtree(f, k) && Due(f, c, units, q) :: Hits(f, dropped, q) == 1
  }

  /** Dropping the children's share is right exactly when it is right for each child and `p` is not due itself. */
  lemma FromKids(f: Forest, c: Concrete, units: set<nat>, p: nat, dropped: seq<MovePathId>)
    requires p < |f| && KidsBelow(f, Children(f, p), dropped)
    ensures DropsBelow(f, p, dropped)
    ensures DropsExact(f, c, units, p, dropped)
            <==> KidsExact(f, c, units, Children(f, p), dropped) && !Due(f, c, units, p)
  {
    var ks := Children(f, p);
    forall d | d in dropped ensures Within(f, p, d) && !Within(f, d, p) {
      var k :| k in ks && Within(f, k, d);
      KidFacts(f, p, k);
      WithinTrans(f, p, k, d);
      if Within(f, d, p) { WithinAntisymmetric(f, p, d); WithinAntisymmetric(f, p, k); }
    }
    NoHits(f, dropped, p);
    forall q | q in Subtree(f, p) && q != p ensures exists k :: k in ks && q in Subtree(f, k) {
      var k := Toward(f, p, q);
      assert k in ks && q in Subtree(f, k);
    }
    forall k, q | k in ks && q in Subtree(f, k) ensures q in Subtree(f, p) {
      KidFacts(f, p, k);
      WithinTrans(f, p, k, q);
    }
    assert p in Subtree(f, p);
  }

  lemma {:induction false} ObligationsAllExact(f: Forest, st: State, c: Concrete, units: set<nat>, p: nat, ks: seq<nat>,
                                               flags: map<MovePathId, DropFlagId>, on: set<DropFlagId>)
    requires forall k | k in ks :: k in Kids(f, p)
    requires Represents(f, st, c) && CollectAll(f, st, p, ks) <= flags.Keys
    requires forall i, j | 0 <= i < j < |ks| :: ks[i] < ks[j]
    ensures var dropped := EvaluateAll(ObligationsAll(f, st, p, ks, flags), on);
            KidsBelow(f, ks, dropped)
            && (KidsExact(f, c, units, ks, dropped)
                <==> AllTruthful(f, c, units, flags, on, ConsultedAll(f, st, p, ks, flags, on)))
    decreases Height(f, p), 0, |ks|
  {
    if ks != [] {
      var k := ks[0];
      KidFacts(f, p, k);
      ObligationsExact(f, st, c, units, k, flags, on);
      ObligationsAllExact(f, st, c, units, p, ks[1..], flags, on);
      EvaluateConcat(Obligations(f, st, k, flags), ObligationsAll(f, st, p, ks[1..], flags), on);
      KidsCons(f, c, units, p, ks, EvaluateAll(Obligations(f, st, k, flags), on),
               EvaluateAll(ObligationsAll(f, st, p, ks[1..], flags), on));
    }
  }

  /** Subtrees of different children do not interfere. */
  lemma KidsCons(f: Forest, c: Concrete, units: set<nat>, p: nat, ks: seq<nat>, first: seq<MovePathId>,
                 rest: seq<MovePathId>)
    requires ks != [] && forall k | k in ks :: k in Kids(f, p)
    requires forall i, j | 0 <= i < j < |ks| :: ks[i] < ks[j]
    requires DropsBelow(f, ks[0], first) && KidsBelow(f, ks[1..], rest)
    ensures KidsBelow(f, ks, first + rest)
    ensures KidsExact(f, c, units, ks, first + rest)
            <==> DropsExact(f, c, units, ks[0], first) && KidsExact(f, c, units, ks[1..], rest)
  {
    assert ks == [ks[0]] + ks[1..];
    assert ks[0] !in ks[1..];
    forall d | d in first + rest
      ensures d < |f| && NeedsDrop(f, d) && exists k :: k in ks && Within(f, k, d)
    {
      if d in first {
        assert ks[0] in ks && Within(f, ks[0], d);
      } else {
        var k :| k in ks[1..] && Within(f, k, d);
        assert k in ks;
      }
    }
    forall q | q in Subtree(f, ks[0]) ensures Hits(f, first + rest, q) == Hits(f, first, q) {
      HitsConcat(f, first, rest, q);
      forall d | d in rest ensures !Within(f, d, q) {
        var k :| k in ks[1..] && Within(f, k, d);
        Apart(f, p, ks[0], k, d, q);
      }
      NoHits(f, rest, q);
    }
    forall k, q | k in ks[1..] && q in Subtree(f, k) ensures Hits(f, first + rest, q) == Hits(f, rest, q) {
      HitsConcat(f, first, rest, q);
      forall d | d in first ensures !Within(f, d, q) { Apart(f, p, k, ks[0], d, q); }
      NoHits(f, first, q);
    }
    assert forall d :: d in first + rest <==> d in first || d in rest;
    assert forall k :: k in ks <==> k == ks[0] || k in ks[1..];
  }

  /** What is dropped under one child does not reach into another. */
  lemma Apart(f: Forest, p: nat, k: nat, k': nat, d: nat, q: nat)
    requires k in Kids(f, p) && k' in Kids(f, p) && k != k'
    requires Within(f, k, q) && Within(f, k', d)
    ensures !Within(f, d, q)
  {
    if Within(f, d, q) {
      WithinTrans(f, k', d, q);
      KidsDisjoint(f, p, k, k', q);
    }
  }

  lemma {:induction false} NoHits(f: Forest, dropped: seq<MovePathId>, q: nat)
    requires forall d | d in dropped :: !Within(f, d, q)
    ensures Hits(f, dropped, q) == 0
  {
    if dropped != [] { NoHits(f, dropped[1..], q); }
  }

  lemma {:induction false} HitsConcat(f: Forest, a: seq<MovePathId>, b: seq<MovePathId>, q: nat)
    ensures Hits(f, a + b, q) == Hits(f, a, q) + Hits(f, b, q)
  {
    if a == [] {
      assert a + b == b;
    } else {
      assert (a + b)[1..] == a[1..] + b;
      HitsConcat(f, a[1..], b, q);
    }
  }
}
