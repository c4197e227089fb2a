/**
 Aggregates follow their parts in every plan that is well structured, whether it passes the
 checks or not: one whose children are all certainly complete is certainly complete. Enums
 do so in verified plans; elsewhere a wrong projection can break it.
 */
module Aggregates {
  import opened Wrappers
  import opened CleanupPlan
  import opened MovePaths
  import opened MoveStates
  import opened Checks
  import opened Structure
  import opened Simulation
  import opened Lattice
  import opened Runs
  import opened Worklist
  import opened ComputedAnalysis
  import opened TightStates
  import opened TightPlans

  predicate IsAggregate(f: seq<MovePath>, a: nat) {
    !IsLeaf(f, a) && forall k | k in Kids(f, a) :: !IsDowncast(f, k)
  }

  /** With all its children, an aggregate is certainly complete. */
  ghost predicate Follows(f: Forest, st: State, a: nat) {
    IsAggregate(f, a) && Kids(f, a) <= st.mustInit ==> a in st.mustInit
  }

  ghost predicate AllFollow(f: Forest, st: State) {
    forall a | 0 <= a < |f| :: Follows(f, st, a)
  }

  /* ----- one operation ----- */

  /** What changes in whole subtrees of siblings, and around one path, keeps the rest. */
  lemma ClearFollows(f: Forest, st: State, p: nat)
    requires AllFollow(f, st) && p < |f|
    ensures AllFollow(f, ClearPath(f, st, p))
  {
    var s := ClearPath(f, st, p);
    forall a | 0 <= a < |f| && IsAggregate(f, a) && Kids(f, a) <= s.mustInit ensures a in s.mustInit {
      assert Follows(f, st, a);
      ClearFacts(f, st, p, a);
      if a in Ancestors(f, p) {
        var k := TowardFacts(f, a, p);
        KidFacts(f, a, k);
        ClearFacts(f, st, p, k);
      } else if a in Subtree(f, p) {
        var k :| k in Kids(f, a);
        KidFacts(f, a, k);
        WithinTrans(f, p, a, k);
        ClearFacts(f, st, p, k);
      }
    }
  }

  lemma LocalFollows(f: Forest, st: State, s: State, local: LocalId)
    requires AllFollow(f, st) && s.mustInit == st.mustInit - LocalPaths(f, local)
    ensures AllFollow(f, s)
  {
    forall a | 0 <= a < |f| && IsAggregate(f, a) && Kids(f, a) <= s.mustInit ensures a in s.mustInit {
      assert Follows(f, st, a);
      var k :| k in Kids(f, a);
      KidFacts(f, a, k);
    }
  }

  lemma MarkFollows(f: Forest, st: State, p: nat, a: nat)
    requires p < |f| && a < |f| && IsAggregate(f, a) && a !in Ancestors(f, p) && Follows(f, st, a)
    ensures Follows(f, MarkWhole(f, st, p, Must), a)
  {
    MarkedSets(f, st, p, a);
    forall k | k in Kids(f, a)
      ensures k in MarkWhole(f, st, p, Must).mustInit ==> if a in Subtree(f, p)
              then MarkOf(f, st, p, Must, a) == Marked(Must) else k in st.mustInit
    {
      KidFacts(f, a, k);
      MarkedSets(f, st, p, k);
      if a in Subtree(f, p) {
        WithinTrans(f, p, a, k);
        if k == p { WithinAntisymmetric(f, p, a); }
      } else if k in Subtree(f, p) {
        ParentFacts(f, k);
      }
    }
    var k :| k in Kids(f, a);
  }

  /** Recomputing brings the aggregates on the way into line, known variants or not. */
  lemma {:induction false} RecomposeFollows(f: Forest, st: State, p: nat)
    requires p < |f| && forall a | 0 <= a < |f| && a !in Ancestors(f, p) :: Follows(f, st, a)
    ensures AllFollow(f, Recompose(f, st, p))
    decreases Depth(f, p)
  {
    if Parent(f, p).None? {
      forall a | a in Ancestors(f, p) ensures false {}
    } else {
      ParentFacts(f, p);
      AncestorStep(f, p);
      var a0 := Parent(f, p).value;
      var s := RecomposeNode(f, st, a0);
      forall a | 0 <= a < |f| && a !in Ancestors(f, a0) ensures Follows(f, s, a) {
        NodeFollows(f, st, a0, a);
      }
      RecomposeFollows(f, s, a0);
    }
  }

  lemma NodeFollows(f: Forest, st: State, a0: nat, a: nat)
    requires a0 < |f| && a < |f| && a !in Ancestors(f, a0) && (a != a0 ==> Follows(f, st, a))
    ensures Follows(f, RecomposeNode(f, st, a0), a)
  {
    if a == a0 {
      if IsAggregate(f, a) {
        forall k | k in Kids(f, a) ensures k != a { KidFacts(f, a, k); }
      }
    } else if a0 in Kids(f, a) {
      KidFacts(f, a, a0);
    }
  }

  lemma InitFollows(f: Forest, st: State, p: nat)
    requires AllFollow(f, st) && p < |f|
    ensures AllFollow(f, InitializePath(f, st, p))
  {
    forall a | 0 <= a < |f| && a !in Ancestors(f, p) ensures Follows(f, MarkWhole(f, st, p, Must), a) {
      assert Follows(f, st, a);
      if IsAggregate(f, a) { MarkFollows(f, st, p, a); }
    }
    RecomposeFollows(f, MarkWhole(f, st, p, Must), p);
  }

  lemma RuledFollows(f: Forest, st: State, r: nat, v: nat, k: nat)
    requires AllFollow(f, st) && Shaped(f, st) && k in Kids(f, r) && IsDowncast(f, k) && Variant(f, k) == v
    ensures AllFollow(f, Ruled(f, st, r, v))
  {
    var s := Ruled(f, st, r, v);
    forall a | 0 <= a < |f| && IsAggregate(f, a) && Kids(f, a) <= s.mustInit ensures a in s.mustInit {
      assert Follows(f, st, a);
      RuledFacts(f, st, r, v, k, a);
      forall j | j in Kids(f, a) ensures j in st.mustInit && a !in OtherVariants(f, r, v) {
        KidFacts(f, a, j);
        RuledFacts(f, st, r, v, k, j);
        if a in OtherVariants(f, r, v) { PayloadsApart(f, r, v, k, a); }
      }
      var j :| j in Kids(f, a);
    }
  }

  lemma AssumeFollows(f: Forest, st: State, r: nat, v: nat)
    requires AllFollow(f, st) && Shaped(f, st) && v in Variants(f, r)
    ensures AllFollow(f, AssumeVariant(f, st, r, v))
  {
    var k := VariantKid(f, r, v);
    var s := Ruled(f, st, r, v);
    AssumeForm(f, st, r, v, k);
    KidFacts(f, r, k);
    RuledFollows(f, st, r, v, k);
    forall a | 0 <= a < |f| ensures Follows(f, MarkWhole(f, s, k, Must), a) {
      assert Follows(f, s, a);
      if IsAggregate(f, a) {
        if a in Ancestors(f, k) {
          MarkedAbove(f, s, r, k, a);
        } else {
          MarkFollows(f, s, k, a);
        }
      }
    }
  }

  /** Marking a payload leaves the aggregates around its enum alone. */
  lemma MarkedAbove(f: Forest, st: State, r: nat, k: nat, a: nat)
    requires k in Kids(f, r) && IsDowncast(f, k) && k < |f| && a in Ancestors(f, k) && IsAggregate(f, a)
    requires Follows(f, st, a)
    ensures Follows(f, MarkWhole(f, st, k, Must), a)
  {
    OwnAncestorsOutside(f, k, a);
    MarkedSets(f, st, k, a);
    forall j | j in Kids(f, a) ensures j in MarkWhole(f, st, k, Must).mustInit <==> j in st.mustInit {
      KidFacts(f, a, j);
      MarkedSets(f, st, k, j);
      if j in Subtree(f, k) { ParentFacts(f, j); WithinAntisymmetric(f, a, k); }
    }
  }

  /** Whatever the checks say of it, an operation keeps aggregates in line with their parts. */
  lemma ApplyFollows(f: Forest, st: State, op: CleanupOp)
    requires AllFollow(f, st) && Shaped(f, st) && OpShapeOk(f, op)
    ensures AllFollow(f, Apply(f, st, op))
  {
    match op
    case StorageLive(local) => LocalFollows(f, st, StartStorage(f, st, local), local);
    case StorageDead(local) => LocalFollows(f, st, EndStorage(f, st, local), local);
    case Init(p) => InitFollows(f, st, p);
    case MoveOut(p) => ClearFollows(f, st, p);
    case Overwrite(p) =>
      ClearFollows(f, st, p);
      InitFollows(f, ClearPath(f, st, p), p);
    case Transfer(s, d, _) =>
      ClearFollows(f, st, s);
      ClearFollows(f, ClearPath(f, st, s), d);
      var t := ClearPath(f, ClearPath(f, st, s), d);
      SameSure(f, t, MoveDiscriminant(t, Disc(st, s), s, d));
      InitFollows(f, MoveDiscriminant(t, Disc(st, s), s, d), d);
    case SetDiscriminant(p, v) =>
      ClearFollows(f, st, p);
      SameSure(f, ClearPath(f, st, p), SelectVariant(f, st, p, v));
    case AssumeDiscriminant(r, v) => AssumeFollows(f, st, r, v);
  }

  lemma SameSure(f: Forest, s: State, t: State)
    requires AllFollow(f, s) && s.mustInit == t.mustInit
    ensures AllFollow(f, t)
  {
    forall a | 0 <= a < |f| ensures Follows(f, t, a) { assert Follows(f, s, a); }
  }

  lemma {:induction false} FoldFollows(f: Forest, n: nat, st: State, ops: seq<CleanupOp>)
    requires AllFollow(f, st) && Proper(f, n, st) && forall op | op in ops :: OpShapeOk(f, op) && LocalInRange(n, op)
    ensures AllFollow(f, ApplyAll(f, st, ops))
  {
    if ops != [] {
      var front := ops[..|ops| - 1];
      FoldFollows(f, n, st, front);
      ProperApplyAll(f, n, st, front);
      ProperIsShaped(f, n, ApplyAll(f, st, front));
      ApplyFollows(f, ApplyAll(f, st, front), ops[|ops| - 1]);
    }
  }

  lemma {:induction false} EndAllFollows(f: Forest, st: State, locals: seq<LocalId>)
    requires AllFollow(f, st)
    ensures AllFollow(f, EndAll(f, st, locals))
  {
    if locals != [] {
      var front := locals[..|locals| - 1];
      EndAllFollows(f, st, front);
      LocalFollows(f, EndAll(f, st, front), EndAll(f, st, locals), locals[|locals| - 1]);
    }
  }

  lemma JoinFollows(f: Forest, s: State, t: State)
    requires AllFollow(f, s) && AllFollow(f, t)
    ensures AllFollow(f, Join(s, t))
  {
    forall a | 0 <= a < |f| ensures Follows(f, Join(s, t), a) {
      assert Follows(f, s, a) && Follows(f, t, a);
    }
  }

  /* ----- the worklist ----- */

  ghost predicate EntriesFollow(plan: Plan, entries: seq<State>)
    requires IsForest(plan.movePaths)
  {
    forall b | 0 <= b < |entries| :: AllFollow(plan.movePaths, entries[b])
  }

  lemma {:induction false} FollowedFollows(plan: Plan, w: Work, b: nat, j: nat)
    requires Fits(plan, w) && b < |plan.blocks| && j <= |BlockEdges(plan, b)|
    requires EntriesFollow(plan, w.entries) && AllFollow(plan.movePaths, w.exits[b])
    ensures EntriesFollow(plan, Followed(plan, w, b, j).entries)
    decreases j
  {
    if j > 0 {
      FollowedFollows(plan, w, b, j - 1);
      var v, e := Followed(plan, w, b, j - 1), BlockEdges(plan, b)[j - 1];
      FollowedMore(plan, w, b, j - 1);
      hide AllFollow; hide Followed;
      EndAllFollows(plan.movePaths, w.exits[b], ExitedLocals(plan, e.exitedScopes));
      if e.target < |plan.blocks| { JoinFollows(plan.movePaths, v.entries[e.target], EdgeState(plan, v.exits[b], e)); }
    }
  }

  lemma BlockFollows(plan: Plan, st: State, b: nat)
    requires Structured(plan) && b < |plan.blocks| && Proper(plan.movePaths, |plan.locals|, st)
    requires AllFollow(plan.movePaths, st)
    ensures forall i | 0 <= i <= |plan.blocks[b].operations| ::
              AllFollow(plan.movePaths, ApplyAll(plan.movePaths, st, plan.blocks[b].operations[..i]))
  {
    var ops := plan.blocks[b].operations;
    forall op | op in ops ensures OpShapeOk(plan.movePaths, op) && LocalInRange(|plan.locals|, op) {
      VisibleShapes(plan, b, op);
    }
    hide Structured; hide AllFollow; hide Proper; hide OpShapeOk;
    forall i | 0 <= i <= |ops| ensures AllFollow(plan.movePaths, ApplyAll(plan.movePaths, st, ops[..i])) {
      assert forall op | op in ops[..i] :: op in ops;
      FoldFollows(plan.movePaths, |plan.locals|, st, ops[..i]);
    }
  }

  lemma TurnFollows(plan: Plan, w: Work)
    requires WorkSettled(plan, w) && w.queue != [] && Fits(plan, w) && w.queue[0] < |plan.blocks|
    requires EntriesFollow(plan, w.entries)
    ensures EntriesFollow(plan, Turn(plan, w).entries)
  {
    var b := w.queue[0];
    TurnCases(plan, w);
    SettledIsProper(plan, w);
    assert AllFollow(plan.movePaths, w.entries[b]);
    BlockFollows(plan, w.entries[b], b);
    var ops := plan.blocks[b].operations;
    assert ops[..|ops|] == ops;
    var exit := BlockResult(plan, w, b);
    hide Settled; hide Underway; hide AllFollow; hide Followed; hide ApplyAll; hide IsForest; hide Structured;
    if exit != w.exits[b] {
      FollowedFollows(plan, Work(w.entries, w.exits[b := exit], w.queue[1..]), b, |BlockEdges(plan, b)|);
    }
  }

  lemma {:induction false} DrainedFollows(plan: Plan, w: Work)
    requires IsForest(plan.movePaths) && WorkSettled(plan, w) && EntriesFollow(plan, w.entries)
    ensures EntriesFollow(plan, Drained(plan, w).blockEntry)
    decreases Measure(plan, w), |w.queue|
  {
    hide Settled; hide IsForest; hide EntriesFollow; hide Turn; hide Measure; hide Spent; hide Drained;
    if w.queue == [] {
      DrainedAtLast(plan, w);
    } else {
      TurnDrains(plan, w);
      TurnFollows(plan, w);
      DrainedFollows(plan, Turn(plan, w));
    }
  }

  /** At every point of every block of a structured plan, aggregates follow their parts. */
  lemma AggregatesFollow(plan: Plan, b: nat, i: nat, a: nat)
    requires Structured(plan) && b < |plan.blocks| && i <= |plan.blocks[b].operations| && a < |plan.movePaths|
    ensures |Computed(plan).blockEntry| == |plan.blocks|
    ensures Follows(plan.movePaths, StateBefore(plan, Computed(plan), b, i), a)
  {
    var f := plan.movePaths;
    forall c | 0 <= c < |Beginning(plan).entries| ensures AllFollow(f, Beginning(plan).entries[c]) {
      forall x | 0 <= x < |f| && IsAggregate(f, x) ensures !(Kids(f, x) <= {}) {
        var k :| k in Kids(f, x);
      }
    }
    ComputedIsStable(plan);
    FixpointParts(plan, Computed(plan));
    hide Fixpoint; hide Structured; hide Beginning; hide Proper; hide Settled; hide Drained;
    DrainedFollows(plan, Beginning(plan));
    assert AllFollow(f, Computed(plan).blockEntry[b]);
    BlockFollows(plan, Computed(plan).blockEntry[b], b);
    assert AllFollow(f, StateBefore(plan, Computed(plan), b, i));
  }

  /** In a verified plan, enums follow the payload of the variant they are known to have selected. */
  lemma EnumsFollow(plan: Plan, b: nat, i: nat, r: nat, k: nat)
    requires Verified(plan) && b < |plan.blocks| && i <= |plan.blocks[b].operations|
    requires Computed(plan).blockEntry[b].reachable && r < |plan.movePaths|
    requires k in Kids(plan.movePaths, r) && IsDowncast(plan.movePaths, k)
    ensures var st := StateBefore(plan, Computed(plan), b, i);
            Disc(st, r) == Discriminant(false, {Variant(plan.movePaths, k)}) ==>
              (r in st.mustInit <==> k in st.mustInit)
  {
    VerifiedIsTight(plan, b, i);
    var f, st := plan.movePaths, StateBefore(plan, Computed(plan), b, i);
    assert TightAt(f, st, r);
    KidsAgree(f, r, k);
    assert IsKnown(st, r, Variant(f, k)) <==> Disc(st, r) == Discriminant(false, {Variant(f, k)});
  }

  /* ----- where enums do not follow ----- */

  /** An enum with two variants. */
  const EITHER: seq<MovePath> := [
    MovePath(0, Place(0, []), None, false),
    MovePath(1, Place(0, [Downcast(0)]), Some(0), false),
    MovePath(2, Place(0, [Downcast(1)]), Some(0), false)]

  /** The first variant, complete. */
  const FIRST: State := State(true, {0}, {0}, {0, 1}, {0, 1}, map[0 := Discriminant(false, {0})])

  lemma EitherShape()
    ensures IsForest(EITHER) && Kids(EITHER, 0) == {1, 2} && IsEnum(EITHER, 0)
    ensures Subtree(EITHER, 2) == {2} && Ancestors(EITHER, 2) == {0}
  {
    assert Last(EITHER, 1) == Downcast(0) && Last(EITHER, 2) == Downcast(1);
    assert 1 in Kids(EITHER, 0) && IsDowncast(EITHER, 1);
    assert Parent(EITHER, 0) == None && Parent(EITHER, 1) == Some(0) && Parent(EITHER, 2) == Some(0);
    assert Within(EITHER, 0, 2) && !Within(EITHER, 2, 0) && !Within(EITHER, 2, 1) && !Within(EITHER, 1, 2);
  }

  /**
   Moving out of a variant that is not selected, which the checks refuse, leaves an enum with
   a known variant and a complete payload that is not complete itself.
   */
  lemma WrongVariantBreaks()
    ensures IsForest(EITHER) && OpShapeOk(EITHER, MoveOut(2)) && !OpStateOk(EITHER, FIRST, MoveOut(2))
    ensures var st := Apply(EITHER, FIRST, MoveOut(2));
            Disc(st, 0) == Discriminant(false, {0}) && 1 in st.mustInit && 0 !in st.mustInit
  {
    EitherShape();
    assert Variant(EITHER, 2) == 1;
  }
}
