/**
 Facts about the may/must lattice: every operation and join keeps a state proper
 (must within may, variants within the declared ones), joins are upper bounds, and a
 join that changes a state climbs a ladder of bounded height.
 */
module Lattice {
  import opened CleanupPlan
  import opened Sequences
  import opened MovePaths
  import opened MoveStates
  import opened Checks
  import opened Simulation

  /* ----- operations keep states proper ----- */

  lemma ProperClear(f: Forest, n: nat, st: State, p: nat)
    requires Proper(f, n, st)
    ensures Proper(f, n, ClearPath(f, st, p))
  {
  }

  lemma ProperMark(f: Forest, n: nat, st: State, p: nat, certainty: Certainty)
    requires Proper(f, n, st)
    ensures Proper(f, n, MarkWhole(f, st, p, certainty))
  {
  }

  lemma {:induction false} ProperRecompose(f: Forest, n: nat, st: State, p: nat)
    requires Proper(f, n, st)
    ensures Proper(f, n, Recompose(f, st, p)) && Recompose(f, st, p).reachable == st.reachable
    decreases Depth(f, p)
  {
    if Parent(f, p).Some? {
      ParentFacts(f, p);
      ProperRecompose(f, n, RecomposeNode(f, st, Parent(f, p).value), Parent(f, p).value);
    }
  }

  lemma ProperTransfer(f: Forest, n: nat, st: State, s: nat, d: nat)
    requires Proper(f, n, st) && ShapesMatch(f, s, d)
    ensures var t := ClearPath(f, ClearPath(f, st, s), d);
            Proper(f, n, MoveDiscriminant(t, Disc(st, s), s, d))
  {
    var t := ClearPath(f, ClearPath(f, st, s), d);
    ProperClear(f, n, st, s);
    ProperClear(f, n, ClearPath(f, st, s), d);
    if s in t.discriminants && d in t.discriminants {
      forall v | v in Disc(st, s).possible ensures v in Variants(f, d) { MatchingVariants(f, s, d, v); }
    }
  }

  lemma ProperAssume(f: Forest, n: nat, st: State, r: nat, v: nat)
    requires Proper(f, n, st) && v in Variants(f, r)
    ensures Proper(f, n, AssumeVariant(f, st, r, v)) && AssumeVariant(f, st, r, v).reachable == st.reachable
  {
    var s := ClearPaths(SetKnown(st, r, v), OtherVariants(f, r, v));
    assert Proper(f, n, SetKnown(st, r, v));
    assert Proper(f, n, s);
    var kids := VariantKids(f, r, v);
    if kids != {} {
      var k :| k in kids && AssumeVariant(f, st, r, v) == MarkWhole(f, s, k, Must);
      ProperMark(f, n, s, k, Must);
    }
  }

  ghost predicate LocalInRange(n: nat, op: CleanupOp) {
    op.StorageLive? ==> op.local < n
  }

  /**
   Every operation of the right shape, whatever the checks of the state say, keeps must-live
   within may-live, must-init within may-init, and possible variants within the declared ones.
   */
  lemma ProperApply(f: Forest, n: nat, st: State, op: CleanupOp)
    requires Proper(f, n, st) && OpShapeOk(f, op) && LocalInRange(n, op)
    ensures Proper(f, n, Apply(f, st, op)) && Apply(f, st, op).reachable == st.reachable
  {
    match op
    case StorageLive(local) =>
    case StorageDead(local) =>
    case Init(p) => ProperMark(f, n, st, p, Must); ProperRecompose(f, n, MarkWhole(f, st, p, Must), p);
    case Overwrite(p) =>
      var s := ClearPath(f, st, p);
      ProperClear(f, n, st, p);
      ProperMark(f, n, s, p, Must);
      ProperRecompose(f, n, MarkWhole(f, s, p, Must), p);
    case MoveOut(p) => ProperClear(f, n, st, p);
    case Transfer(s, d, _) =>
      var t := MoveDiscriminant(ClearPath(f, ClearPath(f, st, s), d), Disc(st, s), s, d);
      ProperTransfer(f, n, st, s, d);
      ProperMark(f, n, t, d, Must);
      ProperRecompose(f, n, MarkWhole(f, t, d, Must), d);
    case SetDiscriminant(p, v) => ProperClear(f, n, st, p);
    case AssumeDiscriminant(r, v) => ProperAssume(f, n, st, r, v);
  }

  lemma {:induction false} ProperApplyAll(f: Forest, n: nat, st: State, ops: seq<CleanupOp>)
    requires Proper(f, n, st) && forall op | op in ops :: OpShapeOk(f, op) && LocalInRange(n, op)
    ensures Proper(f, n, ApplyAll(f, st, ops)) && ApplyAll(f, st, ops).reachable == st.reachable
  {
    if ops != [] {
      ProperApplyAll(f, n, st, ops[..|ops| - 1]);
      ProperApply(f, n, ApplyAll(f, st, ops[..|ops| - 1]), ops[|ops| - 1]);
    }
  }

  lemma {:induction false} ProperEndAll(f: Forest, n: nat, st: State, locals: seq<LocalId>)
    requires Proper(f, n, st)
    ensures Proper(f, n, EndAll(f, st, locals)) && EndAll(f, st, locals).reachable == st.reachable
  {
    if locals != [] { ProperEndAll(f, n, st, locals[..|locals| - 1]); }
  }

  /* ----- joins ----- */

  lemma JoinIsUpperBound(f: Forest, n: nat, a: State, b: State)
    requires Proper(f, n, a) && Proper(f, n, b)
    ensures Below(a, Join(a, b)) && Below(b, Join(a, b)) && Proper(f, n, Join(a, b))
  {
  }

  /** No smaller state lies above both. */
  lemma JoinIsLeast(f: Forest, n: nat, a: State, b: State, c: State)
    requires Proper(f, n, a) && Proper(f, n, b) && Proper(f, n, c)
    requires Below(a, c) && Below(b, c)
    ensures Below(Join(a, b), c)
  {
  }

  lemma BelowTransitive(a: State, b: State, c: State)
    requires Below(a, b) && Below(b, c)
    ensures Below(a, c)
  {
    if a.reachable {
      forall r | r in a.discriminants
        ensures (a.discriminants[r].mayBeUnset ==> c.discriminants[r].mayBeUnset)
        ensures a.discriminants[r].possible <= c.discriminants[r].possible
      {
        assert r in b.discriminants;
      }
    }
  }

  /* ----- the ladder ----- */

  lemma SubsetCard<T>(a: set<T>, b: set<T>)
    requires a <= b
    ensures |a| <= |b| && (a != b ==> |a| < |b|)
  {
    assert b == a + (b - a);
  }

  /** Steps a discriminant can still climb. */
  ghost function DiscSlack(f: Forest, d: Discriminant, r: nat): int {
    (if d.mayBeUnset then 0 else 1) + |Variants(f, r)| - |d.possible|
  }

  ghost function DiscsSlack(f: Forest, st: State, k: nat): int {
    if k == 0 then 0
    else DiscsSlack(f, st, k - 1) + (if k - 1 in st.discriminants then DiscSlack(f, st.discriminants[k - 1], k - 1)
        else 0)
  }

  ghost function Ceiling(f: Forest, n: nat, k: nat): nat {
    if k == 0 then 2 * n + 2 * |f| + 1 else Ceiling(f, n, k - 1) + 1 + |Variants(f, k - 1)|
  }

  /** Joins that can still change `st`. */
  ghost function Slack(f: Forest, n: nat, st: State): int {
    if !st.reachable then Ceiling(f, n, |f|)
    else (n - |st.mayLive|) + |st.mustLive| + (|f| - |st.mayInit|) + |st.mustInit| + DiscsSlack(f, st, |f|)
  }

  lemma {:induction false} DiscsSlackBounds(f: Forest, n: nat, st: State, k: nat)
    requires Proper(f, n, st)
    ensures 0 <= DiscsSlack(f, st, k) < Ceiling(f, n, k) - 2 * n - 2 * |f|
  {
    if k > 0 {
      DiscsSlackBounds(f, n, st, k - 1);
      if k - 1 in st.discriminants { SubsetCard(st.discriminants[k - 1].possible, Variants(f, k - 1)); }
    }
  }

  lemma SlackBounds(f: Forest, n: nat, st: State)
    requires Proper(f, n, st)
    ensures 0 <= Slack(f, n, st) && (st.reachable ==> Slack(f, n, st) < Ceiling(f, n, |f|))
  {
    DiscsSlackBounds(f, n, st, |f|);
    SubsetCard(st.mayLive, UpTo(n));
    SubsetCard(st.mustLive, st.mayLive);
    SubsetCard(st.mayInit, UpTo(|f|));
    SubsetCard(st.mustInit, st.mayInit);
  }

  lemma {:induction false} DiscsSlackFalls(f: Forest, n: nat, a: State, b: State, k: nat)
    requires Proper(f, n, a) && Proper(f, n, b) && a.reachable && Below(a, b)
    ensures DiscsSlack(f, b, k) <= DiscsSlack(f, a, k)
    ensures (exists r: nat :: r < k && r in a.discriminants && a.discriminants[r] != b.discriminants[r]) ==>
              DiscsSlack(f, b, k) < DiscsSlack(f, a, k)
  {
    if k > 0 {
      DiscsSlackFalls(f, n, a, b, k - 1);
      if k - 1 in a.discriminants {
        SubsetCard(a.discriminants[k - 1].possible, b.discriminants[k - 1].possible);
      }
    }
  }

  /** A state that really grows has fewer steps left. */
  lemma SlackFalls(f: Forest, n: nat, a: State, b: State)
    requires Proper(f, n, a) && Proper(f, n, b) && Below(a, b) && a != b && b.reachable
    ensures Slack(f, n, b) < Slack(f, n, a)
  {
    SlackBounds(f, n, b);
    if a.reachable {
      SubsetCard(a.mayLive, b.mayLive);
      SubsetCard(b.mustLive, a.mustLive);
      SubsetCard(a.mayInit, b.mayInit);
      SubsetCard(b.mustInit, a.mustInit);
      DiscsSlackFalls(f, n, a, b, |f|);
      if a.discriminants != b.discriminants {
        var r :| r in a.discriminants && a.discriminants[r] != b.discriminants[r];
        assert r in EnumRoots(f);
      }
    }
  }

  /** The verifier's own must-within-may checks can never fail. */
  lemma InvariantChecksNeverFire(f: Forest, n: nat, st: State, op: CleanupOp)
    requires Proper(f, n, st) && OpShapeOk(f, op) && LocalInRange(n, op)
    ensures forall l :: l in Apply(f, st, op).mustLive ==> l in Apply(f, st, op).mayLive
    ensures forall p :: p in Apply(f, st, op).mustInit ==> p in Apply(f, st, op).mayInit
  {
    ProperApply(f, n, st, op);
  }
}
