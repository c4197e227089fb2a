/**
 What the verifier demands of one operation: once and for all from the shape of the
 move paths, and again from the state computed before the operation.
 */
module Checks {
  import opened Wrappers
  import opened CleanupPlan
  import opened MovePaths
  import opened MoveStates

  /** All children are captures: the layout of a callable environment is not tracked. */
  predicate IsEnvironment(f: seq<MovePath>, p: nat) {
    Kids(f, p) != {} && forall k | k in Kids(f, p) :: IsCapture(f, k)
  }

  /** Equal labels, and matching shapes below them. */
  ghost predicate KidsMatch(f: Forest, s: nat, d: nat, ks: nat, kd: nat)
    requires ks in Kids(f, s) && kd in Kids(f, d)
    decreases Height(f, s), 0
  {
    KidFacts(f, s, ks);
    KidFacts(f, d, kd);
    Label(f, ks) == Label(f, kd) && ShapesMatch(f, ks, kd)
  }

  /** The trees below `s` and `d` agree label by label, down to callable environments. */
  ghost predicate ShapesMatch(f: Forest, s: nat, d: nat)
    decreases Height(f, s), 1
  {
    || IsEnvironment(f, s) || IsEnvironment(f, d)
    || (&& |Kids(f, s)| == |Kids(f, d)|
        && forall ks | ks in Kids(f, s) ::
             exists kd :: kd in Kids(f, d) && KidsMatch(f, s, d, ks, kd))
  }

  lemma Partner(f: Forest, s: nat, d: nat, ks: nat) returns (kd: nat)
    requires ShapesMatch(f, s, d) && !IsEnvironment(f, s) && !IsEnvironment(f, d) && ks in Kids(f, s)
    ensures kd in Kids(f, d) && Label(f, ks) == Label(f, kd) && ShapesMatch(f, ks, kd)
  {
    kd :| kd in Kids(f, d) && KidsMatch(f, s, d, ks, kd);
  }

  /* ----- matching is symmetric ----- */

  ghost function Labels(f: Forest, ks: set<nat>): set<Option<Projection>> {
    set k | k in ks :: Label(f, k)
  }

  lemma {:induction false} LabelCount(f: Forest, p: nat, ks: set<nat>)
    requires ks <= Kids(f, p)
    ensures |Labels(f, ks)| == |ks|
  {
    if ks != {} {
      var k :| k in ks;
      LabelCount(f, p, ks - {k});
      forall x | x in ks - {k} ensures Label(f, x) != Label(f, k) {
        if Label(f, x) == Label(f, k) { LabelInjective(f, p, x, k); }
      }
      assert Labels(f, ks) == Labels(f, ks - {k}) + {Label(f, k)};
    }
  }

  lemma SubsetOfSameSize<T>(a: set<T>, b: set<T>)
    requires a <= b && |a| == |b|
    ensures a == b
  {
    assert |b - a| == |b| - |a|;
  }

  /** As many children, each with a partner: then each partner has a child. */
  lemma PartnerBack(f: Forest, s: nat, d: nat, kd: nat) returns (ks: nat)
    requires ShapesMatch(f, s, d) && !IsEnvironment(f, s) && !IsEnvironment(f, d) && kd in Kids(f, d)
    ensures ks in Kids(f, s) && Label(f, ks) == Label(f, kd) && ShapesMatch(f, ks, kd)
  {
    LabelCount(f, s, Kids(f, s));
    LabelCount(f, d, Kids(f, d));
    forall k | k in Kids(f, s) ensures Label(f, k) in Labels(f, Kids(f, d)) { var other := Partner(f, s, d, k); }
    assert |Kids(f, s)| == |Kids(f, d)|;
    hide ShapesMatch; hide IsEnvironment; hide Kids; hide Label;
    SubsetOfSameSize(Labels(f, Kids(f, s)), Labels(f, Kids(f, d)));
    assert Label(f, kd) in Labels(f, Kids(f, d));
    ks :| ks in Kids(f, s) && Label(f, ks) == Label(f, kd);
    var other := Partner(f, s, d, ks);
    LabelInjective(f, d, other, kd);
  }

  /** Source and destination may be exchanged. */
  lemma {:induction false} ShapesSymmetric(f: Forest, s: nat, d: nat)
    requires ShapesMatch(f, s, d)
    ensures ShapesMatch(f, d, s)
    decreases Height(f, s)
  {
    if !IsEnvironment(f, s) && !IsEnvironment(f, d) {
      forall kd | kd in Kids(f, d) ensures exists ks :: ks in Kids(f, s) && KidsMatch(f, d, s, kd, ks) {
        var ks := PartnerBack(f, s, d, kd);
        KidFacts(f, s, ks);
        ShapesSymmetric(f, ks, kd);
        assert KidsMatch(f, d, s, kd, ks);
      }
    }
  }

  /** The demands that do not depend on a state. */
  ghost predicate OpShapeOk(f: Forest, op: CleanupOp) {
    match op
    case StorageLive(_) => true
    case StorageDead(_) => true
    case Init(p) => p < |f|
    case MoveOut(p) => p < |f|
    case Overwrite(p) => p < |f|
    case Transfer(s, d, _) =>
      s < |f| && d < |f| && !Within(f, s, d) && !Within(f, d, s) && ShapesMatch(f, s, d)
    case SetDiscriminant(p, v) => p < |f| && v in Variants(f, p)
    case AssumeDiscriminant(r, v) => r < |f| && v in Variants(f, r)
  }

  ghost predicate PathReady(f: Forest, st: State, p: nat) {
    Liveness(st, LocalOf(f, p)) == Live && DowncastsActive(f, st, p)
  }

  /** The demands on the state before the operation. */
  ghost predicate OpStateOk(f: Forest, st: State, op: CleanupOp) {
    match op
    case StorageLive(local) => Liveness(st, local) == Dead
    case StorageDead(_) => true
    case Init(p) => PathReady(f, st, p)
    case MoveOut(p) => PathReady(f, st, p) && Initialization(f, st, p) == Initialized
    case Overwrite(p) => PathReady(f, st, p) && Initialization(f, st, p) == Initialized
    case Transfer(s, d, kind) =>
      && PathReady(f, st, s) && PathReady(f, st, d)
      && Initialization(f, st, s) == Initialized
      && Initialization(f, st, d) ==
         (match kind
          case Initialize => Uninitialized
          case OverwriteKind => Initialized
          case MaybeOverwrite => MaybeOrPartial)
    case SetDiscriminant(p, _) => PathReady(f, st, p) && Initialization(f, st, p) == Uninitialized
    case AssumeDiscriminant(r, _) =>
      Liveness(st, LocalOf(f, r)) == Live && Initialization(f, st, r) == Initialized
  }
}
