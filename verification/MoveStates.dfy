/**
 The may/must lattice of `MoveState`, on values. `MoveState.dfy` holds the object
 that updates bit sets in place; each of its methods is proved to compute the
 function of the same name here.
 */
module MoveStates {
  import opened CleanupPlan
  import opened MovePaths

  /** What is known of an enum root's discriminant. */
  datatype Discriminant = Discriminant(mayBeUnset: bool, possible: set<nat>)

  const UNSELECTED: Discriminant := Discriminant(true, {})

  datatype State = State(
    reachable: bool,
    mayLive: set<LocalId>, mustLive: set<LocalId>,
    mayInit: set<MovePathId>, mustInit: set<MovePathId>,
    discriminants: map<MovePathId, Discriminant>)

  datatype Certainty = May | Must

  datatype PathInitialization = Uninitialized | MaybeOrPartial | Initialized

  datatype StorageLiveness = Dead | MaybeLive | Live

  ghost function NewState(f: Forest, reachable: bool): State {
    State(reachable, {}, {}, {}, {}, map r | r in EnumRoots(f) :: UNSELECTED)
  }

  function Disc(st: State, r: nat): Discriminant {
    if r in st.discriminants then st.discriminants[r] else UNSELECTED
  }

  /* ----- queries ----- */

  function Liveness(st: State, local: LocalId): StorageLiveness {
    if local in st.mustLive then Live else if local in st.mayLive then MaybeLive else Dead
  }

  /** Some part of the path at `q` may hold a value or a selected variant. */
  predicate MayHold(st: State, q: nat) {
    q in st.mayInit || !Disc(st, q).mayBeUnset || Disc(st, q).possible != {}
  }

  ghost predicate MayHoldPart(f: Forest, st: State, p: nat) {
    exists q :: q in Subtree(f, p) && MayHold(st, q)
  }

  ghost function Initialization(f: Forest, st: State, p: nat): PathInitialization {
    if p in st.mustInit then Initialized
    else if MayHoldPart(f, st, p) then MaybeOrPartial
    else Uninitialized
  }

  /** Every enum projected through on the way to `p` is known to select that variant. */
  ghost predicate DowncastsActive(f: Forest, st: State, p: nat)
    decreases Depth(f, p)
  {
    Parent(f, p).Some? ==>
      (ParentFacts(f, p);
       var a := Parent(f, p).value;
       (IsDowncast(f, p) ==> Disc(st, a) == Discriminant(false, {Variant(f, p)}))
       && DowncastsActive(f, st, a))
  }

  /* ----- clearing ----- */

  function ResetAll(m: map<MovePathId, Discriminant>, ps: set<nat>): map<MovePathId, Discriminant> {
    map r | r in m :: if r in ps then UNSELECTED else m[r]
  }

  ghost function ClearPaths(st: State, ps: set<nat>): State {
    st.(mayInit := st.mayInit - ps,
        mustInit := st.mustInit - ps,
        discriminants := ResetAll(st.discriminants, ps))
  }

  ghost function ClearSubtree(f: Forest, st: State, p: nat): State {
    ClearPaths(st, Subtree(f, p))
  }

  /** The paths are no longer complete; what lies below them is left alone. */
  function DropInit(st: State, ps: set<nat>): State {
    st.(mayInit := st.mayInit - ps, mustInit := st.mustInit - ps)
  }

  ghost function ClearPath(f: Forest, st: State, p: nat): State {
    DropInit(ClearSubtree(f, st, p), Ancestors(f, p))
  }

  ghost function StartStorage(f: Forest, st: State, local: LocalId): State {
    var s := ClearPaths(st, LocalPaths(f, local));
    s.(mayLive := s.mayLive + {local}, mustLive := s.mustLive + {local})
  }

  ghost function EndStorage(f: Forest, st: State, local: LocalId): State {
    var s := ClearPaths(st, LocalPaths(f, local));
    s.(mayLive := s.mayLive - {local}, mustLive := s.mustLive - {local})
  }

  /* ----- marking a whole path initialized ----- */

  /** What `mark_whole` does at one path below its root. */
  datatype Mark = Cleared | Marked(certainty: Certainty)

  ghost function MarkDiscriminant(f: Forest, d: Discriminant, r: nat, mark: Mark): Discriminant {
    match mark
    case Cleared => UNSELECTED
    case Marked(Must) =>
      Discriminant(false, if d.mayBeUnset then d.possible + Variants(f, r) else d.possible)
    case Marked(May) => Discriminant(true, d.possible + Variants(f, r))
  }

  /** The mark a child receives from its parent's mark. */
  ghost function KidMark(f: Forest, st: State, a: nat, mark: Mark, k: nat): Mark {
    if mark.Cleared? || !IsDowncast(f, k) then mark
    else
      var d := MarkDiscriminant(f, Disc(st, a), a, mark);
      if Variant(f, k) !in d.possible then Cleared
      else if mark == Marked(Must) && d.possible == {Variant(f, k)} then Marked(Must)
      else Marked(May)
  }

  ghost function MarkOf(f: Forest, st: State, root: nat, certainty: Certainty, q: nat): Mark
    decreases Depth(f, q)
  {
    if q == root || Parent(f, q).None? then Marked(certainty)
    else
      ParentFacts(f, q);
      var a := Parent(f, q).value;
      KidMark(f, st, a, MarkOf(f, st, root, certainty, a), q)
  }

  ghost function MarkWhole(f: Forest, st: State, root: nat, certainty: Certainty): State {
    var sub := Subtree(f, root);
    st.(mayInit := (st.mayInit - sub) + (set q | q in sub && MarkOf(f, st, root, certainty, q).Marked?),
        mustInit := (st.mustInit - sub) + (set q | q in sub && MarkOf(f, st, root, certainty, q) == Marked(Must)),
        discriminants := map r | r in st.discriminants ::
          if r in sub then MarkDiscriminant(f, st.discriminants[r], r, MarkOf(f, st, root, certainty, r))
          else st.discriminants[r])
  }

  /* ----- recomputing ancestors ----- */

  function WithInit(st: State, a: nat, may: bool, must: bool): State {
    st.(mayInit := if may then st.mayInit + {a} else st.mayInit - {a},
        mustInit := if must then st.mustInit + {a} else st.mustInit - {a})
  }

  ghost function RecomposeNode(f: Forest, st: State, a: nat): State {
    if !IsEnum(f, a) then
      var allMust := Kids(f, a) <= st.mustInit;
      var allMay := Kids(f, a) <= st.mayInit;
      WithInit(st, a, allMust || allMay, allMust)
    else
      var active := set k | k in Kids(f, a) && Disc(st, a) == Discriminant(false, {Variant(f, k)});
      if active == {} then st
      else WithInit(st, a, active <= st.mustInit || active <= st.mayInit, active <= st.mustInit)
  }

  ghost function Recompose(f: Forest, st: State, p: nat): State
    decreases Depth(f, p)
  {
    if Parent(f, p).None? then st
    else
      ParentFacts(f, p);
      var a := Parent(f, p).value;
      Recompose(f, RecomposeNode(f, st, a), a)
  }

  /* ----- operations ----- */

  ghost function InitializePath(f: Forest, st: State, p: nat): State {
    Recompose(f, MarkWhole(f, st, p, Must), p)
  }

  function SetKnown(st: State, r: nat, v: nat): State {
    if r in st.discriminants then st.(discriminants := st.discriminants[r := Discriminant(false, {v})])
    else st
  }

  ghost function SelectVariant(f: Forest, st: State, p: nat, v: nat): State {
    SetKnown(ClearPath(f, st, p), p, v)
  }

  /** Children of an enum root that a selected variant rules out. */
  ghost function OtherVariants(f: Forest, r: nat, v: nat): set<nat> {
    set k, q | k in Kids(f, r) && IsDowncast(f, k) && Variant(f, k) != v && q in Subtree(f, k) :: q
  }

  ghost function VariantKids(f: Forest, r: nat, v: nat): set<nat> {
    set k | k in Kids(f, r) && IsDowncast(f, k) && Variant(f, k) == v
  }

  ghost function AssumeVariant(f: Forest, st: State, r: nat, v: nat): State {
    var s := ClearPaths(SetKnown(st, r, v), OtherVariants(f, r, v));
    var kids := VariantKids(f, r, v);
    if kids == {} then s else MarkWhole(f, s, var k :| k in kids; k, Must)
  }

  /** The destination of a transfer takes over the source's discriminant. */
  ghost function MoveDiscriminant(st: State, d: Discriminant, source: nat, destination: nat): State {
    if source in st.discriminants && destination in st.discriminants
    then st.(discriminants := st.discriminants[destination := d]) else st
  }

  ghost function TransferValue(f: Forest, st: State, source: nat, destination: nat): State {
    var s := ClearPath(f, ClearPath(f, st, source), destination);
    InitializePath(f, MoveDiscriminant(s, Disc(st, source), source, destination), destination)
  }

  ghost function Apply(f: Forest, st: State, op: CleanupOp): State {
    match op
    case StorageLive(local) => StartStorage(f, st, local)
    case StorageDead(local) => EndStorage(f, st, local)
    case Init(p) => InitializePath(f, st, p)
    case Overwrite(p) => InitializePath(f, ClearPath(f, st, p), p)
    case MoveOut(p) => ClearPath(f, st, p)
    case Transfer(source, destination, _) => TransferValue(f, st, source, destination)
    case SetDiscriminant(p, v) => SelectVariant(f, st, p, v)
    case AssumeDiscriminant(r, v) => AssumeVariant(f, st, r, v)
  }

  ghost function ApplyAll(f: Forest, st: State, ops: seq<CleanupOp>): State {
    if ops == [] then st
    else Apply(f, ApplyAll(f, st, ops[..|ops| - 1]), ops[|ops| - 1])
  }

  /** One more operation. */
  lemma ApplyAllPrefix(f: Forest, st: State, ops: seq<CleanupOp>, i: nat)
    requires i <= |ops|
    ensures i == 0 ==> ApplyAll(f, st, ops[..i]) == st
    ensures i > 0 ==> ApplyAll(f, st, ops[..i]) == Apply(f, ApplyAll(f, st, ops[..i - 1]), ops[i - 1])
  {
    if i > 0 { assert ops[..i][..i - 1] == ops[..i - 1]; }
  }

  /** Storage of every listed local ends, in order. */
  ghost function EndAll(f: Forest, st: State, locals: seq<LocalId>): State {
    if locals == [] then st
    else EndStorage(f, EndAll(f, st, locals[..|locals| - 1]), locals[|locals| - 1])
  }

  /* ----- the lattice ----- */

  function JoinDiscriminant(a: Discriminant, b: Discriminant): Discriminant {
    Discriminant(a.mayBeUnset || b.mayBeUnset, a.possible + b.possible)
  }

  ghost function Join(a: State, b: State): State {
    if !b.reachable then a
    else if !a.reachable then b
    else State(true, a.mayLive + b.mayLive, a.mustLive * b.mustLive,
               a.mayInit + b.mayInit, a.mustInit * b.mustInit,
               map r | r in a.discriminants :: JoinDiscriminant(a.discriminants[r], Disc(b, r)))
  }

  /** `b` describes at least the executions that `a` describes. */
  ghost predicate Below(a: State, b: State) {
    a.reachable ==>
      && b.reachable
      && a.mayLive <= b.mayLive && b.mustLive <= a.mustLive
      && a.mayInit <= b.mayInit && b.mustInit <= a.mustInit
      && a.discriminants.Keys == b.discriminants.Keys
      && forall r | r in a.discriminants ::
           && (a.discriminants[r].mayBeUnset ==> b.discriminants[r].mayBeUnset)
           && a.discriminants[r].possible <= b.discriminants[r].possible
  }

  /** The shape every computed state has. */
  ghost predicate Proper(f: Forest, locals: nat, st: State) {
    && (forall l | l in st.mayLive :: l < locals) && st.mustLive <= st.mayLive
    && (forall p | p in st.mayInit :: p < |f|) && st.mustInit <= st.mayInit
    && st.discriminants.Keys == EnumRoots(f)
    && forall r | r in st.discriminants :: st.discriminants[r].possible <= Variants(f, r)
  }
}
