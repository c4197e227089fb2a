/**
 `MoveState`: four bit sets and a vector of discriminants, updated in place. Every
 method computes the function of the same name in `MoveStates`.
 */
module MoveStateObjects {
  import opened Wrappers
  import opened Sequences
  import opened CleanupPlan
  import opened MovePaths
  import opened Topologies
  import opened MoveStates
  import opened DiscriminantStates
  import opened BitSets
  import opened Marking

  /* ----- discriminant slots ----- */

  ghost function SlotView(ds: seq<DiscriminantState>, i: nat): Discriminant {
    if i < |ds| then ds[i].View() else UNSELECTED
  }

  ghost function Discs(f: Forest, ds: seq<DiscriminantState>): map<MovePathId, Discriminant> {
    map r | r in EnumRoots(f) :: SlotView(ds, EnumCount(f, r))
  }

  ghost predicate SlotsValid(f: Forest, ds: seq<DiscriminantState>) {
    |ds| == EnumCount(f, |f|) && forall i | 0 <= i < |ds| :: ds[i].Valid()
  }

  lemma SlotIndex(f: Forest, r: nat)
    requires r in EnumRoots(f)
    ensures EnumCount(f, r) < EnumCount(f, |f|)
  {
    EnumCountGrows(f, r, |f|);
  }

  lemma SlotsDiffer(f: Forest, q: nat, r: nat)
    requires q in EnumRoots(f) && r in EnumRoots(f) && q != r
    ensures EnumCount(f, q) != EnumCount(f, r)
  {
    if q < r { EnumCountGrows(f, q, r); } else { EnumCountGrows(f, r, q); }
  }

  lemma SetSlot(f: Forest, ds: seq<DiscriminantState>, r: nat, d: DiscriminantState)
    requires SlotsValid(f, ds) && r in EnumRoots(f) && d.Valid()
    ensures EnumCount(f, r) < |ds|
    ensures SlotsValid(f, ds[EnumCount(f, r) := d])
    ensures Discs(f, ds[EnumCount(f, r) := d]) == Discs(f, ds)[r := d.View()]
  {
    hide EnumRoots; hide EnumCount; hide IsForest; hide DiscriminantState.View; hide DiscriminantState.Valid;
    SlotIndex(f, r);
    forall q | q in EnumRoots(f) && q != r ensures EnumCount(f, q) != EnumCount(f, r) { SlotsDiffer(f, q, r); }
  }

  /** The first `i` slots are joined, the others as they were. */
  ghost predicate JoinedUpTo(before: seq<DiscriminantState>, incoming: seq<DiscriminantState>,
                             now: seq<DiscriminantState>, i: nat)
  {
    && i <= |before| == |incoming| == |now|
    && (forall j | 0 <= j < i ::
          now[j].Valid() && now[j].View() == JoinDiscriminant(before[j].View(), incoming[j].View()))
    && (forall j | i <= j < |now| :: now[j] == before[j])
  }

  lemma JoinedNone(before: seq<DiscriminantState>, incoming: seq<DiscriminantState>)
    requires |before| == |incoming|
    ensures JoinedUpTo(before, incoming, before, 0)
  {
  }

  lemma JoinedNext(before: seq<DiscriminantState>, incoming: seq<DiscriminantState>, now: seq<DiscriminantState>,
                   i: nat,
                   d: DiscriminantState)
    requires JoinedUpTo(before, incoming, now, i) && i < |now|
    requires d.Valid() && d.View() == JoinDiscriminant(now[i].View(), incoming[i].View())
    ensures JoinedUpTo(before, incoming, now[i := d], i + 1)
  {
  }

  lemma JoinedAll(f: Forest, before: seq<DiscriminantState>, incoming: seq<DiscriminantState>,
                  now: seq<DiscriminantState>)
    requires SlotsValid(f, before) && SlotsValid(f, incoming) && JoinedUpTo(before, incoming, now, |before|)
    ensures SlotsValid(f, now)
    ensures Discs(f, now) == map r | r in Discs(f, before) ::
        JoinDiscriminant(Discs(f, before)[r], Discs(f, incoming)[r])
  {
    forall r | r in EnumRoots(f) ensures EnumCount(f, r) < |now| { EnumCountGrows(f, r, |f|); }
    hide EnumRoots; hide EnumCount; hide DiscriminantState.View; hide JoinDiscriminant;
  }

  lemma ResetSlot(f: Forest, ds: seq<DiscriminantState>, p: nat)
    requires SlotsValid(f, ds)
    ensures p in EnumRoots(f) ==>
              EnumCount(f, p) < |ds| && Discs(f, ds[EnumCount(f, p) := UNSET]) == ResetAll(Discs(f, ds), {p})
    ensures p !in EnumRoots(f) ==> Discs(f, ds) == ResetAll(Discs(f, ds), {p})
  {
    if p in EnumRoots(f) {
      SetSlot(f, ds, p, UNSET);
      assert UNSET.View() == UNSELECTED;
    }
    hide EnumRoots; hide EnumCount; hide IsForest; hide SlotsValid; hide DiscriminantState.View; hide SlotView;
  }

  /** Equal vectors are equal maps: each slot belongs to an enum root. */
  lemma SameDiscs(f: Forest, a: seq<DiscriminantState>, b: seq<DiscriminantState>)
    requires SlotsValid(f, a) && SlotsValid(f, b)
    ensures a == b <==> Discs(f, a) == Discs(f, b)
  {
    if Discs(f, a) == Discs(f, b) {
      forall i | 0 <= i < |a| ensures a[i] == b[i] {
        var p := SlotOwner(f, |f|, i);
        assert p in EnumRoots(f) && Discs(f, a)[p] == Discs(f, b)[p];
        SameView(a[i], b[i]);
      }
    }
  }

  lemma FreshDiscs(f: Forest, ds: seq<DiscriminantState>)
    requires |ds| == EnumCount(f, |f|) && forall i | 0 <= i < |ds| :: ds[i] == UNSET
    ensures SlotsValid(f, ds) && Discs(f, ds) == map r | r in EnumRoots(f) :: UNSELECTED
  {
    forall r | r in EnumRoots(f) ensures SlotView(ds, EnumCount(f, r)) == UNSELECTED { EnumCountGrows(f, r, |f|); }
  }

  lemma BitFits(bit: nat, n: nat)
    requires bit < n
    ensures bit / 64 < (n + 63) / 64
  {
  }

  /** The contents of a `MoveState`, as stored in `block_exit`. */
  datatype Snapshot = Snapshot(
    reachable: bool, mayLive: seq<Word>, mustLive: seq<Word>, mayInit: seq<Word>, mustInit: seq<Word>,
    discriminants: seq<DiscriminantState>)
  {
    ghost predicate Valid(f: Forest, n: nat) {
      && |mayLive| == |mustLive| == (n + 63) / 64
      && |mayInit| == |mustInit| == (|f| + 63) / 64
      && SlotsValid(f, discriminants)
    }

    ghost function View(f: Forest): State {
      State(reachable, BitsOf(mayLive), BitsOf(mustLive), BitsOf(mayInit), BitsOf(mustInit), Discs(f, discriminants))
    }
  }

  /** The child a discriminant pins down, if it pins one down. */
  method ActiveOf(f: Forest, path: MovePathId, variants: seq<(nat, MovePathId)>, d: DiscriminantState)
    returns (child: Option<MovePathId>)
    requires path < |f| && IsEnum(f, path) && VariantsAgree(f, path, variants) && d.Valid()
    ensures (set k | k in Kids(f, path) && d.View() == Discriminant(false, {Variant(f, k)}))
            == (match child case Some(k) => {k} case None => {})
  {
    if !d.mayBeUnset && |d.possibleVariants| == 1 {
      var active := d.possibleVariants[0];
      assert d.View() == Discriminant(false, {active});
      child := FindVariant(variants, active);
      if child.Some? {
        ghost var i :| 0 <= i < |variants| && variants[i] == (active, child.value);
        KnownChild(f, path, variants, i, d.View());
      } else {
        NoChild(f, path, variants, d.View(), active);
      }
      return;
    }
    forall k | k in Kids(f, path) ensures d.View() != Discriminant(false, {Variant(f, k)}) {
      OnlyVariant(d, Variant(f, k));
    }
    child := None;
  }

  class MoveState {
    var reachable: bool
    const mayLive: BitSet
    const mustLive: BitSet
    const mayInit: BitSet
    const mustInit: BitSet
    var discriminants: seq<DiscriminantState>

    ghost function Repr(): set<object> {
      {this, mayLive, mustLive, mayInit, mustInit}
    }

    ghost predicate Valid(f: Forest, n: nat)
      reads Repr()
    {
      && mayLive != mustLive && mayLive != mayInit && mayLive != mustInit
      && mustLive != mayInit && mustLive != mustInit && mayInit != mustInit
      && |mayLive.words| == |mustLive.words| == (n + 63) / 64
      && |mayInit.words| == |mustInit.words| == (|f| + 63) / 64
      && SlotsValid(f, discriminants)
    }

    ghost function Model(f: Forest): State
      reads Repr()
    {
      State(reachable, mayLive.Bits(), mustLive.Bits(), mayInit.Bits(), mustInit.Bits(), Discs(f, discriminants))
    }

    constructor (f: Forest, n: nat, t: Topology, isReachable: bool)
      requires Agrees(f, n, t)
      ensures Valid(f, n) && fresh(Repr()) && Model(f) == NewState(f, isReachable)
    {
      reachable := isReachable;
      mayLive := new BitSet(n);
      mustLive := new BitSet(n);
      mayInit := new BitSet(|f|);
      mustInit := new BitSet(|f|);
      discriminants := seq(t.discriminantCount, _ => UNSET);
      new;
      assert |discriminants| == EnumCount(f, |f|) && |f| == |t.children|;
      hide Agrees; hide IsForest;
      FreshDiscs(f, discriminants);
    }

    constructor Copy(f: Forest, n: nat, other: MoveState)
      requires other.Valid(f, n)
      ensures Valid(f, n) && fresh(Repr()) && Model(f) == other.Model(f)
    {
      reachable := other.reachable;
      mayLive := new BitSet.Copy(other.mayLive);
      mustLive := new BitSet.Copy(other.mustLive);
      mayInit := new BitSet.Copy(other.mayInit);
      mustInit := new BitSet.Copy(other.mustInit);
      discriminants := other.discriminants;
    }

    /* ----- clearing ----- */

    method ClearOne(f: Forest, n: nat, t: Topology, path: MovePathId)
      requires Valid(f, n) && Agrees(f, n, t) && path < |f|
      modifies Repr()
      ensures Valid(f, n) && Model(f) == ClearPaths(old(Model(f)), {path})
    {
      BitFits(path, |f|);
      mayInit.Remove(path);
      mustInit.Remove(path);
      ResetDiscriminant(f, n, t, path);
    }

    method ResetDiscriminant(f: Forest, n: nat, t: Topology, path: MovePathId)
      requires Valid(f, n) && Agrees(f, n, t) && path < |f|
      modifies this
      ensures Valid(f, n) && reachable == old(reachable)
      ensures Discs(f, discriminants) == ResetAll(old(Discs(f, discriminants)), {path})
    {
      ResetSlot(f, discriminants, path);
      match t.discriminantIndex[path]
      case Some(index) =>
        SetSlot(f, discriminants, path, UNSET);
        discriminants := discriminants[index := UNSET];
      case None =>
    }

    method ClearSubtreeOnly(f: Forest, n: nat, t: Topology, path: MovePathId)
      requires Valid(f, n) && Agrees(f, n, t) && path < |f|
      modifies Repr()
      ensures Valid(f, n) && Model(f) == ClearSubtree(f, old(Model(f)), path)
    {
      SliceIsSubtree(f, n, t, path);
      var descendants := t.Subtree(path);
      for i := 0 to |descendants|
        invariant Valid(f, n) && Model(f) == ClearPaths(old(Model(f)), Elements(descendants[..i]))
      {
        assert descendants[i] in t.Subtree(path);
        ClearOne(f, n, t, descendants[i]);
        OneMoreElement(descendants, i);
        ClearMore(old(Model(f)), Elements(descendants[..i]), descendants[i]);
      }
      assert descendants[..|descendants|] == descendants;
      assert Elements(descendants) == Subtree(f, path);
    }

    method ClearPath(f: Forest, n: nat, t: Topology, path: MovePathId)
      requires Valid(f, n) && Agrees(f, n, t) && path < |f|
      modifies Repr()
      ensures Valid(f, n) && Model(f) == MoveStates.ClearPath(f, old(Model(f)), path)
    {
      ClearSubtreeOnly(f, n, t, path);
      var current: nat := path;
      while f[current].parent.Some?
        invariant current < |f| && Valid(f, n)
        invariant DropInit(Model(f), Ancestors(f, current)) == MoveStates.ClearPath(f, old(Model(f)), path)
        decreases Depth(f, current)
      {
        ParentFacts(f, current);
        AncestorStep(f, current);
        ghost var before := Model(f);
        ghost var below := current;
        current := f[current].parent.value;
        BitFits(current, |f|);
        mayInit.Remove(current);
        mustInit.Remove(current);
        DropStep(before, Ancestors(f, below), Ancestors(f, current), current);
      }
      NoAncestors(f, current);
      assert DropInit(Model(f), {}) == Model(f);
    }

    method ClearLocalValue(f: Forest, n: nat, t: Topology, local: LocalId)
      requires Valid(f, n) && Agrees(f, n, t)
      modifies Repr()
      ensures Valid(f, n) && Model(f) == ClearPaths(old(Model(f)), LocalPaths(f, local))
    {
      if local < |t.rootsByLocal| && t.rootsByLocal[local].Some? {
        RootSubtree(f, t.rootsByLocal[local].value);
        ClearSubtreeOnly(f, n, t, t.rootsByLocal[local].value);
      } else {
        NoRootNoPaths(f, n, t, local);
        assert ClearPaths(Model(f), {}) == Model(f);
      }
    }

    method StartStorage(f: Forest, n: nat, t: Topology, local: LocalId)
      requires Valid(f, n) && Agrees(f, n, t) && local < n
      modifies Repr()
      ensures Valid(f, n) && Model(f) == MoveStates.StartStorage(f, old(Model(f)), local)
    {
      ClearLocalValue(f, n, t, local);
      BitFits(local, n);
      mayLive.Insert(local);
      mustLive.Insert(local);
    }

    method EndStorage(f: Forest, n: nat, t: Topology, local: LocalId)
      requires Valid(f, n) && Agrees(f, n, t) && local < n
      modifies Repr()
      ensures Valid(f, n) && Model(f) == MoveStates.EndStorage(f, old(Model(f)), local)
    {
      ClearLocalValue(f, n, t, local);
      BitFits(local, n);
      mayLive.Remove(local);
      mustLive.Remove(local);
    }

    /* ----- marking ----- */

    method SetInit(f: Forest, n: nat, path: MovePathId, must: bool)
      requires Valid(f, n) && path < |f|
      modifies Repr()
      ensures Valid(f, n) && Model(f) == WithInit(old(Model(f)), path, true, must)
      ensures discriminants == old(discriminants)
    {
      BitFits(path, |f|);
      mayInit.Insert(path);
      if must { mustInit.Insert(path); } else { mustInit.Remove(path); }
    }

    /** The discriminant of an enum root that is being marked. */
    method MarkDiscriminant(f: Forest, n: nat, t: Topology, path: MovePathId, certainty: Certainty,
                            variants: seq<(nat, MovePathId)>)
      returns (possible: seq<nat>)
      requires Valid(f, n) && Agrees(f, n, t) && path < |f| && IsEnum(f, path) && VariantsAgree(f, path, variants)
      modifies Repr()
      ensures Valid(f, n)
      ensures Model(f) == old(Model(f)).(discriminants := old(Model(f)).discriminants[path :=
                MoveStates.MarkDiscriminant(f, Disc(old(Model(f)), path), path, Marked(certainty))])
      ensures Increasing(possible)
      ensures Elements(possible)
          == MoveStates.MarkDiscriminant(f, Disc(old(Model(f)), path), path, Marked(certainty)).possible
    {
      var allVariants := seq(|variants|, i requires 0 <= i < |variants| => variants[i].0);
      AllVariants(f, path, variants, allVariants);
      var index := t.discriminantIndex[path].value;
      SetSlot(f, discriminants, path, UNSET);
      var d := discriminants[index];
      match certainty {
        case Must =>
          if d.mayBeUnset {
            d := IncludeAll(d, allVariants);
          }
          d := d.(mayBeUnset := false);
        case May =>
          d := IncludeAll(d.(mayBeUnset := true), allVariants);
      }
      SetSlot(f, discriminants, path, d);
      discriminants := discriminants[index := d];
      possible := d.possibleVariants;
    }

    /** The enum case of one turn, once `path` itself is marked. */
    method MarkEnum(f: Forest, n: nat, t: Topology, path: MovePathId, certainty: Certainty,
                    variants: seq<(nat, MovePathId)>, ghost before: State)
      returns (pushed: seq<Entry>)
      requires Valid(f, n) && Agrees(f, n, t) && path < |f| && IsEnum(f, path) && VariantsAgree(f, path, variants)
      requires Model(f) == WithInit(before, path, true, certainty == Must)
      modifies Repr()
      ensures Valid(f, n)
      ensures IsPush(f, before, path, certainty, pushed)
      ensures Model(f) == MarkNode(f, before, path, certainty)
    {
      var possible := MarkDiscriminant(f, n, t, path, certainty, variants);
      var childCertainty := if certainty == Must && |possible| == 1 then Must else May;
      pushed := PushVariants(f, n, t, path, variants, possible, childCertainty);
      PushedIsPush(f, before, path, certainty, variants, possible, childCertainty);
      ClearedIsRuledOut(f, before, path, certainty, variants, possible);
      MarkNodeEnum(f, before, path, certainty);
    }

    /** A possible variant is pushed, an impossible one cleared at once. */
    method PushVariant(f: Forest, n: nat, t: Topology, x: (nat, MovePathId), possible: seq<nat>,
                       childCertainty: Certainty)
      returns (pushed: seq<Entry>)
      requires Valid(f, n) && Agrees(f, n, t) && x.1 < |f| && Increasing(possible)
      modifies Repr()
      ensures Valid(f, n)
      ensures Model(f) == ClearPaths(old(Model(f)), ClearedBy(f, x, possible))
      ensures pushed == PushedBy(x, possible, childCertainty)
    {
      var found, _ := BinarySearch(possible, x.0);
      if found {
        pushed := [(x.1, childCertainty)];
        ClearNothing(Model(f));
      } else {
        pushed := [];
        ClearSubtreeOnly(f, n, t, x.1);
      }
    }

    method PushVariants(f: Forest, n: nat, t: Topology, path: MovePathId, variants: seq<(nat, MovePathId)>,
                        possible: seq<nat>, childCertainty: Certainty)
      returns (pushed: seq<Entry>)
      requires Valid(f, n) && Agrees(f, n, t) && VariantList(f, path, variants) && Increasing(possible)
      modifies Repr()
      ensures Valid(f, n)
      ensures Model(f) == ClearPaths(old(Model(f)), ClearedOf(f, variants, possible))
      ensures pushed == PushedOf(variants, possible, childCertainty)
    {
      ghost var settled := Model(f);
      pushed := [];
      ClearNothing(settled);
      for i := 0 to |variants|
        invariant Valid(f, n) && Model(f) == ClearPaths(settled, ClearedOf(f, variants[..i], possible))
        invariant pushed == PushedOf(variants[..i], possible, childCertainty)
      {
        assert variants[i].1 in Kids(f, path);
        var more := PushVariant(f, n, t, variants[i], possible, childCertainty);
        ClearUnion(settled, ClearedOf(f, variants[..i], possible), ClearedBy(f, variants[i], possible));
        VariantStep(f, variants, possible, childCertainty, i);
        pushed := pushed + more;
      }
      assert variants[..|variants|] == variants;
    }

    /** One turn of `mark_whole`. */
    method MarkTurn(f: Forest, n: nat, t: Topology, path: MovePathId, certainty: Certainty) returns (pushed: seq<Entry>)
      requires Valid(f, n) && Agrees(f, n, t) && path < |f|
      modifies Repr()
      ensures Valid(f, n)
      ensures Model(f) == MarkNode(f, old(Model(f)), path, certainty)
      ensures IsPush(f, old(Model(f)), path, certainty, pushed)
    {
      ghost var before := Model(f);
      SetInit(f, n, path, certainty == Must);
      assert RuleAgrees(f, path, t.completion[path]);
      match t.completion[path] {
        case Explicit =>
          pushed := [];
          MarkNodePlain(f, before, path, certainty);
        case AllChildren =>
          var children := t.children[path];
          pushed := [];
          for i := 0 to |children|
            invariant |pushed| == i && forall j | 0 <= j < i :: pushed[j] == (children[j], certainty)
          {
            pushed := pushed + [(children[i], certainty)];
          }
          MarkNodePlain(f, before, path, certainty);
          PlainPush(f, before, path, certainty, pushed);
        case EnumRoot(variants) =>
          pushed := MarkEnum(f, n, t, path, certainty, variants, before);
      }
    }

    method MarkWhole(f: Forest, n: nat, t: Topology, root: MovePathId, certainty: Certainty)
      requires Valid(f, n) && Agrees(f, n, t) && root < |f|
      modifies Repr()
      ensures Valid(f, n) && Model(f) == MoveStates.MarkWhole(f, old(Model(f)), root, certainty)
    {
      ghost var before := Model(f);
      var stack: seq<Entry> := [(root, certainty)];
      MarksStart(f, before, root, certainty);
      while stack != []
        invariant Valid(f, n) && Marks(f, before, root, certainty, stack, Model(f))
        decreases StackedPaths(f, stack)
      {
        var (path, c) := stack[|stack| - 1];
        var rest := stack[..|stack| - 1];
        assert stack == rest + [(path, c)];
        assert EntryOk(f, before, root, certainty, stack[|stack| - 1]);
        ghost var current := Model(f);
        var pushed := MarkTurn(f, n, t, path, c);
        Turn(f, before, root, certainty, rest, path, c, pushed, current);
        stack := rest + pushed;
      }
      MarksEnd(f, before, root, certainty, Model(f));
    }

    /* ----- ancestors ----- */

    method AllContained(bits: BitSet, children: seq<MovePathId>) returns (all: bool)
      ensures all <==> Elements(children) <= bits.Bits()
    {
      for i := 0 to |children|
        invariant Elements(children[..i]) <= bits.Bits()
      {
        var contained := bits.Contains(children[i]);
        assert Elements(children[..i + 1]) == Elements(children[..i]) + {children[i]};
        if !contained {
          assert children[i] in Elements(children);
          return false;
        }
      }
      assert children[..|children|] == children;
      return true;
    }

    method AssignInit(f: Forest, n: nat, path: MovePathId, may: bool, must: bool)
      requires Valid(f, n) && path < |f|
      modifies Repr()
      ensures Valid(f, n) && Model(f) == WithInit(old(Model(f)), path, may, must)
    {
      BitFits(path, |f|);
      if must { mustInit.Insert(path); } else { mustInit.Remove(path); }
      if may { mayInit.Insert(path); } else { mayInit.Remove(path); }
    }

    /** The child of the variant that is definitely active, if one is. */
    method ActiveChild(f: Forest, n: nat, t: Topology, path: MovePathId, variants: seq<(nat, MovePathId)>)
      returns (child: Option<MovePathId>)
      requires Valid(f, n) && Agrees(f, n, t) && path < |f| && IsEnum(f, path) && VariantsAgree(f, path, variants)
      ensures (set k | k in Kids(f, path) && Disc(Model(f), path) == Discriminant(false, {Variant(f, k)}))
              == (match child case Some(k) => {k} case None => {})
    {
      SetSlot(f, discriminants, path, UNSET);
      var d := discriminants[t.discriminantIndex[path].value];
      ghost var known := Disc(Model(f), path);
      assert known == d.View() && d.Valid();
      child := ActiveOf(f, path, variants, d);
    }

    method RecomposeAggregate(f: Forest, n: nat, path: MovePathId, children: seq<MovePathId>)
      requires Valid(f, n) && path < |f| && children == Children(f, path) && !IsEnum(f, path)
      modifies Repr()
      ensures Valid(f, n) && Model(f) == RecomposeNode(f, old(Model(f)), path)
    {
      assert Elements(children) == Kids(f, path);
      var allMust := AllContained(mustInit, children);
      var allMay := AllContained(mayInit, children);
      AssignInit(f, n, path, allMust || allMay, allMust);
    }

    method RecomposeEnum(f: Forest, n: nat, t: Topology, path: MovePathId, variants: seq<(nat, MovePathId)>)
      requires Valid(f, n) && Agrees(f, n, t) && path < |f| && IsEnum(f, path) && VariantsAgree(f, path, variants)
      modifies Repr()
      ensures Valid(f, n) && Model(f) == RecomposeNode(f, old(Model(f)), path)
    {
      var child := ActiveChild(f, n, t, path, variants);
      ghost var st := Model(f);
      RecomposeActive(f, st, path, child);
      hide RecomposeNode; hide VariantsAgree; hide Agrees; hide Kids; hide IsEnum;
      if child.None? { return; }
      var must := mustInit.Contains(child.value);
      var may := mayInit.Contains(child.value);
      AssignInit(f, n, path, must || may, must);
    }

    method RecomposeOne(f: Forest, n: nat, t: Topology, path: MovePathId)
      requires Valid(f, n) && Agrees(f, n, t) && path < |f| && Kids(f, path) != {}
      modifies Repr()
      ensures Valid(f, n) && Model(f) == RecomposeNode(f, old(Model(f)), path)
    {
      assert RuleAgrees(f, path, t.completion[path]);
      match t.completion[path]
      case Explicit =>
      case AllChildren => RecomposeAggregate(f, n, path, t.children[path]);
      case EnumRoot(variants) => RecomposeEnum(f, n, t, path, variants);
    }

    method RecomposeAncestors(f: Forest, n: nat, t: Topology, path: MovePathId)
      requires Valid(f, n) && Agrees(f, n, t) && path < |f|
      modifies Repr()
      ensures Valid(f, n) && Model(f) == Recompose(f, old(Model(f)), path)
    {
      var current: nat := path;
      while f[current].parent.Some?
        invariant current < |f| && Valid(f, n)
        invariant Recompose(f, Model(f), current) == Recompose(f, old(Model(f)), path)
        decreases Depth(f, current)
      {
        ParentFacts(f, current);
        current := f[current].parent.value;
        RecomposeOne(f, n, t, current);
      }
    }

    method InitializePath(f: Forest, n: nat, t: Topology, path: MovePathId)
      requires Valid(f, n) && Agrees(f, n, t) && path < |f|
      modifies Repr()
      ensures Valid(f, n) && Model(f) == MoveStates.InitializePath(f, old(Model(f)), path)
    {
      MarkWhole(f, n, t, path, Must);
      RecomposeAncestors(f, n, t, path);
    }

    /* ----- discriminants ----- */

    method SetKnown(f: Forest, n: nat, t: Topology, path: MovePathId, variant: nat)
      requires Valid(f, n) && Agrees(f, n, t) && path < |f|
      modifies Repr()
      ensures Valid(f, n) && Model(f) == MoveStates.SetKnown(old(Model(f)), path, variant)
    {
      match t.discriminantIndex[path]
      case Some(index) =>
        SetSlot(f, discriminants, path, Known(variant));
        discriminants := discriminants[index := Known(variant)];
      case None =>
    }

    method SelectVariant(f: Forest, n: nat, t: Topology, destination: MovePathId, variant: nat)
      requires Valid(f, n) && Agrees(f, n, t) && destination < |f|
      modifies Repr()
      ensures Valid(f, n) && Model(f) == MoveStates.SelectVariant(f, old(Model(f)), destination, variant)
    {
      ClearPath(f, n, t, destination);
      SetKnown(f, n, t, destination, variant);
    }

    /** One variant of an assumed enum: marked if it is the assumed one, cleared otherwise. */
    method AssumeOne(f: Forest, n: nat, t: Topology, x: (nat, MovePathId), variant: nat)
      requires Valid(f, n) && Agrees(f, n, t) && x.1 < |f|
      modifies Repr()
      ensures Valid(f, n)
      ensures Model(f) == (if x.0 == variant then MoveStates.MarkWhole(f, old(Model(f)), x.1, Must)
                           else ClearSubtree(f, old(Model(f)), x.1))
    {
      if x.0 == variant {
        MarkWhole(f, n, t, x.1, Must);
      } else {
        ClearSubtreeOnly(f, n, t, x.1);
      }
    }

    method AssumeVariants(f: Forest, n: nat, t: Topology, source: MovePathId, variants: seq<(nat, MovePathId)>,
                          variant: nat)
      requires Valid(f, n) && Agrees(f, n, t) && VariantList(f, source, variants)
      modifies Repr()
      ensures Valid(f, n) && Model(f) == AssumedOf(f, old(Model(f)), variants, variant)
    {
      for i := 0 to |variants|
        invariant Valid(f, n) && Model(f) == AssumedOf(f, old(Model(f)), variants[..i], variant)
      {
        assert variants[i].1 in Kids(f, source);
        AssumeOne(f, n, t, variants[i], variant);
        assert variants[..i + 1][..i] == variants[..i];
      }
      assert variants[..|variants|] == variants;
    }

    method AssumeVariant(f: Forest, n: nat, t: Topology, source: MovePathId, variant: nat)
      requires Valid(f, n) && Agrees(f, n, t) && source < |f|
      modifies Repr()
      ensures Valid(f, n) && Model(f) == MoveStates.AssumeVariant(f, old(Model(f)), source, variant)
    {
      ghost var before := Model(f);
      SetKnown(f, n, t, source, variant);
      assert RuleAgrees(f, source, t.completion[source]);
      match t.completion[source] {
        case EnumRoot(variants) =>
          AssumeVariants(f, n, t, source, variants, variant);
          AssumedIsAssume(f, before, source, variants, variant);
        case _ =>
          AssumeNonEnum(f, before, source, variant);
      }
    }

    /* ----- operations ----- */

    /** The discriminant of an enum root; nothing for other paths. */
    method ReadDiscriminant(f: Forest, n: nat, t: Topology, path: MovePathId) returns (d: Option<DiscriminantState>)
      requires Valid(f, n) && Agrees(f, n, t) && path < |f|
      ensures d.Some? <==> IsEnum(f, path)
      ensures d.Some? ==> d.value.Valid() && d.value.View() == Disc(Model(f), path)
    {
      ResetSlot(f, discriminants, path);
      match t.discriminantIndex[path]
      case Some(index) => d := Some(discriminants[index]);
      case None => d := None;
    }

    method InstallDiscriminant(f: Forest, n: nat, t: Topology, path: MovePathId, d: Option<DiscriminantState>)
      requires Valid(f, n) && Agrees(f, n, t) && path < |f| && (d.Some? ==> d.value.Valid())
      modifies this
      ensures Valid(f, n)
      ensures Model(f) == if d.Some? && IsEnum(f, path)
                          then old(Model(f)).(discriminants := old(Model(f)).discriminants[path := d.value.View()])
                          else old(Model(f))
    {
      if d.Some? && t.discriminantIndex[path].Some? {
        SetSlot(f, discriminants, path, d.value);
        discriminants := discriminants[t.discriminantIndex[path].value := d.value];
      }
    }

    method TransferValue(f: Forest, n: nat, t: Topology, source: MovePathId, destination: MovePathId)
      requires Valid(f, n) && Agrees(f, n, t) && source < |f| && destination < |f|
      modifies Repr()
      ensures Valid(f, n) && Model(f) == MoveStates.TransferValue(f, old(Model(f)), source, destination)
    {
      var sourceDiscriminant := ReadDiscriminant(f, n, t, source);
      ClearPath(f, n, t, source);
      ClearPath(f, n, t, destination);
      InstallDiscriminant(f, n, t, destination, sourceDiscriminant);
      InitializePath(f, n, t, destination);
    }

    ghost predicate OpInRange(f: Forest, n: nat, op: CleanupOp) {
      match op
      case StorageLive(local) => local < n
      case StorageDead(local) => local < n
      case Init(p) => p < |f|
      case MoveOut(p) => p < |f|
      case Overwrite(p) => p < |f|
      case Transfer(s, d, _) => s < |f| && d < |f|
      case SetDiscriminant(p, _) => p < |f|
      case AssumeDiscriminant(r, _) => r < |f|
    }

    method ApplyOperation(f: Forest, n: nat, t: Topology, op: CleanupOp)
      requires Valid(f, n) && Agrees(f, n, t) && OpInRange(f, n, op)
      modifies Repr()
      ensures Valid(f, n) && Model(f) == Apply(f, old(Model(f)), op)
    {
      match op
      case StorageLive(local) => StartStorage(f, n, t, local);
      case StorageDead(local) => EndStorage(f, n, t, local);
      case Init(path) => InitializePath(f, n, t, path);
      case Overwrite(path) =>
        ClearPath(f, n, t, path);
        InitializePath(f, n, t, path);
      case MoveOut(path) => ClearPath(f, n, t, path);
      case Transfer(source, destination, _) => TransferValue(f, n, t, source, destination);
      case SetDiscriminant(destination, variant) => SelectVariant(f, n, t, destination, variant);
      case AssumeDiscriminant(source, variant) => AssumeVariant(f, n, t, source, variant);
    }

    /* ----- joins ----- */

    /** A clone that is only kept to be compared with. */
    method Freeze(f: Forest, n: nat) returns (s: Snapshot)
      requires Valid(f, n)
      ensures s.Valid(f, n) && s.View(f) == Model(f)
    {
      s := Snapshot(reachable, mayLive.words, mustLive.words, mayInit.words, mustInit.words, discriminants);
    }

    method Equals(f: Forest, n: nat, other: Snapshot) returns (r: bool)
      requires Valid(f, n) && other.Valid(f, n)
      ensures r <==> Model(f) == other.View(f)
    {
      SameDiscs(f, discriminants, other.discriminants);
      r := reachable == other.reachable;
      if r { r := mayLive.Equals(other.mayLive); }
      if r { r := mustLive.Equals(other.mustLive); }
      if r { r := mayInit.Equals(other.mayInit); }
      if r { r := mustInit.Equals(other.mustInit); }
      r := r && discriminants == other.discriminants;
    }

    method JoinDiscriminants(f: Forest, n: nat, incoming: MoveState)
      requires Valid(f, n) && incoming.Valid(f, n) && Repr() !! incoming.Repr()
      modifies this
      ensures Valid(f, n) && reachable == old(reachable)
      ensures Discs(f, discriminants) == map r | r in old(Discs(f, discriminants)) ::
                JoinDiscriminant(old(Discs(f, discriminants))[r], Disc(incoming.Model(f), r))
    {
      ghost var before := discriminants;
      hide IsForest; hide EnumRoots; hide EnumCount; hide IsEnum; hide Kids; hide JoinedUpTo; hide JoinDiscriminant;
      JoinedNone(before, incoming.discriminants);
      for i := 0 to |discriminants|
        invariant reachable == old(reachable) && |discriminants| == |before|
        invariant SlotsValid(f, discriminants)
        invariant JoinedUpTo(before, incoming.discriminants, discriminants, i)
      {
        var joined := JoinWith(discriminants[i], incoming.discriminants[i]);
        JoinedNext(before, incoming.discriminants, discriminants, i, joined);
        discriminants := discriminants[i := joined];
      }
      JoinedAll(f, before, incoming.discriminants, discriminants);
    }

    method Assign(f: Forest, n: nat, other: MoveState)
      requires Valid(f, n) && other.Valid(f, n) && Repr() !! other.Repr()
      modifies Repr()
      ensures Valid(f, n) && Model(f) == other.Model(f)
    {
      reachable := other.reachable;
      mayLive.words := other.mayLive.words;
      mustLive.words := other.mustLive.words;
      mayInit.words := other.mayInit.words;
      mustInit.words := other.mustInit.words;
      discriminants := other.discriminants;
    }

    /** Adds what `incoming` describes, and says whether that changed anything. */
    method JoinFrom(f: Forest, n: nat, incoming: MoveState) returns (changed: bool)
      requires Valid(f, n) && incoming.Valid(f, n) && Repr() !! incoming.Repr()
      modifies Repr()
      ensures Valid(f, n) && Model(f) == Join(old(Model(f)), incoming.Model(f))
      ensures changed <==> Model(f) != old(Model(f))
    {
      if !incoming.reachable {
        return false;
      }
      if !reachable {
        Assign(f, n, incoming);
        return true;
      }
      var previous := Freeze(f, n);
      mayLive.UnionWith(incoming.mayLive);
      mustLive.IntersectWith(incoming.mustLive);
      mayInit.UnionWith(incoming.mayInit);
      mustInit.IntersectWith(incoming.mustInit);
      JoinDiscriminants(f, n, incoming);
      var same := Equals(f, n, previous);
      changed := !same;
    }

    /* ----- queries ----- */

    method StorageLiveness(f: Forest, n: nat, local: LocalId) returns (r: StorageLiveness)
      requires Valid(f, n)
      ensures r == Liveness(Model(f), local)
    {
      var must := mustLive.Contains(local);
      if must { return Live; }
      var may := mayLive.Contains(local);
      r := if may then MaybeLive else Dead;
    }

    method HoldsPart(f: Forest, n: nat, t: Topology, path: MovePathId) returns (r: bool)
      requires Valid(f, n) && Agrees(f, n, t) && path < |f|
      ensures r <==> MayHold(Model(f), path)
    {
      r := mayInit.Contains(path);
      if !r && t.discriminantIndex[path].Some? {
        SetSlot(f, discriminants, path, UNSET);
        var d := discriminants[t.discriminantIndex[path].value];
        assert Disc(Model(f), path) == d.View();
        assert d.possibleVariants == [] <==> d.View().possible == {} by {
          if d.possibleVariants != [] { assert d.possibleVariants[0] in d.View().possible; }
        }
        r := !d.mayBeUnset || d.possibleVariants != [];
      }
    }

    method PathInitialization(f: Forest, n: nat, t: Topology, path: MovePathId) returns (r: PathInitialization)
      requires Valid(f, n) && Agrees(f, n, t) && path < |f|
      ensures r == Initialization(f, Model(f), path)
    {
      var must := mustInit.Contains(path);
      if must { return Initialized; }
      SliceIsSubtree(f, n, t, path);
      var descendants := t.Subtree(path);
      for i := 0 to |descendants|
        invariant forall j | 0 <= j < i :: !MayHold(Model(f), descendants[j])
      {
        assert descendants[i] in t.Subtree(path);
        var holds := HoldsPart(f, n, t, descendants[i]);
        if holds {
          assert MayHoldPart(f, Model(f), path);
          return MaybeOrPartial;
        }
      }
      assert !MayHoldPart(f, Model(f), path) by {
        forall q | q in Subtree(f, path) ensures !MayHold(Model(f), q) {
          var j :| 0 <= j < |descendants| && descendants[j] == q;
        }
      }
      return Uninitialized;
    }

    /** `inactive_downcast` finds nothing exactly when every enclosing downcast is known active. */
    method InactiveDowncast(f: Forest, n: nat, t: Topology, path: MovePathId) returns (offender: Option<MovePathId>)
      requires Valid(f, n) && Agrees(f, n, t) && path < |f|
      ensures offender.None? <==> DowncastsActive(f, Model(f), path)
    {
      var current: nat := path;
      while f[current].parent.Some?
        invariant current < |f|
        invariant DowncastsActive(f, Model(f), path) <==> DowncastsActive(f, Model(f), current)
        decreases Depth(f, current)
      {
        ParentFacts(f, current);
        var parent := f[current].parent.value;
        if IsDowncast(f, current) {
          KidsAgree(f, parent, current);
          SetSlot(f, discriminants, parent, UNSET);
          var d := discriminants[t.discriminantIndex[parent].value];
          assert Disc(Model(f), parent) == d.View();
          OnlyVariant(d, Variant(f, current));
          if d.mayBeUnset || d.possibleVariants != [Variant(f, current)] {
            return Some(parent);
          }
        }
        current := parent;
      }
      return None;
    }
  }

  /* ----- value-level facts the methods use ----- */

  lemma ClearMore(st: State, ps: set<nat>, p: nat)
    ensures ClearPaths(ClearPaths(st, ps), {p}) == ClearPaths(st, ps + {p})
  {
    ClearUnion(st, ps, {p});
  }

  lemma ClearUnion(st: State, ps: set<nat>, qs: set<nat>)
    ensures ClearPaths(ClearPaths(st, ps), qs) == ClearPaths(st, ps + qs)
  {
    assert st.mayInit - ps - qs == st.mayInit - (ps + qs);
    assert st.mustInit - ps - qs == st.mustInit - (ps + qs);
    assert ClearPaths(ClearPaths(st, ps), qs).discriminants == ClearPaths(st, ps + qs).discriminants;
  }

  lemma DropStep(st: State, all: set<nat>, rest: set<nat>, p: nat)
    requires all == rest + {p}
    ensures DropInit(st.(mayInit := st.mayInit - {p}, mustInit := st.mustInit - {p}), rest) == DropInit(st, all)
  {
    assert st.mayInit - {p} - rest == st.mayInit - all;
    assert st.mustInit - {p} - rest == st.mustInit - all;
  }

  lemma RecomposeActive(f: Forest, st: State, p: nat, child: Option<MovePathId>)
    requires IsEnum(f, p)
    requires (set k | k in Kids(f, p) && Disc(st, p) == Discriminant(false, {Variant(f, k)}))
             == (match child case Some(k) => {k} case None => {})
    ensures RecomposeNode(f, st, p) ==
            match child
            case None => st
            case Some(k) => WithInit(st, p, k in st.mustInit || k in st.mayInit, k in st.mustInit)
  {
    var active := set k | k in Kids(f, p) && Disc(st, p) == Discriminant(false, {Variant(f, k)});
    hide Kids; hide WithInit; hide IsEnum;
    if child.Some? {
      assert active == {child.value};
      assert active <= st.mustInit <==> child.value in st.mustInit;
      assert active <= st.mayInit <==> child.value in st.mayInit;
    }
  }

  lemma NoRootNoPaths(f: Forest, n: nat, t: Topology, local: LocalId)
    requires Agrees(f, n, t) && (local < n ==> t.rootsByLocal[local].None?)
    ensures LocalPaths(f, local) == {}
  {
    if p :| p in LocalPaths(f, local) {
      var r := RootOf(f, p);
      assert false;
    }
  }

  lemma NoAncestors(f: Forest, p: nat)
    requires Parent(f, p).None?
    ensures Ancestors(f, p) == {}
  {
  }

  lemma AllVariants(f: Forest, p: nat, variants: seq<(nat, MovePathId)>, all: seq<nat>)
    requires VariantsAgree(f, p, variants) && IsEnum(f, p)
    requires |all| == |variants| && forall i | 0 <= i < |all| :: all[i] == variants[i].0
    ensures Elements(all) == Variants(f, p)
  {
    forall v | v in Variants(f, p) ensures v in all {
      var k :| k in Kids(f, p) && IsDowncast(f, k) && Variant(f, k) == v;
      assert (v, k) in variants;
      var i :| 0 <= i < |variants| && variants[i] == (v, k);
      assert all[i] == v;
    }
  }

  function PushedBy(x: (nat, MovePathId), possible: seq<nat>, c: Certainty): seq<Entry> {
    if x.0 in possible then [(x.1, c)] else []
  }

  ghost function ClearedBy(f: Forest, x: (nat, MovePathId), possible: seq<nat>): set<nat> {
    if x.0 in possible then {} else Subtree(f, x.1)
  }

  function PushedOf(variants: seq<(nat, MovePathId)>, possible: seq<nat>, c: Certainty): seq<Entry> {
    if variants == [] then []
    else PushedOf(variants[..|variants| - 1], possible, c) + PushedBy(variants[|variants| - 1], possible, c)
  }

  ghost function ClearedOf(f: Forest, variants: seq<(nat, MovePathId)>, possible: seq<nat>): set<nat> {
    if variants == [] then {}
    else ClearedOf(f, variants[..|variants| - 1], possible) + ClearedBy(f, variants[|variants| - 1], possible)
  }

  lemma VariantStep(f: Forest, variants: seq<(nat, MovePathId)>, possible: seq<nat>, c: Certainty, i: nat)
    requires i < |variants|
    ensures PushedOf(variants[..i + 1], possible, c)
        == PushedOf(variants[..i], possible, c) + PushedBy(variants[i], possible, c)
    ensures ClearedOf(f, variants[..i + 1], possible)
        == ClearedOf(f, variants[..i], possible) + ClearedBy(f, variants[i], possible)
  {
    assert variants[..i + 1][..i] == variants[..i];
  }

  lemma ClearNothing(st: State)
    ensures ClearPaths(st, {}) == st
  {
    assert ResetAll(st.discriminants, {}) == st.discriminants;
  }

  lemma MarkNodeEnum(f: Forest, st: State, p: nat, certainty: Certainty)
    requires IsEnum(f, p) && p in st.discriminants
    ensures MarkNode(f, st, p, certainty) ==
            ClearPaths(WithInit(st, p, true, certainty == Must).(discriminants := st.discriminants[p :=
              MoveStates.MarkDiscriminant(f, Disc(st, p), p, Marked(certainty))]), RuledOut(f, st, p, certainty))
  {
    assert (map r | r in st.discriminants ::
              if r == p then MoveStates.MarkDiscriminant(f, st.discriminants[r], r, Marked(certainty))
                  else st.discriminants[r])
        == st.discriminants[p := MoveStates.MarkDiscriminant(f, Disc(st, p), p, Marked(certainty))];
  }

  ghost predicate VariantList(f: Forest, p: nat, variants: seq<(nat, MovePathId)>) {
    && (forall i, j | 0 <= i < j < |variants| :: variants[i].0 < variants[j].0)
    && (forall i | 0 <= i < |variants| ::
          variants[i].1 in Kids(f, p) && IsDowncast(f, variants[i].1) && variants[i].0 == Variant(f, variants[i].1))
  }

  lemma {:induction false} PushedFrom(f: Forest, p: nat, variants: seq<(nat, MovePathId)>, possible: seq<nat>,
                                      c: Certainty, e: Entry)
    requires VariantList(f, p, variants) && e in PushedOf(variants, possible, c)
    ensures e.1 == c && e.0 in Kids(f, p) && Variant(f, e.0) in possible && (Variant(f, e.0), e.0) in variants
  {
    var n := |variants| - 1;
    if e in PushedOf(variants[..n], possible, c) { PushedFrom(f, p, variants[..n], possible, c, e); }
  }

  lemma {:induction false} PushedIfPossible(variants: seq<(nat, MovePathId)>, possible: seq<nat>, c: Certainty,
                                            x: (nat, MovePathId))
    requires x in variants && x.0 in possible
    ensures (x.1, c) in PushedOf(variants, possible, c)
  {
    var n := |variants| - 1;
    if x != variants[n] {
      assert x in variants[..n];
      PushedIfPossible(variants[..n], possible, c, x);
    }
  }

  lemma {:induction false} PushedDistinct(f: Forest, p: nat, variants: seq<(nat, MovePathId)>, possible: seq<nat>,
                                          c: Certainty)
    requires VariantList(f, p, variants)
    ensures var pushed := PushedOf(variants, possible, c);
            forall i, j | 0 <= i < j < |pushed| :: pushed[i].0 != pushed[j].0
  {
    if variants != [] {
      var n := |variants| - 1;
      PushedDistinct(f, p, variants[..n], possible, c);
      var earlier := PushedOf(variants[..n], possible, c);
      forall i | 0 <= i < |earlier| ensures earlier[i].0 != variants[n].1 {
        PushedFrom(f, p, variants[..n], possible, c, earlier[i]);
        var j :| 0 <= j < n && variants[j] == (Variant(f, earlier[i].0), earlier[i].0);
        assert variants[j].0 < variants[n].0;
      }
    }
  }

  lemma {:induction false} ClearedFacts(f: Forest, variants: seq<(nat, MovePathId)>, possible: seq<nat>, q: nat)
    ensures q in ClearedOf(f, variants, possible) <==>
            exists x :: x in variants && x.0 !in possible && q in Subtree(f, x.1)
  {
    if variants != [] {
      var n := |variants| - 1;
      ClearedFacts(f, variants[..n], possible, q);
      assert variants == variants[..n] + [variants[n]];
    }
  }

  /** Membership in the settled discriminant decides every child's mark. */
  lemma EnumKidMark(f: Forest, st: State, p: nat, certainty: Certainty, possible: seq<nat>, c: Certainty, k: nat)
    requires k in Kids(f, p) && IsEnum(f, p) && Increasing(possible)
    requires Elements(possible) == MoveStates.MarkDiscriminant(f, Disc(st, p), p, Marked(certainty)).possible
    requires c == if certainty == Must && |possible| == 1 then Must else May
    ensures KidMark(f, st, p, Marked(certainty), k) == if Variant(f, k) in possible then Marked(c) else Cleared
  {
    KidsAgree(f, p, k);
    var v := Variant(f, k);
    assert v in possible <==> v in Elements(possible);
    if v in possible {
      if |possible| == 1 {
        assert Elements(possible) == {v};
      } else {
        assert possible[0] in Elements(possible) && possible[1] in Elements(possible) && possible[0] != possible[1];
        assert Elements(possible) != {v};
      }
    }
  }

  lemma PushedIsPush(f: Forest, st: State, p: nat, certainty: Certainty, variants: seq<(nat, MovePathId)>,
                     possible: seq<nat>, c: Certainty)
    requires IsEnum(f, p) && VariantsAgree(f, p, variants) && Increasing(possible)
    requires Elements(possible) == MoveStates.MarkDiscriminant(f, Disc(st, p), p, Marked(certainty)).possible
    requires c == if certainty == Must && |possible| == 1 then Must else May
    ensures IsPush(f, st, p, certainty, PushedOf(variants, possible, c))
  {
    var pushed := PushedOf(variants, possible, c);
    PushedDistinct(f, p, variants, possible, c);
    forall i | 0 <= i < |pushed|
      ensures pushed[i].0 in Kids(f, p) && KidMark(f, st, p, Marked(certainty), pushed[i].0) == Marked(pushed[i].1)
    {
      PushedFrom(f, p, variants, possible, c, pushed[i]);
      EnumKidMark(f, st, p, certainty, possible, c, pushed[i].0);
    }
    forall k | k in Kids(f, p) && KidMark(f, st, p, Marked(certainty), k) != Cleared
      ensures exists i :: 0 <= i < |pushed| && pushed[i].0 == k
    {
      EnumKidMark(f, st, p, certainty, possible, c, k);
      assert (Variant(f, k), k) in variants;
      PushedIfPossible(variants, possible, c, (Variant(f, k), k));
      assert (k, c) in pushed;
    }
  }

  lemma ClearedIsRuledOut(f: Forest, st: State, p: nat, certainty: Certainty, variants: seq<(nat, MovePathId)>,
                          possible: seq<nat>)
    requires IsEnum(f, p) && VariantsAgree(f, p, variants) && Increasing(possible)
    requires Elements(possible) == MoveStates.MarkDiscriminant(f, Disc(st, p), p, Marked(certainty)).possible
    ensures ClearedOf(f, variants, possible) == RuledOut(f, st, p, certainty)
  {
    var c := if certainty == Must && |possible| == 1 then Must else May;
    forall k | k in Kids(f, p) ensures (KidMark(f, st, p, Marked(certainty), k) == Cleared)
        <==> Variant(f, k) !in possible {
      EnumKidMark(f, st, p, certainty, possible, c, k);
    }
    forall q: nat ensures q in ClearedOf(f, variants, possible) <==> q in RuledOut(f, st, p, certainty) {
      ClearedFacts(f, variants, possible, q);
      if q in RuledOut(f, st, p, certainty) {
        var k :| k in Kids(f, p) && KidMark(f, st, p, Marked(certainty), k) == Cleared && q in Subtree(f, k);
        assert (Variant(f, k), k) in variants;
      }
    }
  }

  /** Without an enum, one turn only marks the path. */
  lemma MarkNodePlain(f: Forest, st: State, p: nat, certainty: Certainty)
    requires !IsEnum(f, p) && st.discriminants.Keys == EnumRoots(f)
    ensures MarkNode(f, st, p, certainty) == WithInit(st, p, true, certainty == Must)
    ensures IsLeaf(f, p) ==> IsPush(f, st, p, certainty, [])
  {
    forall k | k in Kids(f, p) ensures KidMark(f, st, p, Marked(certainty), k)
        == Marked(certainty) { KidsAgree(f, p, k); }
    assert RuledOut(f, st, p, certainty) == {};
    var s := WithInit(st, p, true, certainty == Must);
    assert MarkNode(f, st, p, certainty).discriminants == s.discriminants;
  }

  lemma PlainPush(f: Forest, st: State, p: nat, certainty: Certainty, pushed: seq<Entry>)
    requires !IsEnum(f, p)
    requires |pushed| == |Children(f, p)| && forall j | 0 <= j < |pushed| :: pushed[j] == (Children(f, p)[j], certainty)
    ensures IsPush(f, st, p, certainty, pushed)
  {
    forall k | k in Kids(f, p)
      ensures KidMark(f, st, p, Marked(certainty), k) == Marked(certainty)
      ensures exists i :: 0 <= i < |pushed| && pushed[i].0 == k
    {
      KidsAgree(f, p, k);
      var i :| 0 <= i < |Children(f, p)| && Children(f, p)[i] == k;
      assert pushed[i].0 == k;
    }
  }

  /** The active children, as `RecomposeNode` selects them. */
  lemma KnownChild(f: Forest, p: nat, variants: seq<(nat, MovePathId)>, i: nat, d: Discriminant)
    requires VariantsAgree(f, p, variants) && IsEnum(f, p) && i < |variants|
        && d == Discriminant(false, {variants[i].0})
    ensures (set k | k in Kids(f, p) && d == Discriminant(false, {Variant(f, k)})) == {variants[i].1}
  {
    forall k | k in Kids(f, p) && d == Discriminant(false, {Variant(f, k)}) ensures k == variants[i].1 {
      assert Variant(f, k) in d.possible;
      VariantInjective(f, p, k, variants[i].1);
    }
  }

  lemma NoChild(f: Forest, p: nat, variants: seq<(nat, MovePathId)>, d: Discriminant, active: nat)
    requires VariantsAgree(f, p, variants) && d == Discriminant(false, {active})
    requires forall j | 0 <= j < |variants| :: variants[j].0 != active
    ensures (set k | k in Kids(f, p) && d == Discriminant(false, {Variant(f, k)})) == {}
  {
    forall k | k in Kids(f, p) ensures d != Discriminant(false, {Variant(f, k)}) {
      assert (Variant(f, k), k) in variants;
      assert Variant(f, k) !in d.possible;
    }
  }

  /** Only a one-element vector denotes a known variant. */
  lemma OnlyVariant(d: DiscriminantState, v: nat)
    requires d.Valid()
    ensures d.View() == Discriminant(false, {v}) <==> !d.mayBeUnset && d.possibleVariants == [v]
  {
    SameView(d, Known(v));
  }

  /* ----- assuming a variant, variant by variant ----- */

  ghost function AssumedOf(f: Forest, st: State, variants: seq<(nat, MovePathId)>, variant: nat): State {
    if variants == [] then st
    else
      var x := variants[|variants| - 1];
      var s := AssumedOf(f, st, variants[..|variants| - 1], variant);
      if x.0 == variant then MoveStates.MarkWhole(f, s, x.1, Must) else ClearSubtree(f, s, x.1)
  }

  /** The paths cleared, and the child marked, among the variants so far. */
  ghost function OthersOf(f: Forest, variants: seq<(nat, MovePathId)>, variant: nat): set<nat> {
    if variants == [] then {}
    else
      var x := variants[|variants| - 1];
      OthersOf(f, variants[..|variants| - 1], variant) + (if x.0 == variant then {} else Subtree(f, x.1))
  }

  lemma {:induction false} OthersMember(f: Forest, variants: seq<(nat, MovePathId)>, variant: nat, q: nat)
    ensures q in OthersOf(f, variants, variant) <==>
            exists x :: x in variants && x.0 != variant && q in Subtree(f, x.1)
  {
    if variants != [] {
      var n := |variants| - 1;
      OthersMember(f, variants[..n], variant, q);
      assert variants == variants[..n] + [variants[n]];
    }
  }

  /** Marking within one subtree and clearing others commute. */
  lemma {:induction false} MarkFrame(f: Forest, s: State, t: State, k: nat, q: nat)
    requires q in Subtree(f, k) && k < |f|
    requires forall x | x in Subtree(f, k) :: Disc(s, x) == Disc(t, x)
    ensures MarkOf(f, s, k, Must, q) == MarkOf(f, t, k, Must, q)
    decreases Depth(f, q)
  {
    if q != k {
      ParentFacts(f, q);
      var a := Parent(f, q).value;
      assert a in Subtree(f, k);
      MarkFrame(f, s, t, k, a);
    }
  }

  lemma MarkClearCommute(f: Forest, st: State, k: nat, ps: set<nat>)
    requires k < |f| && forall q | q in ps :: q !in Subtree(f, k)
    ensures ClearPaths(MoveStates.MarkWhole(f, st, k, Must), ps) == MoveStates.MarkWhole(f, ClearPaths(st, ps), k, Must)
  {
    var a := ClearPaths(MoveStates.MarkWhole(f, st, k, Must), ps);
    var b := MoveStates.MarkWhole(f, ClearPaths(st, ps), k, Must);
    forall q | q in Subtree(f, k) ensures MarkOf(f, st, k, Must, q) == MarkOf(f, ClearPaths(st, ps), k, Must, q) {
      MarkFrame(f, st, ClearPaths(st, ps), k, q);
    }
    assert a.mayInit == b.mayInit;
    assert a.mustInit == b.mustInit;
    assert a.discriminants == b.discriminants;
  }

  /** Each variant so far was cleared, or marked if it is the assumed one. */
  lemma {:induction false} AssumedShape(f: Forest, st: State, r: nat, variants: seq<(nat, MovePathId)>, variant: nat)
    requires VariantList(f, r, variants)
    ensures forall x | x in variants && x.0 == variant ::
              AssumedOf(f, st, variants, variant) ==
              MoveStates.MarkWhole(f, ClearPaths(st, OthersOf(f, variants, variant)), x.1, Must)
    ensures (forall x | x in variants :: x.0 != variant) ==>
              AssumedOf(f, st, variants, variant) == ClearPaths(st, OthersOf(f, variants, variant))
  {
    hide MoveStates.MarkWhole; hide ClearPaths; hide Subtree; hide Kids; hide IsForest; hide IsDowncast; hide Variant;
    if variants == [] {
      ClearNothing(st);
    } else {
      var n := |variants| - 1;
      var x := variants[n];
      var earlier := OthersOf(f, variants[..n], variant);
      assert variants == variants[..n] + [x];
      AssumedShape(f, st, r, variants[..n], variant);
      if x.0 == variant {
        forall y | y in variants[..n] ensures y.0 != variant {
          var i :| 0 <= i < n && variants[i] == y;
          assert variants[i].0 < variants[n].0;
        }
        assert forall y | y in variants && y.0 == variant :: y == x;
        assert OthersOf(f, variants, variant) == earlier;
      } else {
        ClearUnion(st, earlier, Subtree(f, x.1));
        forall y | y in variants && y.0 == variant
          ensures AssumedOf(f, st, variants, variant) ==
                  MoveStates.MarkWhole(f, ClearPaths(st, OthersOf(f, variants, variant)), y.1, Must)
        {
          assert y in variants[..n];
          AssumedLater(f, st, r, y, x, earlier);
        }
      }
    }
  }

  lemma AssumedLater(f: Forest, st: State, r: nat, y: (nat, MovePathId), x: (nat, MovePathId), earlier: set<nat>)
    requires y.1 in Kids(f, r) && x.1 in Kids(f, r) && y.1 != x.1
    ensures ClearSubtree(f, MoveStates.MarkWhole(f, ClearPaths(st, earlier), y.1, Must), x.1)
         == MoveStates.MarkWhole(f, ClearPaths(st, earlier + Subtree(f, x.1)), y.1, Must)
  {
    KidFacts(f, r, y.1);
    forall q | q in Subtree(f, x.1) ensures q !in Subtree(f, y.1) {
      if q in Subtree(f, y.1) { KidsDisjoint(f, r, x.1, y.1, q); }
    }
    MarkClearCommute(f, ClearPaths(st, earlier), y.1, Subtree(f, x.1));
    ClearUnion(st, earlier, Subtree(f, x.1));
  }

  lemma AssumedIsAssume(f: Forest, st: State, r: nat, variants: seq<(nat, MovePathId)>, variant: nat)
    requires IsEnum(f, r) && VariantsAgree(f, r, variants)
    ensures AssumedOf(f, MoveStates.SetKnown(st, r, variant), variants, variant)
        == MoveStates.AssumeVariant(f, st, r, variant)
  {
    var known := MoveStates.SetKnown(st, r, variant);
    AssumedShape(f, known, r, variants, variant);
    assert OthersOf(f, variants, variant) == OtherVariants(f, r, variant) by {
      forall q: nat ensures q in OthersOf(f, variants, variant) <==> q in OtherVariants(f, r, variant) {
        OthersMember(f, variants, variant, q);
        if q in OtherVariants(f, r, variant) {
          var k :| k in Kids(f, r) && IsDowncast(f, k) && Variant(f, k) != variant && q in Subtree(f, k);
          assert (Variant(f, k), k) in variants;
        }
      }
    }
    var kids := VariantKids(f, r, variant);
    if kids == {} {
      forall x | x in variants ensures x.0 != variant {
        assert x.0 == variant ==> x.1 in kids;
      }
    } else {
      var k :| k in kids;
      assert (Variant(f, k), k) in variants;
      forall k' | k' in kids ensures k' == k { VariantInjective(f, r, k, k'); }
    }
  }

  lemma AssumeNonEnum(f: Forest, st: State, r: nat, variant: nat)
    requires !IsEnum(f, r)
    ensures MoveStates.SetKnown(st, r, variant) == MoveStates.AssumeVariant(f, st, r, variant)
  {
    assert OtherVariants(f, r, variant) == {};
    assert VariantKids(f, r, variant) == {};
    ClearNothing(MoveStates.SetKnown(st, r, variant));
  }
}
