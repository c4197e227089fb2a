/**
 `DropFlagAnalysis::compute`: flags, flag actions and drop sites, built by loops over
 the blocks, and the end-to-end theorem about what the program then drops.
 */
module DropFlagAnalyses {
  import opened Wrappers
  import opened Sequences
  import opened CleanupPlan
  import opened MovePaths
  import opened Topologies
  import opened MoveStates
  import opened Semantics
  import opened Structure
  import opened Runs
  import opened MoveStateObjects
  import opened MoveStateAnalyses
  import opened Worklist
  import opened DropObligations
  import opened DropFlags
  import opened FlagRuns
  import opened Placement

  datatype DropFlag = DropFlag(id: DropFlagId, path: MovePathId)

  datatype DropFlagAction = DropFlagAction(
    block: BlockId, operationIndex: nat, flag: DropFlagId, value: DropFlagValue)

  datatype DropSite = DropSite(
    block: BlockId, operationIndex: nat, local: LocalId, obligations: seq<DropObligation>)

  datatype DropFlagAnalysis = DropFlagAnalysis(
    flags: seq<DropFlag>, actions: seq<DropFlagAction>, sites: seq<DropSite>)

  /* ----- the flags ----- */

  ghost function LocalRoot(f: Forest, l: LocalId): Option<nat> {
    if exists r: nat :: IsRootOf(f, l, r) then
      var r: nat :| IsRootOf(f, l, r);
      Some(r)
    else None
  }

  lemma RootLookup(f: Forest, n: nat, t: Topology, l: LocalId)
    requires Agrees(f, n, t) && l < n
    ensures t.rootsByLocal[l] == LocalRoot(f, l)
    ensures forall r: nat :: IsRootOf(f, l, r) ==> t.rootsByLocal[l] == Some(r)
  {
    forall r: nat | IsRootOf(f, l, r) ensures t.rootsByLocal[l] == Some(r) {
      assert t.rootsByLocal[l].Some?;
      RootSubtree(f, r);
      assert t.rootsByLocal[l].value in Subtree(f, r);
    }
    if t.rootsByLocal[l].Some? { assert IsRootOf(f, l, t.rootsByLocal[l].value); }
  }

  /** The root path of the local whose storage ends at an operation. */
  ghost function EndedRoot(plan: Plan, b: nat, i: nat): Option<nat>
    requires IsForest(plan.movePaths) && b < |plan.blocks| && i < |plan.blocks[b].operations|
  {
    var op := plan.blocks[b].operations[i];
    if op.StorageDead? then LocalRoot(plan.movePaths, op.local) else None
  }

  ghost function PathsAt(plan: Plan, a: Analysis, b: nat, i: nat): set<nat>
    requires IsForest(plan.movePaths) && |a.blockEntry| == |plan.blocks|
    requires b < |plan.blocks| && i < |plan.blocks[b].operations|
  {
    match EndedRoot(plan, b, i)
    case Some(r) => Collect(plan.movePaths, StateBefore(plan, a, b, i), r)
    case None => {}
  }

  ghost predicate AskedAt(plan: Plan, a: Analysis, b: nat, i: nat, p: nat)
    requires IsForest(plan.movePaths) && |a.blockEntry| == |plan.blocks|
  {
    b < |plan.blocks| && i < |plan.blocks[b].operations| && p in PathsAt(plan, a, b, i)
  }

  /** Some `StorageDead` asks for a flag on `p`. */
  ghost predicate Asked(plan: Plan, a: Analysis, p: nat)
    requires IsForest(plan.movePaths) && |a.blockEntry| == |plan.blocks|
  {
    exists b: nat, i: nat :: AskedAt(plan, a, b, i, p)
  }

  /** Flags are numbered in path order. */
  ghost predicate Numbered(flags: seq<DropFlag>) {
    && (forall i | 0 <= i < |flags| :: flags[i].id == i)
    && (forall i, j | 0 <= i < j < |flags| :: flags[i].path < flags[j].path)
  }

  function FlagMap(flags: seq<DropFlag>): map<MovePathId, DropFlagId> {
    if flags == [] then map[]
    else FlagMap(flags[..|flags| - 1])[flags[|flags| - 1].path := flags[|flags| - 1].id]
  }

  ghost predicate HasFlag(flags: seq<DropFlag>, p: nat) {
    exists i :: 0 <= i < |flags| && flags[i].path == p
  }

  lemma {:induction false} FlagMapMember(flags: seq<DropFlag>, p: nat)
    ensures p in FlagMap(flags) <==> HasFlag(flags, p)
  {
    if flags != [] {
      var n := |flags| - 1;
      FlagMapMember(flags[..n], p);
      if HasFlag(flags[..n], p) {
        var i :| 0 <= i < n && flags[..n][i].path == p;
        assert flags[i].path == p;
      }
      if HasFlag(flags, p) {
        var i :| 0 <= i < |flags| && flags[i].path == p;
        assert i < n ==> flags[..n][i].path == p;
      }
    }
  }

  lemma {:induction false} FlagMapValue(flags: seq<DropFlag>, i: nat)
    requires Numbered(flags) && i < |flags|
    ensures flags[i].path in FlagMap(flags) && FlagMap(flags)[flags[i].path] == i
  {
    if i < |flags| - 1 { FlagMapValue(flags[..|flags| - 1], i); }
  }

  lemma FlagMapFacts(flags: seq<DropFlag>)
    requires Numbered(flags)
    ensures forall p :: p in FlagMap(flags) <==> HasFlag(flags, p)
    ensures forall i | 0 <= i < |flags| :: flags[i].path in FlagMap(flags) && FlagMap(flags)[flags[i].path] == i
    ensures forall p | p in FlagMap(flags) :: FlagMap(flags)[p] < |flags|
    ensures DistinctFlags(FlagMap(flags))
  {
    forall i | 0 <= i < |flags| ensures flags[i].path in FlagMap(flags) && FlagMap(flags)[flags[i].path] == i {
      FlagMapValue(flags, i);
    }
    forall p ensures p in FlagMap(flags) <==> HasFlag(flags, p) { FlagMapMember(flags, p); }
    forall p | p in FlagMap(flags) ensures FlagMap(flags)[p] < |flags| && flags[FlagMap(flags)[p]].path == p {
      assert HasFlag(flags, p);
    }
  }

  /* ----- actions and sites, position by position ----- */

  ghost function FlagAction(f: Forest, after: State, op: CleanupOp, b: nat, i: nat,
                            flag: DropFlag): seq<DropFlagAction> {
    match ActionFor(f, after, op, flag.path)
    case Some(value) => [DropFlagAction(b, i, flag.id, value)]
    case None => []
  }

  ghost function OpActions(f: Forest, after: State, op: CleanupOp, b: nat, i: nat,
                           flags: seq<DropFlag>): seq<DropFlagAction> {
    if flags == [] then []
    else OpActions(f, after, op, b, i, flags[..|flags| - 1]) + FlagAction(f, after, op, b, i, flags[|flags| - 1])
  }

  ghost function ActionRow(plan: Plan, a: Analysis, flags: seq<DropFlag>, b: nat): seq<seq<DropFlagAction>>
    requires IsForest(plan.movePaths) && |a.blockEntry| == |plan.blocks| && b < |plan.blocks|
  {
    if !a.blockEntry[b].reachable then []
    else seq(|plan.blocks[b].operations|, i requires 0 <= i < |plan.blocks[b].operations| =>
           OpActions(plan.movePaths, StateBefore(plan, a, b, i + 1), plan.blocks[b].operations[i], b, i, flags))
  }

  ghost function ActionTable(plan: Plan, a: Analysis, flags: seq<DropFlag>): seq<seq<seq<DropFlagAction>>>
    requires IsForest(plan.movePaths) && |a.blockEntry| == |plan.blocks|
  {
    seq(|plan.blocks|, b requires 0 <= b < |plan.blocks| => ActionRow(plan, a, flags, b))
  }

  ghost predicate Covered(plan: Plan, a: Analysis, flags: map<MovePathId, DropFlagId>)
    requires IsForest(plan.movePaths) && |a.blockEntry| == |plan.blocks|
  {
    forall b: nat, i: nat | b < |plan.blocks| && i < |plan.blocks[b].operations| :: PathsAt(plan, a, b, i) <= flags.Keys
  }

  ghost function SiteAt(plan: Plan, a: Analysis, flags: map<MovePathId, DropFlagId>, b: nat, i: nat): seq<DropSite>
    requires IsForest(plan.movePaths) && |a.blockEntry| == |plan.blocks| && Covered(plan, a, flags)
    requires b < |plan.blocks| && i < |plan.blocks[b].operations|
  {
    match EndedRoot(plan, b, i)
    case Some(r) =>
      assert PathsAt(plan, a, b, i) <= flags.Keys;
      var obligations := Obligations(plan.movePaths, StateBefore(plan, a, b, i), r, flags);
      if obligations == [] then [] else [DropSite(b, i, plan.blocks[b].operations[i].local, obligations)]
    case None => []
  }

  ghost function SiteRow(plan: Plan, a: Analysis, flags: map<MovePathId, DropFlagId>, b: nat): seq<seq<DropSite>>
    requires IsForest(plan.movePaths) && |a.blockEntry| == |plan.blocks| && Covered(plan, a, flags) && b < |plan.blocks|
  {
    seq(|plan.blocks[b].operations|, i requires 0 <= i < |plan.blocks[b].operations| => SiteAt(plan, a, flags, b, i))
  }

  ghost function SiteTable(plan: Plan, a: Analysis, flags: map<MovePathId, DropFlagId>): seq<seq<seq<DropSite>>>
    requires IsForest(plan.movePaths) && |a.blockEntry| == |plan.blocks| && Covered(plan, a, flags)
  {
    seq(|plan.blocks|, b requires 0 <= b < |plan.blocks| => SiteRow(plan, a, flags, b))
  }

  /** The flags asked for and no others, and each action and site in its place. */
  ghost predicate Synthesized(plan: Plan, a: Analysis, d: DropFlagAnalysis)
    requires IsForest(plan.movePaths) && |a.blockEntry| == |plan.blocks|
  {
    && Numbered(d.flags)
    && (forall p :: HasFlag(d.flags, p) <==> Asked(plan, a, p))
    && Covered(plan, a, FlagMap(d.flags))
    && d.actions == Flat(ActionTable(plan, a, d.flags))
    && d.sites == Flat(SiteTable(plan, a, FlagMap(d.flags)))
  }

  /** The actions and sites that go with these flags. */
  ghost function WithFlags(plan: Plan, a: Analysis, flags: seq<DropFlag>): DropFlagAnalysis
    requires IsForest(plan.movePaths) && |a.blockEntry| == |plan.blocks| && Covered(plan, a, FlagMap(flags))
  {
    DropFlagAnalysis(flags, Flat(ActionTable(plan, a, flags)), Flat(SiteTable(plan, a, FlagMap(flags))))
  }

  /** Right numbering and the paths asked for make the synthesized result. */
  lemma WithFlagsSynthesized(plan: Plan, a: Analysis, flags: seq<DropFlag>)
    requires IsForest(plan.movePaths) && |a.blockEntry| == |plan.blocks|
    requires Numbered(flags) && forall p :: HasFlag(flags, p) <==> Asked(plan, a, p)
    ensures Covered(plan, a, FlagMap(flags)) && Synthesized(plan, a, WithFlags(plan, a, flags))
  {
    FlagMapFacts(flags);
    forall b: nat, i: nat, p | b < |plan.blocks| && i < |plan.blocks[b].operations| && p in PathsAt(plan, a, b, i)
      ensures p in FlagMap(flags)
    {
      assert AskedAt(plan, a, b, i, p);
      assert Asked(plan, a, p) && HasFlag(flags, p);
    }
    hide PathsAt; hide FlagMap; hide Asked; hide HasFlag; hide ActionTable; hide SiteTable; hide IsForest;
  }

  lemma {:induction false} NumberedUnique(x: seq<DropFlag>, y: seq<DropFlag>)
    requires Numbered(x) && Numbered(y) && forall p :: HasFlag(x, p) <==> HasFlag(y, p)
    ensures x == y
    decreases |x|
  {
    if x == [] {
      if y != [] { assert HasFlag(y, y[0].path); }
    } else {
      assert HasFlag(x, x[0].path);
      var m, n := |x| - 1, |y| - 1;
      assert HasFlag(x, x[m].path) && HasFlag(y, y[n].path);
      assert x[m].path == y[n].path;
      forall p ensures HasFlag(x[..m], p) <==> HasFlag(y[..n], p) {
        OtherFlags(x, p);
        OtherFlags(y, p);
      }
      NumberedUnique(x[..m], y[..n]);
      assert x == x[..m] + [x[m]] && y == y[..n] + [y[n]];
    }
  }

  lemma OtherFlags(x: seq<DropFlag>, p: nat)
    requires Numbered(x) && x != []
    ensures HasFlag(x[..|x| - 1], p) <==> HasFlag(x, p) && p != x[|x| - 1].path
  {
    var n := |x| - 1;
    if HasFlag(x[..n], p) {
      var i :| 0 <= i < n && x[..n][i].path == p;
      assert x[i].path == p;
    }
    if HasFlag(x, p) && p != x[n].path {
      var i :| 0 <= i < |x| && x[i].path == p;
      assert x[..n][i].path == p;
    }
  }

  /** The flags, actions and sites are determined by the plan and its analysis. */
  lemma SynthesizedUnique(plan: Plan, a: Analysis, x: DropFlagAnalysis, y: DropFlagAnalysis)
    requires IsForest(plan.movePaths) && |a.blockEntry| == |plan.blocks|
    requires Synthesized(plan, a, x) && Synthesized(plan, a, y)
    ensures x == y
  {
    hide ActionTable; hide SiteTable; hide Asked; hide HasFlag; hide IsForest; hide Covered;
    NumberedUnique(x.flags, y.flags);
  }

  /* ----- computing the flags ----- */

  /** `collect_conditional_paths`. */
  method CollectConditionalPaths(f: Forest, n: nat, t: Topology, state: MoveState, path: MovePathId, paths0: set<nat>)
    returns (paths: set<nat>)
    requires state.Valid(f, n) && Agrees(f, n, t) && path < |f|
    ensures paths == paths0 + Collect(f, state.Model(f), path)
    decreases Height(f, path)
  {
    ghost var st := state.Model(f);
    paths := paths0;
    var status := state.PathInitialization(f, n, t, path);
    if status != MaybeOrPartial {
      return;
    }
    var may := state.mayInit.Contains(path);
    if f[path].needsDrop && may {
      paths := paths + {path};
    }
    var children := t.children[path];
    assert children == Children(f, path);
    ghost var all := paths0 + Collect(f, st, path);
    assert children[0..] == children;
    for i := 0 to |children|
      invariant state.Valid(f, n) && state.Model(f) == st
      invariant paths + CollectAll(f, st, path, children[i..]) == all
    {
      assert children[i] in children;
      KidFacts(f, path, children[i]);
      assert children[i..][0] == children[i] && children[i..][1..] == children[i + 1..];
      paths := CollectConditionalPaths(f, n, t, state, children[i], paths);
    }
  }

  /** All paths some `StorageDead` asks for. */
  method CollectAllPaths(plan: Plan, t: Topology, entry: seq<MoveState>, ghost a: Analysis, ghost repr: set<object>)
    returns (paths: set<nat>)
    requires Structured(plan) && Agrees(plan.movePaths, |plan.locals|, t) && |a.blockEntry| == |plan.blocks|
    requires Stand(plan.movePaths, |plan.locals|, entry, a.blockEntry, repr)
    ensures forall p :: p in paths <==> Asked(plan, a, p)
  {
    ghost var f, n := plan.movePaths, |plan.locals|;
    paths := {};
    for b := 0 to |plan.blocks|
      invariant Stand(f, n, entry, a.blockEntry, repr)
      invariant forall p :: p in paths <==> AskedBefore(plan, a, b, 0, p)
    {
      for i := 0 to |plan.blocks[b].operations|
        invariant Stand(f, n, entry, a.blockEntry, repr)
        invariant forall p :: p in paths <==> AskedBefore(plan, a, b, i, p)
      {
        ghost var before := paths;
        paths := CollectSite(plan, t, entry, a, repr, b, i, paths);
        forall p ensures p in paths <==> AskedBefore(plan, a, b, i + 1, p) { AskedNext(plan, a, b, i, p); }
      }
      forall p ensures AskedBefore(plan, a, b + 1, 0, p) <==> AskedBefore(plan, a, b, |plan.blocks[b].operations|, p) {
        AskedRow(plan, a, b, p);
      }
    }
    forall p ensures Asked(plan, a, p) <==> AskedBefore(plan, a, |plan.blocks|, 0, p) { AskedEnd(plan, a, p); }
  }

  ghost predicate AskedBefore(plan: Plan, a: Analysis, b: nat, i: nat, p: nat)
    requires IsForest(plan.movePaths) && |a.blockEntry| == |plan.blocks|
  {
    exists x: nat, y: nat :: AskedAt(plan, a, x, y, p) && (x < b || (x == b && y < i))
  }

  lemma AskedNext(plan: Plan, a: Analysis, b: nat, i: nat, p: nat)
    requires IsForest(plan.movePaths) && |a.blockEntry| == |plan.blocks|
    requires b < |plan.blocks| && i < |plan.blocks[b].operations|
    ensures AskedBefore(plan, a, b, i + 1, p) <==> AskedBefore(plan, a, b, i, p) || p in PathsAt(plan, a, b, i)
  {
    assert AskedAt(plan, a, b, i, p) <==> p in PathsAt(plan, a, b, i);
  }

  lemma AskedRow(plan: Plan, a: Analysis, b: nat, p: nat)
    requires IsForest(plan.movePaths) && |a.blockEntry| == |plan.blocks| && b < |plan.blocks|
    ensures AskedBefore(plan, a, b + 1, 0, p) <==> AskedBefore(plan, a, b, |plan.blocks[b].operations|, p)
  {
  }

  lemma AskedEnd(plan: Plan, a: Analysis, p: nat)
    requires IsForest(plan.movePaths) && |a.blockEntry| == |plan.blocks|
    ensures Asked(plan, a, p) <==> AskedBefore(plan, a, |plan.blocks|, 0, p)
  {
    if Asked(plan, a, p) {
      var b: nat, i: nat :| AskedAt(plan, a, b, i, p);
      assert b < |plan.blocks|;
    }
  }

  method CollectSite(plan: Plan, t: Topology, entry: seq<MoveState>, ghost a: Analysis, ghost repr: set<object>,
                     b: BlockId, i: nat, paths0: set<nat>)
    returns (paths: set<nat>)
    requires Structured(plan) && Agrees(plan.movePaths, |plan.locals|, t) && |a.blockEntry| == |plan.blocks|
    requires Stand(plan.movePaths, |plan.locals|, entry, a.blockEntry, repr)
    requires b < |plan.blocks| && i < |plan.blocks[b].operations|
    ensures paths == paths0 + PathsAt(plan, a, b, i)
  {
    paths := paths0;
    var op := plan.blocks[b].operations[i];
    if op.StorageDead? {
      assert BlockOk(plan, b) && OpVisible(plan, b, op);
      RootLookup(plan.movePaths, |plan.locals|, t, op.local);
      if t.rootsByLocal[op.local].Some? {
        var state := StateAt(plan, t, entry, b, i, a, repr);
        paths := CollectConditionalPaths(plan.movePaths, |plan.locals|, t, state, t.rootsByLocal[op.local].value,
                                         paths);
      }
    }
  }

  ghost predicate Ascending(s: seq<nat>) {
    forall i, j | 0 <= i < j < |s| :: s[i] < s[j]
  }

  lemma InsertedMembers(s: seq<nat>, k: nat, x: nat)
    requires k <= |s|
    ensures forall y :: y in s[..k] + [x] + s[k..] <==> y in s || y == x
  {
    assert s == s[..k] + s[k..];
  }

  lemma Inserted(s: seq<nat>, k: nat, x: nat)
    requires Ascending(s) && k <= |s|
    requires forall i | 0 <= i < k :: s[i] < x
    requires forall i | k <= i < |s| :: x < s[i]
    ensures Ascending(s[..k] + [x] + s[k..])
    ensures Elements(s[..k] + [x] + s[k..]) == Elements(s) + {x}
  {
    var r := s[..k] + [x] + s[k..];
    forall i, j | 0 <= i < j < |r| ensures r[i] < r[j] {
      assert r[i] == if i < k then s[i] else if i == k then x else s[i - 1];
      assert r[j] == if j < k then s[j] else if j == k then x else s[j - 1];
    }
    InsertedMembers(s, k, x);
    hide Ascending;
  }

  method InsertSorted(s: seq<nat>, x: nat) returns (r: seq<nat>)
    requires Ascending(s) && x !in s
    ensures Ascending(r) && Elements(r) == Elements(s) + {x}
  {
    var k := |s|;
    while k > 0 && x < s[k - 1]
      invariant 0 <= k <= |s|
      invariant forall i | k <= i < |s| :: x < s[i]
    {
      k := k - 1;
    }
    forall i | 0 <= i < k ensures s[i] < x { assert s[i] <= s[k - 1] && s[k - 1] in s; }
    hide *;
    Inserted(s, k, x);
    r := s[..k] + [x] + s[k..];
  }

  method Sorted(paths: set<nat>) returns (s: seq<nat>)
    ensures Ascending(s) && Elements(s) == paths
  {
    var rest := paths;
    s := [];
    while rest != {}
      invariant rest <= paths && Ascending(s) && Elements(s) == paths - rest
      decreases |rest|
    {
      var x :| x in rest;
      s := InsertSorted(s, x);
      rest := rest - {x};
    }
  }

  method NumberFlags(paths: seq<nat>) returns (flags: seq<DropFlag>)
    requires Ascending(paths)
    ensures Numbered(flags) && forall p :: HasFlag(flags, p) <==> p in paths
  {
    flags := [];
    for i := 0 to |paths|
      invariant |flags| == i && forall j | 0 <= j < i :: flags[j] == DropFlag(j, paths[j])
    {
      flags := flags + [DropFlag(i, paths[i])];
    }
    forall p ensures HasFlag(flags, p) <==> p in paths {
      if p in paths {
        var i :| 0 <= i < |paths| && paths[i] == p;
        assert flags[i].path == p;
      }
    }
  }

  method IndexFlags(flags: seq<DropFlag>) returns (byPath: map<MovePathId, DropFlagId>)
    ensures byPath == FlagMap(flags)
  {
    byPath := map[];
    for i := 0 to |flags|
      invariant byPath == FlagMap(flags[..i])
    {
      byPath := byPath[flags[i].path := flags[i].id];
      assert flags[..i + 1][..i] == flags[..i];
    }
    assert flags[..|flags|] == flags;
  }

  lemma AskedIsCovered(plan: Plan, a: Analysis, flags: seq<DropFlag>)
    requires IsForest(plan.movePaths) && |a.blockEntry| == |plan.blocks|
    requires Numbered(flags) && forall p :: HasFlag(flags, p) <==> Asked(plan, a, p)
    ensures Covered(plan, a, FlagMap(flags))
  {
    FlagMapFacts(flags);
    forall b: nat, i: nat, p | b < |plan.blocks| && i < |plan.blocks[b].operations| && p in PathsAt(plan, a, b, i)
      ensures p in FlagMap(flags)
    {
      assert AskedAt(plan, a, b, i, p);
    }
  }

  lemma AskedInRange(plan: Plan, a: Analysis, p: nat)
    requires IsForest(plan.movePaths) && |a.blockEntry| == |plan.blocks| && Asked(plan, a, p)
    ensures p < |plan.movePaths|
  {
    var b: nat, i: nat :| AskedAt(plan, a, b, i, p);
    CollectRange(plan.movePaths, StateBefore(plan, a, b, i), EndedRoot(plan, b, i).value, p);
  }

  /* ----- computing the actions ----- */

  method IsRelated(f: Forest, n: nat, t: Topology, p: MovePathId, q: MovePathId) returns (r: bool)
    requires Agrees(f, n, t) && p < |f| && q < |f|
    ensures r <==> Related(f, p, q)
  {
    ContainsIsPrefix(f, n, t, p, q);
    ContainsIsPrefix(f, n, t, q, p);
    WithinIsPrefix(f, p, q);
    WithinIsPrefix(f, q, p);
    r := t.ContainsPath(p, q) || t.ContainsPath(q, p);
  }

  method ActionValue(f: Forest, n: nat, t: Topology, state: MoveState, op: CleanupOp, q: MovePathId)
    returns (value: Option<DropFlagValue>)
    requires state.Valid(f, n) && Agrees(f, n, t) && state.OpInRange(f, n, op) && q < |f|
    ensures value == ActionFor(f, state.Model(f), op, q)
  {
    value := None;
    match op
    case StorageLive(l) => if l == f[q].place.local { value := Some(Clear); }
    case StorageDead(l) => if l == f[q].place.local { value := Some(Clear); }
    case Init(p) => value := WriteValue(f, n, t, state, p, q);
    case Overwrite(p) => value := WriteValue(f, n, t, state, p, q);
    case MoveOut(p) =>
      var related := IsRelated(f, n, t, p, q);
      if related { value := Some(Clear); }
    case SetDiscriminant(p, _) =>
      var related := IsRelated(f, n, t, p, q);
      if related { value := Some(Clear); }
    case Transfer(s, d, _) =>
      var sourceAffects := IsRelated(f, n, t, s, q);
      value := WriteValue(f, n, t, state, d, q);
      if value.None? && sourceAffects { value := Some(Clear); }
    case AssumeDiscriminant(_, _) =>
  }

  /** A write sets the flags of related paths that are now definitely complete. */
  method WriteValue(f: Forest, n: nat, t: Topology, state: MoveState, p: MovePathId, q: MovePathId)
    returns (value: Option<DropFlagValue>)
    requires state.Valid(f, n) && Agrees(f, n, t) && p < |f| && q < |f|
    ensures value == if Related(f, p, q) && Initialization(f, state.Model(f), q) == Initialized then Some(Set) else None
  {
    var related := IsRelated(f, n, t, p, q);
    var status := state.PathInitialization(f, n, t, q);
    value := if related && status == Initialized then Some(Set) else None;
  }

  method OperationActions(f: Forest, n: nat, t: Topology, state: MoveState, op: CleanupOp, b: BlockId, i: nat,
                          flags: seq<DropFlag>)
    returns (actions: seq<DropFlagAction>)
    requires state.Valid(f, n) && Agrees(f, n, t) && state.OpInRange(f, n, op)
    requires forall k | 0 <= k < |flags| :: flags[k].path < |f|
    ensures actions == OpActions(f, state.Model(f), op, b, i, flags)
  {
    ghost var st := state.Model(f);
    actions := [];
    for k := 0 to |flags|
      invariant state.Valid(f, n) && state.Model(f) == st
      invariant actions == OpActions(f, st, op, b, i, flags[..k])
    {
      var value := ActionValue(f, n, t, state, op, flags[k].path);
      match value {
        case Some(v) => actions := actions + [DropFlagAction(b, i, flags[k].id, v)];
        case None =>
      }
      assert flags[..k + 1][..k] == flags[..k];
    }
    assert flags[..|flags|] == flags;
  }

  lemma RowEntry(plan: Plan, a: Analysis, flags: seq<DropFlag>, b: nat, i: nat)
    requires IsForest(plan.movePaths) && |a.blockEntry| == |plan.blocks| && b < |plan.blocks|
    requires a.blockEntry[b].reachable && i < |plan.blocks[b].operations|
    ensures i < |ActionRow(plan, a, flags, b)|
    ensures ActionRow(plan, a, flags, b)[i] ==
            OpActions(plan.movePaths, StateBefore(plan, a, b, i + 1), plan.blocks[b].operations[i], b, i, flags)
  {
  }

  /** One operation and the actions that follow it. */
  method StepActions(f: Forest, n: nat, t: Topology, state: MoveState, op: CleanupOp, b: BlockId, i: nat,
                     flags: seq<DropFlag>)
    returns (actions: seq<DropFlagAction>)
    requires state.Valid(f, n) && Agrees(f, n, t) && state.OpInRange(f, n, op)
    requires forall k | 0 <= k < |flags| :: flags[k].path < |f|
    modifies state.Repr()
    ensures state.Valid(f, n) && state.Model(f) == Apply(f, old(state.Model(f)), op)
    ensures actions == OpActions(f, Apply(f, old(state.Model(f)), op), op, b, i, flags)
  {
    hide Agrees; hide Apply; hide OpActions; hide IsForest;
    state.ApplyOperation(f, n, t, op);
    actions := OperationActions(f, n, t, state, op, b, i, flags);
  }

  /** The actions of the operations of a reachable block, in order. */
  method RowActions(plan: Plan, t: Topology, state: MoveState, b: BlockId, flags: seq<DropFlag>, ghost a: Analysis,
                    ghost row: seq<seq<DropFlagAction>>)
    returns (actions: seq<DropFlagAction>)
    requires Structured(plan) && IsForest(plan.movePaths) && |a.blockEntry| == |plan.blocks|
    requires Agrees(plan.movePaths, |plan.locals|, t)
    requires b < |plan.blocks| && forall k | 0 <= k < |flags| :: flags[k].path < |plan.movePaths|
    requires a.blockEntry[b].reachable && row == ActionRow(plan, a, flags, b) && |row| == |plan.blocks[b].operations|
    requires state.Valid(plan.movePaths, |plan.locals|) && state.Model(plan.movePaths) == StateBefore(plan, a, b, 0)
    requires forall op | op in plan.blocks[b].operations :: state.OpInRange(plan.movePaths, |plan.locals|, op)
    modifies state.Repr()
    ensures actions == FlatRow(row)
  {
    hide *;
    actions := [];
    FlatRowNone(row);
    for i := 0 to |plan.blocks[b].operations|
      invariant state.Valid(plan.movePaths, |plan.locals|) && state.Model(plan.movePaths) == StateBefore(plan, a, b, i)
      invariant actions == FlatRow(row[..i])
    {
      NextState(plan, a, b, i);
      var more := StepActions(plan.movePaths, |plan.locals|, t, state, plan.blocks[b].operations[i], b, i, flags);
      RowEntry(plan, a, flags, b, i);
      actions := actions + more;
      FlatRowNext(row, i);
    }
    assert row[..|row|] == row;
  }

  method BlockActions(plan: Plan, t: Topology, entry: MoveState, b: BlockId, flags: seq<DropFlag>, ghost a: Analysis)
    returns (actions: seq<DropFlagAction>)
    requires Structured(plan) && Agrees(plan.movePaths, |plan.locals|, t) && |a.blockEntry| == |plan.blocks|
    requires b < |plan.blocks| && forall k | 0 <= k < |flags| :: flags[k].path < |plan.movePaths|
    requires entry.Valid(plan.movePaths, |plan.locals|) && entry.Model(plan.movePaths) == a.blockEntry[b]
    ensures actions == FlatRow(ActionRow(plan, a, flags, b))
  {
    actions := [];
    if !entry.reachable {
      return;
    }
    var state := new MoveState.Copy(plan.movePaths, |plan.locals|, entry);
    OpsInRange(plan, b, state);
    assert plan.blocks[b].operations[..0] == [];
    actions := RowActions(plan, t, state, b, flags, a, ActionRow(plan, a, flags, b));
  }

  lemma TableRows(plan: Plan, a: Analysis, flags: seq<DropFlag>)
    requires IsForest(plan.movePaths) && |a.blockEntry| == |plan.blocks|
    ensures |ActionTable(plan, a, flags)| == |plan.blocks|
    ensures forall b: nat | b < |plan.blocks| :: ActionTable(plan, a, flags)[b] == ActionRow(plan, a, flags, b)
  {
    hide ActionRow; hide IsForest;
  }

  method ComputeActions(plan: Plan, t: Topology, entry: seq<MoveState>, flags: seq<DropFlag>, ghost a: Analysis,
                        ghost repr: set<object>)
    returns (actions: seq<DropFlagAction>)
    requires Structured(plan) && Agrees(plan.movePaths, |plan.locals|, t) && |a.blockEntry| == |plan.blocks|
    requires Stand(plan.movePaths, |plan.locals|, entry, a.blockEntry, repr)
    requires forall k | 0 <= k < |flags| :: flags[k].path < |plan.movePaths|
    ensures actions == Flat(ActionTable(plan, a, flags))
  {
    hide *;
    StructuredForest(plan);
    ghost var f, n, table := plan.movePaths, |plan.locals|, ActionTable(plan, a, flags);
    TableRows(plan, a, flags);
    FlatNone(table);
    actions := [];
    for b := 0 to |plan.blocks|
      invariant Stand(f, n, entry, a.blockEntry, repr) && actions == Flat(table[..b])
    {
      StandAt(f, n, entry, a.blockEntry, repr, b);
      var more := BlockActions(plan, t, entry[b], b, flags, a);
      actions := actions + more;
      FlatNext(table, b);
    }
    assert table[..|table|] == table;
  }

  /* ----- computing the sites ----- */

  /** `obligations_for_path`. */
  method ObligationsForPath(f: Forest, n: nat, t: Topology, state: MoveState, path: MovePathId,
                            flags: map<MovePathId, DropFlagId>)
    returns (obligations: seq<DropObligation>)
    requires state.Valid(f, n) && Agrees(f, n, t) && path < |f|
    requires Collect(f, state.Model(f), path) <= flags.Keys
    ensures obligations == Obligations(f, state.Model(f), path, flags)
    decreases Height(f, path), 1
  {
    var status := state.PathInitialization(f, n, t, path);
    var may := state.mayInit.Contains(path);
    match status
    case Uninitialized => obligations := [];
    case Initialized =>
      if f[path].needsDrop {
        obligations := [DropObligation(path, Static, [])];
      } else {
        CollectAllNeedsDrop(f, state.Model(f), path, Children(f, path));
        obligations := ObligationsForChildren(f, n, t, state, path, flags);
      }
    case MaybeOrPartial =>
      obligations := ObligationsForChildren(f, n, t, state, path, flags);
      if f[path].needsDrop && may {
        obligations := [DropObligation(path, Flag(flags[path]), obligations)];
      }
  }

  method ObligationsForChildren(f: Forest, n: nat, t: Topology, state: MoveState, path: MovePathId,
                                flags: map<MovePathId, DropFlagId>)
    returns (obligations: seq<DropObligation>)
    requires state.Valid(f, n) && Agrees(f, n, t) && path < |f|
    requires CollectAll(f, state.Model(f), path, Children(f, path)) <= flags.Keys
    ensures obligations == ObligationsAll(f, state.Model(f), path, Children(f, path), flags)
    decreases Height(f, path), 0
  {
    ghost var st := state.Model(f);
    var children := t.children[path];
    assert children == Children(f, path) && children[0..] == children;
    obligations := [];
    for i := 0 to |children|
      invariant state.Valid(f, n) && state.Model(f) == st
      invariant CollectAll(f, st, path, children[i..]) <= flags.Keys
      invariant obligations + ObligationsAll(f, st, path, children[i..], flags)
                == ObligationsAll(f, st, path, children, flags)
    {
      assert children[i] in children;
      KidFacts(f, path, children[i]);
      assert children[i..][0] == children[i] && children[i..][1..] == children[i + 1..];
      var more := ObligationsForPath(f, n, t, state, children[i], flags);
      obligations := obligations + more;
    }
  }

  method ComputeSite(plan: Plan, t: Topology, entry: seq<MoveState>, b: BlockId, i: nat,
                     flags: map<MovePathId, DropFlagId>,
                     ghost a: Analysis, ghost repr: set<object>)
    returns (sites: seq<DropSite>)
    requires Structured(plan) && Agrees(plan.movePaths, |plan.locals|, t) && |a.blockEntry| == |plan.blocks|
    requires Stand(plan.movePaths, |plan.locals|, entry, a.blockEntry, repr) && Covered(plan, a, flags)
    requires b < |plan.blocks| && i < |plan.blocks[b].operations|
    ensures sites == SiteAt(plan, a, flags, b, i)
  {
    sites := [];
    var op := plan.blocks[b].operations[i];
    if op.StorageDead? {
      assert BlockOk(plan, b) && OpVisible(plan, b, op);
      RootLookup(plan.movePaths, |plan.locals|, t, op.local);
      if t.rootsByLocal[op.local].Some? {
        var state := StateAt(plan, t, entry, b, i, a, repr);
        assert PathsAt(plan, a, b, i) <= flags.Keys;
        var obligations := ObligationsForPath(plan.movePaths, |plan.locals|, t, state, t.rootsByLocal[op.local].value,
                                              flags);
        if obligations != [] {
          sites := [DropSite(b, i, op.local, obligations)];
        }
      }
    }
  }

  method ComputeSites(plan: Plan, t: Topology, entry: seq<MoveState>, flags: map<MovePathId, DropFlagId>,
                      ghost a: Analysis, ghost repr: set<object>)
    returns (sites: seq<DropSite>)
    requires Structured(plan) && Agrees(plan.movePaths, |plan.locals|, t) && |a.blockEntry| == |plan.blocks|
    requires Stand(plan.movePaths, |plan.locals|, entry, a.blockEntry, repr) && Covered(plan, a, flags)
    ensures sites == Flat(SiteTable(plan, a, flags))
  {
    ghost var f, n, table := plan.movePaths, |plan.locals|, SiteTable(plan, a, flags);
    sites := [];
    assert |table| == |plan.blocks| && forall b | 0 <= b < |table| :: table[b] == SiteRow(plan, a, flags, b);
    hide Structured; hide Agrees; hide Covered; hide SiteRow; hide Stand; hide SiteTable; hide FlatRow;
    for b := 0 to |plan.blocks|
      invariant Stand(f, n, entry, a.blockEntry, repr) && sites == Flat(table[..b])
    {
      var more := BlockSites(plan, t, entry, b, flags, a, repr);
      sites := sites + more;
      assert table[..b + 1][..b] == table[..b];
    }
    assert table[..|plan.blocks|] == table;
  }

  lemma SitesOfRow(plan: Plan, a: Analysis, flags: map<MovePathId, DropFlagId>, b: nat)
    requires IsForest(plan.movePaths) && |a.blockEntry| == |plan.blocks| && Covered(plan, a, flags) && b < |plan.blocks|
    ensures |SiteRow(plan, a, flags, b)| == |plan.blocks[b].operations|
    ensures forall i: nat | i < |plan.blocks[b].operations| ::
              SiteRow(plan, a, flags, b)[i] == SiteAt(plan, a, flags, b, i)
  {
    hide SiteAt; hide IsForest; hide Covered;
  }

  method BlockSites(plan: Plan, t: Topology, entry: seq<MoveState>, b: BlockId, flags: map<MovePathId, DropFlagId>,
                    ghost a: Analysis, ghost repr: set<object>)
    returns (sites: seq<DropSite>)
    requires Structured(plan) && Agrees(plan.movePaths, |plan.locals|, t) && |a.blockEntry| == |plan.blocks|
    requires Stand(plan.movePaths, |plan.locals|, entry, a.blockEntry, repr) && Covered(plan, a, flags)
    requires b < |plan.blocks|
    ensures sites == FlatRow(SiteRow(plan, a, flags, b))
  {
    hide *;
    StructuredForest(plan);
    ghost var f, n, row := plan.movePaths, |plan.locals|, SiteRow(plan, a, flags, b);
    SitesOfRow(plan, a, flags, b);
    FlatRowNone(row);
    sites := [];
    for i := 0 to |plan.blocks[b].operations|
      invariant Stand(f, n, entry, a.blockEntry, repr) && sites == FlatRow(row[..i])
    {
      var more := ComputeSite(plan, t, entry, b, i, flags, a, repr);
      sites := sites + more;
      FlatRowNext(row, i);
    }
    assert row[..|row|] == row;
  }

  /** `DropFlagAnalysis::compute`. */
  method Synthesize(plan: Plan, t: Topology, entry: seq<MoveState>, ghost a: Analysis, ghost repr: set<object>)
    returns (d: DropFlagAnalysis)
    requires Structured(plan) && Agrees(plan.movePaths, |plan.locals|, t) && |a.blockEntry| == |plan.blocks|
    requires Stand(plan.movePaths, |plan.locals|, entry, a.blockEntry, repr)
    ensures Synthesized(plan, a, d)
  {
    var paths := CollectAllPaths(plan, t, entry, a, repr);
    var sorted := Sorted(paths);
    var flags := NumberFlags(sorted);
    forall p ensures HasFlag(flags, p) <==> Asked(plan, a, p) { assert p in sorted <==> p in Elements(sorted); }
    AskedIsCovered(plan, a, flags);
    forall k | 0 <= k < |flags| ensures flags[k].path < |plan.movePaths| {
      assert HasFlag(flags, flags[k].path);
      AskedInRange(plan, a, flags[k].path);
    }
    var byPath := IndexFlags(flags);
    var actions := ComputeActions(plan, t, entry, flags, a, repr);
    var sites := ComputeSites(plan, t, entry, byPath, a, repr);
    d := DropFlagAnalysis(flags, actions, sites);
  }

  /* ----- carrying the actions out ----- */

  /** The flags after the actions, in order. */
  function Perform(actions: seq<DropFlagAction>, on: set<DropFlagId>): set<DropFlagId> {
    if actions == [] then on
    else
      var last := actions[|actions| - 1];
      var earlier := Perform(actions[..|actions| - 1], on);
      if last.value == Set then earlier + {last.flag} else earlier - {last.flag}
  }

  function ActionPosition(x: DropFlagAction): (nat, nat) { (x.block, x.operationIndex) }

  function SitePosition(x: DropSite): (nat, nat) { (x.block, x.operationIndex) }

  function ActionsAt(d: DropFlagAnalysis, b: nat, i: nat): seq<DropFlagAction> { Pick(d.actions, ActionPosition, b, i) }

  function SitesAt(d: DropFlagAnalysis, b: nat, i: nat): seq<DropSite> { Pick(d.sites, SitePosition, b, i) }

  /** What the program drops at an operation. */
  function DroppedAt(d: DropFlagAnalysis, b: nat, i: nat, on: set<DropFlagId>): seq<MovePathId> {
    var sites := SitesAt(d, b, i);
    if sites == [] then [] else EvaluateAll(sites[0].obligations, on)
  }

  lemma {:induction false} OpActionsPlaced(f: Forest, after: State, op: CleanupOp, b: nat, i: nat, flags: seq<DropFlag>)
    ensures forall x | x in OpActions(f, after, op, b, i, flags) :: x.block == b && x.operationIndex == i
  {
    if flags != [] { OpActionsPlaced(f, after, op, b, i, flags[..|flags| - 1]); }
  }

  /** Whether a flag is set after an update. */
  predicate FlagAfter(value: Option<DropFlagValue>, was: bool) {
    value == Some(Set) || (value == None && was)
  }

  lemma PerformMore(f: Forest, after: State, op: CleanupOp, b: nat, i: nat, flag: DropFlag,
                    earlier: seq<DropFlagAction>,
                    on: set<DropFlagId>, id: nat)
    ensures id in Perform(earlier + FlagAction(f, after, op, b, i, flag), on) <==>
            if id == flag.id then FlagAfter(ActionFor(f, after, op, flag.path), id in Perform(earlier, on))
            else id in Perform(earlier, on)
  {
    hide ActionFor;
    match ActionFor(f, after, op, flag.path)
    case None => assert earlier + [] == earlier;
    case Some(value) => assert (earlier + [DropFlagAction(b, i, flag.id, value)])[..|earlier|] == earlier;
  }

  lemma {:induction false} PerformOne(f: Forest, after: State, op: CleanupOp, b: nat, i: nat, flags: seq<DropFlag>,
                                      on: set<DropFlagId>, id: nat)
    requires Numbered(flags)
    ensures id in Perform(OpActions(f, after, op, b, i, flags), on) <==>
            if id < |flags| then FlagAfter(ActionFor(f, after, op, flags[id].path), id in on) else id in on
  {
    if flags != [] {
      var n := |flags| - 1;
      PerformOne(f, after, op, b, i, flags[..n], on, id);
      assert id < n ==> flags[..n][id] == flags[id];
      assert flags[n].id == n;
      hide ActionFor; hide FlagAction; hide Perform; hide FlagAfter;
      PerformMore(f, after, op, b, i, flags[n], OpActions(f, after, op, b, i, flags[..n]), on, id);
    }
  }

  ghost predicate InRange(on: set<DropFlagId>, n: nat) { forall id | id in on :: id < n }

  /** The listed actions have the effect the flag rules describe. */
  lemma PerformIsUpdate(f: Forest, after: State, op: CleanupOp, b: nat, i: nat, flags: seq<DropFlag>,
                        on: set<DropFlagId>)
    requires Numbered(flags) && InRange(on, |flags|)
    ensures Perform(OpActions(f, after, op, b, i, flags), on) == UpdateFlags(f, after, op, FlagMap(flags), on)
    ensures InRange(Perform(OpActions(f, after, op, b, i, flags), on), |flags|)
  {
    FlagMapFacts(flags);
    var m := FlagMap(flags);
    forall id: nat ensures id in Perform(OpActions(f, after, op, b, i, flags), on)
        <==> id in UpdateFlags(f, after, op, m, on) {
      PerformOne(f, after, op, b, i, flags, on, id);
      if id < |flags| { UpdateMembership(f, after, op, m, on, flags[id].path); }
    }
  }

  lemma ActionsPlaced(plan: Plan, a: Analysis, flags: seq<DropFlag>)
    requires IsForest(plan.movePaths) && |a.blockEntry| == |plan.blocks|
    ensures var table := ActionTable(plan, a, flags);
            forall x: nat, y: nat | x < |table| && y < |table[x]| :: PlacedAt(table[x][y], ActionPosition, x, y)
  {
    hide OpActions; hide StateBefore; hide IsForest;
    var table := ActionTable(plan, a, flags);
    forall x: nat, y: nat | x < |table| && y < |table[x]| ensures PlacedAt(table[x][y], ActionPosition, x, y) {
      OpActionsPlaced(plan.movePaths, StateBefore(plan, a, x, y + 1), plan.blocks[x].operations[y], x, y, flags);
    }
  }

  lemma ActionsInPlace(plan: Plan, a: Analysis, d: DropFlagAnalysis, b: nat, i: nat)
    requires IsForest(plan.movePaths) && |a.blockEntry| == |plan.blocks| && Synthesized(plan, a, d)
    requires b < |plan.blocks| && i < |plan.blocks[b].operations| && a.blockEntry[b].reachable
    ensures ActionsAt(d, b, i) ==
            OpActions(plan.movePaths, StateBefore(plan, a, b, i + 1), plan.blocks[b].operations[i], b, i, d.flags)
  {
    var table := ActionTable(plan, a, d.flags);
    assert d.actions == Flat(table) && table[b] == ActionRow(plan, a, d.flags, b);
    ActionsPlaced(plan, a, d.flags);
    RowEntry(plan, a, d.flags, b, i);
    assert |table| == |plan.blocks|;
    assert ActionsAt(d, b, i) == Pick(Flat(table), ActionPosition, b, i);
    hide *;
    PickFlat(table, ActionPosition, b, i);
  }

  lemma SitesPlaced(plan: Plan, a: Analysis, flags: map<MovePathId, DropFlagId>)
    requires IsForest(plan.movePaths) && |a.blockEntry| == |plan.blocks| && Covered(plan, a, flags)
    ensures var table := SiteTable(plan, a, flags);
            forall x: nat, y: nat | x < |table| && y < |table[x]| :: PlacedAt(table[x][y], SitePosition, x, y)
  {
    hide StateBefore; hide IsForest; hide Obligations; hide EndedRoot; hide Covered;
    var table := SiteTable(plan, a, flags);
    forall x: nat, y: nat | x < |table| && y < |table[x]| ensures PlacedAt(table[x][y], SitePosition, x, y) {
      assert table[x][y] == SiteAt(plan, a, flags, x, y);
    }
  }

  lemma SitesInPlace(plan: Plan, a: Analysis, d: DropFlagAnalysis, b: nat, i: nat)
    requires IsForest(plan.movePaths) && |a.blockEntry| == |plan.blocks| && Synthesized(plan, a, d)
    requires b < |plan.blocks| && i < |plan.blocks[b].operations|
    ensures SitesAt(d, b, i) == SiteAt(plan, a, FlagMap(d.flags), b, i)
  {
    var table := SiteTable(plan, a, FlagMap(d.flags));
    assert d.sites == Flat(table) && |table| == |plan.blocks|;
    assert table[b] == SiteRow(plan, a, FlagMap(d.flags), b) && |table[b]| == |plan.blocks[b].operations|;
    assert table[b][i] == SiteAt(plan, a, FlagMap(d.flags), b, i);
    SitesPlaced(plan, a, FlagMap(d.flags));
    assert SitesAt(d, b, i) == Pick(Flat(table), SitePosition, b, i);
    hide *;
    PickFlat(table, SitePosition, b, i);
  }

  /* ----- the compiled program ----- */

  /** A run that carries out the emitted actions after each operation. */
  ghost predicate ActionMove(plan: Plan, d: DropFlagAnalysis, x: FlagConfig, y: FlagConfig)
    requires IsForest(plan.movePaths)
  {
    && Move(plan, x.at, y.at)
    && y.on == if OpMove(plan, x.at, y.at) then Perform(ActionsAt(d, x.at.block, x.at.index), x.on) else x.on
  }

  ghost predicate IsActionRun(plan: Plan, d: DropFlagAnalysis, run: seq<FlagConfig>)
    requires IsForest(plan.movePaths)
  {
    && run != [] && run[0] == FlagConfig(At(plan.entry, 0, START), {})
    && forall i | 0 <= i < |run| - 1 :: ActionMove(plan, d, run[i], run[i + 1])
  }

  /** What is performed after an operation is what the flag rules say. */
  lemma PerformedAt(plan: Plan, a: Analysis, d: DropFlagAnalysis, b: nat, i: nat, on: set<DropFlagId>)
    requires IsForest(plan.movePaths) && |a.blockEntry| == |plan.blocks| && Synthesized(plan, a, d)
    requires b < |plan.blocks| && i < |plan.blocks[b].operations| && a.blockEntry[b].reachable
    requires InRange(on, |d.flags|)
    ensures Perform(ActionsAt(d, b, i), on) ==
            UpdateFlags(plan.movePaths, StateBefore(plan, a, b, i + 1), plan.blocks[b].operations[i],
                        FlagMap(d.flags), on)
  {
    ActionsInPlace(plan, a, d, b, i);
    assert Numbered(d.flags);
    hide Synthesized; hide IsForest; hide Perform; hide ActionsAt; hide UpdateFlags; hide StateBefore; hide FlagMap;
    PerformIsUpdate(plan.movePaths, StateBefore(plan, a, b, i + 1), plan.blocks[b].operations[i], b, i, d.flags, on);
  }

  lemma DescribedIsReached(plan: Plan, a: Analysis, x: Config)
    requires Accepted(plan, a) && ConfigOk(plan, x) && Described(plan, a, x)
    ensures IsForest(plan.movePaths) && |a.blockEntry| == |plan.blocks| && a.blockEntry[x.block].reachable
  {
  }

  lemma ActionStep(plan: Plan, a: Analysis, d: DropFlagAnalysis, x: FlagConfig, y: FlagConfig)
    requires Accepted(plan, a) && Synthesized(plan, a, d) && ActionMove(plan, d, x, y)
    requires ConfigOk(plan, x.at) && Described(plan, a, x.at) && InRange(x.on, |d.flags|)
    ensures FlagMove(plan, a, FlagMap(d.flags), x, y) && InRange(y.on, |d.flags|)
  {
    hide Accepted; hide Synthesized; hide Described; hide Step; hide Move; hide Perform; hide ActionsAt; hide FlagMap;
    hide UpdateFlags; hide StateBefore; hide IsForest; hide InRange;
    DescribedIsReached(plan, a, x.at);
    if OpMove(plan, x.at, y.at) { PerformedAt(plan, a, d, x.at.block, x.at.index, x.on); }
    assert FlagMove(plan, a, FlagMap(d.flags), x, y);
    FlagMoveInRange(plan, a, d, x, y);
  }

  lemma ActionRunIsRun(plan: Plan, d: DropFlagAnalysis, run: seq<FlagConfig>)
    requires IsForest(plan.movePaths) && IsActionRun(plan, d, run)
    ensures IsRun(plan, Configs(run))
  {
    forall i | 0 <= i < |run| - 1 ensures Move(plan, Configs(run)[i], Configs(run)[i + 1]) {
      assert ActionMove(plan, d, run[i], run[i + 1]);
    }
  }

  lemma ActionRunDescribed(plan: Plan, a: Analysis, d: DropFlagAnalysis, run: seq<FlagConfig>, i: nat)
    requires Accepted(plan, a) && IsActionRun(plan, d, run) && i < |run|
    ensures ConfigOk(plan, run[i].at) && Described(plan, a, run[i].at)
  {
    assert IsForest(plan.movePaths);
    hide Accepted; hide IsActionRun; hide IsRun; hide Described; hide ConfigOk; hide IsForest;
    ActionRunIsRun(plan, d, run);
    RunDescribed(plan, a, Configs(run), i);
  }

  lemma ActionRunParts(plan: Plan, d: DropFlagAnalysis, run: seq<FlagConfig>)
    requires IsForest(plan.movePaths) && IsActionRun(plan, d, run)
    ensures run != [] && run[0].on == {}
    ensures forall i: nat | i + 1 < |run| :: ActionMove(plan, d, run[i], run[i + 1])
  {
    hide ActionMove; hide IsForest;
  }

  lemma {:induction false} ActionRunInRange(plan: Plan, a: Analysis, d: DropFlagAnalysis, run: seq<FlagConfig>, i: nat)
    requires Accepted(plan, a) && Synthesized(plan, a, d) && IsActionRun(plan, d, run) && i < |run|
    ensures InRange(run[i].on, |d.flags|) && ConfigOk(plan, run[i].at) && Described(plan, a, run[i].at)
    decreases i
  {
    ActionRunDescribed(plan, a, d, run, i);
    ActionRunParts(plan, d, run);
    if i > 0 {
      ActionRunInRange(plan, a, d, run, i - 1);
      assert ActionMove(plan, d, run[i - 1], run[i - 1 + 1]);
      hide *;
      ActionStep(plan, a, d, run[i - 1], run[i]);
    }
  }

  /** The emitted actions carry out the flag rules: both make the same runs. */
  lemma ActionRunsAreFlagRuns(plan: Plan, a: Analysis, d: DropFlagAnalysis, run: seq<FlagConfig>)
    requires Accepted(plan, a) && Synthesized(plan, a, d)
    ensures IsActionRun(plan, d, run) <==> IsFlagRun(plan, a, FlagMap(d.flags), run)
  {
    if IsActionRun(plan, d, run) { ActionRunIsFlagRun(plan, a, d, run); }
    if IsFlagRun(plan, a, FlagMap(d.flags), run) { FlagRunIsActionRun(plan, a, d, run); }
  }

  lemma ActionRunIsFlagRun(plan: Plan, a: Analysis, d: DropFlagAnalysis, run: seq<FlagConfig>)
    requires Accepted(plan, a) && Synthesized(plan, a, d) && IsActionRun(plan, d, run)
    ensures IsFlagRun(plan, a, FlagMap(d.flags), run)
  {
    assert IsForest(plan.movePaths) && |a.blockEntry| == |plan.blocks|;
    hide Accepted; hide Synthesized; hide ActionMove; hide FlagMove;
    forall i | 0 <= i < |run| - 1 ensures FlagMove(plan, a, FlagMap(d.flags), run[i], run[i + 1]) {
      ActionRunInRange(plan, a, d, run, i);
      assert ActionMove(plan, d, run[i], run[i + 1]);
      ActionStep(plan, a, d, run[i], run[i + 1]);
    }
  }

  lemma NothingInRange(n: nat)
    ensures InRange({}, n)
  {
  }

  lemma FlagMoveInRange(plan: Plan, a: Analysis, d: DropFlagAnalysis, x: FlagConfig, y: FlagConfig)
    requires IsForest(plan.movePaths) && |a.blockEntry| == |plan.blocks| && Synthesized(plan, a, d)
    requires FlagMove(plan, a, FlagMap(d.flags), x, y) && InRange(x.on, |d.flags|)
    ensures InRange(y.on, |d.flags|)
  {
    FlagMapFacts(d.flags);
    hide IsForest; hide Move; hide OpMove; hide StateBefore; hide ActionFor; hide FlagMap;
  }

  lemma {:induction false} FlagRunInRange(plan: Plan, a: Analysis, d: DropFlagAnalysis, run: seq<FlagConfig>, i: nat)
    requires Accepted(plan, a) && Synthesized(plan, a, d) && IsFlagRun(plan, a, FlagMap(d.flags), run) && i < |run|
    ensures InRange(run[i].on, |d.flags|)
  {
    hide *;
    AcceptedShape(plan, a);
    FlagRunParts(plan, a, FlagMap(d.flags), run);
    NothingInRange(|d.flags|);
    if i > 0 {
      FlagRunInRange(plan, a, d, run, i - 1);
      FlagMoveInRange(plan, a, d, run[i - 1], run[i - 1 + 1]);
    }
  }

  lemma FlagRunIsActionRun(plan: Plan, a: Analysis, d: DropFlagAnalysis, run: seq<FlagConfig>)
    requires Accepted(plan, a) && Synthesized(plan, a, d) && IsFlagRun(plan, a, FlagMap(d.flags), run)
    ensures IsActionRun(plan, d, run)
  {
    forall i | 0 <= i < |run| - 1 ensures ActionMove(plan, d, run[i], run[i + 1]) {
      FlagRunDescribed(plan, a, FlagMap(d.flags), run, i);
      FlagRunInRange(plan, a, d, run, i);
      assert FlagMove(plan, a, FlagMap(d.flags), run[i], run[i + 1]);
      hide *;
      FlagStep(plan, a, d, run[i], run[i + 1]);
    }
  }

  lemma FlagStep(plan: Plan, a: Analysis, d: DropFlagAnalysis, x: FlagConfig, y: FlagConfig)
    requires Accepted(plan, a) && Synthesized(plan, a, d) && FlagMove(plan, a, FlagMap(d.flags), x, y)
    requires ConfigOk(plan, x.at) && Described(plan, a, x.at) && InRange(x.on, |d.flags|)
    ensures ActionMove(plan, d, x, y)
  {
    hide Accepted; hide Synthesized; hide Described; hide Step; hide Move; hide Perform; hide ActionsAt; hide FlagMap;
    hide UpdateFlags; hide StateBefore; hide IsForest; hide InRange;
    DescribedIsReached(plan, a, x.at);
    if OpMove(plan, x.at, y.at) { PerformedAt(plan, a, d, x.at.block, x.at.index, x.on); }
  }

  lemma SynthesizedCovers(plan: Plan, a: Analysis, d: DropFlagAnalysis)
    requires Accepted(plan, a) && Synthesized(plan, a, d)
    ensures FlagsCover(plan, a, FlagMap(d.flags))
  {
    RootsUnique(plan);
    forall b: nat, j: nat, r: nat |
      b < |plan.blocks| && j < |plan.blocks[b].operations| && plan.blocks[b].operations[j].StorageDead?
      && IsRootOf(plan.movePaths, plan.blocks[b].operations[j].local, r)
      ensures Collect(plan.movePaths, StateBefore(plan, a, b, j), r) <= FlagMap(d.flags).Keys
    {
      assert PathsAt(plan, a, b, j) <= FlagMap(d.flags).Keys;
    }
  }

  /**
   Exactly when the compiled program drops what it should. Run an accepted plan with the
   emitted flag actions, from all flags clear. Whenever a run reaches a `StorageDead`, the
   emitted site drops each complete unit of the local exactly once, and nothing incomplete,
   if and only if the flags it looks at are right about their paths.
   */
  lemma CompiledDropsExact(plan: Plan, a: Analysis, d: DropFlagAnalysis, units: set<nat>, run: seq<FlagConfig>, i: nat,
                           r: nat)
    requires Accepted(plan, a) && Synthesized(plan, a, d) && IsActionRun(plan, d, run) && i < |run|
    requires AtSite(plan, run[i].at, r)
    ensures FlagsCover(plan, a, FlagMap(d.flags))
    ensures var x := run[i].at;
            DropsExact(plan.movePaths, x.memory, units, r, DroppedAt(d, x.block, x.index, run[i].on))
            <==> AllTruthful(plan.movePaths, x.memory, units, FlagMap(d.flags), run[i].on,
                             ConsultedAt(plan, a, FlagMap(d.flags), run[i], r))
  {
    var x := run[i].at;
    ActionRunIsFlagRun(plan, a, d, run);
    SynthesizedCovers(plan, a, d);
    RootsUnique(plan);
    DropExactness(plan, a, units, FlagMap(d.flags), run, i, r);
    SitesInPlace(plan, a, d, x.block, x.index);
  }

  /** One wrong flag that the site looks at is enough for it to drop the wrong things. */
  lemma WrongFlag(plan: Plan, a: Analysis, d: DropFlagAnalysis, units: set<nat>, run: seq<FlagConfig>, i: nat, r: nat,
                  q: nat)
    requires Accepted(plan, a) && Synthesized(plan, a, d) && IsFlagRun(plan, a, FlagMap(d.flags), run) && i < |run|
    requires AtSite(plan, run[i].at, r) && FlagsCover(plan, a, FlagMap(d.flags))
    requires q in ConsultedAt(plan, a, FlagMap(d.flags), run[i], r)
    requires !Truthful(plan.movePaths, run[i].at.memory, units, FlagMap(d.flags), run[i].on, q)
    ensures IsActionRun(plan, d, run)
    ensures !DropsExact(plan.movePaths, run[i].at.memory, units, r,
                        DroppedAt(d, run[i].at.block, run[i].at.index, run[i].on))
    ensures q in FlagMap(d.flags) && FlagMap(d.flags)[q] in run[i].on ==>
              q in DroppedAt(d, run[i].at.block, run[i].at.index, run[i].on)
  {
    hide Accepted; hide Synthesized; hide Described; hide Move; hide FlagMap; hide StateBefore; hide IsForest;
    hide Truthful;
    hide DropsExact; hide FlagsCover; hide IsFlagRun; hide IsActionRun; hide Collect;
    AcceptedShape(plan, a);
    var x := run[i].at;
    var flags := FlagMap(d.flags);
    ActionRunsAreFlagRuns(plan, a, d, run);
    CompiledDropsExact(plan, a, d, units, run, i, r);
    if q in flags && flags[q] in run[i].on {
      SetIsDropped(plan.movePaths, StateBefore(plan, a, x.block, x.index), r, flags, run[i].on, q);
      RootsUnique(plan);
      SitesInPlace(plan, a, d, x.block, x.index);
    }
  }

  /**
   So a local is dropped exactly at every `StorageDead` on every run if, wherever a run can
   get, what comes next keeps each of its flags truthful, by the conditions of `KeepsAt`.
   */
  lemma CompiledDropsKept(plan: Plan, a: Analysis, d: DropFlagAnalysis, units: set<nat>, run: seq<FlagConfig>, i: nat,
                          r: nat)
    requires Accepted(plan, a) && Synthesized(plan, a, d) && IsActionRun(plan, d, run) && i < |run|
    requires AtSite(plan, run[i].at, r)
    requires forall q | q in FlagMap(d.flags) && q in LocalPaths(plan.movePaths, LocalOf(plan.movePaths, r)) ::
               AlwaysKept(plan, a, units, FlagMap(d.flags), q)
    ensures var x := run[i].at;
            DropsExact(plan.movePaths, x.memory, units, r, DroppedAt(d, x.block, x.index, run[i].on))
  {
    FlagMapFacts(d.flags);
    ActionRunIsFlagRun(plan, a, d, run);
    CompiledDropsExact(plan, a, d, units, run, i, r);
    KeptDropsExact(plan, a, units, FlagMap(d.flags), run, i, r);
  }

  /**
   In particular, a local whose flags every write settles, by the computed states, and that no
   edge leaves behind possibly initialized, is dropped exactly at every `StorageDead` on every
   run. Paths within enum variants are covered.
   */
  lemma SettledDropsExact(plan: Plan, a: Analysis, d: DropFlagAnalysis, units: set<nat>, run: seq<FlagConfig>, i: nat,
                          r: nat)
    requires Accepted(plan, a) && Synthesized(plan, a, d) && IsActionRun(plan, d, run) && i < |run|
    requires AtSite(plan, run[i].at, r)
    requires var local := LocalOf(plan.movePaths, r);
             SettledFlags(plan, a, units, FlagMap(d.flags), local)
             && QuietEdges(plan, a, FlagMap(d.flags), local)
    ensures var x := run[i].at;
            DropsExact(plan.movePaths, x.memory, units, r, DroppedAt(d, x.block, x.index, run[i].on))
  {
    var flags, local := FlagMap(d.flags), LocalOf(plan.movePaths, r);
    FlagMapFacts(d.flags);
    forall q | q in flags && q in LocalPaths(plan.movePaths, local) ensures AlwaysKept(plan, a, units, flags, q) {
      SettledRuns(plan, a, units, flags, local, q);
      TruthfulRuns(plan, a, units, flags, q);
    }
    CompiledDropsKept(plan, a, d, units, run, i, r);
  }

  /**
   For instance, take a local none of whose flagged paths projects through a variant or may
   be initialized when an edge ends the local's storage, and whose flagged units have no
   parts (true of all leaves). It is dropped exactly at every `StorageDead` on every run.
   */
  lemma DirectDropsExact(plan: Plan, a: Analysis, d: DropFlagAnalysis, units: set<nat>, run: seq<FlagConfig>, i: nat,
                         r: nat)
    requires Accepted(plan, a) && Synthesized(plan, a, d) && IsActionRun(plan, d, run) && i < |run|
    requires AtSite(plan, run[i].at, r)
    requires var local := LocalOf(plan.movePaths, r);
             DirectFlags(plan.movePaths, units, FlagMap(d.flags), local)
             && QuietEdges(plan, a, FlagMap(d.flags), local)
    ensures var x := run[i].at;
            DropsExact(plan.movePaths, x.memory, units, r, DroppedAt(d, x.block, x.index, run[i].on))
  {
    DirectFlagsSettled(plan, a, units, FlagMap(d.flags), LocalOf(plan.movePaths, r));
    SettledDropsExact(plan, a, d, units, run, i, r);
  }

  /** No `StorageDead` on any run of an accepted plan is left out. */
  lemma EverySiteDecided(plan: Plan, a: Analysis, d: DropFlagAnalysis, units: set<nat>, run: seq<FlagConfig>, i: nat)
    returns (r: nat)
    requires Accepted(plan, a) && Synthesized(plan, a, d) && IsActionRun(plan, d, run) && i < |run|
    requires ConfigOk(plan, run[i].at) && run[i].at.index < |plan.blocks[run[i].at.block].operations|
    requires plan.blocks[run[i].at.block].operations[run[i].at.index].StorageDead?
    ensures AtSite(plan, run[i].at, r) && FlagsCover(plan, a, FlagMap(d.flags))
    ensures var x := run[i].at;
            DropsExact(plan.movePaths, x.memory, units, r, DroppedAt(d, x.block, x.index, run[i].on))
            <==> AllTruthful(plan.movePaths, x.memory, units, FlagMap(d.flags), run[i].on,
                             ConsultedAt(plan, a, FlagMap(d.flags), run[i], r))
  {
    r := EverySite(plan, run[i].at);
    hide *;
    CompiledDropsExact(plan, a, d, units, run, i, r);
  }

  /** A local has one root path only. */
  lemma RootsUnique(plan: Plan)
    requires IsForest(plan.movePaths)
    ensures forall l, r: nat | IsRootOf(plan.movePaths, l, r) :: LocalRoot(plan.movePaths, l) == Some(r)
  {
    var f := plan.movePaths;
    forall l, r: nat | IsRootOf(f, l, r) ensures LocalRoot(f, l) == Some(r) {
      RootSubtree(f, r);
      var other := LocalRoot(f, l).value;
      assert other in Subtree(f, r);
    }
  }
}
