/** The loops that build a `MovePathTopology` and compare two of its subtrees. */
module TopologyBuilder {
  import opened Wrappers
  import opened CleanupPlan
  import opened Sequences
  import opened MovePaths
  import opened Topologies
  import opened Checks

  /**
   Children are pushed while scanning the paths by identity, so the lists come out in
   identity order already and the source's sort leaves them as they are.
   */
  method LinkPaths(f: Forest, locals: nat)
    returns (children: seq<seq<MovePathId>>, roots: seq<Option<MovePathId>>)
    requires forall p: nat | p < |f| :: LocalOf(f, p) < locals
    ensures ChildrenAgree(f, children)
    ensures RootsAgree(f, locals, roots)
  {
    children := seq(|f|, _ => []);
    roots := seq(locals, _ => None);
    for i := 0 to |f|
      invariant |children| == |f| && forall p: nat | p < |f| :: children[p] == KidSeq(f, p, i)
      invariant |roots| == locals
      invariant forall l: nat | l < locals && roots[l].Some? ::
          roots[l].value < |f| && f[roots[l].value].parent == None && LocalOf(f, roots[l].value) == l
      invariant forall p: nat | p < i && f[p].parent == None :: roots[LocalOf(f, p)].Some?
    {
      assert f[i].id == i && LocalOf(f, i) < locals;
      match f[i].parent
      case Some(parent) =>
        ParentFacts(f, i);
        children := children[parent := children[parent] + [f[i].id]];
      case None =>
        roots := roots[f[i].place.local := Some(f[i].id)];
    }
  }

  lemma PairInserted(s: seq<(nat, MovePathId)>, k: nat, x: (nat, MovePathId))
    requires forall i, j | 0 <= i < j < |s| :: s[i].0 < s[j].0
    requires k <= |s| && (forall i | 0 <= i < k :: s[i].0 < x.0) && forall i | k <= i < |s| :: x.0 < s[i].0
    ensures var r := s[..k] + [x] + s[k..]; forall i, j | 0 <= i < j < |r| :: r[i].0 < r[j].0
  {
    var r := s[..k] + [x] + s[k..];
    forall i, j | 0 <= i < j < |r| ensures r[i].0 < r[j].0 {
      assert r[i] == if i < k then s[i] else if i == k then x else s[i - 1];
      assert r[j] == if j < k then s[j] else if j == k then x else s[j - 1];
    }
  }

  lemma PairInsertedMembers(s: seq<(nat, MovePathId)>, k: nat, x: (nat, MovePathId))
    requires k <= |s|
    ensures forall y :: y in s[..k] + [x] + s[k..] <==> y in s || y == x
  {
    assert s == s[..k] + s[k..];
  }

  method SortByVariant(pairs: seq<(nat, MovePathId)>) returns (sorted: seq<(nat, MovePathId)>)
    requires forall i, j | 0 <= i < j < |pairs| :: pairs[i].0 != pairs[j].0
    ensures forall i, j | 0 <= i < j < |sorted| :: sorted[i].0 < sorted[j].0
    ensures forall x :: x in sorted <==> x in pairs
  {
    sorted := [];
    for i := 0 to |pairs|
      invariant forall a, b | 0 <= a < b < |sorted| :: sorted[a].0 < sorted[b].0
      invariant forall x :: x in sorted <==> x in pairs[..i]
    {
      var j := 0;
      while j < |sorted| && sorted[j].0 < pairs[i].0
        invariant 0 <= j <= |sorted|
        invariant forall a | 0 <= a < j :: sorted[a].0 < pairs[i].0
      {
        j := j + 1;
      }
      forall a | j <= a < |sorted| ensures pairs[i].0 < sorted[a].0 {
        assert sorted[j].0 <= sorted[a].0 && sorted[a] in pairs[..i];
      }
      PairInserted(sorted, j, pairs[i]);
      PairInsertedMembers(sorted, j, pairs[i]);
      sorted := sorted[..j] + [pairs[i]] + sorted[j..];
      assert pairs[..i + 1] == pairs[..i] + [pairs[i]];
    }
    assert pairs[..|pairs|] == pairs;
  }

  /** Each child with the variant it stands for. */
  ghost predicate PairsOf(f: Forest, children: seq<MovePathId>, variants: seq<(nat, MovePathId)>) {
    |variants| == |children| && forall i | 0 <= i < |variants| :: variants[i] == (Variant(f, children[i]), children[i])
  }

  lemma PairsDistinct(f: Forest, p: nat, variants: seq<(nat, MovePathId)>)
    requires IsEnum(f, p) && PairsOf(f, Children(f, p), variants)
    ensures forall i, j | 0 <= i < j < |variants| :: variants[i].0 != variants[j].0
  {
    var children := Children(f, p);
    forall i, j | 0 <= i < j < |variants| ensures variants[i].0 != variants[j].0 {
      assert children[i] in children && children[j] in children;
      if variants[i].0 == variants[j].0 { VariantInjective(f, p, children[i], children[j]); }
    }
  }

  lemma SortedAgree(f: Forest, p: nat, variants: seq<(nat, MovePathId)>, sorted: seq<(nat, MovePathId)>)
    requires IsEnum(f, p) && PairsOf(f, Children(f, p), variants)
    requires forall i, j | 0 <= i < j < |sorted| :: sorted[i].0 < sorted[j].0
    requires forall x :: x in sorted <==> x in variants
    ensures VariantsAgree(f, p, sorted)
  {
    var children := Children(f, p);
    forall i | 0 <= i < |sorted|
      ensures sorted[i].1 in Kids(f, p) && IsDowncast(f, sorted[i].1) && sorted[i].0 == Variant(f, sorted[i].1)
    {
      assert sorted[i] in variants;
      var a :| 0 <= a < |variants| && variants[a] == sorted[i];
      assert children[a] in children;
      KidsAgree(f, p, children[a]);
    }
    forall k | k in Kids(f, p) ensures (Variant(f, k), k) in sorted {
      assert k in children;
      var a :| 0 <= a < |children| && children[a] == k;
      assert variants[a] == (Variant(f, k), k);
    }
  }

  method VariantPairs(f: Forest, p: nat, children: seq<MovePathId>) returns (variants: seq<(nat, MovePathId)>)
    requires children == Children(f, p)
    ensures if IsEnum(f, p) then PairsOf(f, children, variants) else variants == []
  {
    variants := [];
    for i := 0 to |children|
      invariant IsEnum(f, p) ==> PairsOf(f, children[..i], variants)
      invariant !IsEnum(f, p) ==> variants == []
    {
      var child := children[i];
      assert child in children;
      ParentFacts(f, child);
      KidsAgree(f, p, child);
      assert children[..i + 1] == children[..i] + [child];
      if IsDowncast(f, child) {
        variants := variants + [(Last(f, child).variant, child)];
      }
    }
    assert children[..|children|] == children;
  }

  lemma LeafOrNot(f: Forest, p: nat)
    ensures IsLeaf(f, p) <==> Children(f, p) == []
  {
    assert forall k | k in Kids(f, p) :: k in Children(f, p);
    if Children(f, p) != [] { assert Children(f, p)[0] in Kids(f, p); }
  }

  /** The completion rule of one path, from its children. */
  method CompletionOf(f: Forest, p: nat, children: seq<MovePathId>) returns (rule: CompletionRule)
    requires children == Children(f, p)
    ensures RuleAgrees(f, p, rule)
  {
    LeafOrNot(f, p);
    hide Kids; hide IsLeaf; hide IsEnum; hide Children; hide VariantsAgree;
    if children == [] {
      return Explicit;
    }
    var variants := VariantPairs(f, p, children);
    if |variants| == |children| {
      PairsDistinct(f, p, variants);
      var sorted := SortByVariant(variants);
      SortedAgree(f, p, variants, sorted);
      rule := EnumRoot(sorted);
    } else {
      rule := AllChildren;
    }
  }

  method CompletionRules(f: Forest, children: seq<seq<MovePathId>>) returns (completion: seq<CompletionRule>)
    requires ChildrenAgree(f, children)
    ensures |completion| == |f| && forall p: nat | p < |f| :: RuleAgrees(f, p, completion[p])
  {
    completion := [];
    for p := 0 to |f|
      invariant |completion| == p && forall q: nat | q < p :: RuleAgrees(f, q, completion[q])
    {
      var rule := CompletionOf(f, p, children[p]);
      completion := completion + [rule];
    }
  }

  method DiscriminantSlots(f: Forest, completion: seq<CompletionRule>) returns (slots: seq<Option<nat>>, count: nat)
    requires |completion| == |f| && forall p: nat | p < |f| :: RuleAgrees(f, p, completion[p])
    ensures SlotsAgree(f, slots, count)
  {
    slots, count := [], 0;
    for p := 0 to |f|
      invariant |slots| == p && count == EnumCount(f, p)
      invariant forall q: nat | q < p :: slots[q] == if IsEnum(f, q) then Some(EnumCount(f, q)) else None
    {
      if completion[p].EnumRoot? {
        slots, count := slots + [Some(count)], count + 1;
      } else {
        slots := slots + [None];
      }
    }
  }

  /* ----- the preorder walk ----- */

  /** What the entries of the walk's stack, last first, still contribute. */
  ghost function Pending(f: Forest, stack: seq<(MovePathId, bool)>): seq<nat> {
    if stack == [] then []
    else
      var n := |stack| - 1;
      (if stack[n].1 then [] else Preorder(f, stack[n].0)) + Pending(f, stack[..n])
  }

  /** The children `ks` as they are pushed: last child first, to be entered. */
  function Entries(ks: seq<MovePathId>): seq<(MovePathId, bool)> {
    if ks == [] then [] else Entries(ks[1..]) + [(ks[0], false)]
  }

  lemma {:induction false} PendingKids(f: Forest, p: nat, stack: seq<(MovePathId, bool)>, ks: seq<nat>)
    requires forall k | k in ks :: k in Kids(f, p)
    ensures Pending(f, stack + Entries(ks)) == PreorderAll(f, p, ks) + Pending(f, stack)
    decreases |ks|
  {
    if ks == [] {
      assert stack + [] == stack;
    } else {
      var below := stack + Entries(ks[1..]);
      var entry := (ks[0], false);
      assert stack + Entries(ks) == below + [entry];
      PendingTop(f, below, entry);
      PendingKids(f, p, stack, ks[1..]);
      KidFacts(f, p, ks[0]);
      assert PreorderAll(f, p, ks) == Preorder(f, ks[0]) + PreorderAll(f, p, ks[1..]);
    }
  }

  lemma PendingTop(f: Forest, below: seq<(MovePathId, bool)>, entry: (MovePathId, bool))
    ensures Pending(f, below + [entry]) == (if entry.1 then [] else Preorder(f, entry.0)) + Pending(f, below)
  {
    assert (below + [entry])[..|below|] == below;
  }

  lemma {:induction false} EntriesAreKids(f: Forest, p: nat, ks: seq<nat>, e: (MovePathId, bool))
    requires forall k | k in ks :: k in Kids(f, p)
    requires e in Entries(ks)
    ensures !e.1 && e.0 in Kids(f, p)
    decreases |ks|
  {
    if e != (ks[0], false) { EntriesAreKids(f, p, ks[1..], e); }
  }

  /** Entering a path lists it and stacks its children. */
  lemma EnterPending(f: Forest, base: seq<(MovePathId, bool)>, p: nat)
    ensures Pending(f, base + [(p, false)]) == [p] + Pending(f, base + [(p, true)] + Entries(Children(f, p)))
  {
    var ks := Children(f, p);
    var below, rest := PreorderAll(f, p, ks), Pending(f, base);
    assert Preorder(f, p) == [p] + below;
    hide *;
    PendingTop(f, base, (p, true));
    PendingTop(f, base, (p, false));
    PendingKids(f, p, base + [(p, true)], ks);
    assert [] + rest == rest;
    Associate([p], below, rest);
  }

  lemma Associate<T>(a: seq<T>, b: seq<T>, c: seq<T>)
    ensures (a + b) + c == a + (b + c)
  {
  }

  /** An entered path: its traversal is what was listed since, and what is still stacked above it. */
  ghost predicate OpenOk(f: Forest, paths: seq<nat>, index: seq<nat>, stack: seq<(MovePathId, bool)>, i: nat)
    requires i < |stack|
  {
    stack[i].1 ==>
      && stack[i].0 < |index| && index[stack[i].0] < |paths|
      && Preorder(f, stack[i].0) == paths[index[stack[i].0]..] + Pending(f, stack[i + 1..])
  }

  ghost predicate Closed(f: Forest, paths: seq<nat>, index: seq<nat>, ends: seq<nat>, q: nat) {
    && q < |index| && q < |ends| && index[q] < ends[q] <= |paths|
    && paths[index[q]..ends[q]] == Preorder(f, q)
  }

  ghost predicate WalkOk(f: Forest, paths: seq<nat>, index: seq<nat>, ends: seq<nat>, stack: seq<(MovePathId, bool)>) {
    && |index| == |f| && |ends| == |f|
    && (forall i | 0 <= i < |stack| :: stack[i].0 < |f|)
    && (forall i | 0 <= i < |stack| :: OpenOk(f, paths, index, stack, i))
    && (forall q | q in paths && (q, true) !in stack :: Closed(f, paths, index, ends, q))
  }

  lemma OpenIsListed(f: Forest, paths: seq<nat>, index: seq<nat>, stack: seq<(MovePathId, bool)>, i: nat)
    requires i < |stack| && stack[i].1 && OpenOk(f, paths, index, stack, i)
    ensures paths[index[stack[i].0]] == stack[i].0 && stack[i].0 in paths
  {
    assert Preorder(f, stack[i].0)[0] == stack[i].0;
  }

  /** The walk so far, and what its stack still contributes. */
  ghost predicate Walking(f: Forest, total: seq<nat>, paths: seq<nat>, index: seq<nat>, ends: seq<nat>,
                          stack: seq<(MovePathId, bool)>)
  {
    WalkOk(f, paths, index, ends, stack) && total == paths + Pending(f, stack)
  }

  lemma OpenBelow(f: Forest, paths: seq<nat>, index: seq<nat>, base: seq<(MovePathId, bool)>, p: nat, i: nat)
    requires i < |base| && OpenOk(f, paths, index, base + [(p, true)], i)
    ensures OpenOk(f, paths, index, base, i)
  {
    hide Pending; hide Preorder; hide IsForest; hide Kids;
    assert (base + [(p, true)])[i + 1..] == base[i + 1..] + [(p, true)];
    PendingTop(f, base[i + 1..], (p, true));
  }

  lemma Leave(f: Forest, total: seq<nat>, paths: seq<nat>, index: seq<nat>, ends: seq<nat>,
              base: seq<(MovePathId, bool)>, p: nat)
    requires Walking(f, total, paths, index, ends, base + [(p, true)])
    ensures p < |ends| && Walking(f, total, paths, index, ends[p := |paths|], base)
  {
    var before := base + [(p, true)];
    assert before[|base|] == (p, true);
    var ends' := ends[p := |paths|];
    forall i | 0 <= i < |base| ensures base[i].0 < |f| && OpenOk(f, paths, index, base, i) {
      assert before[i] == base[i];
      OpenBelow(f, paths, index, base, p, i);
    }
    forall q | q in paths && (q, true) !in base ensures Closed(f, paths, index, ends', q) {
      if q == p {
        assert OpenOk(f, paths, index, before, |base|) && before[|base| + 1..] == [];
        assert paths[index[p]..] == paths[index[p]..|paths|];
      } else {
        assert Closed(f, paths, index, ends, q);
      }
    }
    PendingTop(f, base, (p, true));
  }

  lemma EnterBelow(f: Forest, paths: seq<nat>, index: seq<nat>, base: seq<(MovePathId, bool)>, p: nat, i: nat)
    requires p < |index| && p !in paths
    requires i < |base| && OpenOk(f, paths, index, base + [(p, false)], i)
    ensures OpenOk(f, paths + [p], index[p := |paths|], base + [(p, true)] + Entries(Children(f, p)), i)
  {
    var before, after := base + [(p, false)], base + [(p, true)] + Entries(Children(f, p));
    hide Pending; hide Preorder; hide Entries; hide Children; hide IsForest;
    assert before[i] == after[i] == base[i];
    if base[i].1 {
      var q := base[i].0;
      OpenIsListed(f, paths, index, before, i);
      var above := base[i + 1..];
      assert before[i + 1..] == above + [(p, false)];
      assert after[i + 1..] == above + [(p, true)] + Entries(Children(f, p));
      var listed := paths[index[q]..];
      assert (paths + [p])[index[q]..] == listed + [p];
      EnterPending(f, above, p);
      Associate(listed, [p], Pending(f, after[i + 1..]));
    }
  }

  lemma EnterOwn(f: Forest, paths: seq<nat>, index: seq<nat>, base: seq<(MovePathId, bool)>, p: nat)
    requires p < |index|
    ensures OpenOk(f, paths + [p], index[p := |paths|], base + [(p, true)] + Entries(Children(f, p)), |base|)
  {
    var after := base + [(p, true)] + Entries(Children(f, p));
    PendingKids(f, p, [], Children(f, p));
    assert after[|base| + 1..] == [] + Entries(Children(f, p));
    assert (paths + [p])[|paths|..] == [p];
  }

  lemma EnterIsNew(f: Forest, total: seq<nat>, paths: seq<nat>, base: seq<(MovePathId, bool)>, p: nat)
    requires Distinct(total) && total == paths + Pending(f, base + [(p, false)])
    ensures |paths| < |total| && p !in paths
    ensures total == (paths + [p]) + Pending(f, base + [(p, true)] + Entries(Children(f, p)))
  {
    EnterPending(f, base, p);
    assert total[|paths|] == p;
    assert forall i | 0 <= i < |paths| :: total[i] == paths[i];
  }

  lemma EnterOpen(f: Forest, paths: seq<nat>, index: seq<nat>, ends: seq<nat>, base: seq<(MovePathId, bool)>, p: nat,
                  i: nat)
    requires WalkOk(f, paths, index, ends, base + [(p, false)]) && p < |index| && p !in paths
    requires i < |base + [(p, true)] + Entries(Children(f, p))|
    ensures var after := base + [(p, true)] + Entries(Children(f, p));
            after[i].0 < |f| && OpenOk(f, paths + [p], index[p := |paths|], after, i)
  {
    var before, after := base + [(p, false)], base + [(p, true)] + Entries(Children(f, p));
    if i < |base| {
      assert before[i] == after[i];
      assert OpenOk(f, paths, index, before, i);
      EnterBelow(f, paths, index, base, p, i);
    } else if i == |base| {
      EnterOwn(f, paths, index, base, p);
    } else {
      EntriesAreKids(f, p, Children(f, p), after[i]);
      KidFacts(f, p, after[i].0);
    }
  }

  lemma EnterClosed(f: Forest, paths: seq<nat>, index: seq<nat>, ends: seq<nat>, p: nat, q: nat)
    requires Closed(f, paths, index, ends, q) && p < |index| && q != p
    ensures Closed(f, paths + [p], index[p := |paths|], ends, q)
  {
    assert (paths + [p])[index[q]..ends[q]] == paths[index[q]..ends[q]];
  }

  lemma EnterClosedAll(f: Forest, paths: seq<nat>, index: seq<nat>, ends: seq<nat>, base: seq<(MovePathId, bool)>,
                       p: nat)
    requires WalkOk(f, paths, index, ends, base + [(p, false)]) && p < |index| && p !in paths
    ensures var after := base + [(p, true)] + Entries(Children(f, p));
            forall q | q in paths + [p] && (q, true) !in after :: Closed(f, paths + [p], index[p := |paths|], ends, q)
  {
    var before, after := base + [(p, false)], base + [(p, true)] + Entries(Children(f, p));
    assert after[|base|] == (p, true);
    assert forall e | e in base :: e in after;
    hide Closed; hide OpenOk; hide Entries; hide Children;
    forall q | q in paths + [p] && (q, true) !in after
      ensures Closed(f, paths + [p], index[p := |paths|], ends, q)
    {
      assert q != p && q in paths && (q, true) !in before;
      EnterClosed(f, paths, index, ends, p, q);
    }
  }

  lemma Enter(f: Forest, total: seq<nat>, paths: seq<nat>, index: seq<nat>, ends: seq<nat>,
              base: seq<(MovePathId, bool)>, p: nat)
    requires Walking(f, total, paths, index, ends, base + [(p, false)]) && Distinct(total)
    ensures |paths| < |total| && p < |index|
    ensures Walking(f, total, paths + [p], index[p := |paths|], ends, base + [(p, true)] + Entries(Children(f, p)))
  {
    hide OpenOk; hide Closed; hide Pending; hide Entries; hide Children; hide Distinct; hide IsForest;
    var before, after := base + [(p, false)], base + [(p, true)] + Entries(Children(f, p));
    assert before[|base|] == (p, false) && after[|base|] == (p, true);
    EnterIsNew(f, total, paths, base, p);
    var paths', index' := paths + [p], index[p := |paths|];
    EnterClosedAll(f, paths, index, ends, base, p);
    forall i | 0 <= i < |after| ensures after[i].0 < |f| && OpenOk(f, paths', index', after, i) {
      EnterOpen(f, paths, index, ends, base, p, i);
    }
  }

  /** One root's traversal, with an explicit stack of paths to enter and to leave. */
  method WalkRoot(f: Forest, children: seq<seq<MovePathId>>, root: nat,
                  paths0: seq<nat>, index0: seq<nat>, ends0: seq<nat>)
    returns (paths: seq<nat>, index: seq<nat>, ends: seq<nat>)
    requires ChildrenAgree(f, children)
    requires root < |f| && |index0| == |f| && |ends0| == |f|
    requires Distinct(paths0 + Preorder(f, root))
    requires forall q | q in paths0 :: Closed(f, paths0, index0, ends0, q)
    ensures |index| == |f| && |ends| == |f|
    ensures paths == paths0 + Preorder(f, root)
    ensures forall q | q in paths :: Closed(f, paths, index, ends, q)
  {
    paths, index, ends := paths0, index0, ends0;
    var stack := [(root, false)];
    ghost var total := paths0 + Preorder(f, root);
    assert Pending(f, []) == [];
    PendingTop(f, [], (root, false));
    assert [] + [(root, false)] == stack;
    while stack != []
      invariant Walking(f, total, paths, index, ends, stack)
      decreases |total| - |paths|, |stack|
    {
      var n := |stack| - 1;
      var (path, exiting) := stack[n];
      assert stack == stack[..n] + [(path, exiting)];
      stack := stack[..n];
      if exiting {
        Leave(f, total, paths, index, ends, stack, path);
        ends := ends[path := |paths|];
      } else {
        Enter(f, total, paths, index, ends, stack, path);
        index := index[path := |paths|];
        paths := paths + [path];
        stack := stack + [(path, true)];
        stack := PushChildren(stack, children[path]);
      }
    }
  }

  /** The walk's inner loop: children go on the stack in reverse. */
  method PushChildren(stack: seq<(MovePathId, bool)>, ks: seq<MovePathId>) returns (pushed: seq<(MovePathId, bool)>)
    ensures pushed == stack + Entries(ks)
  {
    pushed := stack;
    var i := |ks|;
    while 0 < i
      invariant 0 <= i <= |ks| && pushed == stack + Entries(ks[i..])
    {
      i := i - 1;
      assert ks[i..][1..] == ks[i + 1..];
      pushed := pushed + [(ks[i], false)];
    }
    assert ks[0..] == ks;
  }

  /** All roots are walked, local by local. */
  method IndexPaths(f: Forest, locals: nat, children: seq<seq<MovePathId>>, roots: seq<Option<MovePathId>>)
    returns (paths: seq<nat>, index: seq<nat>, ends: seq<nat>)
    requires ChildrenAgree(f, children)
    requires RootsAgree(f, locals, roots)
    requires forall p: nat | p < |f| :: LocalOf(f, p) < locals
    ensures |paths| == |f| && Distinct(paths) && |index| == |f| && |ends| == |f|
    ensures forall p: nat | p < |f| :: Closed(f, paths, index, ends, p)
  {
    paths, index, ends := [], seq(|f|, _ => 0), seq(|f|, _ => 0);
    for l := 0 to locals
      invariant |index| == |f| && |ends| == |f| && Distinct(paths)
      invariant forall q: nat :: q in paths <==> q < |f| && LocalOf(f, q) < l
      invariant forall q | q in paths :: Closed(f, paths, index, ends, q)
    {
      match roots[l]
      case Some(root) =>
        PreorderIsSubtree(f, root);
        RootSubtree(f, root);
        DistinctConcat(paths, Preorder(f, root));
        paths, index, ends := WalkRoot(f, children, root, paths, index, ends);
      case None =>
        forall q: nat | q < |f| ensures LocalOf(f, q) != l { var r := RootOf(f, q); }
    }
    DistinctLength(paths, |f|);
  }

  /** `MovePathTopology::new`. */
  method New(f: Forest, locals: nat) returns (t: Topology)
    requires forall p: nat | p < |f| :: LocalOf(f, p) < locals
    ensures Agrees(f, locals, t)
  {
    var children, roots := LinkPaths(f, locals);
    var completion := CompletionRules(f, children);
    var slots, count := DiscriminantSlots(f, completion);
    var paths, index, ends := IndexPaths(f, locals, children, roots);
    t := Topology(children, completion, slots, count, roots, paths, index, ends);
    forall p: nat | p < |f|
      ensures index[p] < ends[p] <= |f| && paths[index[p]..ends[p]] == Preorder(f, p)
    {
      assert Closed(f, paths, index, ends, p);
    }
  }

  /* ----- comparing the two ends of a transfer ----- */

  ghost function Weight(f: Forest, pairs: seq<(MovePathId, MovePathId)>): nat {
    if pairs == [] then 0 else |Preorder(f, pairs[|pairs| - 1].0)| + Weight(f, pairs[..|pairs| - 1])
  }

  ghost predicate PairsMatch(f: Forest, pairs: seq<(MovePathId, MovePathId)>) {
    forall i | 0 <= i < |pairs| :: ShapesMatch(f, pairs[i].0, pairs[i].1)
  }

  method IsCallableEnvironment(f: Forest, p: nat, children: seq<MovePathId>) returns (r: bool)
    requires children == Children(f, p)
    ensures r <==> IsEnvironment(f, p)
  {
    if children == [] {
      assert forall k | k in Kids(f, p) :: k in children;
      return false;
    }
    assert children[0] in Kids(f, p);
    for i := 0 to |children|
      invariant forall a | 0 <= a < i :: IsCapture(f, children[a])
    {
      assert children[i] in Kids(f, p);
      KidLabel(f, p, children[i]);
      if !Last(f, children[i]).Capture? {
        return false;
      }
    }
    return true;
  }

  /** The destination's children by their final projection. */
  method ByProjection(f: Forest, d: nat, children: seq<MovePathId>) returns (m: map<Projection, MovePathId>)
    requires children == Children(f, d)
    ensures Partners(f, d, m)
  {
    m := map[];
    for i := 0 to |children|
      invariant forall a | 0 <= a < i :: Label(f, children[a]).Some? && Label(f, children[a]).value in m
      invariant forall x | x in m :: m[x] in Kids(f, d) && Label(f, m[x]) == Some(x)
    {
      assert children[i] in Kids(f, d);
      KidLabel(f, d, children[i]);
      m := m[Last(f, children[i]) := children[i]];
    }
  }

  ghost predicate Partners(f: Forest, d: nat, m: map<Projection, MovePathId>) {
    && (forall k | k in Kids(f, d) :: Label(f, k).Some? && Label(f, k).value in m)
    && (forall x | x in m :: m[x] in Kids(f, d) && Label(f, m[x]) == Some(x))
  }

  lemma {:induction false} PreorderAllWeight(f: Forest, p: nat, ks: seq<nat>, pairs: seq<(MovePathId, MovePathId)>)
    requires forall k | k in ks :: k in Kids(f, p)
    requires |pairs| == |ks| && forall i | 0 <= i < |ks| :: pairs[i].0 == ks[i]
    ensures Weight(f, pairs) == |PreorderAll(f, p, ks)|
    decreases |ks|
  {
    if ks != [] {
      var n := |ks| - 1;
      PreorderAllWeight(f, p, ks[..n], pairs[..n]);
      PreorderAllAppend(f, p, ks[..n], ks[n]);
      assert ks == ks[..n] + [ks[n]];
    }
  }

  lemma {:induction false} WeightConcat(f: Forest, a: seq<(MovePathId, MovePathId)>, b: seq<(MovePathId, MovePathId)>)
    ensures Weight(f, a + b) == Weight(f, a) + Weight(f, b)
    decreases |b|
  {
    if b == [] {
      assert a + b == a;
    } else {
      assert (a + b)[..|a + b| - 1] == a + b[..|b| - 1];
      WeightConcat(f, a, b[..|b| - 1]);
    }
  }

  ghost predicate Unpartnered(f: Forest, destination: nat, k: nat) {
    forall kd | kd in Kids(f, destination) :: Label(f, kd) != Label(f, k)
  }

  /** Each child of `s`, in order, beside a child of `d` with the same label. */
  ghost predicate Paired(f: Forest, s: nat, d: nat, n: nat, pairs: seq<(MovePathId, MovePathId)>) {
    && |pairs| == n <= |Children(f, s)|
    && forall i | 0 <= i < n ::
         pairs[i].0 == Children(f, s)[i] && pairs[i].1 in Kids(f, d) && Label(f, pairs[i].0) == Label(f, pairs[i].1)
  }

  method PairChildren(f: Forest, source: nat, destination: nat, sourceChildren: seq<MovePathId>,
                      byProjection: map<Projection, MovePathId>)
    returns (pairs: seq<(MovePathId, MovePathId)>, complete: bool)
    requires sourceChildren == Children(f, source) && Partners(f, destination, byProjection)
    ensures complete ==> Paired(f, source, destination, |sourceChildren|, pairs)
    ensures !complete ==> exists k :: k in Kids(f, source) && Unpartnered(f, destination, k)
  {
    pairs := [];
    for i := 0 to |sourceChildren|
      invariant Paired(f, source, destination, i, pairs)
    {
      var child := sourceChildren[i];
      assert child in Kids(f, source);
      KidLabel(f, source, child);
      if Last(f, child) !in byProjection {
        assert Unpartnered(f, destination, child);
        return pairs, false;
      }
      pairs := pairs + [(child, byProjection[Last(f, child)])];
    }
    complete := true;
  }

  lemma MatchedPairs(f: Forest, s: nat, d: nat, pairs: seq<(MovePathId, MovePathId)>)
    requires !IsEnvironment(f, s) && !IsEnvironment(f, d) && ShapesMatch(f, s, d)
    requires Paired(f, s, d, |Children(f, s)|, pairs)
    ensures PairsMatch(f, pairs)
  {
    forall i | 0 <= i < |pairs| ensures ShapesMatch(f, pairs[i].0, pairs[i].1) {
      assert pairs[i].0 in Kids(f, s);
      hide ShapesMatch; hide IsEnvironment; hide Label; hide Children;
      var kd := Partner(f, s, d, pairs[i].0);
      LabelInjective(f, d, kd, pairs[i].1);
    }
  }

  /** With a partner for every child, the two trees match exactly when all partners do. */
  lemma PairedMatch(f: Forest, s: nat, d: nat, pairs: seq<(MovePathId, MovePathId)>)
    requires !IsEnvironment(f, s) && !IsEnvironment(f, d) && |Kids(f, s)| == |Kids(f, d)|
    requires Paired(f, s, d, |Children(f, s)|, pairs)
    ensures ShapesMatch(f, s, d) <==> PairsMatch(f, pairs)
  {
    if ShapesMatch(f, s, d) { MatchedPairs(f, s, d, pairs); }
    hide IsEnvironment; hide Label; hide Children;
    if PairsMatch(f, pairs) {
      forall ks | ks in Kids(f, s) ensures exists kd :: kd in Kids(f, d) && KidsMatch(f, s, d, ks, kd) {
        var i :| 0 <= i < |pairs| && Children(f, s)[i] == ks;
        assert KidsMatch(f, s, d, ks, pairs[i].1);
      }
    }
  }

  lemma KidCount(f: Forest, p: nat)
    ensures |Children(f, p)| == |Kids(f, p)|
  {
    var ks := Children(f, p);
    DistinctCard(ks);
    assert Elements(ks) == Kids(f, p);
  }

  lemma PairsConcat(f: Forest, a: seq<(MovePathId, MovePathId)>, b: seq<(MovePathId, MovePathId)>)
    ensures PairsMatch(f, a + b) <==> PairsMatch(f, a) && PairsMatch(f, b)
  {
    assert forall i | 0 <= i < |a| :: (a + b)[i] == a[i];
    assert forall i | 0 <= i < |b| :: (a + b)[|a| + i] == b[i];
  }

  lemma NoPartner(f: Forest, s: nat, d: nat)
    requires !IsEnvironment(f, s) && !IsEnvironment(f, d)
    requires exists k :: k in Kids(f, s) && Unpartnered(f, d, k)
    ensures !ShapesMatch(f, s, d)
  {
    var k :| k in Kids(f, s) && Unpartnered(f, d, k);
    if ShapesMatch(f, s, d) { var kd := Partner(f, s, d, k); assert false; }
  }

  lemma PairedSettles(f: Forest, s: nat, d: nat, pairs: seq<(MovePathId, MovePathId)>)
    requires !IsEnvironment(f, s) && !IsEnvironment(f, d) && |Kids(f, s)| == |Kids(f, d)|
    requires Paired(f, s, d, |Children(f, s)|, pairs)
    ensures ShapesMatch(f, s, d) <==> PairsMatch(f, pairs)
    ensures Weight(f, pairs) < |Preorder(f, s)|
    ensures forall x | x in pairs :: x.0 < |f| && x.1 < |f|
  {
    hide ShapesMatch; hide IsEnvironment; hide IsForest; hide PairsMatch; hide Weight;
    PairedMatch(f, s, d, pairs);
    PreorderAllWeight(f, s, Children(f, s), pairs);
    forall x | x in pairs ensures x.0 < |f| && x.1 < |f| {
      var i :| 0 <= i < |pairs| && pairs[i] == x;
      assert pairs[i].0 in Kids(f, s);
    }
  }

  /** One turn of the loop: the pair is settled, or reduced to its children. */
  method ComparePair(f: Forest, children: seq<seq<MovePathId>>, s: nat, d: nat)
    returns (pairs: seq<(MovePathId, MovePathId)>, possible: bool)
    requires ChildrenAgree(f, children) && s < |f| && d < |f|
    ensures !possible ==> !ShapesMatch(f, s, d)
    ensures possible ==> (ShapesMatch(f, s, d) <==> PairsMatch(f, pairs))
    ensures possible ==> Weight(f, pairs) < |Preorder(f, s)|
    ensures possible ==> forall x | x in pairs :: x.0 < |f| && x.1 < |f|
  {
    var sourceEnvironment := IsCallableEnvironment(f, s, children[s]);
    var destinationEnvironment := IsCallableEnvironment(f, d, children[d]);
    if sourceEnvironment || destinationEnvironment {
      return [], true;
    }
    KidCount(f, s);
    KidCount(f, d);
    if |children[s]| != |children[d]| {
      return [], false;
    }
    var byProjection := ByProjection(f, d, children[d]);
    pairs, possible := PairChildren(f, s, d, children[s], byProjection);
    hide ShapesMatch; hide IsEnvironment; hide Weight; hide PairsMatch; hide Preorder; hide Paired;
    if possible { PairedSettles(f, s, d, pairs); } else { NoPartner(f, s, d); }
  }

  /** `transfer_shapes_match`: an explicit stack of pairs still to compare. */
  method TransferShapesMatch(f: Forest, t: Topology, locals: nat, source: nat, destination: nat) returns (matches: bool)
    requires Agrees(f, locals, t) && source < |f| && destination < |f|
    ensures matches <==> ShapesMatch(f, source, destination)
  {
    var stack: seq<(MovePathId, MovePathId)> := [(source, destination)];
    while stack != []
      invariant forall x | x in stack :: x.0 < |f| && x.1 < |f|
      invariant ShapesMatch(f, source, destination) <==> PairsMatch(f, stack)
      decreases Weight(f, stack)
    {
      var n := |stack| - 1;
      var (s, d) := stack[n];
      assert stack == stack[..n] + [(s, d)];
      PairsConcat(f, stack[..n], [(s, d)]);
      var pairs, possible := ComparePair(f, t.children, s, d);
      assert PairsMatch(f, [(s, d)]) <==> ShapesMatch(f, s, d);
      if !possible {
        return false;
      }
      WeightConcat(f, stack[..n], pairs);
      PairsConcat(f, stack[..n], pairs);
      stack := stack[..n] + pairs;
    }
    matches := true;
  }
}
