/**
 `MovePathTopology`: children in identity order, completion rules, discriminant
 slots, and the preorder index. `New` runs the source's loops; `Agrees` says that the
 index answers exactly what the parent links say.
 */
module Topologies {
  import opened Wrappers
  import opened CleanupPlan
  import opened Sequences
  import opened MovePaths

  datatype CompletionRule = Explicit | AllChildren | EnumRoot(variants: seq<(nat, MovePathId)>)

  datatype Topology = Topology(
    children: seq<seq<MovePathId>>,
    completion: seq<CompletionRule>,
    discriminantIndex: seq<Option<nat>>,
    discriminantCount: nat,
    rootsByLocal: seq<Option<MovePathId>>,
    preorderPaths: seq<MovePathId>,
    preorderIndex: seq<nat>,
    subtreeEnd: seq<nat>)
  {
    function Subtree(path: MovePathId): seq<MovePathId>
      requires path < |preorderIndex| && path < |subtreeEnd|
      requires preorderIndex[path] <= subtreeEnd[path] <= |preorderPaths|
    {
      preorderPaths[preorderIndex[path]..subtreeEnd[path]]
    }

    predicate ContainsPath(ancestor: MovePathId, descendant: MovePathId)
      requires ancestor < |preorderIndex| && ancestor < |subtreeEnd| && descendant < |preorderIndex|
    {
      preorderIndex[ancestor] <= preorderIndex[descendant] < subtreeEnd[ancestor]
    }
  }

  /* ----- reference traversal ----- */

  /** The children of `p` among the first `n` paths, in identity order. */
  function KidSeq(f: seq<MovePath>, p: nat, n: nat): (ks: seq<nat>)
    requires n <= |f|
    ensures forall k | k in ks :: k < n && k in Kids(f, p)
    ensures forall k | k in Kids(f, p) && k < n :: k in ks
    ensures forall i, j | 0 <= i < j < |ks| :: ks[i] < ks[j]
  {
    if n == 0 then []
    else
      var ks := KidSeq(f, p, n - 1);
      assert forall i | 0 <= i < |ks| :: ks[i] in ks;
      if f[n - 1].parent == Some(p) then ks + [n - 1] else ks
  }

  function Children(f: seq<MovePath>, p: nat): (ks: seq<nat>)
    ensures forall k :: k in ks <==> k in Kids(f, p)
    ensures forall i, j | 0 <= i < j < |ks| :: ks[i] < ks[j]
  {
    KidSeq(f, p, |f|)
  }

  function Preorder(f: Forest, p: nat): seq<nat>
    decreases Height(f, p), 1
  {
    [p] + PreorderAll(f, p, Children(f, p))
  }

  function PreorderAll(f: Forest, p: nat, ks: seq<nat>): seq<nat>
    requires forall k | k in ks :: k in Kids(f, p)
    decreases Height(f, p), 0, |ks|
  {
    if ks == [] then []
    else KidFacts(f, p, ks[0]); Preorder(f, ks[0]) + PreorderAll(f, p, ks[1..])
  }

  /** The traversal lists exactly the subtree, each path once. */
  lemma {:induction false} PreorderIsSubtree(f: Forest, p: nat)
    requires p < |f|
    ensures forall q :: q in Preorder(f, p) <==> q in Subtree(f, p)
    ensures Distinct(Preorder(f, p))
    decreases Height(f, p), 1
  {
    var ks := Children(f, p);
    PreorderAllIsSubtrees(f, p, ks);
    forall q | q in Subtree(f, p) ensures q in Preorder(f, p) {
      if q != p { var k := Toward(f, p, q); }
    }
    forall q | q in Preorder(f, p) ensures q in Subtree(f, p) {
      if q in PreorderAll(f, p, ks) {
        var k :| k in ks && q in Subtree(f, k);
        KidFacts(f, p, k);
        WithinTrans(f, p, k, q);
      }
    }
    forall q | q in PreorderAll(f, p, ks) ensures q != p {
      var k :| k in ks && q in Subtree(f, k);
      KidFacts(f, p, k);
      WithinRange(f, k, q);
    }
    DistinctConcat([p], PreorderAll(f, p, ks));
  }

  lemma {:induction false} PreorderAllIsSubtrees(f: Forest, p: nat, ks: seq<nat>)
    requires forall k | k in ks :: k in Kids(f, p)
    requires forall i, j | 0 <= i < j < |ks| :: ks[i] < ks[j]
    ensures forall q :: q in PreorderAll(f, p, ks) <==> exists k :: k in ks && q in Subtree(f, k)
    ensures Distinct(PreorderAll(f, p, ks))
    decreases Height(f, p), 0, |ks|
  {
    if ks != [] {
      KidFacts(f, p, ks[0]);
      PreorderIsSubtree(f, ks[0]);
      PreorderAllIsSubtrees(f, p, ks[1..]);
      var a, b := Preorder(f, ks[0]), PreorderAll(f, p, ks[1..]);
      forall x | x in a ensures x !in b {
        if x in b {
          var k :| k in ks[1..] && x in Subtree(f, k);
          KidsDisjoint(f, p, ks[0], k, x);
        }
      }
      DistinctConcat(a, b);
      forall q ensures q in a + b <==> exists k :: k in ks && q in Subtree(f, k) {
        if k :| k in ks && q in Subtree(f, k) { assert k == ks[0] || k in ks[1..]; }
      }
    }
  }

  lemma {:induction false} PreorderAllAppend(f: Forest, p: nat, ks: seq<nat>, k: nat)
    requires k in Kids(f, p) && forall x | x in ks :: x in Kids(f, p)
    ensures PreorderAll(f, p, ks + [k]) == PreorderAll(f, p, ks) + Preorder(f, k)
    decreases |ks|
  {
    if ks == [] {
      assert ks + [k] == [k] && [k][1..] == [];
    } else {
      var rest := ks[1..];
      assert (ks + [k])[0] == ks[0] && (ks + [k])[1..] == rest + [k];
      assert PreorderAll(f, p, ks) == Preorder(f, ks[0]) + PreorderAll(f, p, rest);
      assert PreorderAll(f, p, ks + [k]) == Preorder(f, ks[0]) + PreorderAll(f, p, rest + [k]);
      hide *;
      PreorderAllAppend(f, p, rest, k);
    }
  }

  /* ----- agreement ----- */

  ghost predicate RootsAgree(f: Forest, locals: nat, roots: seq<Option<MovePathId>>) {
    && |roots| == locals
    && forall l: nat | l < locals ::
         match roots[l]
         case Some(r) => r < |f| && f[r].parent == None && LocalOf(f, r) == l
         case None => forall p: nat | p < |f| :: f[p].parent == None ==> LocalOf(f, p) != l
  }

  ghost predicate VariantsAgree(f: Forest, p: nat, variants: seq<(nat, MovePathId)>) {
    && (forall i, j | 0 <= i < j < |variants| :: variants[i].0 < variants[j].0)
    && (forall i | 0 <= i < |variants| ::
          variants[i].1 in Kids(f, p) && IsDowncast(f, variants[i].1)
          && variants[i].0 == Variant(f, variants[i].1))
    && (forall k | k in Kids(f, p) :: (Variant(f, k), k) in variants)
  }

  /** The payload of a variant, by binary search in the sorted list. */
  method FindVariant(variants: seq<(nat, MovePathId)>, v: nat) returns (found: Option<MovePathId>)
    requires forall i, j | 0 <= i < j < |variants| :: variants[i].0 < variants[j].0
    ensures found.Some? ==> (v, found.value) in variants
    ensures found.None? ==> forall i | 0 <= i < |variants| :: variants[i].0 != v
  {
    var low, high := 0, |variants|;
    while low < high
      invariant 0 <= low <= high <= |variants|
      invariant forall i | 0 <= i < low :: variants[i].0 < v
      invariant forall i | high <= i < |variants| :: v < variants[i].0
    {
      var middle := (low + high) / 2;
      if variants[middle].0 < v {
        low := middle + 1;
      } else if v < variants[middle].0 {
        high := middle;
      } else {
        return Some(variants[middle].1);
      }
    }
    found := None;
  }

  ghost predicate RuleAgrees(f: Forest, p: nat, rule: CompletionRule) {
    match rule
    case Explicit => IsLeaf(f, p)
    case AllChildren => !IsLeaf(f, p) && !IsEnum(f, p)
    case EnumRoot(variants) => IsEnum(f, p) && VariantsAgree(f, p, variants)
  }

  /** The number of enum roots among the first `n` paths. */
  ghost function EnumCount(f: Forest, n: nat): nat {
    if n == 0 then 0 else EnumCount(f, n - 1) + (if IsEnum(f, n - 1) then 1 else 0)
  }

  ghost predicate SlotsAgree(f: Forest, slots: seq<Option<nat>>, count: nat) {
    && |slots| == |f| && count == EnumCount(f, |f|)
    && forall p: nat | p < |f| :: slots[p] == if IsEnum(f, p) then Some(EnumCount(f, p)) else None
  }

  lemma {:induction false} EnumCountGrows(f: Forest, p: nat, q: nat)
    requires p < q
    ensures EnumCount(f, p) <= EnumCount(f, q)
    ensures IsEnum(f, p) ==> EnumCount(f, p) < EnumCount(f, q)
    decreases q
  {
    if p < q - 1 { EnumCountGrows(f, p, q - 1); }
  }

  /** Every slot below the count belongs to one enum root. */
  lemma {:induction false} SlotOwner(f: Forest, n: nat, i: nat) returns (p: nat)
    requires i < EnumCount(f, n)
    ensures p < n && IsEnum(f, p) && EnumCount(f, p) == i
  {
    if i < EnumCount(f, n - 1) { p := SlotOwner(f, n - 1, i); } else { p := n - 1; }
  }

  ghost predicate ChildrenAgree(f: Forest, children: seq<seq<MovePathId>>) {
    |children| == |f| && forall p: nat | p < |f| :: children[p] == Children(f, p)
  }

  ghost predicate IndexAgrees(f: Forest, t: Topology) {
    && |t.preorderIndex| == |f| && |t.subtreeEnd| == |f| && |t.preorderPaths| == |f|
    && Distinct(t.preorderPaths)
    && (forall p: nat | p < |f| ::
          t.preorderIndex[p] < t.subtreeEnd[p] <= |f|
          && t.preorderPaths[t.preorderIndex[p]..t.subtreeEnd[p]] == Preorder(f, p))
  }

  ghost predicate Agrees(f: Forest, locals: nat, t: Topology) {
    && ChildrenAgree(f, t.children)
    && |t.completion| == |f| && (forall p: nat | p < |f| :: RuleAgrees(f, p, t.completion[p]))
    && SlotsAgree(f, t.discriminantIndex, t.discriminantCount)
    && RootsAgree(f, locals, t.rootsByLocal)
    && (forall p: nat | p < |f| :: LocalOf(f, p) < locals)
    && IndexAgrees(f, t)
  }

  lemma SliceMember(s: seq<nat>, lo: nat, hi: nat, pos: nat, x: nat)
    requires Distinct(s) && lo <= hi <= |s| && pos < |s| && s[pos] == x
    ensures x in s[lo..hi] <==> lo <= pos < hi
  {
    if lo <= pos < hi { assert s[lo..hi][pos - lo] == x; }
    if x in s[lo..hi] {
      var j :| 0 <= j < hi - lo && s[lo..hi][j] == x;
      assert s[lo + j] == x;
    }
  }

  lemma IndexPoints(f: Forest, t: Topology, d: nat)
    requires IndexAgrees(f, t) && d < |f|
    ensures t.preorderPaths[t.preorderIndex[d]] == d
  {
    assert t.preorderPaths[t.preorderIndex[d]..t.subtreeEnd[d]][0] == Preorder(f, d)[0] == d;
  }

  /** Slices of the index are subtrees, each path once. */
  lemma SliceIsSubtree(f: Forest, locals: nat, t: Topology, a: nat)
    requires Agrees(f, locals, t) && a < |f|
    ensures forall q :: q in t.Subtree(a) <==> q in Subtree(f, a)
    ensures Distinct(t.Subtree(a))
  {
    PreorderIsSubtree(f, a);
  }

  /** One comparison of positions decides whether one place is a prefix of another. */
  lemma ContainsIsPrefix(f: Forest, locals: nat, t: Topology, a: nat, d: nat)
    requires Agrees(f, locals, t) && a < |f| && d < |f|
    ensures t.ContainsPath(a, d) <==> Within(f, a, d)
    ensures t.ContainsPath(a, d) <==>
            f[a].place.local == f[d].place.local && f[a].place.projections <= f[d].place.projections
  {
    IndexPoints(f, t, d);
    SliceMember(t.preorderPaths, t.preorderIndex[a], t.subtreeEnd[a], t.preorderIndex[d], d);
    SliceIsSubtree(f, locals, t, a);
    WithinIsPrefix(f, a, d);
  }
}
