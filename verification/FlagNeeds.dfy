/**
 Which paths are given a flag, said without the code that collects them: those that some
 drop site looks at, and these are the paths that may or may not be complete there, outside
 of everything that certainly is.
 */
module FlagNeeds {
  import opened Wrappers
  import opened CleanupPlan
  import opened MovePaths
  import opened Topologies
  import opened MoveStates
  import opened Structure
  import opened Runs
  import PlanVerifier
  import opened DropObligations
  import opened Placement
  import opened DropFlagAnalyses

  /* ----- what an obligation tree mentions ----- */

  /** The paths a tree names, each under its condition. */
  function Mentions(obligation: DropObligation): set<(MovePathId, DropCondition)> {
    {(obligation.path, obligation.condition)} + MentionsAll(obligation.childrenWhenClear)
  }

  function MentionsAll(obligations: seq<DropObligation>): set<(MovePathId, DropCondition)> {
    if obligations == [] then {} else Mentions(obligations[0]) + MentionsAll(obligations[1..])
  }

  lemma {:induction false} MentionsConcat(a: seq<DropObligation>, b: seq<DropObligation>)
    ensures MentionsAll(a + b) == MentionsAll(a) + MentionsAll(b)
  {
    if a == [] {
      assert a + b == b;
    } else {
      assert (a + b)[1..] == a[1..] + b;
      MentionsConcat(a[1..], b);
    }
  }

  /** `q` lies within `p`, and nothing from `p` down to `q`, but perhaps `q`, is certainly complete. */
  ghost predicate Exposed(f: Forest, st: State, p: nat, q: nat) {
    && q < |f| && Within(f, p, q)
    && forall a | a in Ancestors(f, q) && Within(f, p, a) :: a !in st.mustInit
  }

  /** How the tree for `p` mentions `q`: at once if it is certainly complete, by flag if it may be. */
  ghost predicate Mentioned(f: Forest, st: State, p: nat, flags: map<MovePathId, DropFlagId>, q: nat,
                            condition: DropCondition) {
    && Exposed(f, st, p, q) && NeedsDrop(f, q)
    && if q in st.mustInit then condition == Static
       else q in st.mayInit && q in flags && condition == Flag(flags[q])
  }

  lemma ExposedStep(f: Forest, st: State, p: nat, k: nat, q: nat)
    requires p < |f| && k in Kids(f, p) && Within(f, k, q) && q < |f|
    ensures Exposed(f, st, p, q) <==> p !in st.mustInit && Exposed(f, st, k, q)
  {
    KidFacts(f, p, k);
    WithinTrans(f, p, k, q);
    WithinRange(f, k, q);
    assert p in Ancestors(f, q);
    forall a | a in Ancestors(f, q) && Within(f, k, a) ensures Within(f, p, a) { WithinTrans(f, p, k, a); }
    forall a | a in Ancestors(f, q) && Within(f, p, a) && a != p ensures Within(f, k, a) {
      WithinChain(f, k, a, q);
      if !Within(f, k, a) {
        WithinRange(f, a, k);
        WithinRange(f, p, a);
      }
    }
  }

  /** Some part of `p` may hold a value if anything in it may. */
  lemma HoldsPart(f: Forest, st: State, p: nat, q: nat)
    requires q < |f| && Within(f, p, q) && q in st.mayInit
    ensures MayHoldPart(f, st, p)
  {
    assert q in Subtree(f, p) && MayHold(st, q);
  }

  /** The children mention everything that `p` does, except `p` itself. */
  lemma KidsMention(f: Forest, st: State, p: nat, flags: map<MovePathId, DropFlagId>, q: nat, condition: DropCondition)
    requires p < |f| && p !in st.mustInit
    ensures (exists k :: k in Children(f, p) && Mentioned(f, st, k, flags, q, condition))
            <==> q != p && Mentioned(f, st, p, flags, q, condition)
  {
    forall k | k in Children(f, p) && Mentioned(f, st, k, flags, q, condition)
      ensures q != p && Mentioned(f, st, p, flags, q, condition)
    {
      ExposedStep(f, st, p, k, q);
      KidFacts(f, p, k);
      if q == p { WithinAntisymmetric(f, p, k); }
    }
    if q != p && Mentioned(f, st, p, flags, q, condition) {
      var k := Toward(f, p, q);
      ExposedStep(f, st, p, k, q);
    }
  }

  /** Where nothing needs dropping, nothing is mentioned. */
  lemma NoneNeedsDrop(f: Forest, st: State, p: nat, flags: map<MovePathId, DropFlagId>, q: nat,
                      condition: DropCondition)
    requires p < |f| && !NeedsDrop(f, p)
    ensures !Mentioned(f, st, p, flags, q, condition)
    ensures forall k | k in Children(f, p) :: !Mentioned(f, st, k, flags, q, condition)
  {
    if NeedsDrop(f, q) && Within(f, p, q) { NeedsDropUpward(f, p, q); }
    forall k | k in Children(f, p) ensures !Mentioned(f, st, k, flags, q, condition) {
      KidFacts(f, p, k);
      if NeedsDrop(f, q) && Within(f, k, q) { NeedsDropUpward(f, k, q); }
    }
  }

  /** Within something certainly complete, and nowhere in it, only the whole is mentioned. */
  lemma OnlyTheWhole(f: Forest, st: State, p: nat, flags: map<MovePathId, DropFlagId>, q: nat, condition: DropCondition)
    requires p < |f| && st.mustInit <= st.mayInit
    ensures !MayHoldPart(f, st, p) ==> !Mentioned(f, st, p, flags, q, condition)
    ensures p in st.mustInit && Mentioned(f, st, p, flags, q, condition) ==> q == p
  {
    if Mentioned(f, st, p, flags, q, condition) {
      HoldsPart(f, st, p, q);
      if q != p { assert p in Ancestors(f, q) && Within(f, p, p); }
    }
  }

  /** The obligation tree of `p`, exactly. */
  lemma {:induction false} TreeExactly(f: Forest, st: State, p: nat, flags: map<MovePathId, DropFlagId>, q: nat,
                                       condition: DropCondition)
    requires p < |f| && st.mustInit <= st.mayInit && Collect(f, st, p) <= flags.Keys
    ensures (q, condition) in MentionsAll(Obligations(f, st, p, flags))
            <==> Mentioned(f, st, p, flags, q, condition)
    decreases Height(f, p), 1
  {
    var ks := Children(f, p);
    NothingAbove(f, st, p);
    OnlyTheWhole(f, st, p, flags, q, condition);
    match Initialization(f, st, p)
    case Uninitialized =>
    case Initialized =>
      if NeedsDrop(f, p) {
        StaticTree(p);
      } else {
        CollectAllNeedsDrop(f, st, p, ks);
        TreesExactly(f, st, p, ks, flags, q, condition);
        NoneNeedsDrop(f, st, p, flags, q, condition);
      }
    case MaybeOrPartial =>
      TreesExactly(f, st, p, ks, flags, q, condition);
      KidsMention(f, st, p, flags, q, condition);
      if NeedsDrop(f, p) && p in st.mayInit {
        FlagTree(p, flags[p], ObligationsAll(f, st, p, ks, flags));
      }
  }

  lemma NothingAbove(f: Forest, st: State, p: nat)
    requires p < |f|
    ensures Exposed(f, st, p, p)
  {
    forall a | a in Ancestors(f, p) && Within(f, p, a) ensures false { WithinAntisymmetric(f, p, a); }
  }

  lemma StaticTree(p: nat)
    ensures MentionsAll([DropObligation(p, Static, [])]) == {(p, Static)}
  {
    assert [DropObligation(p, Static, [])][1..] == [];
  }

  lemma FlagTree(p: nat, id: DropFlagId, all: seq<DropObligation>)
    ensures MentionsAll([DropObligation(p, Flag(id), all)]) == {(p, Flag(id))} + MentionsAll(all)
  {
    assert [DropObligation(p, Flag(id), all)][1..] == [];
  }

  lemma {:induction false} TreesExactly(f: Forest, st: State, p: nat, ks: seq<nat>, flags: map<MovePathId, DropFlagId>,
                                        q: nat, condition: DropCondition)
    requires p < |f| && st.mustInit <= st.mayInit && forall k | k in ks :: k in Kids(f, p)
    requires CollectAll(f, st, p, ks) <= flags.Keys
    ensures (q, condition) in MentionsAll(ObligationsAll(f, st, p, ks, flags))
            <==> exists k :: k in ks && Mentioned(f, st, k, flags, q, condition)
    decreases Height(f, p), 0, |ks|
  {
    if ks != [] {
      KidFacts(f, p, ks[0]);
      TreeExactly(f, st, ks[0], flags, q, condition);
      TreesExactly(f, st, p, ks[1..], flags, q, condition);
      MentionsConcat(Obligations(f, st, ks[0], flags), ObligationsAll(f, st, p, ks[1..], flags));
      assert forall k :: k in ks <==> k == ks[0] || k in ks[1..];
    }
  }

  /* ----- the flags of a plan ----- */

  /** The storage of the local with root path `r` ends at operation `i` of block `b`. */
  ghost predicate EndsAt(plan: Plan, b: nat, i: nat, r: nat)
    requires IsForest(plan.movePaths)
  {
    && b < |plan.blocks| && i < |plan.blocks[b].operations| && r < |plan.movePaths|
    && plan.blocks[b].operations[i] == StorageDead(LocalOf(plan.movePaths, r)) && plan.movePaths[r].parent == None
  }

  /** `p` may or may not be complete there, and lies in nothing that certainly is. */
  ghost predicate Undecided(plan: Plan, a: Analysis, b: nat, i: nat, r: nat, p: nat)
    requires IsForest(plan.movePaths) && |a.blockEntry| == |plan.blocks| && EndsAt(plan, b, i, r)
  {
    var f, st := plan.movePaths, StateBefore(plan, a, b, i);
    Exposed(f, st, r, p) && NeedsDrop(f, p) && p in st.mayInit && p !in st.mustInit
  }

  lemma EndedThere(plan: Plan, b: nat, i: nat, r: nat)
    requires IsForest(plan.movePaths) && b < |plan.blocks| && i < |plan.blocks[b].operations|
    ensures EndsAt(plan, b, i, r) <==> EndedRoot(plan, b, i) == Some(r)
  {
    RootsUnique(plan);
    var op := plan.blocks[b].operations[i];
    if op.StorageDead? && r < |plan.movePaths| {
      assert IsRootOf(plan.movePaths, op.local, r)
        <==> LocalOf(plan.movePaths, r) == op.local && plan.movePaths[r].parent == None;
    }
  }

  /** The states of a stable analysis keep must within may. */
  lemma MustWithinMay(plan: Plan, a: Analysis, b: nat, i: nat)
    requires Structured(plan) && Fixpoint(plan, a) && b < |plan.blocks| && i < |plan.blocks[b].operations|
    ensures var st := StateBefore(plan, a, b, i); st.mustInit <= st.mayInit
  {
    PlanVerifier.ProperBefore(plan, a, b, i);
  }

  lemma TreeAt(plan: Plan, a: Analysis, flags: map<MovePathId, DropFlagId>, b: nat, i: nat, r: nat, q: nat,
               condition: DropCondition)
    requires Structured(plan) && Fixpoint(plan, a) && Covered(plan, a, flags) && EndsAt(plan, b, i, r)
    ensures (exists site :: site in SiteAt(plan, a, flags, b, i) && (q, condition) in MentionsAll(site.obligations))
            <==> Mentioned(plan.movePaths, StateBefore(plan, a, b, i), r, flags, q, condition)
  {
    FixpointSize(plan, a);
    hide Structured; hide Fixpoint; hide StateBefore; hide Obligations; hide Mentioned; hide Collect; hide EndsAt;
    hide IsForest;
    EndsParts(plan, a, flags, b, i, r);
    MustWithinMay(plan, a, b, i);
    TreeExactly(plan.movePaths, StateBefore(plan, a, b, i), r, flags, q, condition);
    var obligations := Obligations(plan.movePaths, StateBefore(plan, a, b, i), r, flags);
    var sites := SiteAt(plan, a, flags, b, i);
    if obligations != [] { assert sites[0] in sites && sites[0].obligations == obligations; }
  }

  lemma EndsParts(plan: Plan, a: Analysis, flags: map<MovePathId, DropFlagId>, b: nat, i: nat, r: nat)
    requires IsForest(plan.movePaths) && |a.blockEntry| == |plan.blocks| && Covered(plan, a, flags)
    requires EndsAt(plan, b, i, r)
    ensures b < |plan.blocks| && i < |plan.blocks[b].operations| && r < |plan.movePaths|
    ensures EndedRoot(plan, b, i) == Some(r) && PathsAt(plan, a, b, i) <= flags.Keys
    ensures Collect(plan.movePaths, StateBefore(plan, a, b, i), r) <= flags.Keys
  {
    EndedThere(plan, b, i, r);
  }

  /** Some emitted site looks at the flag `id` for `p`. */
  ghost predicate LookedAt(d: DropFlagAnalysis, p: nat, id: DropFlagId) {
    exists site :: site in d.sites && (p, Flag(id)) in MentionsAll(site.obligations)
  }

  lemma SiteOfTable(plan: Plan, a: Analysis, d: DropFlagAnalysis, site: DropSite)
    requires IsForest(plan.movePaths) && |a.blockEntry| == |plan.blocks| && Synthesized(plan, a, d)
    ensures site in d.sites <==>
            exists b: nat, i: nat :: b < |plan.blocks| && i < |plan.blocks[b].operations|
                                     && site in SiteAt(plan, a, FlagMap(d.flags), b, i)
  {
    var flags := FlagMap(d.flags);
    SynthesizedSites(plan, a, d);
    var table := SiteTable(plan, a, flags);
    FlatMember(table, site);
    forall b: nat, i: nat | b < |plan.blocks| && i < |plan.blocks[b].operations|
      ensures b < |table| && i < |table[b]| && table[b][i] == SiteAt(plan, a, flags, b, i)
    {
      SiteCell(plan, a, flags, b, i);
    }
    TableSize(plan, a, flags);
    hide *;
  }

  lemma SynthesizedSites(plan: Plan, a: Analysis, d: DropFlagAnalysis)
    requires IsForest(plan.movePaths) && |a.blockEntry| == |plan.blocks| && Synthesized(plan, a, d)
    ensures Covered(plan, a, FlagMap(d.flags)) && d.sites == Flat(SiteTable(plan, a, FlagMap(d.flags)))
  {
  }

  lemma SiteCell(plan: Plan, a: Analysis, flags: map<MovePathId, DropFlagId>, b: nat, i: nat)
    requires IsForest(plan.movePaths) && |a.blockEntry| == |plan.blocks| && Covered(plan, a, flags)
    requires b < |plan.blocks| && i < |plan.blocks[b].operations|
    ensures var table := SiteTable(plan, a, flags);
            b < |table| && i < |table[b]| && table[b][i] == SiteAt(plan, a, flags, b, i)
  {
    hide SiteAt; hide Covered; hide IsForest;
  }

  lemma TableSize(plan: Plan, a: Analysis, flags: map<MovePathId, DropFlagId>)
    requires IsForest(plan.movePaths) && |a.blockEntry| == |plan.blocks| && Covered(plan, a, flags)
    ensures var table := SiteTable(plan, a, flags);
            && |table| == |plan.blocks|
            && forall b: nat | b < |table| :: |table[b]| == |plan.blocks[b].operations|
  {
    hide SiteAt; hide Covered; hide IsForest;
  }

  /** An undecided path is flagged where it is undecided. */
  lemma LookedAtSomewhere(plan: Plan, a: Analysis, d: DropFlagAnalysis, p: nat, id: DropFlagId)
    requires Structured(plan) && Fixpoint(plan, a) && Synthesized(plan, a, d)
    ensures LookedAt(d, p, id) <==>
            p in FlagMap(d.flags) && FlagMap(d.flags)[p] == id
            && exists b: nat, i: nat, r: nat :: EndsAt(plan, b, i, r) && Undecided(plan, a, b, i, r, p)
  {
    var flags := FlagMap(d.flags);
    hide FlagMap; hide StateBefore; hide MentionsAll; hide IsForest; hide Fixpoint; hide Structured; hide SiteAt;
    FixpointSize(plan, a);
    if LookedAt(d, p, id) {
      var site :| site in d.sites && (p, Flag(id)) in MentionsAll(site.obligations);
      SiteOfTable(plan, a, d, site);
      var b: nat, i: nat :| b < |plan.blocks| && i < |plan.blocks[b].operations|
                            && site in SiteAt(plan, a, flags, b, i);
      SiteHasRoot(plan, a, flags, b, i, site);
      var r := EndedRoot(plan, b, i).value;
      EndedThere(plan, b, i, r);
      TreeAt(plan, a, flags, b, i, r, p, Flag(id));
      assert Undecided(plan, a, b, i, r, p);
    }
    if p in flags && flags[p] == id {
      if b: nat, i: nat, r: nat :| EndsAt(plan, b, i, r) && Undecided(plan, a, b, i, r, p) {
        TreeAt(plan, a, flags, b, i, r, p, Flag(id));
        var site :| site in SiteAt(plan, a, flags, b, i) && (p, Flag(id)) in MentionsAll(site.obligations);
        SiteOfTable(plan, a, d, site);
      }
    }
  }

  lemma FixpointSize(plan: Plan, a: Analysis)
    requires Structured(plan) && Fixpoint(plan, a)
    ensures IsForest(plan.movePaths) && |a.blockEntry| == |plan.blocks|
  {
  }

  lemma SiteHasRoot(plan: Plan, a: Analysis, flags: map<MovePathId, DropFlagId>, b: nat, i: nat, site: DropSite)
    requires IsForest(plan.movePaths) && |a.blockEntry| == |plan.blocks| && Covered(plan, a, flags)
    requires b < |plan.blocks| && i < |plan.blocks[b].operations| && site in SiteAt(plan, a, flags, b, i)
    ensures EndedRoot(plan, b, i).Some?
  {
  }

  /** What the collecting code asks for, without the code. */
  lemma AskedExactly(plan: Plan, a: Analysis, p: nat)
    requires Structured(plan) && Fixpoint(plan, a)
    ensures Asked(plan, a, p) <==>
            exists b: nat, i: nat, r: nat :: EndsAt(plan, b, i, r) && Undecided(plan, a, b, i, r, p)
  {
    FixpointSize(plan, a);
    hide Structured; hide Fixpoint; hide IsForest; hide StateBefore; hide Collect;
    forall b: nat, i: nat, r: nat | EndsAt(plan, b, i, r)
      ensures Undecided(plan, a, b, i, r, p) <==> AskedAt(plan, a, b, i, p)
    {
      EndedThere(plan, b, i, r);
      MustWithinMay(plan, a, b, i);
      CollectExactly(plan.movePaths, StateBefore(plan, a, b, i), r, p);
    }
    if b: nat, i: nat :| AskedAt(plan, a, b, i, p) {
      var r := EndedRoot(plan, b, i).value;
      EndedThere(plan, b, i, r);
      assert Undecided(plan, a, b, i, r, p);
    }
  }

  /** The collected paths are the flagged ones of a tree that finds a flag for every path. */
  lemma CollectExactly(f: Forest, st: State, p: nat, q: nat)
    requires p < |f| && st.mustInit <= st.mayInit
    ensures q in Collect(f, st, p) <==>
            Exposed(f, st, p, q) && NeedsDrop(f, q) && q in st.mayInit && q !in st.mustInit
  {
    var flags: map<MovePathId, DropFlagId> := map x | x in Collect(f, st, p) + {q} :: x;
    TreeExactly(f, st, p, flags, q, Flag(q));
    FlaggedIsCollected(f, st, p, flags, q, q);
  }

  /** The flagged paths of a tree are those collected for it. */
  lemma {:induction false} FlaggedIsCollected(f: Forest, st: State, p: nat, flags: map<MovePathId, DropFlagId>, q: nat,
                                              id: DropFlagId)
    requires p < |f| && Collect(f, st, p) <= flags.Keys
    ensures (q, Flag(id)) in MentionsAll(Obligations(f, st, p, flags))
            <==> q in Collect(f, st, p) && flags[q] == id
    decreases Height(f, p), 1
  {
    var ks := Children(f, p);
    match Initialization(f, st, p)
    case Uninitialized =>
    case Initialized =>
      if NeedsDrop(f, p) {
        StaticTree(p);
      } else {
        CollectAllNeedsDrop(f, st, p, ks);
        AllFlaggedCollected(f, st, p, ks, flags, q, id);
      }
    case MaybeOrPartial =>
      AllFlaggedCollected(f, st, p, ks, flags, q, id);
      if NeedsDrop(f, p) && p in st.mayInit { FlagTree(p, flags[p], ObligationsAll(f, st, p, ks, flags)); }
  }

  lemma {:induction false} AllFlaggedCollected(f: Forest, st: State, p: nat, ks: seq<nat>,
                                               flags: map<MovePathId, DropFlagId>, q: nat, id: DropFlagId)
    requires p < |f| && (forall k | k in ks :: k in Kids(f, p)) && CollectAll(f, st, p, ks) <= flags.Keys
    ensures (q, Flag(id)) in MentionsAll(ObligationsAll(f, st, p, ks, flags))
            <==> q in CollectAll(f, st, p, ks) && flags[q] == id
    decreases Height(f, p), 0, |ks|
  {
    if ks != [] {
      KidFacts(f, p, ks[0]);
      FlaggedIsCollected(f, st, ks[0], flags, q, id);
      AllFlaggedCollected(f, st, p, ks[1..], flags, q, id);
      MentionsConcat(Obligations(f, st, ks[0], flags), ObligationsAll(f, st, p, ks[1..], flags));
    }
  }

  /**
   A path has a flag exactly when, at the end of some local's storage, it may or may not be
   complete and lies in nothing that certainly is.
   */
  lemma FlagsExactly(plan: Plan, a: Analysis, d: DropFlagAnalysis, p: nat)
    requires Structured(plan) && Fixpoint(plan, a) && Synthesized(plan, a, d)
    ensures HasFlag(d.flags, p) <==>
            exists b: nat, i: nat, r: nat :: EndsAt(plan, b, i, r) && Undecided(plan, a, b, i, r, p)
  {
    hide Structured; hide Fixpoint; hide EndsAt; hide Undecided; hide FlagMap; hide ActionTable; hide SiteTable;
    AskedExactly(plan, a, p);
  }

  /** `p` has the flag `id`. */
  ghost predicate FlaggedAs(d: DropFlagAnalysis, p: nat, id: DropFlagId) {
    id < |d.flags| && d.flags[id] == DropFlag(id, p)
  }

  lemma FlagIsMapped(d: DropFlagAnalysis, p: nat, id: DropFlagId)
    requires Numbered(d.flags)
    ensures FlaggedAs(d, p, id) <==> p in FlagMap(d.flags) && FlagMap(d.flags)[p] == id
    ensures HasFlag(d.flags, p) <==> p in FlagMap(d.flags)
  {
    FlagMapFacts(d.flags);
    hide FlagMap;
    if HasFlag(d.flags, p) {
      var i :| 0 <= i < |d.flags| && d.flags[i].path == p;
      assert FlagMap(d.flags)[p] == i;
    }
  }

  lemma SynthesizedNumbers(plan: Plan, a: Analysis, d: DropFlagAnalysis)
    requires IsForest(plan.movePaths) && |a.blockEntry| == |plan.blocks| && Synthesized(plan, a, d)
    ensures Numbered(d.flags)
  {
  }

  /** A path has a flag exactly when some emitted site looks at one for it, and then it is that one. */
  lemma FlagsAreLookedAt(plan: Plan, a: Analysis, d: DropFlagAnalysis, p: nat)
    requires Structured(plan) && Fixpoint(plan, a) && Synthesized(plan, a, d)
    ensures HasFlag(d.flags, p) <==> exists id: nat :: LookedAt(d, p, id)
    ensures forall id: nat :: LookedAt(d, p, id) <==> FlaggedAs(d, p, id)
  {
    hide *;
    FixpointSize(plan, a);
    FlagsExactly(plan, a, d, p);
    SynthesizedNumbers(plan, a, d);
    forall id: nat
      ensures LookedAt(d, p, id) <==> FlaggedAs(d, p, id)
      ensures LookedAt(d, p, id) ==> HasFlag(d.flags, p)
    {
      LookedAtSomewhere(plan, a, d, p, id);
      FlagIsMapped(d, p, id);
    }
    FlagIsMapped(d, p, 0);
    if HasFlag(d.flags, p) {
      FlagIsMapped(d, p, FlagMap(d.flags)[p]);
      assert FlaggedAs(d, p, FlagMap(d.flags)[p]);
    }
  }

  /** Where everything is decided statically there are no flags and no actions. */
  lemma StaticNeedsNothing(plan: Plan, a: Analysis, d: DropFlagAnalysis)
    requires Structured(plan) && Fixpoint(plan, a) && Synthesized(plan, a, d)
    requires forall p, id :: !LookedAt(d, p, id)
    ensures d.flags == [] && d.actions == []
  {
    FixpointSize(plan, a);
    hide Structured; hide Fixpoint; hide LookedAt; hide FlagMap; hide SiteTable; hide Asked; hide ActionTable;
    if d.flags != [] { FlagsAreLookedAt(plan, a, d, d.flags[0].path); }
    assert d.actions == Flat(ActionTable(plan, a, []));
    NoActions(plan, a);
  }

  lemma NoActions(plan: Plan, a: Analysis)
    requires IsForest(plan.movePaths) && |a.blockEntry| == |plan.blocks|
    ensures Flat(ActionTable(plan, a, [])) == []
  {
    hide StateBefore;
    NothingGathered(ActionTable(plan, a, []));
  }
}
