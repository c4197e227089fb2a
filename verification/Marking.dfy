/**
 `mark_whole` works through a stack of paths still to mark. One turn of its loop
 brings a state closer to the pointwise specification `MarkWhole`, whatever the order
 in which the stack is worked off.
 */
module Marking {
  import opened CleanupPlan
  import opened MovePaths
  import opened MoveStates

  type Entry = (MovePathId, Certainty)

  ghost predicate Stacked(f: Forest, stack: seq<Entry>, q: nat) {
    exists i :: 0 <= i < |stack| && Within(f, stack[i].0, q)
  }

  ghost predicate SameStatus(s: State, t: State, q: nat) {
    && (q in s.mayInit <==> q in t.mayInit)
    && (q in s.mustInit <==> q in t.mustInit)
    && (q in s.discriminants <==> q in t.discriminants)
    && (q in s.discriminants ==> s.discriminants[q] == t.discriminants[q])
  }

  /** `q` has the status its mark asks for. */
  ghost predicate Done(f: Forest, before: State, mark: Mark, st: State, q: nat) {
    && (q in st.mayInit <==> mark.Marked?)
    && (q in st.mustInit <==> mark == Marked(Must))
    && (q in st.discriminants <==> q in before.discriminants)
    && (q in before.discriminants ==>
          st.discriminants[q] == MarkDiscriminant(f, before.discriminants[q], q, mark))
  }

  ghost predicate Progress(f: Forest, before: State, root: nat, certainty: Certainty,
                           stack: seq<Entry>, st: State, q: nat)
  {
    if Within(f, root, q) && q < |f| && !Stacked(f, stack, q)
    then Done(f, before, MarkOf(f, before, root, certainty, q), st, q)
    else SameStatus(before, st, q)
  }

  ghost predicate EntryOk(f: Forest, before: State, root: nat, certainty: Certainty, e: Entry) {
    && e.0 in Subtree(f, root)
    && MarkOf(f, before, root, certainty, e.0) == Marked(e.1)
  }

  ghost predicate Apart(f: Forest, stack: seq<Entry>) {
    forall i, j | 0 <= i < |stack| && 0 <= j < |stack| && i != j :: !Within(f, stack[i].0, stack[j].0)
  }

  /** The loop invariant of `mark_whole`. */
  ghost predicate Marks(f: Forest, before: State, root: nat, certainty: Certainty, stack: seq<Entry>, st: State) {
    && st.reachable == before.reachable && st.mayLive == before.mayLive && st.mustLive == before.mustLive
    && Apart(f, stack)
    && (forall i | 0 <= i < |stack| :: EntryOk(f, before, root, certainty, stack[i]))
    && (forall q :: Progress(f, before, root, certainty, stack, st, q))
  }

  ghost function StackedPaths(f: Forest, stack: seq<Entry>): set<nat> {
    set q: nat | q < |f| && Stacked(f, stack, q)
  }

  /* ----- one turn ----- */

  ghost function RuledOut(f: Forest, st: State, p: nat, certainty: Certainty): set<nat> {
    set k, q | k in Kids(f, p) && KidMark(f, st, p, Marked(certainty), k) == Cleared && q in Subtree(f, k) :: q
  }

  /** What one turn does to the state: mark `p`, settle its discriminant, clear what that rules out. */
  ghost function MarkNode(f: Forest, st: State, p: nat, certainty: Certainty): State {
    var s := WithInit(st, p, true, certainty == Must);
    ClearPaths(
      s.(discriminants := map r | r in s.discriminants ::
           if r == p then MarkDiscriminant(f, s.discriminants[r], r, Marked(certainty)) else s.discriminants[r]),
      RuledOut(f, st, p, certainty))
  }

  /** What one turn pushes. */
  ghost predicate IsPush(f: Forest, st: State, p: nat, certainty: Certainty, pushed: seq<Entry>) {
    && (forall i | 0 <= i < |pushed| ::
          pushed[i].0 in Kids(f, p) && KidMark(f, st, p, Marked(certainty), pushed[i].0) == Marked(pushed[i].1))
    && (forall i, j | 0 <= i < j < |pushed| :: pushed[i].0 != pushed[j].0)
    && (forall k | k in Kids(f, p) ::
          KidMark(f, st, p, Marked(certainty), k) == Cleared || exists i :: 0 <= i < |pushed| && pushed[i].0 == k)
  }

  lemma StackedTop(f: Forest, rest: seq<Entry>, e: Entry, q: nat)
    ensures Stacked(f, rest + [e], q) <==> Stacked(f, rest, q) || Within(f, e.0, q)
  {
    var s := rest + [e];
    if Stacked(f, rest, q) {
      var i :| 0 <= i < |rest| && Within(f, rest[i].0, q);
      assert s[i] == rest[i];
    }
    assert s[|rest|] == e;
    if Stacked(f, s, q) {
      var i :| 0 <= i < |s| && Within(f, s[i].0, q);
      if i < |rest| { assert s[i] == rest[i]; }
    }
  }

  lemma StackedConcat(f: Forest, rest: seq<Entry>, pushed: seq<Entry>, q: nat)
    ensures Stacked(f, rest + pushed, q) <==> Stacked(f, rest, q) || Stacked(f, pushed, q)
  {
    var s := rest + pushed;
    if Stacked(f, rest, q) {
      var i :| 0 <= i < |rest| && Within(f, rest[i].0, q);
      assert s[i] == rest[i];
    }
    if Stacked(f, pushed, q) {
      var i :| 0 <= i < |pushed| && Within(f, pushed[i].0, q);
      assert s[|rest| + i] == pushed[i];
    }
    if Stacked(f, s, q) {
      var i :| 0 <= i < |s| && Within(f, s[i].0, q);
      if i < |rest| { assert s[i] == rest[i]; } else { assert s[i] == pushed[i - |rest|]; }
    }
  }

  /** Everything below a cleared path is cleared. */
  lemma {:induction false} ClearedBelow(f: Forest, st: State, root: nat, certainty: Certainty, k: nat, q: nat)
    requires k in Subtree(f, root) && MarkOf(f, st, root, certainty, k) == Cleared && q in Subtree(f, k)
    ensures MarkOf(f, st, root, certainty, q) == Cleared
    decreases Depth(f, q)
  {
    if q != k {
      ParentFacts(f, q);
      WithinRange(f, root, k);
      WithinRange(f, k, q);
      ClearedBelow(f, st, root, certainty, k, Parent(f, q).value);
    }
  }

  lemma KidOf(f: Forest, p: nat, q: nat) returns (k: nat)
    requires p < |f| && Within(f, p, q) && q != p && q < |f|
    ensures k in Kids(f, p) && Within(f, k, q)
    ensures forall k' | k' in Kids(f, p) && Within(f, k', q) :: k' == k
  {
    k := Toward(f, p, q);
    forall k' | k' in Kids(f, p) && Within(f, k', q) ensures k' == k { KidsDisjoint(f, p, k, k', q); }
  }

  /** The state at one path below the one just marked. */
  lemma TurnBelow(f: Forest, before: State, root: nat, certainty: Certainty, rest: seq<Entry>, p: nat, c: Certainty,
                  pushed: seq<Entry>, st: State, q: nat)
    requires Marks(f, before, root, certainty, rest + [(p, c)], st) && IsPush(f, st, p, c, pushed)
    requires q in Subtree(f, p)
    ensures Progress(f, before, root, certainty, rest + pushed, MarkNode(f, st, p, c), q)
  {
    var stack := rest + [(p, c)];
    var after := MarkNode(f, st, p, c);
    assert stack[|rest|] == (p, c) && EntryOk(f, before, root, certainty, stack[|rest|]);
    WithinRange(f, root, p);
    WithinTrans(f, root, p, q);
    StackedTop(f, rest, (p, c), q);
    StackedTop(f, rest, (p, c), p);
    StackedConcat(f, rest, pushed, q);
    NotStackedBelow(f, rest, p, c, q);
    assert Progress(f, before, root, certainty, stack, st, q);
    assert Progress(f, before, root, certainty, stack, st, p);
    if q == p {
      assert !Stacked(f, pushed, p) by {
        if Stacked(f, pushed, p) {
          var i :| 0 <= i < |pushed| && Within(f, pushed[i].0, p);
          KidFacts(f, p, pushed[i].0);
          WithinRange(f, pushed[i].0, p);
        }
      }
      assert p !in RuledOut(f, st, p, c) by {
        forall k | k in Kids(f, p) ensures p !in Subtree(f, k) {
          KidFacts(f, p, k);
          if p in Subtree(f, k) { WithinRange(f, k, p); }
        }
      }
    } else {
      var k := KidOf(f, p, q);
      KidFacts(f, p, k);
      WithinTrans(f, root, p, k);
      KidsMark(f, before, root, certainty, p, c, st, k);
      if KidMark(f, st, p, Marked(c), k) == Cleared {
        ClearedBelow(f, before, root, certainty, k, q);
        assert q in RuledOut(f, st, p, c);
      } else {
        var i :| 0 <= i < |pushed| && pushed[i].0 == k;
        assert Stacked(f, pushed, q);
      }
    }
  }

  /** A child's mark, seen from the current state or from the first. */
  lemma KidsMark(f: Forest, before: State, root: nat, certainty: Certainty, p: nat, c: Certainty, st: State, k: nat)
    requires k in Kids(f, p) && p in Subtree(f, root) && MarkOf(f, before, root, certainty, p) == Marked(c)
    requires SameStatus(before, st, p)
    ensures MarkOf(f, before, root, certainty, k) == KidMark(f, st, p, Marked(c), k)
  {
    KidFacts(f, p, k);
    WithinRange(f, root, p);
  }

  lemma NotStackedBelow(f: Forest, rest: seq<Entry>, p: nat, c: Certainty, q: nat)
    requires Apart(f, rest + [(p, c)]) && q in Subtree(f, p) && p < |f|
    ensures !Stacked(f, rest, q)
  {
    var stack := rest + [(p, c)];
    if Stacked(f, rest, q) {
      var i :| 0 <= i < |rest| && Within(f, rest[i].0, q);
      assert stack[i] == rest[i] && stack[|rest|] == (p, c);
      WithinChain(f, rest[i].0, p, q);
    }
  }

  lemma TurnElsewhere(f: Forest, before: State, root: nat, certainty: Certainty, rest: seq<Entry>, p: nat, c: Certainty,
                      pushed: seq<Entry>, st: State, q: nat)
    requires Marks(f, before, root, certainty, rest + [(p, c)], st) && IsPush(f, st, p, c, pushed)
    requires q !in Subtree(f, p) && p < |f|
    ensures Progress(f, before, root, certainty, rest + pushed, MarkNode(f, st, p, c), q)
  {
    assert Progress(f, before, root, certainty, rest + [(p, c)], st, q);
    StackedTop(f, rest, (p, c), q);
    StackedConcat(f, rest, pushed, q);
    assert q < |f| ==> !Within(f, p, q);
    forall k | k in Kids(f, p) ensures q !in Subtree(f, k) && (q < |f| ==> !Within(f, k, q)) {
      KidFacts(f, p, k);
      if q < |f| && Within(f, k, q) { WithinTrans(f, p, k, q); }
    }
    assert q !in RuledOut(f, st, p, c);
    assert q != p;
    assert SameStatus(st, MarkNode(f, st, p, c), q);
    assert forall i | 0 <= i < |pushed| :: pushed[i].0 in Kids(f, p);
  }

  lemma PushedApart(f: Forest, before: State, root: nat, certainty: Certainty, rest: seq<Entry>, p: nat, c: Certainty,
                    pushed: seq<Entry>, st: State)
    requires Marks(f, before, root, certainty, rest + [(p, c)], st) && IsPush(f, st, p, c, pushed)
    ensures Apart(f, rest + pushed)
    ensures forall i | 0 <= i < |rest + pushed| :: EntryOk(f, before, root, certainty, (rest + pushed)[i])
  {
    var stack, stack' := rest + [(p, c)], rest + pushed;
    assert stack[|rest|] == (p, c) && EntryOk(f, before, root, certainty, stack[|rest|]);
    StackedTop(f, rest, (p, c), p);
    assert Progress(f, before, root, certainty, stack, st, p);
    forall i | 0 <= i < |stack'| ensures EntryOk(f, before, root, certainty, stack'[i]) {
      if i < |rest| {
        assert stack[i] == stack'[i];
      } else {
        var e := pushed[i - |rest|];
        assert stack'[i] == e && e.0 in Kids(f, p);
        KidFacts(f, p, e.0);
        WithinTrans(f, root, p, e.0);
        KidsMark(f, before, root, certainty, p, c, st, e.0);
      }
    }
    forall i | 0 <= i < |rest| ensures rest[i].0 < |f| { assert stack[i] == stack'[i]; }
    forall i, j | 0 <= i < |stack'| && 0 <= j < |stack'| && i != j ensures !Within(f, stack'[i].0, stack'[j].0) {
      EntriesApart(f, rest, p, c, pushed, i, j);
    }
  }

  lemma EntriesApart(f: Forest, rest: seq<Entry>, p: nat, c: Certainty, pushed: seq<Entry>, i: nat, j: nat)
    requires Apart(f, rest + [(p, c)]) && p < |f|
    requires forall i | 0 <= i < |pushed| :: pushed[i].0 in Kids(f, p)
    requires forall i, j | 0 <= i < j < |pushed| :: pushed[i].0 != pushed[j].0
    requires forall i | 0 <= i < |rest| :: rest[i].0 < |f|
    requires i < |rest + pushed| && j < |rest + pushed| && i != j
    ensures !Within(f, (rest + pushed)[i].0, (rest + pushed)[j].0)
  {
    var stack := rest + [(p, c)];
    var a := if i < |rest| then rest[i].0 else pushed[i - |rest|].0;
    var b := if j < |rest| then rest[j].0 else pushed[j - |rest|].0;
    assert stack[|rest|] == (p, c);
    assert i < |rest| ==> stack[i] == rest[i];
    assert j < |rest| ==> stack[j] == rest[j];
    if Within(f, a, b) {
      if j >= |rest| {
        KidFacts(f, p, b);
        if i >= |rest| {
          KidsDisjoint(f, p, a, b, b);
        } else {
          WithinChain(f, a, p, b);
        }
      } else if i >= |rest| {
        KidFacts(f, p, a);
        WithinTrans(f, p, a, b);
      }
    }
  }

  /** One turn of the loop. */
  lemma Turn(f: Forest, before: State, root: nat, certainty: Certainty, rest: seq<Entry>, p: nat, c: Certainty,
             pushed: seq<Entry>, st: State)
    requires Marks(f, before, root, certainty, rest + [(p, c)], st) && IsPush(f, st, p, c, pushed)
    ensures Marks(f, before, root, certainty, rest + pushed, MarkNode(f, st, p, c))
    ensures StackedPaths(f, rest + pushed) < StackedPaths(f, rest + [(p, c)])
  {
    var stack := rest + [(p, c)];
    assert stack[|rest|] == (p, c) && EntryOk(f, before, root, certainty, stack[|rest|]);
    PushedApart(f, before, root, certainty, rest, p, c, pushed, st);
    forall q ensures Progress(f, before, root, certainty, rest + pushed, MarkNode(f, st, p, c), q) {
      if q in Subtree(f, p) {
        TurnBelow(f, before, root, certainty, rest, p, c, pushed, st, q);
      } else {
        TurnElsewhere(f, before, root, certainty, rest, p, c, pushed, st, q);
      }
    }
    FewerStacked(f, rest, p, c, pushed);
  }

  lemma FewerStacked(f: Forest, rest: seq<Entry>, p: nat, c: Certainty, pushed: seq<Entry>)
    requires Apart(f, rest + [(p, c)]) && p < |f|
    requires forall i | 0 <= i < |pushed| :: pushed[i].0 in Kids(f, p)
    ensures StackedPaths(f, rest + pushed) < StackedPaths(f, rest + [(p, c)])
  {
    forall q: nat | q < |f| && Stacked(f, rest + pushed, q) ensures Stacked(f, rest + [(p, c)], q) {
      StackedTop(f, rest, (p, c), q);
      StackedConcat(f, rest, pushed, q);
      if Stacked(f, pushed, q) {
        var i :| 0 <= i < |pushed| && Within(f, pushed[i].0, q);
        KidFacts(f, p, pushed[i].0);
        WithinTrans(f, p, pushed[i].0, q);
      }
    }
    StackedTop(f, rest, (p, c), p);
    StackedConcat(f, rest, pushed, p);
    assert p in Subtree(f, p);
    NotStackedBelow(f, rest, p, c, p);
    assert !Stacked(f, pushed, p) by {
      if Stacked(f, pushed, p) {
        var i :| 0 <= i < |pushed| && Within(f, pushed[i].0, p);
        KidFacts(f, p, pushed[i].0);
        WithinRange(f, pushed[i].0, p);
      }
    }
    assert p in StackedPaths(f, rest + [(p, c)]) && p !in StackedPaths(f, rest + pushed);
  }

  lemma MarksStart(f: Forest, st: State, root: nat, certainty: Certainty)
    requires root < |f|
    ensures Marks(f, st, root, certainty, [(root, certainty)], st)
  {
    var stack: seq<Entry> := [(root, certainty)];
    forall q ensures Progress(f, st, root, certainty, stack, st, q) {
      if Within(f, root, q) { assert Within(f, stack[0].0, q); }
    }
  }

  /** With nothing left on the stack, the whole path is marked. */
  lemma MarksEnd(f: Forest, before: State, root: nat, certainty: Certainty, st: State)
    requires Marks(f, before, root, certainty, [], st)
    ensures st == MarkWhole(f, before, root, certainty)
  {
    var goal := MarkWhole(f, before, root, certainty);
    forall q
      ensures q in st.mayInit <==> q in goal.mayInit
      ensures q in st.mustInit <==> q in goal.mustInit
      ensures q in st.discriminants <==> q in goal.discriminants
      ensures q in st.discriminants ==> st.discriminants[q] == goal.discriminants[q]
    {
      assert Progress(f, before, root, certainty, [], st, q);
    }
    assert st.mayInit == goal.mayInit && st.mustInit == goal.mustInit;
    assert st.discriminants == goal.discriminants;
  }
}
