/** Byte-wise and list-wise order, sorting, and the uniqueness of sorted lists. */
module Orderings {
  import opened Bytes

  type Text = seq<Byte>

  datatype Ordering = Less | Equal | Greater
  {
    function Reverse(): Ordering { match this case Less => Greater case Equal => Equal case Greater => Less }

    function Then(next: Ordering): Ordering { if Equal? then next else this }
  }

  function CompareText(a: Text, b: Text): Ordering {
    if a == [] && b == [] then Equal
    else if a == [] then Less
    else if b == [] then Greater
    else if a[0] < b[0] then Less
    else if a[0] > b[0] then Greater
    else CompareText(a[1..], b[1..])
  }

  function CompareTexts(a: seq<Text>, b: seq<Text>): Ordering {
    if a == [] && b == [] then Equal
    else if a == [] then Less
    else if b == [] then Greater
    else CompareText(a[0], b[0]).Then(CompareTexts(a[1..], b[1..]))
  }

  function CompareBool(a: bool, b: bool): Ordering {
    if a == b then Equal else if b then Less else Greater
  }

  lemma {:induction false} TextLaws(a: Text, b: Text)
    ensures CompareText(b, a) == CompareText(a, b).Reverse()
    ensures CompareText(a, b).Equal? <==> a == b
  {
    if a != [] && b != [] {
      TextLaws(a[1..], b[1..]);
      assert a == [a[0]] + a[1..] && b == [b[0]] + b[1..];
    }
  }

  lemma {:induction false} TextTransitive(a: Text, b: Text, c: Text)
    requires !CompareText(a, b).Greater? && !CompareText(b, c).Greater?
    ensures !CompareText(a, c).Greater?
    ensures CompareText(a, c).Equal? ==> CompareText(a, b).Equal? && CompareText(b, c).Equal?
  {
    if a != [] && b != [] && c != [] && a[0] == b[0] && b[0] == c[0] {
      TextTransitive(a[1..], b[1..], c[1..]);
    }
  }

  lemma {:induction false} TextsLaws(a: seq<Text>, b: seq<Text>)
    ensures CompareTexts(b, a) == CompareTexts(a, b).Reverse()
    ensures CompareTexts(a, b).Equal? <==> a == b
  {
    if a != [] && b != [] {
      TextLaws(a[0], b[0]);
      TextsLaws(a[1..], b[1..]);
      assert a == [a[0]] + a[1..] && b == [b[0]] + b[1..];
    }
  }

  lemma {:induction false} TextsTransitive(a: seq<Text>, b: seq<Text>, c: seq<Text>)
    requires !CompareTexts(a, b).Greater? && !CompareTexts(b, c).Greater?
    ensures !CompareTexts(a, c).Greater?
    ensures CompareTexts(a, c).Equal? ==> CompareTexts(a, b).Equal? && CompareTexts(b, c).Equal?
  {
    if a != [] && b != [] && c != [] {
      TextTransitive(a[0], b[0], c[0]);
      TextLaws(a[0], b[0]);
      TextLaws(b[0], c[0]);
      if CompareText(a[0], b[0]).Equal? && CompareText(b[0], c[0]).Equal? { TextsTransitive(a[1..], b[1..], c[1..]); }
    }
  }

  /* ----- sorting ----- */

  ghost predicate TotalPreorder<T(!new)>(leq: (T, T) -> bool) {
    && (forall x, y :: leq(x, y) || leq(y, x))
    && (forall x, y, z :: leq(x, y) && leq(y, z) ==> leq(x, z))
  }

  ghost predicate SortedBy<T>(s: seq<T>, leq: (T, T) -> bool) {
    forall i, j | 0 <= i < j < |s| :: leq(s[i], s[j])
  }

  function Insert<T>(s: seq<T>, x: T, leq: (T, T) -> bool): seq<T> {
    if s == [] then [x]
    else if leq(x, s[0]) then [x] + s
    else [s[0]] + Insert(s[1..], x, leq)
  }

  /** A stable sort. */
  function Sort<T>(s: seq<T>, leq: (T, T) -> bool): seq<T> {
    if s == [] then [] else Insert(Sort(s[1..], leq), s[0], leq)
  }

  lemma {:induction false} InsertKeeps<T(!new)>(s: seq<T>, x: T, leq: (T, T) -> bool)
    requires TotalPreorder(leq) && SortedBy(s, leq)
    ensures SortedBy(Insert(s, x, leq), leq) && multiset(Insert(s, x, leq)) == multiset(s) + multiset{x}
  {
    if s == [] { return; }
    assert s == [s[0]] + s[1..];
    if leq(x, s[0]) {
      forall j | 0 <= j < |s| ensures leq(x, s[j]) { assert j > 0 ==> leq(s[0], s[j]); }
      return;
    }
    InsertKeeps(s[1..], x, leq);
    var rest := Insert(s[1..], x, leq);
    forall y | y in rest ensures leq(s[0], y) {
      assert y in multiset(rest);
      if y != x { assert y in s[1..]; }
    }
  }

  lemma {:induction false} SortSorts<T(!new)>(s: seq<T>, leq: (T, T) -> bool)
    requires TotalPreorder(leq)
    ensures SortedBy(Sort(s, leq), leq) && multiset(Sort(s, leq)) == multiset(s)
  {
    if s != [] {
      SortSorts(s[1..], leq);
      InsertKeeps(Sort(s[1..], leq), s[0], leq);
      assert s == [s[0]] + s[1..];
    }
  }

  ghost predicate AntisymmetricOn<T(!new)>(s: seq<T>, leq: (T, T) -> bool) {
    forall x, y | x in s && y in s && leq(x, y) && leq(y, x) :: x == y
  }

  /** Sorted lists with the same elements are the same list. */
  lemma {:induction false} SortedUnique<T(!new)>(a: seq<T>, b: seq<T>, leq: (T, T) -> bool)
    requires TotalPreorder(leq) && SortedBy(a, leq) && SortedBy(b, leq)
    requires multiset(a) == multiset(b) && AntisymmetricOn(a, leq)
    ensures a == b
  {
    if a == [] {
      assert |multiset(b)| == 0;
    } else {
      SameLength(a, b);
      FirstIsLeast(a, b, leq);
      FirstIsLeast(b, a, leq);
      assert a[0] == b[0];
      SameTails(a, b);
      SortedUnique(a[1..], b[1..], leq);
      assert a == [a[0]] + a[1..] && b == [b[0]] + b[1..];
    }
  }

  lemma SameLength<T>(a: seq<T>, b: seq<T>)
    requires multiset(a) == multiset(b)
    ensures |a| == |b|
  {
    assert |multiset(a)| == |a| && |multiset(b)| == |b|;
  }

  lemma FirstIsLeast<T(!new)>(a: seq<T>, b: seq<T>, leq: (T, T) -> bool)
    requires TotalPreorder(leq) && SortedBy(a, leq) && multiset(a) == multiset(b) && a != [] && b != []
    ensures b[0] in a && leq(a[0], b[0])
  {
    assert b[0] in multiset(a);
    var j :| 0 <= j < |a| && a[j] == b[0];
    assert j == 0 ==> leq(a[0], a[0]);
  }

  lemma SameTails<T>(a: seq<T>, b: seq<T>)
    requires a != [] && b != [] && a[0] == b[0] && multiset(a) == multiset(b)
    ensures multiset(a[1..]) == multiset(b[1..])
  {
    assert a == [a[0]] + a[1..] && b == [b[0]] + b[1..];
    assert multiset(a[1..]) == multiset(a) - multiset{a[0]};
    assert multiset(b[1..]) == multiset(b) - multiset{b[0]};
  }

  ghost predicate NoRepeats<T>(s: seq<T>) {
    forall i, j | 0 <= i < j < |s| :: s[i] != s[j]
  }

  lemma {:induction false} NoRepeatsCount<T>(s: seq<T>, x: T)
    requires NoRepeats(s)
    ensures multiset(s)[x] == if x in s then 1 else 0
  {
    if s != [] {
      NoRepeatsCount(s[1..], x);
      assert s == [s[0]] + s[1..];
      assert s[0] !in s[1..];
    }
  }

  lemma SameElements<T>(a: seq<T>, b: seq<T>)
    requires NoRepeats(a) && NoRepeats(b) && forall x :: x in a <==> x in b
    ensures multiset(a) == multiset(b)
  {
    forall x ensures multiset(a)[x] == multiset(b)[x] {
      NoRepeatsCount(a, x);
      NoRepeatsCount(b, x);
    }
  }
}
