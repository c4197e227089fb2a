/** Lists gathered position by position: block after block, operation after operation. */
module Placement {

  function FlatRow<T>(row: seq<seq<T>>): seq<T> {
    if row == [] then [] else FlatRow(row[..|row| - 1]) + row[|row| - 1]
  }

  lemma FlatRowNext<T>(row: seq<seq<T>>, i: nat)
    requires i < |row|
    ensures FlatRow(row[..i + 1]) == FlatRow(row[..i]) + row[i]
  {
    assert row[..i + 1][..i] == row[..i];
  }

  lemma FlatRowNone<T>(row: seq<seq<T>>)
    ensures FlatRow(row[..0]) == []
  {
  }

  function Flat<T>(table: seq<seq<seq<T>>>): seq<T> {
    if table == [] then [] else Flat(table[..|table| - 1]) + FlatRow(table[|table| - 1])
  }

  /** The items of `s` at block `b`, operation `i`. */
  function Pick<T>(s: seq<T>, at: T -> (nat, nat), b: nat, i: nat): seq<T> {
    if s == [] then []
    else Pick(s[..|s| - 1], at, b, i) + (if at(s[|s| - 1]) == (b, i) then [s[|s| - 1]] else [])
  }

  ghost predicate PlacedAt<T>(s: seq<T>, at: T -> (nat, nat), b: nat, i: nat) {
    forall x | x in s :: at(x) == (b, i)
  }

  lemma {:induction false} PickConcat<T>(s: seq<T>, t: seq<T>, at: T -> (nat, nat), b: nat, i: nat)
    ensures Pick(s + t, at, b, i) == Pick(s, at, b, i) + Pick(t, at, b, i)
    decreases |t|
  {
    if t == [] {
      assert s + t == s;
    } else {
      assert (s + t)[..|s + t| - 1] == s + t[..|t| - 1];
      PickConcat(s, t[..|t| - 1], at, b, i);
    }
  }

  lemma {:induction false} PickPlaced<T>(s: seq<T>, at: T -> (nat, nat), b: nat, i: nat, b': nat, i': nat)
    requires PlacedAt(s, at, b', i')
    ensures Pick(s, at, b, i) == if (b, i) == (b', i') then s else []
  {
    if s != [] {
      var n := |s| - 1;
      assert forall x | x in s[..n] :: x in s;
      PickPlaced(s[..n], at, b, i, b', i');
      assert s == s[..n] + [s[n]] && s[n] in s;
    }
  }

  lemma FlatNext<T>(table: seq<seq<seq<T>>>, b: nat)
    requires b < |table|
    ensures Flat(table[..b + 1]) == Flat(table[..b]) + FlatRow(table[b])
  {
    assert table[..b + 1][..b] == table[..b];
  }

  lemma FlatNone<T>(table: seq<seq<seq<T>>>)
    ensures Flat(table[..0]) == []
  {
  }

  lemma PickNone<T>(at: T -> (nat, nat), b: nat, i: nat)
    ensures Pick<T>([], at, b, i) == []
  {
  }

  lemma {:induction false} PickRow<T>(row: seq<seq<T>>, at: T -> (nat, nat), b: nat, i: nat, b': nat, n: nat)
    requires n <= |row| && forall y: nat | y < |row| :: PlacedAt(row[y], at, b', y)
    ensures Pick(FlatRow(row[..n]), at, b, i) == if b == b' && i < n then row[i] else []
  {
    hide *;
    if n == 0 {
      FlatRowNone(row);
      PickNone(at, b, i);
    } else {
      FlatRowNext(row, n - 1);
      PickRow(row, at, b, i, b', n - 1);
      PickPlaced(row[n - 1], at, b, i, b', n - 1);
      PickConcat(FlatRow(row[..n - 1]), row[n - 1], at, b, i);
    }
  }

  /** Gathering loses nothing and mixes nothing up. */
  lemma {:induction false} PickTable<T>(table: seq<seq<seq<T>>>, at: T -> (nat, nat), b: nat, i: nat, n: nat)
    requires n <= |table|
    requires forall x: nat, y: nat | x < |table| && y < |table[x]| :: PlacedAt(table[x][y], at, x, y)
    ensures Pick(Flat(table[..n]), at, b, i) == if b < n && i < |table[b]| then table[b][i] else []
  {
    hide *;
    if n == 0 {
      FlatNone(table);
      PickNone(at, b, i);
    } else {
      var row := table[n - 1];
      FlatNext(table, n - 1);
      PickTable(table, at, b, i, n - 1);
      PickRow(row, at, b, i, n - 1, |row|);
      assert row[..|row|] == row;
      PickConcat(Flat(table[..n - 1]), FlatRow(row), at, b, i);
    }
  }

  lemma PickFlat<T>(table: seq<seq<seq<T>>>, at: T -> (nat, nat), b: nat, i: nat)
    requires forall x: nat, y: nat | x < |table| && y < |table[x]| :: PlacedAt(table[x][y], at, x, y)
    ensures Pick(Flat(table), at, b, i) == if b < |table| && i < |table[b]| then table[b][i] else []
  {
    PickTable(table, at, b, i, |table|);
    assert table[..|table|] == table;
  }

  lemma {:induction false} RowMember<T>(row: seq<seq<T>>, x: T)
    ensures x in FlatRow(row) <==> exists i: nat :: i < |row| && x in row[i]
  {
    if row != [] {
      var n := |row| - 1;
      RowMember(row[..n], x);
      if i: nat :| i < n && x in row[..n][i] { assert x in row[i]; }
      if i: nat :| i < |row| && x in row[i] { assert i < n ==> x in row[..n][i]; }
    }
  }

  /** Gathering keeps every item and adds none. */
  lemma {:induction false} FlatMember<T>(table: seq<seq<seq<T>>>, x: T)
    ensures x in Flat(table) <==> exists b: nat, i: nat :: b < |table| && i < |table[b]| && x in table[b][i]
  {
    if table != [] {
      var n := |table| - 1;
      FlatMember(table[..n], x);
      RowMember(table[n], x);
      if b: nat, i: nat :| b < n && i < |table[..n][b]| && x in table[..n][b][i] { assert x in table[b][i]; }
      if b: nat, i: nat :| b < |table| && i < |table[b]| && x in table[b][i] {
        assert b < n ==> x in table[..n][b][i];
      }
    }
  }

  lemma NothingGathered<T>(table: seq<seq<seq<T>>>)
    requires forall b: nat, i: nat | b < |table| && i < |table[b]| :: table[b][i] == []
    ensures Flat(table) == []
  {
    if Flat(table) != [] { FlatMember(table, Flat(table)[0]); }
  }
}
