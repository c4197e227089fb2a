/** `DiscriminantState`: the possible variants of an enum root, as a sorted vector. */
module DiscriminantStates {
  import opened Sequences
  import opened MoveStates

  predicate Increasing(s: seq<nat>) {
    forall i, j | 0 <= i < j < |s| :: s[i] < s[j]
  }

  datatype DiscriminantState = DiscriminantState(mayBeUnset: bool, possibleVariants: seq<nat>) {
    ghost predicate Valid() { Increasing(possibleVariants) }

    ghost function View(): Discriminant {
      Discriminant(mayBeUnset, Elements(possibleVariants))
    }
  }

  const UNSET := DiscriminantState(true, [])

  function Known(variant: nat): (d: DiscriminantState)
    ensures d.Valid() && d.View() == Discriminant(false, {variant})
  {
    DiscriminantState(false, [variant])
  }

  /** A sorted vector without duplicates is determined by its elements. */
  lemma {:induction false} SameElements(a: seq<nat>, b: seq<nat>)
    requires Increasing(a) && Increasing(b) && forall x :: x in a <==> x in b
    ensures a == b
  {
    assert a != [] ==> a[0] in a;
    assert b != [] ==> b[0] in b;
    if a != [] && b != [] {
      var i :| 0 <= i < |b| && b[i] == a[0];
      var j :| 0 <= j < |a| && a[j] == b[0];
      assert b[0] <= b[i] && a[0] <= a[j];
      forall x ensures x in a[1..] <==> x in b[1..] {
        if x in a[1..] { assert x in a && x != a[0]; assert x in b; }
        if x in b[1..] { assert x in b && x != b[0]; assert x in a; }
      }
      SameElements(a[1..], b[1..]);
    }
  }

  lemma SameView(a: DiscriminantState, b: DiscriminantState)
    requires a.Valid() && b.Valid()
    ensures a == b <==> a.View() == b.View()
  {
    if a.View() == b.View() {
      forall x ensures x in a.possibleVariants <==> x in b.possibleVariants {
        assert x in a.View().possible <==> x in b.View().possible;
      }
      SameElements(a.possibleVariants, b.possibleVariants);
    }
  }

  /** `binary_search`: the position of `x`, or where it would be inserted. */
  method BinarySearch(s: seq<nat>, x: nat) returns (found: bool, index: nat)
    requires Increasing(s)
    ensures found <==> x in s
    ensures index <= |s| && (found ==> index < |s| && s[index] == x)
    ensures !found ==> (forall i | 0 <= i < index :: s[i] < x) && forall i | index <= i < |s| :: x < s[i]
  {
    var low, high := 0, |s|;
    while low < high
      invariant 0 <= low <= high <= |s|
      invariant forall i | 0 <= i < low :: s[i] < x
      invariant forall i | high <= i < |s| :: x < s[i]
    {
      var middle := (low + high) / 2;
      if s[middle] < x {
        low := middle + 1;
      } else if x < s[middle] {
        high := middle;
      } else {
        return true, middle;
      }
    }
    return false, low;
  }

  method IncludeVariant(d: DiscriminantState, variant: nat) returns (r: DiscriminantState)
    requires d.Valid()
    ensures r.Valid()
    ensures r.View() == Discriminant(d.mayBeUnset, d.View().possible + {variant})
  {
    var found, index := BinarySearch(d.possibleVariants, variant);
    if found {
      r := d;
    } else {
      var before, after := d.possibleVariants[..index], d.possibleVariants[index..];
      assert d.possibleVariants == before + after;
      r := DiscriminantState(d.mayBeUnset, before + [variant] + after);
    }
    assert r.View().possible == d.View().possible + {variant};
  }

  method IncludeAll(d: DiscriminantState, variants: seq<nat>) returns (r: DiscriminantState)
    requires d.Valid()
    ensures r.Valid()
    ensures r.View() == Discriminant(d.mayBeUnset, d.View().possible + Elements(variants))
  {
    r := d;
    for i := 0 to |variants|
      invariant r.Valid()
      invariant r.View() == Discriminant(d.mayBeUnset, d.View().possible + Elements(variants[..i]))
    {
      r := IncludeVariant(r, variants[i]);
      assert Elements(variants[..i + 1]) == Elements(variants[..i]) + {variants[i]};
    }
    assert variants[..|variants|] == variants;
  }

  method JoinWith(d: DiscriminantState, other: DiscriminantState) returns (r: DiscriminantState)
    requires d.Valid() && other.Valid()
    ensures r.Valid() && r.View() == JoinDiscriminant(d.View(), other.View())
  {
    r := IncludeAll(d.(mayBeUnset := d.mayBeUnset || other.mayBeUnset), other.possibleVariants);
  }
}
