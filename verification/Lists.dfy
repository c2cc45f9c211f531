/** Lists of distinct numbers, from which one can be unlinked anywhere. */
module Lists {

  ghost predicate Distinct<T>(list: seq<T>) {
    forall i, j :: 0 <= i < j < |list| ==> list[i] != list[j]
  }

  /** The first place of `x` in the list, or its length. */
  function Position(list: seq<nat>, x: nat): (i: nat)
    ensures i <= |list|
    ensures i < |list| ==> list[i] == x
    ensures i == |list| ==> x !in list
  {
    if list == [] then 0 else if list[0] == x then 0 else 1 + Position(list[1..], x)
  }

  /** The list with `x` unlinked. */
  function Without(list: seq<nat>, x: nat): (r: seq<nat>) {
    var i := Position(list, x);
    if i < |list| then list[..i] + list[i + 1..] else list
  }

  lemma WithoutContents(list: seq<nat>, x: nat)
    requires Distinct(list) && x in list
    ensures var r := Without(list, x);
      && |r| == |list| - 1 && Distinct(r) && (forall y :: y in r <==> y in list && y != x)
  {
    var i, r := Position(list, x), Without(list, x);
    assert forall j :: 0 <= j < |r| ==> r[j] == list[if j < i then j else j + 1];
    forall y | y in list && y != x ensures y in r {
      var j :| 0 <= j < |list| && list[j] == y;
      assert r[if j < i then j else j - 1] == y;
    }
  }

  // ----- filtering

  /** The list without the waiters that are gone. */
  function Drop(s: seq<nat>, gone: set<nat>): (r: seq<nat>)
  {
    if s == [] then [] else if s[0] in gone then Drop(s[1..], gone) else [s[0]] + Drop(s[1..], gone)
  }

  lemma {:induction false} DropHas(s: seq<nat>, gone: set<nat>)
    ensures var r := Drop(s, gone); |r| <= |s| && forall x :: x in r <==> x in s && x !in gone
  {
    if s == [] {
    } else {
      DropHas(s[1..], gone);
    }
  }

  lemma {:induction false} DropNone(s: seq<nat>, gone: set<nat>)
    requires forall x :: x in s ==> x !in gone
    ensures Drop(s, gone) == s
  {
    if s == [] {
    } else {
      DropNone(s[1..], gone);
    }
  }

  lemma {:induction false} DropConcat(s: seq<nat>, t: seq<nat>, gone: set<nat>)
    ensures Drop(s + t, gone) == Drop(s, gone) + Drop(t, gone)
  {
    if s == [] {
      assert s + t == t;
    } else {
      DropConcat(s[1..], t, gone);
      assert (s + t)[1..] == s[1..] + t;
    }
  }

  lemma {:induction false} DropTwice(s: seq<nat>, a: set<nat>, b: set<nat>)
    requires a <= b
    ensures Drop(Drop(s, a), b) == Drop(s, b)
  {
    if s == [] {
    } else {
      DropTwice(s[1..], a, b);
      assert s[0] !in a ==> ([s[0]] + Drop(s[1..], a))[1..] == Drop(s[1..], a);
    }
  }

  /** Only what happens to the elements matters. */
  lemma {:induction false} DropSame(s: seq<nat>, a: set<nat>, b: set<nat>)
    requires forall x :: x in s ==> (x in a <==> x in b)
    ensures Drop(s, a) == Drop(s, b)
  {
    if s == [] {
    } else {
      DropSame(s[1..], a, b);
    }
  }

  predicate Increasing(s: seq<nat>) {
    forall i, j :: 0 <= i < j < |s| ==> s[i] < s[j]
  }

  lemma {:induction false} DropIncreasing(s: seq<nat>, gone: set<nat>)
    requires Increasing(s)
    ensures Increasing(Drop(s, gone))
  {
    if s == [] {
    } else {
      DropIncreasing(s[1..], gone);
      DropHas(s[1..], gone);
      var r := Drop(s[1..], gone);
      assert forall i :: 0 <= i < |r| ==> r[i] in s[1..];
    }
  }
}
