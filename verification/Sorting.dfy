/**
Go's `sort.Slice` by an integer key, as the generators and the migration loader
use it. The sort is in place and not stable: its contract promises an ordered
permutation and says nothing about the order of equal keys.
*/
module Sorting {

  ghost predicate Ordered<T>(s: seq<T>, key: T -> int) {
    forall i, j :: 0 <= i < j < |s| ==> key(s[i]) <= key(s[j])
  }

  // s is one of the orders in which `ORDER BY key`, or a sort, may return the rows.
  ghost predicate SortOf<T>(s: seq<T>, rows: seq<T>, key: T -> int) {
    Ordered(s, key) && multiset(s) == multiset(rows)
  }

  ghost predicate DistinctKeys<T>(s: seq<T>, key: T -> int) {
    forall i, j :: 0 <= i < j < |s| ==> key(s[i]) != key(s[j])
  }

  lemma SameElements<T>(s: seq<T>, t: seq<T>)
    requires multiset(s) == multiset(t)
    ensures |s| == |t| && forall x :: x in s <==> x in t
  {
    assert |s| == |multiset(s)| == |multiset(t)| == |t|;
    forall x ensures x in s <==> x in t {
      assert x in s <==> x in multiset(s);
      assert x in t <==> x in multiset(t);
    }
  }

  lemma HeadOut<T>(s: seq<T>)
    requires s != []
    ensures multiset(s) == multiset{s[0]} + multiset(s[1..])
  {
    assert s == [s[0]] + s[1..];
  }

  // With distinct keys a permutation has only one ordered form.
  lemma {:induction false} OrderIsUnique<T>(s: seq<T>, t: seq<T>, key: T -> int)
    requires Ordered(s, key) && Ordered(t, key) && multiset(s) == multiset(t)
    requires DistinctKeys(s, key)
    ensures s == t
  {
    SameElements(s, t);
    if s != [] {
      SameHead(s, t, key);
      TailRows(s, t);
      OrderIsUnique(s[1..], t[1..], key);
      assert s == [s[0]] + s[1..] && t == [t[0]] + t[1..];
    }
  }

  lemma SameHead<T>(s: seq<T>, t: seq<T>, key: T -> int)
    requires s != [] && t != [] && Ordered(s, key) && Ordered(t, key) && DistinctKeys(s, key)
    requires s[0] in t && t[0] in s
    ensures s[0] == t[0]
  {
    var i :| 0 <= i < |t| && t[i] == s[0];
    var j :| 0 <= j < |s| && s[j] == t[0];
    assert key(t[0]) <= key(t[i]);
  }

  lemma TailRows<T>(s: seq<T>, t: seq<T>)
    requires s != [] && t != [] && s[0] == t[0] && multiset(s) == multiset(t)
    ensures multiset(s[1..]) == multiset(t[1..])
  {
    HeadOut(s);
    HeadOut(t);
    assert multiset(s[1..]) == multiset(s) - multiset{s[0]};
    assert multiset(t[1..]) == multiset(t) - multiset{t[0]};
  }

  ghost predicate HasTwo<T>(s: seq<T>, x: T) {
    exists i, j :: 0 <= i < j < |s| && s[i] == x && s[j] == x
  }

  // Two positions hold x exactly when x occurs at least twice.
  lemma OccursTwice<T>(s: seq<T>, x: T)
    ensures multiset(s)[x] >= 2 <==> HasTwo(s, x)
  {
    if HasTwo(s, x) {
      TwoPositions(s, x);
    }
    if multiset(s)[x] >= 2 {
      var i :| 0 <= i < |s| && s[i] == x;
      MultisetAt(s, i);
      var rest := s[..i] + s[i + 1..];
      assert multiset(rest) == multiset(s[..i]) + multiset(s[i + 1..]);
      assert x in rest;
      var k :| 0 <= k < |rest| && rest[k] == x;
      assert s[if k < i then k else k + 1] == x;
    }
  }

  lemma TwoPositions<T>(s: seq<T>, x: T)
    requires HasTwo(s, x)
    ensures multiset(s)[x] >= 2
  {
    var i, j :| 0 <= i < j < |s| && s[i] == x && s[j] == x;
    MultisetAt(s, j);
    assert s[..j][i] == x;
    assert x in multiset(s[..j]);
  }

  lemma MultisetAt<T>(s: seq<T>, i: nat)
    requires i < |s|
    ensures multiset(s) == multiset{s[i]} + (multiset(s[..i]) + multiset(s[i + 1..]))
  {
    assert s == s[..i] + [s[i]] + s[i + 1..];
  }

  // Distinctness of keys is a property of the rows, not of their order.
  lemma DistinctKeysPermute<T>(s: seq<T>, t: seq<T>, key: T -> int)
    requires multiset(s) == multiset(t) && DistinctKeys(s, key)
    ensures DistinctKeys(t, key)
  {
    SameElements(s, t);
    forall i, j | 0 <= i < j < |t| ensures key(t[i]) != key(t[j]) {
      assert t[i] in s && t[j] in s;
      if t[i] == t[j] {
        OccursTwice(t, t[i]);
        OccursTwice(s, t[i]);
      }
    }
  }

  ghost function Swapped<T>(s: seq<T>, i: nat): (t: seq<T>)
    requires i + 1 < |s|
  {
    s[i := s[i + 1]][i + 1 := s[i]]
  }

  lemma SwapKeepsRows<T>(s: seq<T>, i: nat)
    requires i + 1 < |s|
    ensures multiset(Swapped(s, i)) == multiset(s)
  {
    var t := Swapped(s, i);
    assert s == s[..i] + [s[i], s[i + 1]] + s[i + 2..];
    assert t == s[..i] + [s[i + 1], s[i]] + s[i + 2..];
  }

  // Every list of rows has an order.
  lemma {:induction false} SomeSort<T>(rows: seq<T>, key: T -> int) returns (s: seq<T>)
    ensures SortOf(s, rows, key)
  {
    if rows == [] { return []; }
    var t := SomeSort(rows[1..], key);
    s := InsertRow(rows[0], t, key);
    HeadOut(rows);
  }

  lemma {:induction false} InsertRow<T>(x: T, t: seq<T>, key: T -> int) returns (s: seq<T>)
    requires Ordered(t, key)
    ensures SortOf(s, [x] + t, key)
  {
    if t == [] || key(x) <= key(t[0]) { return [x] + t; }
    var u := InsertRow(x, t[1..], key);
    s := [t[0]] + u;
    PutBelow(x, t, u, key);
  }

  lemma SwapFront<T>(x: T, t: seq<T>, u: seq<T>)
    requires t != [] && multiset(u) == multiset([x] + t[1..])
    ensures multiset([t[0]] + u) == multiset([x] + t)
  {
    assert t == [t[0]] + t[1..];
    assert multiset([x] + t) == multiset{x} + multiset{t[0]} + multiset(t[1..]);
    assert multiset(u) == multiset{x} + multiset(t[1..]);
  }

  lemma PutBelow<T>(x: T, t: seq<T>, u: seq<T>, key: T -> int)
    requires t != [] && Ordered(t, key) && key(t[0]) <= key(x) && SortOf(u, [x] + t[1..], key)
    ensures SortOf([t[0]] + u, [x] + t, key)
  {
    SwapFront(x, t, u);
    SameElements(u, [x] + t[1..]);
    forall j | 0 <= j < |u| ensures key(t[0]) <= key(u[j]) { assert u[j] in u; }
  }

  // s[..n + 1] is ordered, except that s[hole] may be smaller than some before it.
  ghost predicate OrderedBut<T>(s: seq<T>, n: nat, hole: nat, key: T -> int) {
    forall i, j :: 0 <= i < j <= n && j < |s| && j != hole ==> key(s[i]) <= key(s[j])
  }

  lemma SwapDown<T>(s: seq<T>, n: nat, j: nat, key: T -> int)
    requires 0 < j <= n < |s| && OrderedBut(s, n, j, key) && key(s[j]) < key(s[j - 1])
    ensures OrderedBut(Swapped(s, j - 1), n, j - 1, key)
    ensures multiset(Swapped(s, j - 1)) == multiset(s)
  {
    SwapKeepsRows(s, j - 1);
  }

  lemma BackInOrder<T>(s: seq<T>, n: nat, j: nat, key: T -> int)
    requires j <= n < |s| && OrderedBut(s, n, j, key)
    requires j == 0 || key(s[j - 1]) <= key(s[j])
    ensures Ordered(s[..n + 1], key)
  {
    forall x, y | 0 <= x < y <= n ensures key(s[x]) <= key(s[y]) {
      if y == j && x < j - 1 {
        assert key(s[x]) <= key(s[j - 1]);
      }
    }
  }

  // sort.Slice(a, less) with less comparing keys.
  method SortSlice<T>(a: array<T>, key: T -> int)
    modifies a
    ensures SortOf(a[..], old(a[..]), key)
  {
    for n := 0 to a.Length
      invariant Ordered(a[..n], key)
      invariant multiset(a[..]) == old(multiset(a[..]))
    {
      Insert(a, n, key);
    }
    assert a[..a.Length] == a[..];
  }

  lemma LastOutOfOrder<T>(s: seq<T>, n: nat, key: T -> int)
    requires n < |s| && Ordered(s[..n], key)
    ensures OrderedBut(s, n, n, key)
  {
    assert forall x :: 0 <= x < n ==> s[x] == s[..n][x];
  }

  // Moves a[n] down into the ordered prefix a[..n].
  method Insert<T>(a: array<T>, n: nat, key: T -> int)
    requires n < a.Length && Ordered(a[..n], key)
    modifies a
    ensures Ordered(a[..n + 1], key)
    ensures multiset(a[..]) == old(multiset(a[..]))
  {
    var j := n;
    assert a[..][..n] == a[..n];
    LastOutOfOrder(a[..], n, key);
    while j > 0 && key(a[j]) < key(a[j - 1])
      invariant 0 <= j <= n && OrderedBut(a[..], n, j, key)
      invariant multiset(a[..]) == old(multiset(a[..]))
    {
      StepDown(a, n, j, key);
      j := j - 1;
    }
    BackInOrder(a[..], n, j, key);
    assert a[..][..n + 1] == a[..n + 1];
  }

  method StepDown<T>(a: array<T>, n: nat, j: nat, key: T -> int)
    requires 0 < j <= n < a.Length && OrderedBut(a[..], n, j, key) && key(a[j]) < key(a[j - 1])
    modifies a
    ensures OrderedBut(a[..], n, j - 1, key) && multiset(a[..]) == old(multiset(a[..]))
  {
    SwapDown(a[..], n, j, key);
    SwapDownAt(a, j - 1);
  }

  method SwapDownAt<T>(a: array<T>, i: nat)
    requires i + 1 < a.Length
    modifies a
    ensures a[..] == Swapped(old(a[..]), i)
  {
    a[i], a[i + 1] := a[i + 1], a[i];
  }
}
