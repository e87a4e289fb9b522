/**
Printing rows in an order that the rows do not fully determine: neither the queries nor
the sorts order rows of equal priority. When is the result determined all the same?
*/
module Determinacy {
  import opened Text
  import opened Sorting

  // ---- What ties do to a list of printed rows ----

  // Tied rows print the same in either order.
  ghost predicate TiesCommute<T(!new), E>(rows: seq<T>, f: T -> seq<E>, key: T -> int) {
    forall a, b :: a in rows && b in rows && key(a) == key(b) ==> f(a) + f(b) == f(b) + f(a)
  }

  ghost predicate Determined<T(!new), E>(rows: seq<T>, f: T -> seq<E>, key: T -> int) {
    forall s, t :: SortOf(s, rows, key) && SortOf(t, rows, key) ==> FlatMap(f, s) == FlatMap(f, t)
  }

  lemma {:induction false} CommuteMany<T, E>(x: seq<E>, rows: seq<T>, f: T -> seq<E>)
    requires forall r :: r in rows ==> x + f(r) == f(r) + x
    ensures x + FlatMap(f, rows) == FlatMap(f, rows) + x
  {
    if rows == [] {
      assert x + [] == [] + x;
    } else {
      var r, rest := rows[0], FlatMap(f, rows[1..]);
      assert r in rows && forall q :: q in rows[1..] ==> q in rows;
      CommuteMany(x, rows[1..], f);
      assert x + (f(r) + rest) == (x + f(r)) + rest;
      assert (f(r) + x) + rest == f(r) + (x + rest);
      assert f(r) + (rest + x) == (f(r) + rest) + x;
    }
  }

  lemma OneOut<T>(t: seq<T>, i: nat)
    requires i < |t|
    ensures multiset(t) == multiset{t[i]} + multiset(t[..i] + t[i + 1..])
  {
    MultisetAt(t, i);
    assert multiset(t[..i] + t[i + 1..]) == multiset(t[..i]) + multiset(t[i + 1..]);
  }

  lemma SplitThree<T, E>(a: seq<T>, x: T, b: seq<T>, f: T -> seq<E>)
    ensures FlatMap(f, a + [x] + b) == FlatMap(f, a) + f(x) + FlatMap(f, b)
  {
    FlatMapAppend(f, a + [x], b);
    FlatMapAppend(f, a, [x]);
    FlatMapOne(f, x);
  }

  lemma SplitAt<T, E>(t: seq<T>, i: nat, f: T -> seq<E>)
    requires i < |t|
    ensures FlatMap(f, t) == FlatMap(f, t[..i]) + f(t[i]) + FlatMap(f, t[i + 1..])
  {
    SplitThree(t[..i], t[i], t[i + 1..], f);
    assert t == t[..i] + [t[i]] + t[i + 1..];
  }

  lemma MoveFront<E>(head: seq<E>, x: seq<E>, tail: seq<E>)
    requires x + head == head + x
    ensures head + x + tail == x + (head + tail)
  {
    assert (x + head) + tail == x + (head + tail);
  }

  // The rows before the first occurrence of a least row tie with it.
  lemma HeadTies<T(!new), E>(s: seq<T>, t: seq<T>, i: nat, r: T, f: T -> seq<E>, key: T -> int)
    requires s != [] && i < |t| && t[i] == s[0] && Ordered(s, key) && Ordered(t, key) && multiset(s) == multiset(t)
    requires TiesCommute(s, f, key) && r in t[..i]
    ensures f(s[0]) + f(r) == f(r) + f(s[0])
  {
    SameElements(s, t);
    var j :| 0 <= j < i && t[..i][j] == r;
    assert t[j] == r && r in t && key(r) <= key(t[i]);
    LeastFirst(s, r, key);
  }

  // The least row of one order can be moved to the front of the other.
  lemma MoveFirst<T(!new), E>(s: seq<T>, t: seq<T>, i: nat, f: T -> seq<E>, key: T -> int)
    requires s != [] && i < |t| && t[i] == s[0] && Ordered(s, key) && Ordered(t, key) && multiset(s) == multiset(t)
    requires TiesCommute(s, f, key)
    ensures FlatMap(f, t) == f(s[0]) + FlatMap(f, t[..i] + t[i + 1..])
  {
    forall r | r in t[..i] ensures f(s[0]) + f(r) == f(r) + f(s[0]) { HeadTies(s, t, i, r, f, key); }
    CommuteMany(f(s[0]), t[..i], f);
    SplitAt(t, i, f);
    FlatMapAppend(f, t[..i], t[i + 1..]);
    MoveFront(FlatMap(f, t[..i]), f(s[0]), FlatMap(f, t[i + 1..]));
  }

  lemma LeastFirst<T>(s: seq<T>, r: T, key: T -> int)
    requires s != [] && Ordered(s, key) && r in s
    ensures s[0] in s && key(s[0]) <= key(r)
  {
    var j :| 0 <= j < |s| && s[j] == r;
  }

  lemma DropAt<T>(t: seq<T>, i: nat, key: T -> int)
    requires i < |t| && Ordered(t, key)
    ensures Ordered(t[..i] + t[i + 1..], key)
  {
    var u := t[..i] + t[i + 1..];
    forall x, y | 0 <= x < y < |u| ensures key(u[x]) <= key(u[y]) {
      assert u[x] == t[if x < i then x else x + 1] && u[y] == t[if y < i then y else y + 1];
    }
  }

  lemma DropHead<T>(s: seq<T>, t: seq<T>, i: nat)
    requires s != [] && i < |t| && t[i] == s[0] && multiset(s) == multiset(t)
    ensures multiset(t[..i] + t[i + 1..]) == multiset(s[1..])
  {
    OneOut(t, i);
    HeadOut(s);
    assert multiset(t[..i] + t[i + 1..]) == multiset(t) - multiset{s[0]};
    assert multiset(s[1..]) == multiset(s) - multiset{s[0]};
  }

  lemma {:induction false} CommutingIsDetermined<T(!new), E>(s: seq<T>, t: seq<T>, f: T -> seq<E>, key: T -> int)
    requires Ordered(s, key) && Ordered(t, key) && multiset(s) == multiset(t) && TiesCommute(s, f, key)
    ensures FlatMap(f, s) == FlatMap(f, t)
    decreases |s|
  {
    SameElements(s, t);
    if s != [] {
      assert s[0] in s;
      var i :| 0 <= i < |t| && t[i] == s[0];
      MoveFirst(s, t, i, f, key);
      DropAt(t, i, key);
      DropHead(s, t, i);
      TailCommutes(s, f, key);
      CommutingIsDetermined(s[1..], t[..i] + t[i + 1..], f, key);
    }
  }

  lemma TailCommutes<T(!new), E>(s: seq<T>, f: T -> seq<E>, key: T -> int)
    requires s != [] && TiesCommute(s, f, key)
    ensures TiesCommute(s[1..], f, key)
  {
    assert forall r :: r in s[1..] ==> r in s;
  }

  // All rows of an ordered list below k, then the others.
  lemma {:induction false} CutBelow<T>(s: seq<T>, k: int, key: T -> int) returns (i: nat)
    requires Ordered(s, key)
    ensures i <= |s| && (forall j :: 0 <= j < i ==> key(s[j]) < k) && (forall j :: i <= j < |s| ==> k <= key(s[j]))
  {
    if s == [] || k <= key(s[0]) {
      i := 0;
    } else {
      var n := CutBelow(s[1..], k, key);
      i := n + 1;
      assert forall j :: 1 <= j < |s| ==> s[j] == s[1..][j - 1];
    }
  }

  lemma BetweenOrdered<T>(lo: seq<T>, a: T, b: T, hi: seq<T>, key: T -> int)
    requires Ordered(lo, key) && Ordered(hi, key) && key(a) == key(b)
    requires forall r :: r in lo ==> key(r) <= key(a)
    requires forall r :: r in hi ==> key(a) <= key(r)
    ensures Ordered(lo + [a, b] + hi, key)
  {
    var s, n := lo + [a, b] + hi, |lo|;
    forall x, y | 0 <= x < y < |s| ensures key(s[x]) <= key(s[y]) {
      if x < n { assert s[x] == lo[x] && lo[x] in lo; }
      if y < n { assert s[y] == lo[y]; }
      if x >= n + 2 { assert s[x] == hi[x - n - 2]; }
      if y >= n + 2 { assert s[y] == hi[y - n - 2] && hi[y - n - 2] in hi; }
    }
  }

  lemma TwoOut<T>(rows: seq<T>, i: nat, j: nat)
    requires i < j < |rows|
    ensures multiset(rows) == multiset{rows[i], rows[j]} + multiset(rows[..i] + rows[i + 1..j] + rows[j + 1..])
  {
    assert rows == rows[..i] + [rows[i]] + rows[i + 1..j] + [rows[j]] + rows[j + 1..];
  }

  lemma PutTwo<T>(rows: seq<T>, lo: seq<T>, hi: seq<T>, rest: multiset<T>, a: T, b: T)
    requires multiset(rows) == multiset{a, b} + rest && multiset(lo + hi) == rest
    ensures multiset(lo + [a, b] + hi) == multiset(rows)
  {
    assert multiset(lo + hi) == multiset(lo) + multiset(hi);
    assert multiset(lo + [a, b] + hi) == multiset(lo) + multiset{a, b} + multiset(hi);
  }

  // Any two tied rows can come next to each other, either way round.
  lemma TiedNeighbours<T>(rows: seq<T>, i: nat, j: nat, key: T -> int) returns (lo: seq<T>, hi: seq<T>)
    requires i < j < |rows| && key(rows[i]) == key(rows[j])
    ensures SortOf(lo + [rows[i], rows[j]] + hi, rows, key) && SortOf(lo + [rows[j], rows[i]] + hi, rows, key)
  {
    var a, b := rows[i], rows[j];
    ghost var rest := rows[..i] + rows[i + 1..j] + rows[j + 1..];
    var s := SomeSort(rest, key);
    var n := CutBelow(s, key(a), key);
    lo, hi := s[..n], s[n..];
    assert s == lo + hi;
    TwoOut(rows, i, j);
    PutTwo(rows, lo, hi, multiset(rest), a, b);
    PutTwo(rows, lo, hi, multiset(rest), b, a);
    BetweenOrdered(lo, a, b, hi, key);
    BetweenOrdered(lo, b, a, hi, key);
  }

  lemma MiddleDecides<E>(p: seq<E>, x: seq<E>, y: seq<E>, q: seq<E>)
    requires |x| == |y| && p + x + q == p + y + q
    ensures x == y
  {
    forall k | 0 <= k < |x| ensures x[k] == y[k] {
      assert (p + x + q)[|p| + k] == x[k] && (p + y + q)[|p| + k] == y[k];
    }
  }

  lemma Between<T, E>(lo: seq<T>, a: T, b: T, hi: seq<T>, f: T -> seq<E>)
    ensures FlatMap(f, lo + [a, b] + hi) == FlatMap(f, lo) + (f(a) + f(b)) + FlatMap(f, hi)
  {
    FlatMapAppend(f, lo + [a, b], hi);
    FlatMapAppend(f, lo, [a, b]);
    FlatMapAppend(f, [a], [b]);
    FlatMapOne(f, a);
    FlatMapOne(f, b);
    assert [a] + [b] == [a, b];
  }

  lemma NeighboursCommute<T(!new), E>(rows: seq<T>, lo: seq<T>, a: T, b: T, hi: seq<T>, f: T -> seq<E>, key: T -> int)
    requires Determined(rows, f, key)
    requires SortOf(lo + [a, b] + hi, rows, key) && SortOf(lo + [b, a] + hi, rows, key)
    ensures f(a) + f(b) == f(b) + f(a)
  {
    var s, t := lo + [a, b] + hi, lo + [b, a] + hi;
    assert FlatMap(f, s) == FlatMap(f, t);
    BothWays(lo, a, b, hi, f);
  }

  lemma BothWays<T, E>(lo: seq<T>, a: T, b: T, hi: seq<T>, f: T -> seq<E>)
    requires FlatMap(f, lo + [a, b] + hi) == FlatMap(f, lo + [b, a] + hi)
    ensures f(a) + f(b) == f(b) + f(a)
  {
    var p, q, x, y := FlatMap(f, lo), FlatMap(f, hi), f(a) + f(b), f(b) + f(a);
    Between(lo, a, b, hi, f);
    Between(lo, b, a, hi, f);
    MiddleDecides(p, x, y, q);
  }

  lemma DeterminedCommutes<T(!new), E>(rows: seq<T>, a: T, b: T, f: T -> seq<E>, key: T -> int)
    requires Determined(rows, f, key) && a in rows && b in rows && key(a) == key(b)
    ensures f(a) + f(b) == f(b) + f(a)
  {
    var i :| 0 <= i < |rows| && rows[i] == a;
    var j :| 0 <= j < |rows| && rows[j] == b;
    if i < j {
      var lo, hi := TiedNeighbours(rows, i, j, key);
      NeighboursCommute(rows, lo, a, b, hi, f, key);
    } else if j < i {
      var lo, hi := TiedNeighbours(rows, j, i, key);
      NeighboursCommute(rows, lo, b, a, hi, f, key);
    }
  }

  // For every way of printing rows: the order of the rows determines nothing exactly when
  // ties are harmless.
  lemma DeterminedIff<T(!new), E>(rows: seq<T>, f: T -> seq<E>, key: T -> int)
    ensures Determined(rows, f, key) <==> TiesCommute(rows, f, key)
  {
    if TiesCommute(rows, f, key) {
      forall s, t | SortOf(s, rows, key) && SortOf(t, rows, key) ensures FlatMap(f, s) == FlatMap(f, t) {
        SameElements(s, rows);
        CommutingIsDetermined(s, t, f, key);
      }
    }
    if Determined(rows, f, key) {
      forall a, b | a in rows && b in rows && key(a) == key(b) ensures f(a) + f(b) == f(b) + f(a) {
        DeterminedCommutes(rows, a, b, f, key);
      }
    }
  }
}
