/**
First match on printed lines against best match on rows: the lines of rows in
priority order decide as the matching row of the smallest priority number does.
*/
module Matching {
  import opened Text
  import opened Sorting

  // The first line that applies.
  function First<E>(es: seq<E>, applies: E -> bool): Option<E> {
    if es == [] then None
    else if applies(es[0]) then Some(es[0])
    else First(es[1..], applies)
  }

  // w is a matching row of the smallest priority number.
  ghost predicate Best<T(!new)>(rows: seq<T>, w: T, hit: T -> bool, key: T -> int) {
    w in rows && hit(w) && forall r :: r in rows && hit(r) ==> key(w) <= key(r)
  }

  ghost predicate AnyHit<T(!new)>(rows: seq<T>, hit: T -> bool) {
    exists r :: r in rows && hit(r)
  }

  lemma BestIsUnique<T(!new)>(rows: seq<T>, hit: T -> bool, key: T -> int)
    requires DistinctKeys(rows, key)
    ensures forall v, w :: Best(rows, v, hit, key) && Best(rows, w, hit, key) ==> v == w
  {
    forall v, w | Best(rows, v, hit, key) && Best(rows, w, hit, key) ensures v == w {
      var i :| 0 <= i < |rows| && rows[i] == v;
      var j :| 0 <= j < |rows| && rows[j] == w;
      assert key(v) == key(w);
    }
  }

  // Row r prints as one line, which applies exactly when r matches.
  ghost predicate Prints<T(!new), E>(f: T -> seq<E>, r: T, applies: E -> bool, hit: T -> bool) {
    |f(r)| == 1 && (applies(f(r)[0]) <==> hit(r))
  }

  lemma {:induction false} FirstIsBest<T(!new), E>(rows: seq<T>, f: T -> seq<E>, applies: E -> bool,
                                                   hit: T -> bool, key: T -> int, rest: seq<E>)
    requires Ordered(rows, key)
    requires forall r :: r in rows ==> Prints(f, r, applies, hit)
    ensures if AnyHit(rows, hit)
            then exists w :: Best(rows, w, hit, key) && |f(w)| == 1 && First(FlatMap(f, rows) + rest, applies) == Some(f(w)[0])
            else First(FlatMap(f, rows) + rest, applies) == First(rest, applies)
  {
    if rows == [] {
      assert FlatMap(f, rows) + rest == rest;
    } else {
      var r, tail := rows[0], rows[1..];
      assert r in rows && rows == [r] + tail;
      assert Prints(f, r, applies, hit);
      var es := FlatMap(f, tail) + rest;
      assert FlatMap(f, rows) + rest == [f(r)[0]] + es;
      assert ([f(r)[0]] + es)[1..] == es;
      if hit(r) {
        assert Best(rows, r, hit, key);
      } else {
        FirstIsBest(tail, f, applies, hit, key, rest);
        if AnyHit(tail, hit) {
          var w :| Best(tail, w, hit, key) && |f(w)| == 1 && First(es, applies) == Some(f(w)[0]);
          assert Best(rows, w, hit, key);
        }
      }
    }
  }

  // Reordering the rows changes neither what matches nor which row is best.
  lemma BestPermutes<T(!new)>(rows: seq<T>, ordered: seq<T>, hit: T -> bool, key: T -> int)
    requires SortOf(ordered, rows, key)
    ensures AnyHit(rows, hit) <==> AnyHit(ordered, hit)
    ensures forall w :: Best(rows, w, hit, key) <==> Best(ordered, w, hit, key)
  {
    SameElements(ordered, rows);
  }

  lemma {:induction false} BestExists<T(!new)>(rows: seq<T>, hit: T -> bool, key: T -> int)
    requires AnyHit(rows, hit)
    ensures exists w :: Best(rows, w, hit, key)
  {
    var r, tail := rows[0], rows[1..];
    assert rows == [r] + tail;
    if AnyHit(tail, hit) {
      BestExists(tail, hit, key);
      var w :| Best(tail, w, hit, key);
      if hit(r) && key(r) <= key(w) {
        assert Best(rows, r, hit, key);
      } else {
        assert Best(rows, w, hit, key);
      }
    } else {
      assert Best(rows, r, hit, key);
    }
  }
}
