/** Counting finite sets. */
module Counting {

  lemma {:induction false} Smaller<T>(a: set<T>, b: set<T>)
    requires a <= b
    ensures |a| <= |b|
    decreases |a|
  {
    if a != {} {
      var x :| x in a;
      Smaller(a - {x}, b - {x});
    }
  }

  lemma Fewer<T>(a: set<T>, b: set<T>, x: T)
    requires a <= b && x in b && x !in a
    ensures |a| < |b|
  {
    Smaller(a, b - {x});
  }

  /** A sequence without repetitions is as long as the set of its elements. */
  lemma {:induction false} DistinctLength<T>(s: seq<T>)
    requires forall i, j | 0 <= i < j < |s| :: s[i] != s[j]
    ensures |(set x <- s)| == |s|
  {
    if s != [] {
      var n := |s| - 1;
      DistinctLength(s[..n]);
      assert (set x <- s) == (set x <- s[..n]) + {s[n]};
    }
  }
}

/** ORDER BY ... LIMIT n over a finite set of rows. */
module Ranking {

  /** A sort key: a time and a tie-breaker. */
  datatype Key = Key(time: int, tie: int)

  predicate Le(x: Key, y: Key) { x.time < y.time || (x.time == y.time && x.tie <= y.tie) }

  /** `sel` is an answer to "the first `limit` rows of `pool` in the order of `key`"; equal keys go either way. */
  ghost predicate IsTop<T(!new)>(key: T -> Key, pool: set<T>, limit: nat, sel: seq<T>) {
    && |sel| <= limit
    && (forall i | 0 <= i < |sel| :: sel[i] in pool)
    && (forall i, j | 0 <= i < j < |sel| :: sel[i] != sel[j] && Le(key(sel[i]), key(sel[j])))
    && (forall u | u in pool && u !in sel :: |sel| == limit && AllBefore(key, sel, u))
  }

  ghost predicate AllBefore<T(!new)>(key: T -> Key, sel: seq<T>, u: T) {
    forall i | 0 <= i < |sel| :: Le(key(sel[i]), key(u))
  }

  ghost predicate IsLeast<T(!new)>(key: T -> Key, pool: set<T>, m: T) {
    m in pool && forall u <- pool :: Le(key(m), key(u))
  }

  lemma {:induction false} HasLeast<T(!new)>(key: T -> Key, pool: set<T>)
    requires pool != {}
    ensures exists m :: IsLeast(key, pool, m)
    decreases |pool|
  {
    var x :| x in pool;
    var rest := pool - {x};
    if rest == {} {
      assert forall u <- pool :: u == x || u in rest;
      assert IsLeast(key, pool, x);
    } else {
      HasLeast(key, rest);
      var m :| IsLeast(key, rest, m);
      var least := if Le(key(x), key(m)) then x else m;
      forall u <- pool ensures Le(key(least), key(u)) {
        assert u == x || u in rest;
      }
      assert IsLeast(key, pool, least);
    }
  }

  /** The rows one query returns. */
  method SelectTop<T(!new, ==)>(key: T -> Key, pool: set<T>, limit: nat) returns (sel: seq<T>)
    ensures IsTop(key, pool, limit, sel)
  {
    sel := [];
    var rest := pool;
    while rest != {} && |sel| < limit
      invariant |sel| <= limit
      invariant forall u :: u in pool <==> u in rest || u in sel
      invariant forall i | 0 <= i < |sel| :: sel[i] !in rest
      invariant forall i, j | 0 <= i < j < |sel| :: sel[i] != sel[j] && Le(key(sel[i]), key(sel[j]))
      invariant forall u <- rest :: AllBefore(key, sel, u)
      decreases |rest|
    {
      HasLeast(key, rest);
      ghost var least :| IsLeast(key, rest, least);
      assert least in rest && forall u <- rest :: Le(key(least), key(u));
      var m :| m in rest && forall u <- rest :: Le(key(m), key(u));
      sel, rest := sel + [m], rest - {m};
    }
  }

  /** Every least row heads some answer, so with a positive limit a query can return it. */
  lemma {:induction false} TopStartingWith<T(!new)>(key: T -> Key, pool: set<T>, limit: nat, first: T)
    returns (sel: seq<T>)
    requires IsLeast(key, pool, first) && limit > 0
    ensures IsTop(key, pool, limit, sel) && sel != [] && sel[0] == first
    decreases |pool|
  {
    var rest := pool - {first};
    if rest == {} || limit == 1 {
      sel := [first];
      assert forall u <- pool :: u == first || u in rest;
    } else {
      HasLeast(key, rest);
      var m :| IsLeast(key, rest, m);
      var tail := TopStartingWith(key, rest, limit - 1, m);
      sel := [first] + tail;
      Prepend(key, pool, limit, first, tail);
    }
  }

  lemma PrependSorted<T(!new)>(key: T -> Key, pool: set<T>, first: T, tail: seq<T>)
    requires IsLeast(key, pool, first) && forall i | 0 <= i < |tail| :: tail[i] in pool - {first}
    requires forall i, j | 0 <= i < j < |tail| :: tail[i] != tail[j] && Le(key(tail[i]), key(tail[j]))
    ensures var sel := [first] + tail;
      && (forall i | 0 <= i < |sel| :: sel[i] in pool)
      && (forall i, j | 0 <= i < j < |sel| :: sel[i] != sel[j] && Le(key(sel[i]), key(sel[j])))
  {
    var sel := [first] + tail;
    assert forall i | 0 < i < |sel| :: sel[i] == tail[i - 1];
  }

  lemma Prepend<T(!new)>(key: T -> Key, pool: set<T>, limit: nat, first: T, tail: seq<T>)
    requires IsLeast(key, pool, first) && limit > 0
    requires IsTop(key, pool - {first}, limit - 1, tail)
    ensures IsTop(key, pool, limit, [first] + tail)
  {
    var sel := [first] + tail;
    PrependSorted(key, pool, first, tail);
    forall u | u in pool && u !in sel ensures |sel| == limit && AllBefore(key, sel, u) {
      assert u != sel[0];
      assert u in pool - {first} && u !in tail;
      assert AllBefore(key, tail, u);
      assert forall i | 0 < i < |sel| :: sel[i] == tail[i - 1];
    }
  }
}
