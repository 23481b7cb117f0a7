/** Finite sets of integers: extremes (SQL MIN and MAX) and ascending enumeration. */
module IntSets {
  import opened Prelude
  import opened Seqs

  lemma Element<T>(s: set<T>) returns (x: T)
    requires s != {}
    ensures x in s
  {
    x :| x in s;
  }

  lemma {:induction false} MaxExists(s: set<i64>)
    requires s != {}
    ensures exists m :: m in s && forall x :: x in s ==> x <= m
  {
    var y := Element(s);
    if s != {y} {
      MaxExists(s - {y});
      assert forall x :: x in s ==> x == y || x in s - {y};
      var m :| m in s - {y} && forall x :: x in s - {y} ==> x <= m;
      var best: i64 := Max(m, y);
      assert best in s && forall x :: x in s ==> x <= best;
    }
  }

  function MaxOf(s: set<i64>): (m: i64)
    requires s != {}
    ensures m in s && forall x :: x in s ==> x <= m
  {
    MaxExists(s);
    var m :| m in s && forall x :: x in s ==> x <= m;
    m
  }

  lemma {:induction false} MinExists(s: set<i64>)
    requires s != {}
    ensures exists m :: m in s && forall x :: x in s ==> m <= x
  {
    var y := Element(s);
    if s != {y} {
      MinExists(s - {y});
      assert forall x :: x in s ==> x == y || x in s - {y};
      var m :| m in s - {y} && forall x :: x in s - {y} ==> m <= x;
      var best: i64 := Min(m, y);
      assert best in s && forall x :: x in s ==> best <= x;
    }
  }

  function MinOf(s: set<i64>): (m: i64)
    requires s != {}
    ensures m in s && forall x :: x in s ==> m <= x
  {
    MinExists(s);
    var m :| m in s && forall x :: x in s ==> m <= x;
    m
  }

  ghost predicate Ascending(ids: seq<i64>) {
    forall i, j :: 0 <= i < j < |ids| ==> ids[i] < ids[j]
  }

  /** The members of `s` in ascending order, each once. */
  function SortedIds(s: set<i64>): (ids: seq<i64>)
    ensures Ascending(ids) && |ids| == |s|
    ensures forall x :: x in ids <==> x in s
  {
    if s == {} then []
    else
      var m := MinOf(s);
      [m] + SortedIds(s - {m})
  }

  lemma AscendingRest(ids: seq<i64>)
    requires Ascending(ids) && ids != []
    ensures Ascending(ids[1..]) && ids[0] !in ids[1..]
  {
  }

  lemma HeadIsLeast(ids: seq<i64>, x: i64)
    requires Ascending(ids) && x in ids
    ensures ids[0] <= x
  {
  }

  /** A set has one ascending enumeration. */
  lemma {:induction false} AscendingUnique(a: seq<i64>, b: seq<i64>)
    requires Ascending(a) && Ascending(b) && forall x :: x in a <==> x in b
    ensures a == b
  {
    if a == [] {
      assert forall i :: 0 <= i < |b| ==> b[i] in b;
    } else {
      assert a[0] in a && a[0] in b;
      HeadIsLeast(b, a[0]);
      assert b[0] in b && b[0] in a;
      HeadIsLeast(a, b[0]);
      AscendingRest(a);
      AscendingRest(b);
      var c, d := a[1..], b[1..];
      assert a == [a[0]] + c && b == [b[0]] + d;
      hide Ascending;
      forall x
        ensures x in c <==> x in d
      {
        assert x in a <==> x == a[0] || x in c;
        assert x in b <==> x == b[0] || x in d;
      }
      AscendingUnique(c, d);
    }
  }

  lemma {:induction false} FilterAscends(ids: seq<i64>, p: i64 -> bool)
    requires Ascending(ids)
    ensures Ascending(Filter(ids, p))
  {
    if ids == [] {
    } else {
      var rest := Filter(ids[1..], p);
      FilterAscends(ids[1..], p);
      assert ids == [ids[0]] + ids[1..];
      forall i | 0 <= i < |rest|
        ensures ids[0] < rest[i]
      {
        assert rest[i] in rest;
        FilterMember(ids[1..], p, rest[i]);
      }
    }
  }

  /** The ascending enumeration of the members that pass. */
  lemma FilterSortedIds(s: set<i64>, p: i64 -> bool, kept: set<i64>)
    requires forall x :: x in kept <==> x in s && p(x)
    ensures Filter(SortedIds(s), p) == SortedIds(kept)
  {
    hide Filter, Ascending;
    FilterAscends(SortedIds(s), p);
    forall x
      ensures x in Filter(SortedIds(s), p) <==> x in SortedIds(kept)
    {
      FilterMember(SortedIds(s), p, x);
    }
    AscendingUnique(Filter(SortedIds(s), p), SortedIds(kept));
  }
}

/** Sums of the values of a finite map. */
module Totals {
  import opened Prelude

  ghost function Total(m: map<i64, nat>): nat {
    if m == map[] then 0
    else
      var k :| k in m;
      m[k] + Total(m - {k})
  }

  lemma {:induction false} TotalWithout(m: map<i64, nat>, k: i64)
    requires k in m
    ensures Total(m) == m[k] + Total(m - {k})
    decreases |m|
  {
    var j :| j in m && Total(m) == m[j] + Total(m - {j});
    if j != k {
      TotalWithout(m - {j}, k);
      TotalWithout(m - {k}, j);
      assert m - {j} - {k} == m - {k} - {j};
    }
  }

  lemma TotalWith(m: map<i64, nat>, k: i64, v: nat)
    requires k !in m
    ensures Total(m[k := v]) == Total(m) + v
  {
    TotalWithout(m[k := v], k);
    assert m[k := v] - {k} == m;
  }

  lemma {:induction false} TotalIsZero(m: map<i64, nat>)
    ensures Total(m) == 0 <==> forall k :: k in m ==> m[k] == 0
    decreases |m|
  {
    if m == map[] {
    } else {
      var j :| j in m && Total(m) == m[j] + Total(m - {j});
      TotalIsZero(m - {j});
      assert forall k :: k in m ==> k == j || k in m - {j};
    }
  }
}
