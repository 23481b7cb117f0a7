/** The library's stable `sort_by` on rows that carry a sequence key. */
module Sorting {
  import opened Prelude
  import opened Seqs
  import opened Sequence

  datatype Keyed<+T> = Keyed(key: SequenceKey, value: T)

  ghost predicate Sorted<T>(s: seq<Keyed<T>>) {
    forall i, j :: 0 <= i < j < |s| ==> !Less(s[j].key, s[i].key)
  }

  ghost predicate StrictlySorted<T>(s: seq<Keyed<T>>) {
    forall i, j :: 0 <= i < j < |s| ==> Less(s[i].key, s[j].key)
  }

  function Insert<T>(x: Keyed<T>, s: seq<Keyed<T>>): seq<Keyed<T>> {
    if s == [] then [x]
    else if Less(s[0].key, x.key) then [s[0]] + Insert(x, s[1..])
    else [x] + s
  }

  function StableSort<T>(s: seq<Keyed<T>>): seq<Keyed<T>> {
    if s == [] then [] else Insert(s[0], StableSort(s[1..]))
  }

  lemma {:induction false} InsertPermutes<T>(x: Keyed<T>, s: seq<Keyed<T>>)
    ensures multiset(Insert(x, s)) == multiset(s) + multiset{x}
  {
    if s == [] || !Less(s[0].key, x.key) {
    } else {
      InsertPermutes(x, s[1..]);
      assert s == [s[0]] + s[1..];
    }
  }

  lemma {:induction false} InsertSorts<T>(x: Keyed<T>, s: seq<Keyed<T>>)
    requires Sorted(s)
    ensures Sorted(Insert(x, s))
  {
    if s == [] || !Less(s[0].key, x.key) {
    } else {
      InsertSorts(x, s[1..]);
      InsertPermutes(x, s[1..]);
      var r := Insert(x, s[1..]);
      forall k | 0 <= k < |r|
        ensures !Less(r[k].key, s[0].key)
      {
        assert r[k] in multiset(r);
        assert r[k] == x || r[k] in s[1..];
      }
    }
  }

  /** The sort returns a permutation in key order. */
  lemma {:induction false} SortSorts<T>(s: seq<Keyed<T>>)
    ensures Sorted(StableSort(s))
    ensures multiset(StableSort(s)) == multiset(s)
    ensures |StableSort(s)| == |s|
    ensures forall x :: x in StableSort(s) <==> x in s
  {
    if s == [] {
    } else {
      SortSorts(s[1..]);
      InsertSorts(s[0], StableSort(s[1..]));
      InsertPermutes(s[0], StableSort(s[1..]));
      assert s == [s[0]] + s[1..];
    }
    assert |multiset(StableSort(s))| == |multiset(s)|;
    forall x
      ensures x in StableSort(s) <==> x in s
    {
      assert x in multiset(StableSort(s)) <==> x in multiset(s);
    }
  }

  lemma NoneBelowHead<T>(s: seq<Keyed<T>>, x: Keyed<T>, y: Keyed<T>)
    requires Sorted(s) && s != [] && !Less(s[0].key, x.key) && y in s
    ensures !Less(y.key, x.key)
  {
    var i :| 0 <= i < |s| && s[i] == y;
    assert i > 0 ==> !Less(s[i].key, s[0].key);
  }

  lemma {:induction false} InsertFilter<T>(x: Keyed<T>, s: seq<Keyed<T>>, p: Keyed<T> -> bool)
    requires Sorted(s)
    ensures Filter(Insert(x, s), p) == if p(x) then Insert(x, Filter(s, p)) else Filter(s, p)
  {
    hide Less;
    if s == [] {
    } else if Less(s[0].key, x.key) {
      InsertFilter(x, s[1..], p);
      FilterCons(s[0], Insert(x, s[1..]), p);
      if p(x) && p(s[0]) {
        assert Filter(s, p)[0] == s[0] && Filter(s, p)[1..] == Filter(s[1..], p);
      } else if p(x) {
        assert Filter(s, p) == Filter(s[1..], p);
      }
    } else {
      FilterCons(x, s, p);
      if p(x) && Filter(s, p) != [] {
        FilterMember(s, p, Filter(s, p)[0]);
        NoneBelowHead(s, x, Filter(s, p)[0]);
      }
    }
  }

  /** Filtering commutes with the stable sort. */
  lemma {:induction false} SortFilter<T>(s: seq<Keyed<T>>, p: Keyed<T> -> bool)
    ensures Filter(StableSort(s), p) == StableSort(Filter(s, p))
  {
    if s == [] {
    } else {
      SortFilter(s[1..], p);
      SortSorts(s[1..]);
      InsertFilter(s[0], StableSort(s[1..]), p);
      var rest := Filter(s[1..], p);
      if p(s[0]) {
        assert Filter(s, p) == [s[0]] + rest;
        assert ([s[0]] + rest)[1..] == rest;
      } else {
        assert Filter(s, p) == rest;
      }
    }
  }

  lemma {:induction false} SortedIsFixed<T>(s: seq<Keyed<T>>)
    requires Sorted(s)
    ensures StableSort(s) == s
  {
    if s == [] {
    } else {
      SortedIsFixed(s[1..]);
    }
  }

  function WithKey<T>(k: SequenceKey): Keyed<T> -> bool {
    (x: Keyed<T>) => x.key == k
  }

  /**
   * What "stable" means, and that it leaves no freedom: the sort keeps the rows of each key in their
   * order, and no other sorted sequence does.
   */
  lemma {:induction false} StableSortUnique<T>(s: seq<Keyed<T>>, t: seq<Keyed<T>>)
    requires Sorted(t)
    ensures t == StableSort(s) <==> forall k :: Filter(t, WithKey(k)) == Filter(s, WithKey(k))
  {
    var r := StableSort(s);
    SortSorts(s);
    forall k
      ensures Filter(r, WithKey(k)) == Filter(s, WithKey(k))
    {
      SortFilter(s, WithKey(k));
      forall x | x in Filter(s, WithKey(k))
        ensures x.key == k
      {
        FilterMember(s, WithKey(k), x);
      }
      SortedIsFixed(Filter(s, WithKey(k)));
    }
    if forall k :: Filter(t, WithKey(k)) == Filter(s, WithKey(k)) {
      SameClasses(r, t);
    }
  }

  lemma {:induction false} SameClasses<T>(s: seq<Keyed<T>>, t: seq<Keyed<T>>)
    requires Sorted(s) && Sorted(t)
    requires forall k :: Filter(s, WithKey(k)) == Filter(t, WithKey(k))
    ensures s == t
  {
    if s == [] {
      if t != [] {
        FilterMember(t, WithKey(t[0].key), t[0]);
      }
    } else {
      FilterMember(s, WithKey(s[0].key), s[0]);
      FilterMember(t, WithKey(s[0].key), s[0]);
      FilterMember(t, WithKey(t[0].key), t[0]);
      FilterMember(s, WithKey(t[0].key), t[0]);
      assert s[0].key == t[0].key by {
        LessTotal(s[0].key, t[0].key);
      }
      var k := s[0].key;
      assert Filter(s, WithKey(k))[0] == s[0] && Filter(t, WithKey(k))[0] == t[0];
      forall j
        ensures Filter(s[1..], WithKey(j)) == Filter(t[1..], WithKey(j))
      {
        assert Filter(s, WithKey(j)) == Filter(t, WithKey(j));
        FilterCons(s[0], s[1..], WithKey(j));
        FilterCons(t[0], t[1..], WithKey(j));
        assert s == [s[0]] + s[1..] && t == [t[0]] + t[1..];
        if j == k {
          assert Filter(s[1..], WithKey(k)) == Filter(s, WithKey(k))[1..];
          assert Filter(t[1..], WithKey(k)) == Filter(t, WithKey(k))[1..];
        } else {
          assert Filter(s[1..], WithKey(j)) == Filter(s, WithKey(j));
          assert Filter(t[1..], WithKey(j)) == Filter(t, WithKey(j));
        }
      }
      SameClasses(s[1..], t[1..]);
    }
  }

  lemma LessTotal(a: SequenceKey, b: SequenceKey)
    ensures Less(a, b) || Less(b, a) || a == b
    ensures !(Less(a, b) && Less(b, a))
  {
  }

  /** The items a client that holds cursor `c` has not seen. */
  function After<T>(c: Option<SequenceKey>): Keyed<T> -> bool {
    (x: Keyed<T>) => c.None? || Less(c.value, x.key)
  }

  lemma SortedTail<T>(s: seq<Keyed<T>>)
    requires Sorted(s) && s != []
    ensures Sorted(s[1..]) && forall y :: y in s[1..] ==> !Less(y.key, s[0].key)
  {
    hide Less;
    forall y | y in s[1..]
      ensures !Less(y.key, s[0].key)
    {
      var i :| 1 <= i < |s| && s[i] == y;
    }
  }

  lemma SortedCons<T>(x: Keyed<T>, s: seq<Keyed<T>>)
    requires Sorted(s) && forall y :: y in s ==> !Less(y.key, x.key)
    ensures Sorted([x] + s)
  {
    hide Less;
    forall i, j | 0 <= i < j < |[x] + s|
      ensures !Less(([x] + s)[j].key, ([x] + s)[i].key)
    {
      assert ([x] + s)[j] == s[j - 1] && s[j - 1] in s;
      assert i > 0 ==> ([x] + s)[i] == s[i - 1];
    }
  }

  lemma StrictTail<T>(s: seq<Keyed<T>>)
    requires StrictlySorted(s) && s != []
    ensures StrictlySorted(s[1..]) && forall y :: y in s[1..] ==> Less(s[0].key, y.key)
  {
    hide Less;
    forall y | y in s[1..]
      ensures Less(s[0].key, y.key)
    {
      var i :| 1 <= i < |s| && s[i] == y;
    }
  }

  lemma StrictCons<T>(x: Keyed<T>, s: seq<Keyed<T>>)
    requires StrictlySorted(s) && forall y :: y in s ==> Less(x.key, y.key)
    ensures StrictlySorted([x] + s)
  {
    hide Less;
    forall i, j | 0 <= i < j < |[x] + s|
      ensures Less(([x] + s)[i].key, ([x] + s)[j].key)
    {
      assert ([x] + s)[j] == s[j - 1] && s[j - 1] in s;
      assert i > 0 ==> ([x] + s)[i] == s[i - 1];
    }
  }

  lemma {:induction false} FilterKeepsOrder<T>(s: seq<Keyed<T>>, p: Keyed<T> -> bool)
    ensures Sorted(s) ==> Sorted(Filter(s, p))
    ensures StrictlySorted(s) ==> StrictlySorted(Filter(s, p))
  {
    if s == [] {
    } else {
      var rest := Filter(s[1..], p);
      assert s == [s[0]] + s[1..];
      FilterCons(s[0], s[1..], p);
      hide Sorted, StrictlySorted, Less, Filter;
      FilterKeepsOrder(s[1..], p);
      forall y | y in rest
        ensures y in s[1..]
      {
        FilterMember(s[1..], p, y);
      }
      if Sorted(s) {
        SortedTail(s);
        SortedCons(s[0], rest);
      }
      if StrictlySorted(s) {
        StrictTail(s);
        StrictCons(s[0], rest);
      }
    }
  }

  lemma {:induction false} FilterShortens<A>(s: seq<A>, p: A -> bool)
    ensures |Filter(s, p)| <= |s|
  {
    if s == [] {
    } else {
      FilterShortens(s[1..], p);
    }
  }

  lemma SortedSteps<T>(s: seq<Keyed<T>>, i: nat, j: nat)
    requires Sorted(s) && i < j < |s| && s[i].key != s[i + 1].key
    ensures Less(s[i].key, s[j].key)
  {
    LessTotal(s[i].key, s[i + 1].key);
    assert i + 1 < j ==> !Less(s[j].key, s[i + 1].key);
  }

  lemma NoneAfterEarlier<T>(s: seq<Keyed<T>>, i: nat)
    requires Sorted(s) && i < |s|
    ensures Filter(s[..i + 1], After(Some(s[i].key))) == []
  {
    var p: Keyed<T> -> bool := After(Some(s[i].key));
    forall x | x in s[..i + 1]
      ensures !p(x)
    {
      var j :| 0 <= j <= i && s[j] == x;
      LessTotal(s[i].key, s[i].key);
    }
    FilterNone(s[..i + 1], p);
  }

  lemma AllAfterLater<T>(s: seq<Keyed<T>>, i: nat)
    requires Sorted(s) && i < |s| && (i + 1 < |s| ==> s[i].key != s[i + 1].key)
    ensures Filter(s[i + 1..], After(Some(s[i].key))) == s[i + 1..]
  {
    var rest, p: Keyed<T> -> bool := s[i + 1..], After(Some(s[i].key));
    forall x | x in rest
      ensures p(x)
    {
      var j :| 0 <= j < |rest| && rest[j] == x;
      SortedSteps(s, i, i + 1 + j);
    }
    FilterAll(rest, p);
  }

  lemma SharedKeyIsLost<T>(rest: seq<Keyed<T>>, k: SequenceKey)
    requires rest != [] && rest[0].key == k
    ensures Filter(rest, After(Some(k))) != rest
  {
    var p: Keyed<T> -> bool := After(Some(k));
    FilterShortens(rest[1..], p);
    assert |Filter(rest, p)| < |rest|;
  }

  /**
   * Cutting a sorted feed after item `i` and asking for the items after that item's key gives back the
   * rest exactly when the next item has another key.
   */
  lemma ResumeAtCutIff<T>(s: seq<Keyed<T>>, i: nat)
    requires Sorted(s) && i < |s|
    ensures Filter(s, After(Some(s[i].key))) == s[i + 1..] <==> (i + 1 < |s| ==> s[i].key != s[i + 1].key)
  {
    hide Filter, Sorted;
    var p: Keyed<T> -> bool := After(Some(s[i].key));
    assert s == s[..i + 1] + s[i + 1..];
    FilterConcat(s[..i + 1], s[i + 1..], p);
    NoneAfterEarlier(s, i);
    if i + 1 < |s| && s[i].key == s[i + 1].key {
      SharedKeyIsLost(s[i + 1..], s[i].key);
    } else {
      AllAfterLater(s, i);
    }
  }

  /** Item `i` is the last, or the next item has another key. */
  ghost predicate NextDiffers<T>(s: seq<Keyed<T>>, i: nat)
    requires i < |s|
  {
    i + 1 < |s| ==> s[i].key != s[i + 1].key
  }

  ghost predicate CutResumes<T>(s: seq<Keyed<T>>, i: nat)
    requires i < |s|
  {
    Filter(s, After(Some(s[i].key))) == s[i + 1..]
  }

  /** All cuts of a sorted feed can be resumed from exactly when no two items share a key. */
  lemma ResumeAtEveryCutIffStrict<T>(s: seq<Keyed<T>>)
    requires Sorted(s)
    ensures StrictlySorted(s) <==> forall i :: 0 <= i < |s| ==> CutResumes(s, i)
  {
    forall i | 0 <= i < |s|
      ensures CutResumes(s, i) <==> NextDiffers(s, i)
    {
      ResumeAtCutIff(s, i);
    }
    hide Sorted, StrictlySorted, CutResumes, NextDiffers;
    StrictIffNeighboursDiffer(s);
  }

  lemma StrictIffNeighboursDiffer<T>(s: seq<Keyed<T>>)
    requires Sorted(s)
    ensures StrictlySorted(s) <==> forall i :: 0 <= i < |s| ==> NextDiffers(s, i)
  {
    if forall i :: 0 <= i < |s| ==> NextDiffers(s, i) {
      forall i, j | 0 <= i < j < |s|
        ensures Less(s[i].key, s[j].key)
      {
        assert NextDiffers(s, i);
        SortedSteps(s, i, j);
      }
    }
    if StrictlySorted(s) {
      forall i | 0 <= i < |s|
        ensures NextDiffers(s, i)
      {
        LessTotal(s[i].key, s[i].key);
      }
    }
  }
}
