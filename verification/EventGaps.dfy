/** `validate_event_ordering`: gaps in the ledger event ids of each transaction. */
module EventGaps {
  import opened Prelude
  import opened IntSets
  import opened Totals
  import opened Queries

  // ---- Grouping ----

  /** The transaction and ledger event of an item that carries one. */
  function EventOf(x: Item): Option<(i64, i64)> {
    match x.value
    case ZswapInputRaw(t, _, k, _, _) => Some((t, k))
    case DustLedgerEvent(t, k, _, _) => Some((t, k))
    case _ => None
  }

  /** The positive event id an item adds to transaction `t`, if any. */
  function NewIds(x: Item, t: i64): seq<i64> {
    match EventOf(x)
    case Some((u, k)) => if u == t && k > 0 then [k] else []
    case None => []
  }

  /** The positive event ids of transaction `t`, in item order. */
  function IdsFor(items: seq<Item>, t: i64): seq<i64> {
    if items == [] then [] else IdsFor(items[..|items| - 1], t) + NewIds(items[|items| - 1], t)
  }

  function Group(groups: map<i64, seq<i64>>, t: i64): seq<i64> {
    if t in groups then groups[t] else []
  }

  lemma IdsSnoc(items: seq<Item>, i: nat, t: i64)
    requires i < |items|
    ensures IdsFor(items[..i + 1], t) == IdsFor(items[..i], t) + NewIds(items[i], t)
  {
    assert items[..i + 1][..i] == items[..i];
  }

  /** A zswap input or dust event `k` of transaction `t`. */
  ghost predicate Carries(x: Item, t: i64, k: i64) {
    || (x.value.ZswapInputRaw? && x.value.txId == t && x.value.ledgerEventId == k)
    || (x.value.DustLedgerEvent? && x.value.txId == t && x.value.ledgerEventId == k)
  }

  lemma NewIdsCarry(x: Item, t: i64, k: i64)
    ensures k in NewIds(x, t) <==> k > 0 && Carries(x, t, k)
  {
  }

  /** An id is counted for a transaction exactly when it is positive and an event item of the transaction has it. */
  lemma {:induction false} CountedIff(items: seq<Item>, t: i64, k: i64)
    ensures k in IdsFor(items, t) <==> k > 0 && exists i :: 0 <= i < |items| && Carries(items[i], t, k)
  {
    hide Carries;
    if items == [] {
    } else {
      var n := |items| - 1;
      CountedIff(items[..n], t, k);
      NewIdsCarry(items[n], t, k);
      assert IdsFor(items, t) == IdsFor(items[..n], t) + NewIds(items[n], t);
      hide IdsFor, NewIds;
      if k in IdsFor(items[..n], t) {
        var i :| 0 <= i < n && Carries(items[..n][i], t, k);
        assert Carries(items[i], t, k);
      }
      if i :| 0 <= i < |items| && Carries(items[i], t, k) {
        assert i < n ==> Carries(items[..n][i], t, k);
      }
    }
  }

  /** The groups hold the ids of the items, and no group is empty. */
  ghost predicate Grouped(groups: map<i64, seq<i64>>, items: seq<Item>) {
    forall t :: Group(groups, t) == IdsFor(items, t) && (t in groups <==> IdsFor(items, t) != [])
  }

  lemma GroupOne(groups: map<i64, seq<i64>>, items: seq<Item>, i: nat, after: map<i64, seq<i64>>)
    requires i < |items| && Grouped(groups, items[..i])
    requires var event := EventOf(items[i]);
             after == if event.Some? && event.value.1 > 0 then
                        groups[event.value.0 := Group(groups, event.value.0) + [event.value.1]]
                      else groups
    ensures Grouped(after, items[..i + 1])
  {
    hide IdsFor, EventOf;
    forall t
      ensures Group(after, t) == IdsFor(items[..i + 1], t) && (t in after <==> IdsFor(items[..i + 1], t) != [])
    {
      IdsSnoc(items, i, t);
      assert Group(groups, t) == IdsFor(items[..i], t) && (t in groups <==> IdsFor(items[..i], t) != []);
    }
  }

  lemma NothingGrouped(items: seq<Item>)
    ensures Grouped(map[], items[..0])
  {
  }

  method GroupByTx(items: seq<Item>) returns (groups: map<i64, seq<i64>>)
    ensures forall t :: Group(groups, t) == IdsFor(items, t)
    ensures forall t :: t in groups <==> IdsFor(items, t) != []
  {
    hide IdsFor, EventOf, Grouped;
    groups := map[];
    NothingGrouped(items);
    for i := 0 to |items|
      invariant Grouped(groups, items[..i])
    {
      ghost var before := groups;
      var event := EventOf(items[i]);
      if event.Some? && event.value.1 > 0 {
        var (t, k) := event.value;
        groups := groups[t := Group(groups, t) + [k]];
      }
      GroupOne(before, items, i, groups);
    }
    assert items[..|items|] == items;
    GroupedMeans(groups, items);
  }

  lemma GroupedMeans(groups: map<i64, seq<i64>>, items: seq<Item>)
    requires Grouped(groups, items)
    ensures forall t :: Group(groups, t) == IdsFor(items, t)
    ensures forall t :: t in groups <==> IdsFor(items, t) != []
  {
    hide IdsFor;
  }

  // ---- Sorting ids and counting breaks ----

  function InsertId(k: i64, ids: seq<i64>): seq<i64> {
    if ids == [] || k <= ids[0] then [k] + ids else [ids[0]] + InsertId(k, ids[1..])
  }

  /** `event_ids.sort()`. */
  function SortIds(ids: seq<i64>): seq<i64> {
    if ids == [] then [] else InsertId(ids[0], SortIds(ids[1..]))
  }

  ghost predicate Distinct(ids: seq<i64>) {
    forall i, j :: 0 <= i < j < |ids| ==> ids[i] != ids[j]
  }

  lemma {:induction false} InsertAscends(k: i64, ids: seq<i64>)
    requires Ascending(ids) && k !in ids
    ensures Ascending(InsertId(k, ids))
    ensures forall x :: x in InsertId(k, ids) <==> x == k || x in ids
  {
    if ids == [] {
    } else {
      assert ids == [ids[0]] + ids[1..];
      if k > ids[0] {
        InsertAscends(k, ids[1..]);
        var rest := InsertId(k, ids[1..]);
        forall i | 0 <= i < |rest|
          ensures ids[0] < rest[i]
        {
          assert rest[i] in rest;
        }
      }
    }
  }

  lemma {:induction false} SortAscends(ids: seq<i64>)
    requires Distinct(ids)
    ensures Ascending(SortIds(ids))
    ensures forall x :: x in SortIds(ids) <==> x in ids
  {
    if ids == [] {
    } else {
      assert ids == [ids[0]] + ids[1..];
      assert forall i, j :: 0 <= i < j < |ids[1..]| ==> ids[1..][i] == ids[i + 1] && ids[1..][j] == ids[j + 1];
      SortAscends(ids[1..]);
      InsertAscends(ids[0], SortIds(ids[1..]));
    }
  }

  function Succ(k: i64): int {
    k + 1
  }

  /** Adjacent pairs that are not consecutive. */
  function Breaks(ids: seq<i64>): nat {
    if |ids| < 2 then 0
    else Breaks(ids[..|ids| - 1]) + if ids[|ids| - 1] != Succ(ids[|ids| - 2]) then 1 else 0
  }

  predicate Preceded(s: set<i64>, k: i64) {
    exists j :: j in s && Succ(j) == k
  }

  /** The first ids of the maximal runs of consecutive ids in `s`. */
  function RunStarts(s: set<i64>): set<i64> {
    set k | k in s && !Preceded(s, k)
  }

  function IdSet(ids: seq<i64>): set<i64> {
    set k | k in ids
  }

  lemma LastIsHighest(ids: seq<i64>)
    requires Ascending(ids) && |ids| >= 2
    ensures var before, top := ids[..|ids| - 1], ids[|ids| - 2];
            && Ascending(before) && before != [] && top in IdSet(before) && top < ids[|ids| - 1]
            && (forall k :: k in IdSet(before) ==> k <= top)
            && IdSet(ids) == IdSet(before) + {ids[|ids| - 1]}
  {
    var n := |ids| - 1;
    var before := ids[..n];
    assert before[n - 1] == ids[n - 1];
    assert ids == before + [ids[n]];
    forall k | k in before
      ensures k <= before[n - 1]
    {
      var i :| 0 <= i < n && before[i] == k;
    }
  }

  lemma OneIdIsOneRun(ids: seq<i64>)
    requires |ids| == 1
    ensures Breaks(ids) == 0 && |RunStarts(IdSet(ids))| == 1
  {
    assert ids == [ids[0]];
    assert IdSet(ids) == {ids[0]};
    assert RunStarts(IdSet(ids)) == {ids[0]};
  }

  lemma {:induction false} BreaksAreRunsLessOne(ids: seq<i64>)
    requires Ascending(ids) && ids != []
    ensures Breaks(ids) == |RunStarts(IdSet(ids))| - 1
  {
    hide Ascending, Breaks, RunStarts, IdSet;
    var n := |ids| - 1;
    if n == 0 {
      OneIdIsOneRun(ids);
    } else {
      LastIsHighest(ids);
      BreaksAreRunsLessOne(ids[..n]);
      BreaksSnoc(ids);
      LastStarts(IdSet(ids[..n]), ids[n - 1], ids[n]);
    }
  }

  lemma BreaksSnoc(ids: seq<i64>)
    requires |ids| >= 2
    ensures var n := |ids| - 1;
            Breaks(ids) == Breaks(ids[..n]) + if ids[n] == Succ(ids[n - 1]) then 0 else 1
  {
  }

  /** Adding an id above all others starts a new run unless it follows the highest. */
  lemma LastStarts(s: set<i64>, top: i64, x: i64)
    requires top in s && top < x && forall k :: k in s ==> k <= top
    ensures |RunStarts(s + {x})| == |RunStarts(s)| + if x == Succ(top) then 0 else 1
  {
    var all := s + {x};
    forall k | k in s
      ensures Preceded(all, k) <==> Preceded(s, k)
    {
      assert Preceded(s, k) ==> exists j :: j in all && Succ(j) == k;
    }
    if x == Succ(top) {
      assert top in all && Preceded(all, x);
      assert RunStarts(all) == RunStarts(s);
    } else {
      assert !Preceded(all, x);
      assert RunStarts(all) == RunStarts(s) + {x};
    }
  }

  ghost predicate Interval(s: set<i64>, lo: i64, hi: i64) {
    forall k: i64 :: k in s <==> lo <= k <= hi
  }

  ghost predicate OneInterval(ids: seq<i64>) {
    exists lo, hi :: Interval(IdSet(ids), lo, hi)
  }

  method CountBreaks(ids: seq<i64>) returns (n: nat)
    ensures n == Breaks(SortIds(ids))
  {
    n := 0;
    if |ids| < 2 {
      ShortHasNoBreaks(ids);
      return;
    }
    var sorted := SortIds(ids);
    SortLength(ids);
    for i := 1 to |sorted|
      invariant n == Breaks(sorted[..i])
    {
      assert sorted[..i + 1][..i] == sorted[..i];
      var prev, curr := sorted[i - 1], sorted[i];
      if curr != Succ(prev) {
        n := n + 1;
      }
    }
    assert sorted[..|sorted|] == sorted;
  }

  lemma {:induction false} InsertLength(k: i64, ids: seq<i64>)
    ensures |InsertId(k, ids)| == |ids| + 1
  {
    if ids == [] || k <= ids[0] {
    } else {
      InsertLength(k, ids[1..]);
    }
  }

  lemma {:induction false} SortLength(ids: seq<i64>)
    ensures |SortIds(ids)| == |ids|
  {
    if ids == [] {
    } else {
      SortLength(ids[1..]);
      InsertLength(ids[0], SortIds(ids[1..]));
    }
  }

  lemma ShortHasNoBreaks(ids: seq<i64>)
    requires |ids| < 2
    ensures Breaks(SortIds(ids)) == 0
  {
    SortLength(ids);
  }

  // ---- What the check counts ----

  function EventTxs(items: seq<Item>): set<i64> {
    set i | 0 <= i < |items| && EventOf(items[i]).Some? && EventOf(items[i]).value.1 > 0 ::
      EventOf(items[i]).value.0
  }

  function BreaksByTx(items: seq<Item>): map<i64, nat> {
    map t | t in EventTxs(items) :: Breaks(SortIds(IdsFor(items, t)))
  }

  function RunsByTx(items: seq<Item>): map<i64, nat> {
    map t | t in EventTxs(items) :: |RunStarts(IdSet(IdsFor(items, t)))|
  }

  lemma {:induction false} EventTxsHaveIds(items: seq<Item>, t: i64)
    ensures t in EventTxs(items) <==> IdsFor(items, t) != []
  {
    if items == [] {
    } else {
      var n := |items| - 1;
      EventTxsHaveIds(items[..n], t);
      assert items == items[..n] + [items[n]];
      if t in EventTxs(items[..n]) {
        var i :| 0 <= i < n && EventOf(items[..n][i]).Some? && EventOf(items[..n][i]).value.1 > 0
                 && EventOf(items[..n][i]).value.0 == t;
        assert items[i] == items[..n][i];
      }
      if t in EventTxs(items) {
        var i :| 0 <= i <= n && EventOf(items[i]).Some? && EventOf(items[i]).value.1 > 0
                 && EventOf(items[i]).value.0 == t;
        if i < n {
          assert items[..n][i] == items[i];
        }
      }
    }
  }

  method TakeAny<T>(s: set<T>) returns (x: T, rest: set<T>)
    requires s != {}
    ensures x in s && rest == s - {x}
  {
    x :| x in s;
    rest := s - {x};
  }

  lemma NothingCounted()
    ensures Total(map[]) == 0
  {
  }

  /** The number of anomalies recorded, in whatever order the groups are visited. */
  method ValidateEventOrdering(items: seq<Item>) returns (anomalies: nat)
    ensures anomalies == Total(BreaksByTx(items))
  {
    hide Breaks, SortIds, IdsFor, EventOf, EventTxs, Total;
    var groups := GroupByTx(items);
    forall t
      ensures t in groups <==> t in EventTxs(items)
    {
      EventTxsHaveIds(items, t);
    }
    NothingCounted();
    anomalies := 0;
    var todo := groups.Keys;
    ghost var counted: map<i64, nat> := map[];
    while todo != {}
      invariant todo <= groups.Keys && counted.Keys == groups.Keys - todo
      invariant forall t :: t in counted ==> counted[t] == Breaks(SortIds(IdsFor(items, t)))
      invariant anomalies == Total(counted)
      decreases |todo|
    {
      var t, rest := TakeAny(todo);
      assert Group(groups, t) == IdsFor(items, t);
      var n := CountBreaks(groups[t]);
      TotalWith(counted, t, n);
      counted := counted[t := n];
      anomalies := anomalies + n;
      todo := rest;
    }
    assert counted == BreaksByTx(items);
  }

  ghost predicate DistinctIds(items: seq<Item>) {
    forall t :: Distinct(IdsFor(items, t))
  }

  lemma SortedRuns(ids: seq<i64>)
    requires Distinct(ids) && ids != []
    ensures Breaks(SortIds(ids)) == |RunStarts(IdSet(ids))| - 1
  {
    SortAscends(ids);
    SortLength(ids);
    BreaksAreRunsLessOne(SortIds(ids));
    assert IdSet(SortIds(ids)) == IdSet(ids);
  }

  lemma {:induction false} TotalsDiffer(runs: map<i64, nat>, breaks: map<i64, nat>)
    requires runs.Keys == breaks.Keys && forall t :: t in runs ==> runs[t] == breaks[t] + 1
    ensures Total(runs) == Total(breaks) + |runs.Keys|
    decreases |runs|
  {
    if runs != map[] {
      var t := Element(runs.Keys);
      TotalWithout(runs, t);
      TotalWithout(breaks, t);
      TotalsDiffer(runs - {t}, breaks - {t});
      assert (runs - {t}).Keys == runs.Keys - {t};
    } else {
      assert breaks == map[];
    }
  }

  /** The anomalies of a bundle are its maximal runs of ids, over all transactions, less one per transaction. */
  lemma AnomaliesAreExtraRuns(items: seq<Item>)
    requires DistinctIds(items)
    ensures Total(BreaksByTx(items)) == Total(RunsByTx(items)) - |EventTxs(items)|
  {
    hide Breaks, SortIds, IdsFor, EventTxs, RunStarts;
    forall t | t in EventTxs(items)
      ensures RunsByTx(items)[t] == BreaksByTx(items)[t] + 1
    {
      EventTxsHaveIds(items, t);
      SortedRuns(IdsFor(items, t));
    }
    assert RunsByTx(items).Keys == EventTxs(items);
    TotalsDiffer(RunsByTx(items), BreaksByTx(items));
  }

  lemma {:induction false} UnbrokenIsInterval(ids: seq<i64>)
    requires Ascending(ids) && ids != [] && Breaks(ids) == 0
    ensures Interval(IdSet(ids), ids[0], ids[|ids| - 1])
  {
    var n := |ids| - 1;
    assert ids == ids[..n] + [ids[n]];
    if n == 0 {
      assert IdSet(ids) == {ids[0]};
    } else {
      var before := ids[..n];
      UnbrokenIsInterval(before);
      assert IdSet(ids) == IdSet(before) + {ids[n]};
      assert before[n - 1] == ids[n - 1] && before[0] == ids[0];
      hide Interval, Ascending;
      IntervalGrows(IdSet(before), ids[0], before[n - 1], ids[n]);
    }
  }

  lemma IntervalGrows(s: set<i64>, lo: i64, hi: i64, x: i64)
    requires Interval(s, lo, hi) && lo <= hi && x == Succ(hi)
    ensures Interval(s + {x}, lo, x)
  {
  }

  lemma IntervalIsOneRun(s: set<i64>, lo: i64, hi: i64)
    requires Interval(s, lo, hi) && s != {}
    ensures |RunStarts(s)| == 1
  {
    var x := Element(s);
    forall k | k in s
      ensures k in RunStarts(s) <==> k == lo
    {
      if k > lo {
        var j: i64 := k - 1;
        assert j in s && Succ(j) == k;
      }
    }
    assert RunStarts(s) == {lo};
  }

  lemma UnbrokenIff(ids: seq<i64>)
    requires Distinct(ids) && ids != []
    ensures Breaks(SortIds(ids)) == 0 <==> OneInterval(ids)
  {
    SortAscends(ids);
    SortLength(ids);
    SortedRuns(ids);
    assert IdSet(SortIds(ids)) == IdSet(ids);
    if Breaks(SortIds(ids)) == 0 {
      UnbrokenIsInterval(SortIds(ids));
    }
    if lo, hi :| Interval(IdSet(ids), lo, hi) {
      assert ids[0] in IdSet(ids);
      IntervalIsOneRun(IdSet(ids), lo, hi);
    }
  }

  /** No anomaly is recorded exactly when the ids of every transaction form one interval. */
  lemma NoAnomalyIff(items: seq<Item>)
    requires DistinctIds(items)
    ensures Total(BreaksByTx(items)) == 0
       <==> forall t :: t in EventTxs(items) ==> OneInterval(IdsFor(items, t))
  {
    hide Breaks, SortIds, IdsFor, EventTxs, OneInterval;
    TotalIsZero(BreaksByTx(items));
    forall t | t in EventTxs(items)
      ensures BreaksByTx(items)[t] == 0 <==> OneInterval(IdsFor(items, t))
    {
      EventTxsHaveIds(items, t);
      UnbrokenIff(IdsFor(items, t));
    }
  }
}
