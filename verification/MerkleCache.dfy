/**
 * merkle_cache.rs and the upstream fallback of graphql_ws.rs: a write-once store of collapsed Merkle
 * updates, read by greedy interval chaining. Updates carry inclusive indices; requested ranges
 * [from, to) are half-open.
 */
module MerkleCache {
  import opened Prelude
  import opened IntSets

  /** `payload` is the decoded update, `None` for text that is not hex. */
  datatype Update = Update(startIndex: i64, endIndex: i64, payload: Option<Bytes>, protocolVersion: int)

  datatype Entry = Entry(bytes: Bytes, protocolVersion: int)

  /** collapsed_merkle_cache, keyed by its primary key (start_index, end_index). */
  type Table = map<(i64, i64), Entry>

  function Row(rows: Table, k: (i64, i64)): Update
    requires k in rows
  {
    Update(k.0, k.1, Some(rows[k].bytes), rows[k].protocolVersion)
  }

  ghost predicate InTable(rows: Table, u: Update) {
    (u.startIndex, u.endIndex) in rows && u == Row(rows, (u.startIndex, u.endIndex))
  }

  // ---- Covering a range ----

  /** Non-empty updates, each starting where the one before it ended, tiling [from, to). */
  ghost predicate ExactCover(us: seq<Update>, from: int, to: int) {
    if us == [] then from == to
    else
      && us[0].startIndex == from
      && us[0].startIndex <= us[0].endIndex
      && ExactCover(us[1..], us[0].endIndex + 1, to)
  }

  function Reach(us: seq<Update>, from: int): int {
    if us == [] then from else Reach(us[1..], us[0].endIndex + 1)
  }

  /** An exact cover of some range that starts at `from`. */
  ghost predicate Consecutive(us: seq<Update>, from: int) {
    ExactCover(us, from, Reach(us, from))
  }

  lemma CoverCons(u: Update, us: seq<Update>, from: int, to: int)
    ensures ExactCover([u] + us, from, to)
       <==> u.startIndex == from && u.startIndex <= u.endIndex && ExactCover(us, u.endIndex + 1, to)
  {
    assert ([u] + us)[1..] == us;
  }

  lemma {:induction false} CoverAppend(a: seq<Update>, b: seq<Update>, from: int, mid: int, to: int)
    requires ExactCover(a, from, mid) && ExactCover(b, mid, to)
    ensures ExactCover(a + b, from, to)
  {
    if a == [] {
      assert a + b == b;
    } else {
      assert (a + b)[1..] == a[1..] + b;
      CoverAppend(a[1..], b, a[0].endIndex + 1, mid, to);
    }
  }

  /** A cover never has more updates than indices, and stays inside its range. */
  lemma {:induction false} CoverBounds(us: seq<Update>, from: int, to: int)
    requires ExactCover(us, from, to)
    ensures |us| <= to - from
    ensures forall u :: u in us ==> from <= u.startIndex <= u.endIndex < to
    ensures Reach(us, from) == to
  {
    if us == [] {
    } else {
      assert us == [us[0]] + us[1..];
      CoverBounds(us[1..], us[0].endIndex + 1, to);
    }
  }

  function Range(from: int, to: int): seq<int>
    requires from <= to
  {
    seq(to - from, i => from + i)
  }

  function Indices(us: seq<Update>): seq<int> {
    if us == [] then []
    else (if us[0].startIndex <= us[0].endIndex then Range(us[0].startIndex, us[0].endIndex + 1) else [])
         + Indices(us[1..])
  }

  lemma RangeSplit(from: int, mid: int, to: int)
    requires from <= mid <= to
    ensures Range(from, to) == Range(from, mid) + Range(mid, to)
  {
  }

  lemma {:induction false} CoverIndices(us: seq<Update>, from: int, to: int)
    requires from <= to && ExactCover(us, from, to)
    ensures Indices(us) == Range(from, to)
  {
    if us == [] {
    } else {
      CoverBounds(us, from, to);
      CoverIndices(us[1..], us[0].endIndex + 1, to);
      RangeSplit(from, us[0].endIndex + 1, to);
    }
  }

  lemma {:induction false} IndicesCover(us: seq<Update>, from: int, to: int)
    requires from <= to && Indices(us) == Range(from, to)
    requires forall i :: 0 <= i < |us| ==> us[i].startIndex <= us[i].endIndex
    ensures ExactCover(us, from, to)
  {
    if us == [] {
    } else {
      var first := Range(us[0].startIndex, us[0].endIndex + 1);
      assert Indices(us) == first + Indices(us[1..]);
      assert Indices(us)[0] == us[0].startIndex;
      assert |first| <= |Range(from, to)|;
      RangeSplit(from, us[0].endIndex + 1, to);
      assert Indices(us[1..]) == Indices(us)[|first|..];
      IndicesCover(us[1..], us[0].endIndex + 1, to);
    }
  }

  /** Exact cover means: the indices of the updates, listed in order, are from, from + 1, ..., to - 1. */
  lemma CoverListsTheRange(us: seq<Update>, from: int, to: int)
    requires from <= to
    requires forall i :: 0 <= i < |us| ==> us[i].startIndex <= us[i].endIndex
    ensures ExactCover(us, from, to) <==> Indices(us) == Range(from, to)
  {
    if ExactCover(us, from, to) {
      CoverIndices(us, from, to);
    }
    if Indices(us) == Range(from, to) {
      IndicesCover(us, from, to);
    }
  }

  /** Release-build `+ 1` on an i64. */
  function WrappingSucc(x: i64): i64 {
    if x == I64_MAX then I64_MIN else x + 1
  }

  /** Each non-empty update starts at the wrapped successor of the end before it. */
  ghost predicate WrappingCover(us: seq<Update>, from: i64, to: i64) {
    if us == [] then from == to
    else
      && us[0].startIndex == from
      && us[0].startIndex <= us[0].endIndex
      && WrappingCover(us[1..], WrappingSucc(us[0].endIndex), to)
  }

  /** With a range that ends before the largest index, wrapping changes nothing unless an update ends there. */
  lemma {:induction false} WrappingCoverIsExact(us: seq<Update>, from: i64, to: i64)
    requires forall u :: u in us ==> u.endIndex < I64_MAX
    ensures WrappingCover(us, from, to) <==> ExactCover(us, from, to)
  {
    if us == [] {
    } else {
      assert us == [us[0]] + us[1..];
      WrappingCoverIsExact(us[1..], us[0].endIndex + 1, to);
    }
  }

  /** A release build wraps, a debug build stops at the addition; both agree where no update ends at I64_MAX. */
  method CoversRange(updates: seq<Update>, from: i64, to: i64) returns (covered: bool)
    ensures from >= to ==> covered
    ensures from < to ==> (covered <==> WrappingCover(updates, from, to))
    ensures from < to && (forall u :: u in updates ==> u.endIndex < I64_MAX)
            ==> (covered <==> ExactCover(updates, from, to))
  {
    if from >= to {
      return true;
    }
    if forall u :: u in updates ==> u.endIndex < I64_MAX {
      WrappingCoverIsExact(updates, from, to);
    }
    if updates == [] {
      return false;
    }
    var requiredEnd := to - 1;
    if updates[0].startIndex != from {
      return false;
    }
    var expectedStart: i64 := from;
    for i := 0 to |updates|
      invariant WrappingCover(updates, from, to) <==> WrappingCover(updates[i..], expectedStart, to)
    {
      var update := updates[i];
      assert updates[i..][0] == update && updates[i..][1..] == updates[i + 1..];
      if update.startIndex != expectedStart {
        return false;
      }
      if update.endIndex < update.startIndex {
        return false;
      }
      expectedStart := WrappingSucc(update.endIndex);
    }
    return expectedStart == requiredEnd + 1;
  }

  // ---- Reading greedily ----

  function Ends(rows: Table, start: int, limit: int): set<i64> {
    set k | k in rows && k.0 == start && k.1 <= limit :: k.1
  }

  /** WHERE start_index = start AND end_index <= limit ORDER BY end_index DESC LIMIT 1. */
  function Best(rows: Table, start: int, limit: int): (r: Option<int>)
    ensures r.Some? ==> I64_MIN <= start <= I64_MAX && I64_MIN <= r.value <= I64_MAX
    ensures r.Some? ==> (start as i64, r.value as i64) in rows && r.value <= limit
  {
    var ends := Ends(rows, start, limit);
    if ends == {} then None else Some(MaxOf(ends))
  }

  lemma BestIsLongest(rows: Table, k: (i64, i64), limit: int)
    requires k in rows && k.1 <= limit
    ensures Best(rows, k.0, limit).Some? && k.1 <= Best(rows, k.0, limit).value
  {
    assert k.1 in Ends(rows, k.0, limit);
  }

  /** The row the query returns. */
  function Longest(rows: Table, start: int, limit: int): (r: Option<Update>)
    ensures r.Some? ==> InTable(rows, r.value) && r.value.startIndex == start && r.value.endIndex <= limit
  {
    var end := Best(rows, start, limit);
    if end.None? then None else Some(Row(rows, (start as i64, end.value as i64)))
  }

  function Greedy(rows: Table, from: int, to: int): seq<Update>
    decreases (to - from)
  {
    if from >= to then []
    else
      var u := Longest(rows, from, to - 1);
      if u.None? || u.value.endIndex < from then []
      else [u.value] + Greedy(rows, u.value.endIndex + 1, to)
  }

  /** The longest update that can come first joins a cover of the rest. */
  lemma GreedyStep(rows: Table, from: int, e: int, to: int)
    requires from <= e < to && Best(rows, from, to - 1) == Some(e)
    ensures ExactCover(Greedy(rows, from, to), from, to) <==> ExactCover(Greedy(rows, e + 1, to), e + 1, to)
    ensures |Greedy(rows, from, to)| == 1 + |Greedy(rows, e + 1, to)|
  {
    CoverCons(Row(rows, (from as i64, e as i64)), Greedy(rows, e + 1, to), from, to);
  }

  lemma {:induction false} GreedyReadsTheTable(rows: Table, from: int, to: int, u: Update)
    requires u in Greedy(rows, from, to)
    ensures InTable(rows, u)
    decreases (to - from)
  {
    var e := Best(rows, from, to - 1).value;
    if u != Row(rows, (from as i64, e as i64)) {
      GreedyReadsTheTable(rows, e + 1, to, u);
    }
  }

  ghost predicate CoverFromTable(rows: Table, c: seq<Update>, from: int, to: int) {
    ExactCover(c, from, to) && forall u :: u in c ==> InTable(rows, u)
  }

  ghost predicate Coverable(rows: Table, from: int, to: int) {
    exists c :: CoverFromTable(rows, c, from, to)
  }

  /** Two cached intervals cross when they overlap and neither contains the other. */
  ghost predicate NonCrossing(rows: Table) {
    forall k, l :: k in rows && l in rows && k.0 <= k.1 && l.0 <= l.1 ==> !(k.0 < l.0 <= k.1 < l.1)
  }

  lemma {:induction false} Locate(c: seq<Update>, from: int, to: int, x: int) returns (k: nat)
    requires ExactCover(c, from, to) && from <= x < to
    ensures k < |c| && c[k].startIndex <= x <= c[k].endIndex
    ensures k > 0 ==> c[k].startIndex > from
  {
    assert c != [];
    assert c == [c[0]] + c[1..];
    CoverCons(c[0], c[1..], from, to);
    if x <= c[0].endIndex {
      k := 0;
    } else {
      k := Locate(c[1..], c[0].endIndex + 1, to, x);
      CoverBounds(c[1..], c[0].endIndex + 1, to);
      assert c[1..][k] in c[1..];
      k := k + 1;
    }
  }

  lemma {:induction false} CoverDrop(c: seq<Update>, from: int, to: int, k: nat)
    requires ExactCover(c, from, to) && k < |c|
    ensures ExactCover(c[k + 1..], c[k].endIndex + 1, to)
  {
    if k == 0 {
    } else {
      CoverDrop(c[1..], c[0].endIndex + 1, to, k - 1);
      assert c[1..][k - 1] == c[k] && c[1..][k..] == c[k + 1..];
    }
  }

  /** On a cache without crossing intervals the longest first update ends where an update of any cover ends. */
  lemma LongestIsABoundary(rows: Table, from: int, to: int, c: seq<Update>) returns (k: nat)
    requires NonCrossing(rows) && from < to
    requires CoverFromTable(rows, c, from, to)
    ensures Best(rows, from, to - 1).Some? && Best(rows, from, to - 1).value >= from
    ensures k < |c| && c[k].endIndex == Best(rows, from, to - 1).value
  {
    CoverBounds(c, from, to);
    assert c[0] in c && InTable(rows, c[0]);
    BestIsLongest(rows, (c[0].startIndex, c[0].endIndex), to - 1);
    var e := Best(rows, from, to - 1).value;
    k := Locate(c, from, to, e);
    assert c[k] in c && InTable(rows, c[k]);
    if c[k].startIndex == from {
      BestIsLongest(rows, (c[k].startIndex, c[k].endIndex), to - 1);
    } else {
      assert (c[k].startIndex, c[k].endIndex) in rows && (from as i64, e as i64) in rows;
    }
  }

  /**
   * On a cache without crossing intervals the greedy read finds an exact cover whenever there is one,
   * and no exact cover uses fewer updates.
   */
  lemma {:induction false} GreedyCompleteAndMinimal(rows: Table, from: int, to: int, c: seq<Update>)
    requires NonCrossing(rows) && from <= to
    requires CoverFromTable(rows, c, from, to)
    ensures ExactCover(Greedy(rows, from, to), from, to)
    ensures |Greedy(rows, from, to)| <= |c|
    decreases (to - from)
  {
    if from >= to {
    } else {
      var k := LongestIsABoundary(rows, from, to, c);
      var e := Best(rows, from, to - 1).value;
      CoverDrop(c, from, to, k);
      GreedyCompleteAndMinimal(rows, e + 1, to, c[k + 1..]);
      GreedyStep(rows, from, e, to);
    }
  }

  /** With crossing intervals the greedy read can miss a cover: it takes [0, 7] and is stuck. */
  lemma GreedyMissesACover()
    ensures exists rows ::
      Coverable(rows, 0, 10) && !ExactCover(Greedy(rows, 0, 10), 0, 10)
  {
    var e := Entry([], 0);
    var rows: Table := map[(0, 4) := e, (0, 7) := e, (5, 9) := e];
    var c := [Row(rows, (0, 4)), Row(rows, (5, 9))];
    CoverCons(c[1], [], 5, 10);
    CoverCons(c[0], [c[1]], 0, 10);
    assert c == [c[0]] + [c[1]] && [c[1]] == [c[1]] + [];
    assert CoverFromTable(rows, c, 0, 10);
    BestIsLongest(rows, (0, 7), 9);
    assert Best(rows, 0, 9) == Some(7);
    assert Ends(rows, 8, 9) == {};
    assert Greedy(rows, 8, 10) == [];
    CoverCons(Row(rows, (0, 7)), [], 0, 10);
    assert Greedy(rows, 0, 10) == [Row(rows, (0, 7))] + [];
    assert Coverable(rows, 0, 10) && !ExactCover(Greedy(rows, 0, 10), 0, 10);
  }

  /** If an update can start a cover of [from, to), so can the longest one that fits. */
  ghost predicate LongestStillCovers(rows: Table, from: i64, e: i64, to: int) {
    (from, e) in rows && from <= e < to && Coverable(rows, e + 1, to)
    ==> Best(rows, from, to - 1).Some? && Coverable(rows, Best(rows, from, to - 1).value + 1, to)
  }

  ghost predicate GreedyFinds(rows: Table, from: int, to: int) {
    from <= to && Coverable(rows, from, to) ==> ExactCover(Greedy(rows, from, to), from, to)
  }

  lemma LongestFromGreedy(rows: Table, from: i64, e: i64, to: int)
    requires (from, e) in rows && from <= e < to && Coverable(rows, e + 1, to)
    requires GreedyFinds(rows, from, to)
    ensures Best(rows, from, to - 1).Some? && Coverable(rows, Best(rows, from, to - 1).value + 1, to)
  {
    hide CoverFromTable, Best, Greedy;
    CoverStarts(rows, from, e, to);
    BestIsLongest(rows, (from, e), to - 1);
    var g := Best(rows, from, to - 1).value;
    GreedyStep(rows, from, g, to);
    GreedyIsFromTable(rows, g + 1, to);
    assert CoverFromTable(rows, Greedy(rows, g + 1, to), g + 1, to);
  }

  lemma CoverStarts(rows: Table, from: i64, e: i64, to: int)
    requires (from, e) in rows && from <= e < to && Coverable(rows, e + 1, to)
    ensures Coverable(rows, from, to)
  {
    var c: seq<Update> :| CoverFromTable(rows, c, e + 1, to);
    CoverCons(Row(rows, (from, e)), c, from, to);
    assert CoverFromTable(rows, [Row(rows, (from, e))] + c, from, to);
  }

  lemma GreedyIsFromTable(rows: Table, from: int, to: int)
    requires ExactCover(Greedy(rows, from, to), from, to)
    ensures CoverFromTable(rows, Greedy(rows, from, to), from, to)
  {
    forall u | u in Greedy(rows, from, to)
      ensures InTable(rows, u)
    {
      GreedyReadsTheTable(rows, from, to, u);
    }
  }

  /** Exactly which caches the greedy read is complete on, over all ranges at once. */
  lemma GreedyCompleteIff(rows: Table)
    ensures (forall from, to :: GreedyFinds(rows, from, to))
       <==> (forall from, e, to :: LongestStillCovers(rows, from, e, to))
  {
    if forall from, to :: GreedyFinds(rows, from, to) {
      forall from: i64, e: i64, to
        ensures LongestStillCovers(rows, from, e, to)
      {
        if (from, e) in rows && from <= e < to && Coverable(rows, e + 1, to) {
          LongestFromGreedy(rows, from, e, to);
        }
      }
    }
    if forall from, e, to :: LongestStillCovers(rows, from, e, to) {
      forall from, to
        ensures GreedyFinds(rows, from, to)
      {
        if from <= to && Coverable(rows, from, to) {
          GreedyFollowsLongest(rows, from, to);
        }
      }
    }
  }

  lemma {:induction false} GreedyFollowsLongest(rows: Table, from: int, to: int)
    requires forall a, e, b :: LongestStillCovers(rows, a, e, b)
    requires from <= to && Coverable(rows, from, to)
    ensures ExactCover(Greedy(rows, from, to), from, to)
    decreases (to - from)
  {
    if from >= to {
    } else {
      var c: seq<Update> :| CoverFromTable(rows, c, from, to);
      CoverBounds(c, from, to);
      assert c != [] && c[0] in c && InTable(rows, c[0]);
      BestIsLongest(rows, (c[0].startIndex, c[0].endIndex), to - 1);
      CoverDrop(c, from, to, 0);
      assert CoverFromTable(rows, c[1..], c[0].endIndex + 1, to);
      assert LongestStillCovers(rows, c[0].startIndex, c[0].endIndex, to);
      var g := Best(rows, from, to - 1).value;
      assert c[0].endIndex <= g;
      GreedyFollowsLongest(rows, g + 1, to);
      GreedyStep(rows, from, g, to);
    }
  }

  // ---- The store ----

  /** INSERT ... ON CONFLICT DO NOTHING. */
  function Inserted(rows: Table, u: Update): Table {
    if u.payload.None? || (u.startIndex, u.endIndex) in rows then rows
    else rows[(u.startIndex, u.endIndex) := Entry(u.payload.value, u.protocolVersion)]
  }

  /** Storing stops at the first update that does not decode. */
  function StoredAll(rows: Table, us: seq<Update>): Table
    decreases |us|
  {
    if us == [] || us[0].payload.None? then rows else StoredAll(Inserted(rows, us[0]), us[1..])
  }

  /** GREATEST(highest_end_index, end_index) for each stored update. */
  function HighestAfter(highest: i64, us: seq<Update>): i64
    decreases |us|
  {
    if us == [] || us[0].payload.None? then highest else HighestAfter(Max(highest, us[0].endIndex), us[1..])
  }

  ghost predicate Grew(before: Table, after: Table) {
    forall k :: k in before ==> k in after && after[k] == before[k]
  }

  ghost predicate AllCached(rows: Table, us: seq<Update>) {
    forall i :: 0 <= i < |us| ==> InTable(rows, us[i])
  }

  lemma GrowthKeepsRows(before: Table, after: Table, us: seq<Update>)
    requires Grew(before, after) && AllCached(before, us)
    ensures AllCached(after, us)
  {
  }

  /** Rows are written once: storing any updates keeps every cached row, and adds only those updates. */
  lemma {:induction false} StoreIsWriteOnce(rows: Table, us: seq<Update>)
    ensures Grew(rows, StoredAll(rows, us))
    ensures forall k :: k in StoredAll(rows, us) ==>
      k in rows || exists u :: u in us && k == (u.startIndex, u.endIndex) && InTable(StoredAll(rows, us), u)
    ensures (forall u :: u in us ==> u.payload.Some?) ==>
      forall u :: u in us ==> (u.startIndex, u.endIndex) in StoredAll(rows, us)
    decreases |us|
  {
    if us == [] || us[0].payload.None? {
    } else {
      var next := Inserted(rows, us[0]);
      var final := StoredAll(rows, us);
      StoreIsWriteOnce(next, us[1..]);
      assert us == [us[0]] + us[1..];
      forall k | k in final && k !in rows
        ensures exists u :: u in us && k == (u.startIndex, u.endIndex) && InTable(final, u)
      {
        if k in next {
          assert InTable(final, us[0]);
        }
      }
    }
  }

  /** An update that does not decode ends the storing: what is in front of it is stored, nothing behind it. */
  lemma {:induction false} StoringStopsAtBadText(rows: Table, front: seq<Update>, bad: Update, rest: seq<Update>)
    requires bad.payload.None? && forall u :: u in front ==> u.payload.Some?
    ensures StoredAll(rows, front + [bad] + rest) == StoredAll(rows, front)
    ensures front != [] ==>
      StoredAll(rows, front) == Inserted(StoredAll(rows, front[..|front| - 1]), front[|front| - 1])
    decreases |front|
  {
    var all := front + [bad] + rest;
    if front == [] {
      assert all[0] == bad;
    } else {
      assert front[0] in front && all[0] == front[0] && all[1..] == front[1..] + [bad] + rest;
      assert forall u :: u in front[1..] ==> u in front;
      StoringStopsAtBadText(Inserted(rows, front[0]), front[1..], bad, rest);
      if |front| > 1 {
        assert front[..|front| - 1][1..] == front[1..][..|front| - 2];
      }
    }
  }

  /** The chain read so far covers [from, at) with cached updates. */
  ghost predicate ReadUpTo(rows: Table, chain: seq<Update>, from: int, at: int) {
    ExactCover(chain, from, at) && AllCached(rows, chain)
  }

  lemma NothingRead(rows: Table, from: int)
    ensures ReadUpTo(rows, [], from, from)
  {
  }

  lemma GrowthKeepsRead(before: Table, after: Table, chain: seq<Update>, from: int, at: int)
    requires Grew(before, after) && ReadUpTo(before, chain, from, at)
    ensures ReadUpTo(after, chain, from, at)
  {
  }

  /** Where the query finds nothing usable the greedy read ends. */
  lemma GreedyStops(rows: Table, at: int, to: int)
    requires at >= to || Longest(rows, at, to - 1).None? || Longest(rows, at, to - 1).value.endIndex < at
    ensures Greedy(rows, at, to) == []
  {
  }

  lemma ReadEnds(rows: Table, chain: seq<Update>, from: int, at: int)
    requires ReadUpTo(rows, chain, from, at)
    ensures AllCached(rows, chain) && Consecutive(chain, from) && Reach(chain, from) == at
  {
    CoverBounds(chain, from, at);
  }

  /** One turn of the read loop: the chain grows by the row the greedy read picks. */
  lemma ChainStep(rows: Table, chain: seq<Update>, u: Update, from: int, mid: int, to: int)
    requires ReadUpTo(rows, chain, from, mid)
    requires mid < to && Longest(rows, mid, to - 1) == Some(u) && u.startIndex <= u.endIndex
    ensures ReadUpTo(rows, chain + [u], from, u.endIndex + 1)
    ensures chain + Greedy(rows, mid, to) == (chain + [u]) + Greedy(rows, u.endIndex + 1, to)
  {
    CoverAppend(chain, [u], from, mid, u.endIndex + 1);
  }

  class MerkleCacheManager {
    var rows: Table
    var highest: i64

    /** No cached update ends beyond `highest`. */
    ghost predicate Valid()
      reads this
    {
      forall k :: k in rows ==> k.1 <= highest
    }

    constructor ()
      ensures Valid() && rows == map[] && highest == 0
    {
      rows, highest := map[], 0;
    }

    method CacheUpdate(u: Update) returns (ok: bool)
      requires Valid()
      modifies this
      ensures Valid()
      ensures ok == u.payload.Some?
      ensures rows == Inserted(old(rows), u)
      ensures highest == if ok then Max(old(highest), u.endIndex) else old(highest)
    {
      if u.payload.None? {
        return false;
      }
      var k := (u.startIndex, u.endIndex);
      if k !in rows {
        rows := rows[k := Entry(u.payload.value, u.protocolVersion)];
      }
      highest := Max(highest, u.endIndex);
      ok := true;
    }

    method StoreUpdates(updates: seq<Update>) returns (ok: bool)
      requires Valid()
      modifies this
      ensures Valid()
      ensures ok <==> forall u :: u in updates ==> u.payload.Some?
      ensures rows == StoredAll(old(rows), updates)
      ensures highest == HighestAfter(old(highest), updates)
    {
      for i := 0 to |updates|
        invariant Valid()
        invariant forall j :: 0 <= j < i ==> updates[j].payload.Some?
        invariant StoredAll(rows, updates[i..]) == StoredAll(old(rows), updates)
        invariant HighestAfter(highest, updates[i..]) == HighestAfter(old(highest), updates)
      {
        assert updates[i..][0] == updates[i] && updates[i..][1..] == updates[i + 1..];
        var stored := CacheUpdate(updates[i]);
        if !stored {
          assert updates[i] in updates;
          return false;
        }
      }
      ok := true;
    }

    /** One query of the read loop, just after other tasks stored the updates that `arrived`. */
    method QueryLongest(start: i64, limit: i64, arrived: seq<Update>) returns (row: Option<Update>)
      requires Valid()
      modifies this
      ensures Valid() && Grew(old(rows), rows)
      ensures row == Longest(rows, start, limit)
      ensures arrived == [] ==> rows == old(rows)
    {
      StoreIsWriteOnce(rows, arrived);
      var _ := StoreUpdates(arrived);
      row := Longest(rows, start, limit);
    }

    /**
     * The chain of cached updates for [from, to). `arrivals[i]` are the updates other tasks store just
     * before the i-th query of the loop.
     */
    method GetCachedUpdates(from: i64, to: i64, arrivals: seq<seq<Update>>) returns (chain: seq<Update>)
      requires Valid()
      modifies this
      ensures Valid() && Grew(old(rows), rows)
      ensures AllCached(rows, chain) && Consecutive(chain, from) && Reach(chain, from) <= Max(from, to)
      ensures arrivals == [] ==> chain == Greedy(old(rows), from, to) && rows == old(rows)
    {
      hide ReadUpTo, Greedy, Longest, AllCached, Consecutive, Reach;
      chain := [];
      NothingRead(rows, from);
      if from >= to {
        GreedyStops(rows, from, to);
        ReadEnds(rows, chain, from, from);
        return;
      }
      var requiredEnd: i64 := to - 1;
      var currentStart: i64 := from;
      var queries := 0;
      while currentStart <= requiredEnd
        invariant Valid() && Grew(old(rows), rows)
        invariant from <= currentStart <= to && ReadUpTo(rows, chain, from, currentStart)
        invariant arrivals == [] ==>
          rows == old(rows) && chain + Greedy(rows, currentStart, to) == Greedy(rows, from, to)
        decreases requiredEnd + 1 - currentStart
      {
        ghost var before := rows;
        var arrived := if queries < |arrivals| then arrivals[queries] else [];
        var row := QueryLongest(currentStart, requiredEnd, arrived);
        GrowthKeepsRead(before, rows, chain, from, currentStart);
        queries := queries + 1;
        if row.None? {
          break;
        }
        var update := row.value;
        if update.endIndex < update.startIndex {
          break;
        }
        ChainStep(rows, chain, update, from, currentStart, to);
        chain := chain + [update];
        currentStart := update.endIndex + 1;
      }
      GreedyStops(rows, currentStart, to);
      assert chain + [] == chain;
      ReadEnds(rows, chain, from, currentStart);
    }
  }

  // ---- The upstream fallback ----

  datatype ShieldedEvent = Relevant(txStartIndex: i64, tree: Option<Update>) | Progress

  /** What the socket yields; a failed connection is a first `TransportError`. */
  datatype ServerMessage =
    | Next(errors: bool, data: Option<ShieldedEvent>)
    | Complete
    | ErrorMessage
    | Ping
    | OtherFrame
    | Close
    | TransportError
    | TimedOut

  datatype UpstreamError = UpstreamError

  /** Pings, progress and unknown frames do not end the fetch. */
  predicate Decisive(m: ServerMessage) {
    match m
    case Next(errors, data) => errors || (data.Some? && data.value.Relevant?)
    case Ping => false
    case OtherFrame => false
    case _ => true
  }

  /** What the first decisive message answers for [from, to). */
  function Verdict(m: ServerMessage, from: i64, to: i64): Result<seq<Update>, UpstreamError> {
    match m
    case Next(errors, data) =>
      if errors then Failure(UpstreamError)
      else if data.Some? && data.value.Relevant? && data.value.txStartIndex == to && data.value.tree.Some?
              && data.value.tree.value.startIndex == from && data.value.tree.value.endIndex == to - 1
      then Success([data.value.tree.value])
      else Success([])
    case ErrorMessage => Failure(UpstreamError)
    case TransportError => Failure(UpstreamError)
    case _ => Success([])
  }

  function FirstDecisive(messages: seq<ServerMessage>): Option<ServerMessage> {
    if messages == [] then None
    else if Decisive(messages[0]) then Some(messages[0])
    else FirstDecisive(messages[1..])
  }

  // ---- What the upstream's messages mean, spelled out ----

  /** Messages the fetch reads past: pings, unknown frames, progress, and answers without data. */
  ghost predicate ReadPast(messages: seq<ServerMessage>) {
    forall m :: m in messages ==>
      m == Ping || m == OtherFrame || m == Next(false, None) || m == Next(false, Some(Progress))
  }

  lemma {:induction false} ReadsPast(before: seq<ServerMessage>, m: ServerMessage, rest: seq<ServerMessage>)
    requires ReadPast(before) && Decisive(m)
    ensures FirstDecisive(before + [m] + rest) == Some(m)
  {
    var all := before + [m] + rest;
    if before == [] {
      assert all[0] == m;
    } else {
      assert before[0] in before && all[0] == before[0];
      assert all[1..] == before[1..] + [m] + rest;
      assert forall x :: x in before[1..] ==> x in before;
      ReadsPast(before[1..], m, rest);
    }
  }

  lemma {:induction false} ReadsPastAll(messages: seq<ServerMessage>)
    requires ReadPast(messages)
    ensures FirstDecisive(messages).None?
  {
    if messages == [] {
    } else {
      assert messages[0] in messages;
      assert forall x :: x in messages[1..] ==> x in messages;
      ReadsPastAll(messages[1..]);
    }
  }

  /** The fetch of [from, to) over the messages the socket yields. */
  function FetchAnswer(messages: seq<ServerMessage>, from: i64, to: i64): Result<seq<Update>, UpstreamError> {
    var first := FirstDecisive(messages);
    if from >= to || first.None? then Success([]) else Verdict(first.value, from, to)
  }

  /**
   * The first relevant transaction decides: its tree is the answer exactly when the transaction starts at
   * `to` and the tree runs from `from` to `to` - 1; any other is an empty answer.
   */
  lemma RelevantDecides(before: seq<ServerMessage>, start: i64, tree: Option<Update>, rest: seq<ServerMessage>,
                        from: i64, to: i64)
    requires ReadPast(before) && from < to
    ensures FetchAnswer(before + [Next(false, Some(Relevant(start, tree)))] + rest, from, to)
         == if start == to && tree.Some? && tree.value.startIndex == from && tree.value.endIndex == to - 1
            then Success([tree.value]) else Success([])
  {
    ReadsPast(before, Next(false, Some(Relevant(start, tree))), rest);
  }

  /** An error, from the server or the transport, fails the fetch; an end without an answer is empty. */
  lemma OthersDecide(before: seq<ServerMessage>, data: Option<ShieldedEvent>, rest: seq<ServerMessage>, from: i64,
                     to: i64)
    requires ReadPast(before) && from < to
    ensures FetchAnswer(before + [Next(true, data)] + rest, from, to) == Failure(UpstreamError)
    ensures FetchAnswer(before + [ErrorMessage] + rest, from, to) == Failure(UpstreamError)
    ensures FetchAnswer(before + [TransportError] + rest, from, to) == Failure(UpstreamError)
    ensures FetchAnswer(before + [Complete] + rest, from, to) == Success([])
    ensures FetchAnswer(before + [Close] + rest, from, to) == Success([])
    ensures FetchAnswer(before + [TimedOut] + rest, from, to) == Success([])
    ensures FetchAnswer(before, from, to) == Success([])
  {
    ReadsPast(before, Next(true, data), rest);
    ReadsPast(before, ErrorMessage, rest);
    ReadsPast(before, TransportError, rest);
    ReadsPast(before, Complete, rest);
    ReadsPast(before, Close, rest);
    ReadsPast(before, TimedOut, rest);
    ReadsPastAll(before);
  }

  /** The updates the upstream answers with; an error is an empty answer. */
  function UpstreamAnswer(messages: seq<ServerMessage>, from: i64, to: i64): seq<Update> {
    match FetchAnswer(messages, from, to)
    case Success(updates) => updates
    case Failure(_) => []
  }

  /** The messages offer exactly the update that fills [from, to). */
  ghost predicate Offered(messages: seq<ServerMessage>, u: Update, from: i64, to: i64) {
    exists before, rest :: ReadPast(before)
      && messages == before + [Next(false, Some(Relevant(to, Some(u))))] + rest
      && u.startIndex == from && u.endIndex == to - 1
  }

  lemma OfferIsTheAnswer(messages: seq<ServerMessage>, u: Update, from: i64, to: i64)
    requires from < to && Offered(messages, u, from, to)
    ensures UpstreamAnswer(messages, from, to) == [u]
  {
    var before, rest :| ReadPast(before)
      && messages == before + [Next(false, Some(Relevant(to, Some(u))))] + rest
      && u.startIndex == from && u.endIndex == to - 1;
    RelevantDecides(before, to, Some(u), rest, from, to);
  }

  method FetchMerkleUpdates(from: i64, to: i64, messages: seq<ServerMessage>)
    returns (r: Result<seq<Update>, UpstreamError>)
    ensures r == FetchAnswer(messages, from, to)
    ensures from >= to ==> r == Success([])
    ensures forall u :: from < to && Offered(messages, u, from, to) ==> r == Success([u])
    ensures r.Success? && r.value != [] ==> |r.value| == 1 && ExactCover(r.value, from, to)
  {
    forall u | from < to && Offered(messages, u, from, to)
      ensures FetchAnswer(messages, from, to) == Success([u])
    {
      OfferIsTheAnswer(messages, u, from, to);
    }
    if from >= to {
      return Success([]);
    }
    var requiredEndIndex := to - 1;
    for i := 0 to |messages|
      invariant FirstDecisive(messages[i..]) == FirstDecisive(messages)
    {
      assert messages[i..][0] == messages[i] && messages[i..][1..] == messages[i + 1..];
      match messages[i] {
        case Next(errors, data) =>
          if errors {
            return Failure(UpstreamError);
          }
          if data.Some? && data.value.Relevant? {
            if data.value.txStartIndex != to {
              return Success([]);
            }
            if data.value.tree.None? {
              return Success([]);
            }
            var tree := data.value.tree.value;
            if tree.startIndex != from {
              return Success([]);
            }
            if tree.endIndex != requiredEndIndex {
              return Success([]);
            }
            return Success([tree]);
          }
        case Ping =>
        case OtherFrame =>
        case ErrorMessage =>
          return Failure(UpstreamError);
        case TransportError =>
          return Failure(UpstreamError);
        case _ =>
          return Success([]);
      }
    }
    return Success([]);
  }

  /** What the outside does while one gap is looked up. */
  datatype LookupEnv = LookupEnv(arrivals: seq<seq<Update>>, queryFails: bool, messages: seq<ServerMessage>)

  /** The cache first, the upstream on a miss; whatever comes back is nothing or an exact cover. */
  method ResolveGap(cache: MerkleCacheManager?, from: i64, to: i64, env: LookupEnv) returns (answer: seq<Update>)
    requires from < to
    requires cache != null ==> cache.Valid()
    modifies if cache == null then {} else {cache}
    ensures cache != null ==> cache.Valid() && Grew(old(cache.rows), cache.rows)
    ensures answer == [] || ExactCover(answer, from, to)
    ensures answer == UpstreamAnswer(env.messages, from, to)
            || (cache != null && ExactCover(answer, from, to) && AllCached(cache.rows, answer))
    ensures cache == null ==> answer == UpstreamAnswer(env.messages, from, to)
    ensures cache != null && env.arrivals == [] ==>
              if !env.queryFails && ExactCover(Greedy(old(cache.rows), from, to), from, to) then
                answer == Greedy(old(cache.rows), from, to) && cache.rows == old(cache.rows)
              else
                answer == UpstreamAnswer(env.messages, from, to) && cache.rows == StoredAll(old(cache.rows), answer)
    ensures cache != null && env.queryFails ==>
              answer == UpstreamAnswer(env.messages, from, to) && cache.rows == StoredAll(old(cache.rows), answer)
    ensures forall u :: Offered(env.messages, u, from, to) ==>
              answer == [u] || (cache != null && ExactCover(answer, from, to) && AllCached(cache.rows, answer))
  {
    forall u | Offered(env.messages, u, from, to)
      ensures UpstreamAnswer(env.messages, from, to) == [u]
    {
      OfferIsTheAnswer(env.messages, u, from, to);
    }
    answer := [];
    if cache != null && !env.queryFails {
      var updates := cache.GetCachedUpdates(from, to, env.arrivals);
      CoverBounds(updates, from, Reach(updates, from));
      var covered := CoversRange(updates, from, to);
      if covered {
        return updates;
      }
    }
    var fetched := FetchMerkleUpdates(from, to, env.messages);
    if fetched.Success? && fetched.value != [] {
      if cache != null {
        StoreIsWriteOnce(cache.rows, fetched.value);
        var _ := cache.StoreUpdates(fetched.value);
      }
      answer := fetched.value;
    }
  }
}
