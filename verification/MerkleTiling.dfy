/** What a client that follows the commitment tree sees: Merkle updates and relevant transactions tile it. */
module MerkleTiling {
  import opened Prelude
  import opened Seqs
  import opened Sequence
  import opened Sorting
  import opened Tables
  import opened Queries
  import opened Assembly
  import opened FeedOrder
  import opened MerkleCache

  // ---- Scanning ranges from left to right ----

  /** How far the scan has come, the holes it stepped over, and whether it ever had to go back. */
  datatype Tiling = Tiling(position: int, holes: seq<(int, int)>, overlaps: bool)

  const FRESH := Tiling(0, [], false)

  function Lay(t: Tiling, span: (int, int)): Tiling {
    Tiling(span.1,
           if span.0 > t.position then t.holes + [(t.position, span.0)] else t.holes,
           t.overlaps || span.0 < t.position || span.1 < span.0)
  }

  function LayAll(t: Tiling, spans: seq<(int, int)>): Tiling
    decreases |spans|
  {
    if spans == [] then t else LayAll(Lay(t, spans[0]), spans[1..])
  }

  lemma {:induction false} LayConcat(t: Tiling, a: seq<(int, int)>, b: seq<(int, int)>)
    ensures LayAll(t, a + b) == LayAll(LayAll(t, a), b)
    decreases |a|
  {
    if a == [] {
      assert a + b == b;
    } else {
      assert (a + b)[1..] == a[1..] + b;
      LayConcat(Lay(t, a[0]), a[1..], b);
    }
  }

  function Inside(i: int): ((int, int)) -> bool {
    (span: (int, int)) => span.0 <= i < span.1
  }

  function Times(spans: seq<(int, int)>, i: int): nat {
    |Filter(spans, Inside(i))|
  }

  lemma {:induction false} OverlapsStay(t: Tiling, spans: seq<(int, int)>)
    requires t.overlaps
    ensures LayAll(t, spans).overlaps
    decreases |spans|
  {
    if spans == [] {
    } else {
      OverlapsStay(Lay(t, spans[0]), spans[1..]);
    }
  }

  lemma {:induction false} TilesOnceFrom(t: Tiling, spans: seq<(int, int)>, i: int)
    requires !LayAll(t, spans).overlaps
    ensures t.position <= LayAll(t, spans).position && t.holes <= LayAll(t, spans).holes
    ensures Times(spans, i) + Times(LayAll(t, spans).holes, i)
         == Times(t.holes, i) + (if t.position <= i < LayAll(t, spans).position then 1 else 0)
    decreases |spans|
  {
    if spans == [] {
    } else {
      var next := Lay(t, spans[0]);
      if next.overlaps {
        OverlapsStay(next, spans[1..]);
      }
      TilesOnceFrom(next, spans[1..], i);
      FilterCons(spans[0], spans[1..], Inside(i));
      assert spans == [spans[0]] + spans[1..];
      if spans[0].0 > t.position {
        FilterConcat(t.holes, [(t.position, spans[0].0)], Inside(i));
      }
    }
  }

  /** A scan that never goes back meets every index below its position once, in a span or in a hole. */
  lemma TilesOnce(spans: seq<(int, int)>, i: int)
    requires !LayAll(FRESH, spans).overlaps
    ensures Times(spans, i) + Times(LayAll(FRESH, spans).holes, i)
         == if 0 <= i < LayAll(FRESH, spans).position then 1 else 0
  {
    TilesOnceFrom(FRESH, spans, i);
  }

  // ---- The ranges of a feed ----

  predicate HasRange(db: Snapshot, t: i64) {
    t in db.txs && db.txs[t].regular.Some?
    && db.txs[t].regular.value.startIndex.Some? && db.txs[t].regular.value.endIndex.Some?
  }

  function StartOf(db: Snapshot, t: i64): i64
    requires HasRange(db, t)
  {
    db.txs[t].regular.value.startIndex.value
  }

  function EndOf(db: Snapshot, t: i64): i64
    requires HasRange(db, t)
  {
    db.txs[t].regular.value.endIndex.value
  }

  /** The part of the tree an item covers. */
  function SpanOf(db: Snapshot, x: FeedItem): seq<(int, int)> {
    match x
    case MerkleCollapsedUpdate(u) => [(u.startIndex, u.endIndex + 1)]
    case ShieldedRelevantTx(t, _, _, _, _, _) => if HasRange(db, t) then [(StartOf(db, t), EndOf(db, t))] else []
    case _ => []
  }

  function ItemSpans(db: Snapshot, items: seq<Item>): seq<(int, int)> {
    if items == [] then [] else SpanOf(db, items[0].value) + ItemSpans(db, items[1..])
  }

  function Spans(db: Snapshot, items: seq<OrderedFeedItem>): seq<(int, int)> {
    if items == [] then [] else SpanOf(db, items[0].item) + Spans(db, items[1..])
  }

  lemma {:induction false} SpansRendered(db: Snapshot, items: seq<Item>)
    ensures Spans(db, Map(Render(), items)) == ItemSpans(db, items)
  {
    if items == [] {
    } else {
      SpansRendered(db, items[1..]);
      assert Map(Render(), items)[1..] == Map(Render(), items[1..]);
    }
  }

  lemma {:induction false} SpansConcat(db: Snapshot, a: seq<OrderedFeedItem>, b: seq<OrderedFeedItem>)
    ensures Spans(db, a + b) == Spans(db, a) + Spans(db, b)
  {
    if a == [] {
      assert a + b == b;
    } else {
      assert (a + b)[1..] == a[1..] + b;
      SpansConcat(db, a[1..], b);
    }
  }

  lemma {:induction false} ItemSpansConcat(db: Snapshot, a: seq<Item>, b: seq<Item>)
    ensures ItemSpans(db, a + b) == ItemSpans(db, a) + ItemSpans(db, b)
  {
    if a == [] {
      assert a + b == b;
    } else {
      assert (a + b)[1..] == a[1..] + b;
      ItemSpansConcat(db, a[1..], b);
    }
  }

  function InTree(): Item -> bool {
    (x: Item) => x.value.MerkleCollapsedUpdate? || x.value.ShieldedRelevantTx?
  }

  lemma {:induction false} SpansOfTree(db: Snapshot, items: seq<Item>)
    ensures ItemSpans(db, Filter(items, InTree())) == ItemSpans(db, items)
  {
    if items == [] {
    } else {
      SpansOfTree(db, items[1..]);
      assert items == [items[0]] + items[1..];
      FilterCons(items[0], items[1..], InTree());
      if InTree()(items[0]) {
        assert Filter(items, InTree())[1..] == Filter(items[1..], InTree());
      } else {
        assert Filter(items, InTree()) == Filter(items[1..], InTree());
      }
    }
  }

  // ---- One block ----

  function RowSpan(row: RelevantTx): seq<(int, int)> {
    if row.startIndex.Some? && row.endIndex.Some? then [(row.startIndex.value, row.endIndex.value)] else []
  }

  /** The rows carry the ranges that `e` stores for their transactions. */
  ghost predicate RowsOf(e: Snapshot, rows: seq<Keyed<RelevantTx>>) {
    forall r :: r in rows ==> RowSpan(r.value) == SpanOf(e, ShieldedItem()(r).value)
  }

  /** Each row's range starts at or after the position reached before it. */
  ghost predicate RowsFit(rows: seq<Keyed<RelevantTx>>, last: i64) {
    rows != [] ==>
      var n := |rows| - 1;
      && RowsFit(rows[..n], last)
      && forall span :: span in RowSpan(rows[n].value) ==> Max(EndAfter(rows[..n], last), 0) <= span.0 <= span.1
  }

  lemma {:induction false} UpdatesAreSpans(db: Snapshot, items: seq<Item>, us: seq<Update>, from: int, to: int,
                                           t: Tiling)
    requires |items| == |us|
    requires forall i :: 0 <= i < |us| ==> items[i].value == MerkleCollapsedUpdate(us[i])
    requires ExactCover(us, from, to) && t.position == from
    ensures LayAll(t, ItemSpans(db, items)) == t.(position := to)
    decreases |us|
  {
    if us == [] {
    } else {
      var span := (us[0].startIndex as int, us[0].endIndex + 1);
      assert SpanOf(db, items[0].value) == [span];
      assert ([span] + ItemSpans(db, items[1..]))[1..] == ItemSpans(db, items[1..]);
      UpdatesAreSpans(db, items[1..], us[1..], us[0].endIndex + 1, to, Lay(t, span));
    }
  }

  lemma LaySpan(t: Tiling, row: RelevantTx, last: i64)
    requires t.position == Max(last, 0)
    requires forall span :: span in RowSpan(row) ==> Max(last, 0) <= span.0 <= span.1
    ensures var gap := GapBefore(row, last);
            LayAll(t, RowSpan(row)) ==
              Tiling(Max(EndAfterRow(row, last), 0), t.holes + (if gap.Some? then [gap.value] else []), t.overlaps)
  {
    if RowSpan(row) != [] {
      assert RowSpan(row)[0] in RowSpan(row);
      assert RowSpan(row)[1..] == [];
    }
  }

  /** One row: its updates fill the gap before it, or the gap is left as one hole; then the row itself. */
  lemma RowTiles(e: Snapshot, row: Keyed<RelevantTx>, answer: Updates, last: i64, t: Tiling)
    requires t.position == Max(last, 0)
    requires RowSpan(row.value) == SpanOf(e, ShieldedItem()(row).value)
    requires forall span :: span in RowSpan(row.value) ==> Max(last, 0) <= span.0 <= span.1
    requires var gap := GapBefore(row.value, last);
             answer == [] || (gap.Some? && ExactCover(answer, gap.value.0, gap.value.1))
    ensures var gap := GapBefore(row.value, last);
            LayAll(t, ItemSpans(e, UpdateItems(row, answer) + [ShieldedItem()(row)])) ==
              Tiling(Max(EndAfterRow(row.value, last), 0),
                     t.holes + (if gap.Some? && answer == [] then [gap.value] else []), t.overlaps)
  {
    var gap := GapBefore(row.value, last);
    var us, own := UpdateItems(row, answer), [ShieldedItem()(row)];
    ItemSpansConcat(e, us, own);
    LayConcat(t, ItemSpans(e, us), ItemSpans(e, own));
    assert ItemSpans(e, own) == RowSpan(row.value);
    if answer == [] {
      assert us == [];
      LaySpan(t, row.value, last);
    } else {
      UpdatesAreSpans(e, us, answer, gap.value.0, gap.value.1, t);
      var there := t.(position := gap.value.1);
      assert RowSpan(row.value)[1..] == [] && LayAll(there, RowSpan(row.value)) == Lay(there, RowSpan(row.value)[0]);
    }
  }

  lemma NothingTiles(e: Snapshot, t: Tiling)
    ensures LayAll(t, ItemSpans(e, [])) == t
  {
  }

  /** The rows of a block with their injected updates continue the tiling; unanswered gaps are its holes. */
  lemma {:induction false} InjectTiles(e: Snapshot, rows: seq<Keyed<RelevantTx>>, answers: seq<Updates>, last: i64,
                                       t: Tiling)
    requires |rows| == |answers| && RowsOf(e, rows) && RowsFit(rows, last) && GoodAnswers(rows, answers, last)
    requires t.position == Max(last, 0)
    ensures LayAll(t, ItemSpans(e, Inject(rows, answers)))
         == Tiling(Max(EndAfter(rows, last), 0), t.holes + Missed(rows, answers, last), t.overlaps)
    decreases |rows|
  {
    hide LayAll, ItemSpans, UpdateItems, EndAfterRow, GapBefore, ExactCover, RowSpan, SpanOf, Lay;
    if rows == [] {
      NothingTiles(e, t);
    } else {
      var n := |rows| - 1;
      var before, own := Inject(rows[..n], answers[..n]), UpdateItems(rows[n], answers[n]) + [ShieldedItem()(rows[n])];
      assert rows[n] in rows;
      InjectTiles(e, rows[..n], answers[..n], last, t);
      assert Inject(rows, answers) == before + own;
      ItemSpansConcat(e, before, own);
      LayConcat(t, ItemSpans(e, before), ItemSpans(e, own));
      RowTiles(e, rows[n], answers[n], EndAfter(rows[..n], last), LayAll(t, ItemSpans(e, before)));
    }
  }

  lemma {:induction false} InjectInTree(rows: seq<Keyed<RelevantTx>>, answers: seq<Updates>, x: Item)
    requires |rows| == |answers| && x in Inject(rows, answers)
    ensures InTree()(x)
  {
    var n := |rows| - 1;
    if x in Inject(rows[..n], answers[..n]) {
      InjectInTree(rows[..n], answers[..n], x);
    }
  }

  lemma OtherPartsNotInTree(db: Snapshot, s: Session, h: int)
    ensures Filter(MetaPart(db, s, h), InTree()) == [] && Filter(EventPart(db, s, h), InTree()) == []
  {
    hide MetaPart, EventPart;
    forall x | x in MetaPart(db, s, h)
      ensures !InTree()(x)
    {
      MetaPartKind(db, s, h, x);
    }
    forall x | x in EventPart(db, s, h)
      ensures !InTree()(x)
    {
      EventPartKind(db, s, h, x);
    }
    FilterNone(MetaPart(db, s, h), InTree());
    FilterNone(EventPart(db, s, h), InTree());
  }

  lemma AlreadySorted(rows: seq<Keyed<RelevantTx>>, answers: seq<Updates>, h: int)
    requires |rows| == |answers| && RelevantKeys(rows, h) && StrictlySorted(rows)
    ensures StableSort(Inject(rows, answers)) == Inject(rows, answers)
  {
    InjectStrict(rows, answers, h);
    StrictIsSorted(Inject(rows, answers));
    SortedIsFixed(Inject(rows, answers));
  }

  lemma StrictIsSorted(s: seq<Item>)
    requires StrictlySorted(s)
    ensures Sorted(s)
  {
    forall i, j | 0 <= i < j < |s|
      ensures !Less(s[j].key, s[i].key)
    {
      LessTotal(s[i].key, s[j].key);
    }
  }

  /** The sort moves no update away from its transaction: in the sorted bundle the tree items are as pushed. */
  lemma BundleTree(db: Snapshot, s: Session, h: int, answers: seq<Updates>)
    ensures var rows := RelevantRows(db, h, h);
            Filter(BundleItems(db, s, h, answers), InTree()) == Inject(rows, Fit(answers, |rows|))
  {
    hide MetaPart, EventPart, RelevantRows, Inject, StableSort, Filter;
    var rows := RelevantRows(db, h, h);
    var own := Inject(rows, Fit(answers, |rows|));
    RelevantRowsStrict(db, h);
    AlreadySorted(rows, Fit(answers, |rows|), h);
    OtherPartsNotInTree(db, s, h);
    forall x | x in own
      ensures InTree()(x)
    {
      InjectInTree(rows, Fit(answers, |rows|), x);
    }
    FilterAll(own, InTree());
    FilterSorted(MetaPart(db, s, h), own, EventPart(db, s, h), InTree(), own);
  }

  lemma BundleSpans(e: Snapshot, db: Snapshot, s: Session, block: BlockMeta, answers: seq<Updates>)
    ensures var rows := RelevantRows(db, block.height, block.height);
            Spans(e, Bundle(db, s, block, answers).items) == ItemSpans(e, Inject(rows, Fit(answers, |rows|)))
  {
    hide BundleItems, Inject, RelevantRows;
    BundleTree(db, s, block.height, answers);
    SpansRendered(e, BundleItems(db, s, block.height, answers));
    SpansOfTree(e, BundleItems(db, s, block.height, answers));
  }

  // ---- Increasing ranges ----

  ghost predicate Before(db: Snapshot, t: i64, u: i64)
    requires t in db.txs && u in db.txs
  {
    db.txs[t].height < db.txs[u].height || (db.txs[t].height == db.txs[u].height && t < u)
  }

  /** Transactions take their parts of the tree in chain order. */
  ghost predicate IncreasingRanges(db: Snapshot) {
    && (forall t :: HasRange(db, t) ==> 0 <= StartOf(db, t) <= EndOf(db, t))
    && (forall t, u :: HasRange(db, t) && HasRange(db, u) && Before(db, t, u) ==> EndOf(db, t) <= StartOf(db, u))
  }

  /** `last` is fresh, or the end of a transaction below height `h`. */
  ghost predicate Anchored(db: Snapshot, last: i64, h: int) {
    last == -1 || exists t: i64 :: HasRange(db, t) && db.txs[t].height < h && EndOf(db, t) == last
  }

  /** `last` is fresh, or the end of a transaction that comes before (h, id). */
  ghost predicate AnchoredBefore(db: Snapshot, last: i64, h: int, id: int) {
    last == -1
    || exists t: i64 :: HasRange(db, t) && EndOf(db, t) == last
                        && (db.txs[t].height < h || (db.txs[t].height == h && t < id))
  }

  /** The rows are those of block `h` in `e`. */
  ghost predicate RowsAt(e: Snapshot, rows: seq<Keyed<RelevantTx>>, h: int) {
    forall r :: r in rows ==>
      && r.key.txId in e.txs && e.txs[r.key.txId].height == h && RowSpan(r.value) == SpanOf(e, ShieldedItem()(r).value)
  }

  lemma RowRange(e: Snapshot, rows: seq<Keyed<RelevantTx>>, h: int, r: Keyed<RelevantTx>)
    requires RowsAt(e, rows, h) && r in rows
    ensures HasRange(e, r.key.txId) <==> r.value.startIndex.Some? && r.value.endIndex.Some?
    ensures HasRange(e, r.key.txId) ==>
      RowSpan(r.value) == [(StartOf(e, r.key.txId), EndOf(e, r.key.txId))]
      && r.value.endIndex.value == EndOf(e, r.key.txId)
  {
    if HasRange(e, r.key.txId) {
      assert SpanOf(e, ShieldedItem()(r).value)[0] == RowSpan(r.value)[0];
    }
  }

  ghost predicate Ids(rows: seq<Keyed<RelevantTx>>) {
    forall i, j :: 0 <= i < j < |rows| ==> rows[i].key.txId < rows[j].key.txId
  }

  /** A row after an anchored position starts at or behind it, and leaves an anchored position. */
  lemma RowFits(e: Snapshot, rows: seq<Keyed<RelevantTx>>, last: i64, h: int, own: Keyed<RelevantTx>, next: int)
    requires IncreasingRanges(e) && RowsAt(e, rows, h) && own in rows && own.key.txId < next
    requires AnchoredBefore(e, last, h, own.key.txId)
    ensures forall span :: span in RowSpan(own.value) ==> Max(last, 0) <= span.0 <= span.1
    ensures AnchoredBefore(e, EndAfterRow(own.value, last), h, next)
  {
    RowRange(e, rows, h, own);
    if HasRange(e, own.key.txId) && last != -1 {
      var t: i64 :| HasRange(e, t) && EndOf(e, t) == last
                   && (e.txs[t].height < h || (e.txs[t].height == h && t < own.key.txId));
      assert Before(e, t, own.key.txId);
    }
  }

  lemma IdsBelowLast(rows: seq<Keyed<RelevantTx>>)
    requires Ids(rows) && rows != []
    ensures forall r :: r in rows[..|rows| - 1] ==> r.key.txId < rows[|rows| - 1].key.txId
    ensures Ids(rows[..|rows| - 1])
  {
    var n := |rows| - 1;
    forall r | r in rows[..n]
      ensures r.key.txId < rows[n].key.txId
    {
      var i :| 0 <= i < n && rows[i] == r;
    }
  }

  lemma {:induction false} RowsAreFit(e: Snapshot, rows: seq<Keyed<RelevantTx>>, last: i64, h: int, next: int)
    requires IncreasingRanges(e) && Anchored(e, last, h) && RowsAt(e, rows, h) && Ids(rows)
    requires forall r :: r in rows ==> r.key.txId < next
    ensures RowsFit(rows, last) && AnchoredBefore(e, EndAfter(rows, last), h, next)
    decreases |rows|
  {
    hide IncreasingRanges, Ids, RowSpan, EndAfterRow, SpanOf;
    if rows == [] {
    } else {
      var n := |rows| - 1;
      assert rows[n] in rows;
      IdsBelowLast(rows);
      RowsAreFit(e, rows[..n], last, h, rows[n].key.txId);
      hide Anchored, AnchoredBefore, RowsAt;
      RowFits(e, rows, EndAfter(rows[..n], last), h, rows[n], next);
    }
  }

  lemma RelevantRowAt(db: Snapshot, e: Snapshot, h: int, r: Keyed<RelevantTx>)
    requires Extends(db.txs, e.txs) && r in RelevantRows(db, h, h)
    ensures r.key.txId in e.txs && e.txs[r.key.txId].height == h
    ensures RowSpan(r.value) == SpanOf(e, ShieldedItem()(r).value)
  {
    hide Ordered, ZswapEventsOf;
    OrderedMembers(RelevantMap(db, h, h));
    assert RowOf(RelevantMap(db, h, h), r);
  }

  lemma StrictIds(rows: seq<Keyed<RelevantTx>>, h: int)
    requires StrictlySorted(rows) && RelevantKeys(rows, h)
    ensures Ids(rows)
  {
    forall i, j | 0 <= i < j < |rows|
      ensures rows[i].key.txId < rows[j].key.txId
    {
      assert rows[i] in rows && rows[j] in rows && Less(rows[i].key, rows[j].key);
      assert HasKey(h, PHASE_TX, 1)(rows[i]) && HasKey(h, PHASE_TX, 1)(rows[j]);
    }
  }

  lemma RelevantRowsAt(db: Snapshot, e: Snapshot, h: int)
    requires Extends(db.txs, e.txs)
    ensures RowsAt(e, RelevantRows(db, h, h), h) && Ids(RelevantRows(db, h, h))
  {
    hide RelevantRows, Extends, StrictlySorted, RelevantKeys, Ids, RowSpan, SpanOf;
    var rows := RelevantRows(db, h, h);
    RelevantRowsStrict(db, h);
    StrictIds(rows, h);
    forall r | r in rows
      ensures r.key.txId in e.txs && e.txs[r.key.txId].height == h
      ensures RowSpan(r.value) == SpanOf(e, ShieldedItem()(r).value)
    {
      RelevantRowAt(db, e, h, r);
    }
  }

  lemma AnchorMoves(e: Snapshot, last: i64, h: int, id: int)
    requires AnchoredBefore(e, last, h, id)
    ensures Anchored(e, last, h + 1)
  {
  }

  /** One block's bundle continues the tiling. */
  lemma BundleTiles(e: Snapshot, db: Snapshot, s: Session, block: BlockMeta, answers: seq<Updates>, last: i64,
                    t: Tiling)
    requires IncreasingRanges(e) && Extends(db.txs, e.txs) && Anchored(e, last, block.height)
    requires t.position == Max(last, 0)
    requires var rows := RelevantRows(db, block.height, block.height);
             GoodAnswers(rows, Fit(answers, |rows|), last)
    ensures var rows := RelevantRows(db, block.height, block.height);
            && LayAll(t, Spans(e, Bundle(db, s, block, answers).items))
               == Tiling(Max(EndAfter(rows, last), 0), t.holes + Missed(rows, Fit(answers, |rows|), last), t.overlaps)
            && Anchored(e, EndAfter(rows, last), block.height + 1)
  {
    hide Bundle, RelevantRows, Extends, IncreasingRanges, Anchored, AnchoredBefore, GoodAnswers, RowsFit, Inject;
    var h, rows := block.height, RelevantRows(db, block.height, block.height);
    RelevantRowsAt(db, e, h);
    RowsAreFit(e, rows, last, h, I64_MAX + 1);
    AnchorMoves(e, EndAfter(rows, last), h, I64_MAX + 1);
    InjectTiles(e, rows, Fit(answers, |rows|), last, t);
    BundleSpans(e, db, s, block, answers);
  }
}
