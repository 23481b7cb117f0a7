/** `build_block_bundles_tx`: block bundles with inline collapsed Merkle updates. */
module Assembly {
  import opened Prelude
  import opened Seqs
  import opened Sequence
  import opened Sorting
  import opened Tables
  import opened Queries
  import opened MerkleCache

  /** A vector never holds more than isize::MAX elements. */
  type Updates = us: seq<Update> | |us| <= I64_MAX

  datatype OrderedFeedItem = OrderedFeedItem(sequence: string, item: FeedItem)

  datatype BlockBundle = BlockBundle(meta: BlockMeta, items: seq<OrderedFeedItem>)

  function Render(): Item -> OrderedFeedItem {
    (x: Item) => OrderedFeedItem(ToCursor(x.key), x.value)
  }

  function NotMerkle(): Item -> bool {
    (x: Item) => !x.value.MerkleCollapsedUpdate?
  }

  // ---- Merkle positions ----

  /** The hole [from, to) in the commitment tree that must be filled before `row`, if any. */
  function GapBefore(row: RelevantTx, last: i64): Option<(i64, i64)> {
    if row.startIndex.Some? && row.endIndex.Some? then
      var start := row.startIndex.value;
      if (if last < 0 then start > 0 else start > last) then Some((if last < 0 then 0 else last, start)) else None
    else None
  }

  function EndAfterRow(row: RelevantTx, last: i64): i64 {
    if row.startIndex.Some? && row.endIndex.Some? then row.endIndex.value else last
  }

  function EndAfter(rows: seq<Keyed<RelevantTx>>, last: i64): i64 {
    if rows == [] then last
    else EndAfterRow(rows[|rows| - 1].value, EndAfter(rows[..|rows| - 1], last))
  }

  function UpdateItems(row: Keyed<RelevantTx>, us: Updates): seq<Item> {
    seq(|us|, i requires 0 <= i < |us| =>
      Keyed(SequenceKey(row.key.blockHeight, row.key.txId, PHASE_TX, i - |us|), MerkleCollapsedUpdate(us[i])))
  }

  /** The pushes of the relevant rows of one block: each row's updates, then the row. */
  function Inject(rows: seq<Keyed<RelevantTx>>, answers: seq<Updates>): seq<Item>
    requires |rows| == |answers|
  {
    if rows == [] then []
    else
      var n := |rows| - 1;
      Inject(rows[..n], answers[..n]) + UpdateItems(rows[n], answers[n]) + [ShieldedItem()(rows[n])]
  }

  /** Each gap was answered by nothing or by an exact cover, and nothing else was injected. */
  ghost predicate GoodAnswers(rows: seq<Keyed<RelevantTx>>, answers: seq<Updates>, last: i64)
    requires |rows| == |answers|
  {
    rows != [] ==>
      var n := |rows| - 1;
      var gap := GapBefore(rows[n].value, EndAfter(rows[..n], last));
      && GoodAnswers(rows[..n], answers[..n], last)
      && (answers[n] == [] || (gap.Some? && ExactCover(answers[n], gap.value.0, gap.value.1)))
  }

  /** The gaps whose lookup came back with nothing. */
  function Missed(rows: seq<Keyed<RelevantTx>>, answers: seq<Updates>, last: i64): seq<(i64, i64)>
    requires |rows| == |answers|
  {
    if rows == [] then []
    else
      var n := |rows| - 1;
      var gap := GapBefore(rows[n].value, EndAfter(rows[..n], last));
      Missed(rows[..n], answers[..n], last) + (if gap.Some? && answers[n] == [] then [gap.value] else [])
  }

  /** `answers` cut or padded to one answer per row. */
  function Fit(answers: seq<Updates>, n: nat): (r: seq<Updates>)
    ensures |r| == n
    ensures |answers| == n ==> r == answers
  {
    seq(n, i requires 0 <= i < n => if i < |answers| then answers[i] else [])
  }

  // ---- One block ----

  function Pushed(db: Snapshot, s: Session, h: int, answers: seq<Updates>): seq<Item> {
    var rows := RelevantRows(db, h, h);
    MetaPart(db, s, h) + Inject(rows, Fit(answers, |rows|)) + EventPart(db, s, h)
  }

  function BundleItems(db: Snapshot, s: Session, h: int, answers: seq<Updates>): seq<Item> {
    StableSort(Pushed(db, s, h, answers))
  }

  function Bundle(db: Snapshot, s: Session, meta: BlockMeta, answers: seq<Updates>): BlockBundle {
    BlockBundle(meta, Map(Render(), BundleItems(db, s, meta.height, answers)))
  }

  lemma RowWithoutMerkle(row: Keyed<RelevantTx>, us: Updates)
    ensures Filter(UpdateItems(row, us) + [ShieldedItem()(row)], NotMerkle()) == [ShieldedItem()(row)]
  {
    FilterConcat(UpdateItems(row, us), [ShieldedItem()(row)], NotMerkle());
    FilterNone(UpdateItems(row, us), NotMerkle());
    FilterAll([ShieldedItem()(row)], NotMerkle());
  }

  lemma {:induction false} InjectWithoutMerkle(rows: seq<Keyed<RelevantTx>>, answers: seq<Updates>)
    requires |rows| == |answers|
    ensures Filter(Inject(rows, answers), NotMerkle()) == Map(ShieldedItem(), rows)
  {
    if rows == [] {
    } else {
      var n := |rows| - 1;
      var before, own := Inject(rows[..n], answers[..n]), UpdateItems(rows[n], answers[n]) + [ShieldedItem()(rows[n])];
      assert Inject(rows, answers) == before + own;
      assert rows == rows[..n] + [rows[n]] && Map(ShieldedItem(), [rows[n]]) == [ShieldedItem()(rows[n])];
      hide Filter, Map, Inject, UpdateItems, ShieldedItem;
      InjectWithoutMerkle(rows[..n], answers[..n]);
      FilterConcat(before, own, NotMerkle());
      RowWithoutMerkle(rows[n], answers[n]);
      MapConcat(ShieldedItem(), rows[..n], [rows[n]]);
    }
  }

  lemma FilterSorted(a: seq<Item>, middle: seq<Item>, c: seq<Item>, p: Item -> bool, kept: seq<Item>)
    requires Filter(a, p) + Filter(middle, p) + Filter(c, p) == kept
    ensures Filter(StableSort(a + middle + c), p) == StableSort(kept)
  {
    SortFilter(a + middle + c, p);
    FilterConcat(a + middle, c, p);
    FilterConcat(a, middle, p);
  }

  lemma MetaPartKind(db: Snapshot, s: Session, h: int, x: Item)
    requires x in MetaPart(db, s, h)
    ensures x.value.TransactionMeta?
  {
    OrderedMembers(MetaMap(db, s, WalletTxs(db, s, h, h)));
  }

  lemma ZswapKind(db: Snapshot, s: Session, h: int, x: Item)
    requires x in ZswapRows(db, s, h, h)
    ensures x.value.ZswapInputRaw?
  {
    OrderedMembers(ZswapMap(db, s, h, h));
  }

  lemma DustKind(db: Snapshot, s: Session, h: int, x: Item)
    requires x in DustRows(db, s, h, h)
    ensures x.value.DustLedgerEvent?
  {
    OrderedMembers(DustMap(db, s, h, h));
  }

  lemma EventPartKind(db: Snapshot, s: Session, h: int, x: Item)
    requires x in EventPart(db, s, h)
    ensures x.value.ZswapInputRaw? || x.value.DustLedgerEvent? || x.value.UnshieldedUtxo?
  {
    if x in ZswapRows(db, s, h, h) {
      ZswapKind(db, s, h, x);
    } else if x in DustRows(db, s, h, h) {
      DustKind(db, s, h, x);
    }
  }

  lemma PartsWithoutMerkle(db: Snapshot, s: Session, h: int)
    ensures Filter(MetaPart(db, s, h), NotMerkle()) == MetaPart(db, s, h)
    ensures Filter(EventPart(db, s, h), NotMerkle()) == EventPart(db, s, h)
  {
    forall x | x in MetaPart(db, s, h)
      ensures NotMerkle()(x)
    {
      MetaPartKind(db, s, h, x);
    }
    forall x | x in EventPart(db, s, h)
      ensures NotMerkle()(x)
    {
      EventPartKind(db, s, h, x);
    }
    FilterAll(MetaPart(db, s, h), NotMerkle());
    FilterAll(EventPart(db, s, h), NotMerkle());
  }

  /** Without its Merkle updates a bundle is what the block owes, whatever the lookups answered. */
  lemma BundleWithoutMerkle(db: Snapshot, s: Session, h: int, answers: seq<Updates>)
    ensures Filter(BundleItems(db, s, h, answers), NotMerkle()) == Items(db, s, h)
  {
    var rows := RelevantRows(db, h, h);
    InjectWithoutMerkle(rows, Fit(answers, |rows|));
    PartsWithoutMerkle(db, s, h);
    FilterSorted(MetaPart(db, s, h), Inject(rows, Fit(answers, |rows|)), EventPart(db, s, h), NotMerkle(),
                 Owed(db, s, h));
  }
}
