/** The keys, cursors and order of the items of a block, by kind of item and by id. */
module BundleLaws {
  import opened Prelude
  import opened Seqs
  import opened Sequence
  import opened Sorting
  import opened Tables
  import opened Queries
  import opened Contents
  import opened Assembly

  // ---- Keys ----

  /** The key an item of block `h` has: height, transaction, phase, and an ordinal by kind. */
  ghost predicate Placed(h: int, x: Item) {
    x.key.blockHeight == h &&
    match x.value
    case TransactionMeta(t, _, height, _, _, _, _, _, _, _, _, _, _) =>
      height == h && x.key == SequenceKey(height, t, 0, 0)
    case MerkleCollapsedUpdate(_) => x.key.phase == 0 && x.key.ordinal < 0
    case ShieldedRelevantTx(t, _, height, _, _, _) => height == h && x.key == SequenceKey(height, t, 0, 1)
    case ZswapInputRaw(t, _, event, height, _) => height == h && x.key == SequenceKey(height, t, 1, event)
    case DustLedgerEvent(t, event, height, _) => height == h && x.key == SequenceKey(height, t, 1, event)
    case UnshieldedUtxo(t, _, height, _, _, _, _, _, _) =>
      height == h && x.key == SequenceKey(height, t, 2, x.key.ordinal)
    case Control(_, _) => false
  }

  lemma MetaPlaced(db: Snapshot, s: Session, h: int, x: Item)
    requires x in MetaPart(db, s, h)
    ensures Placed(h, x)
  {
    hide Ordered;
    var rows := MetaMap(db, s, WalletTxs(db, s, h, h));
    OrderedMembers(rows);
    assert RowOf(rows, x);
  }

  lemma RelevantPlaced(db: Snapshot, h: int, row: Keyed<RelevantTx>)
    requires row in RelevantRows(db, h, h)
    ensures Placed(h, ShieldedItem()(row)) && row.key.phase == 0 && row.key.blockHeight == h
  {
    hide Ordered, ZswapEventsOf;
    var rows := RelevantMap(db, h, h);
    OrderedMembers(rows);
    assert RowOf(rows, row);
  }

  lemma {:induction false} InjectPlaced(db: Snapshot, h: int, rows: seq<Keyed<RelevantTx>>, answers: seq<Updates>,
                                        x: Item)
    requires |rows| == |answers| && (forall r :: r in rows ==> r in RelevantRows(db, h, h))
    requires x in Inject(rows, answers)
    ensures Placed(h, x)
  {
    hide RelevantRows;
    var n := |rows| - 1;
    assert rows[n] in rows;
    RelevantPlaced(db, h, rows[n]);
    if x in Inject(rows[..n], answers[..n]) {
      InjectPlaced(db, h, rows[..n], answers[..n], x);
    }
  }

  lemma EventPlaced(db: Snapshot, s: Session, h: int, x: Item)
    requires x in ZswapRows(db, s, h, h) || x in DustRows(db, s, h, h)
    ensures Placed(h, x)
  {
    hide Ordered;
    OrderedMembers(ZswapMap(db, s, h, h));
    OrderedMembers(DustMap(db, s, h, h));
    assert RowOf(ZswapMap(db, s, h, h), x) || RowOf(DustMap(db, s, h, h), x);
  }

  lemma UtxoPlaced(db: Snapshot, s: Session, h: int, x: Item)
    requires x in Map(UtxoItem(), UtxoEvents(db, s, h, h))
    ensures Placed(h, x)
  {
    hide UtxoEvents, CreateItems, SpendItems;
    UtxoMembers(db, s, h, x);
    UtxoRowsPlaced(db, s, h, x);
  }

  lemma UtxoRowsPlaced(db: Snapshot, s: Session, h: int, x: Item)
    ensures RowOf(CreateItems(db, s, h), x) ==> Placed(h, x)
    ensures RowOf(SpendItems(db, s, h), x) ==> Placed(h, x)
  {
  }

  /** Every item of a bundle, whatever was injected, has the key of its kind. */
  lemma BundleItemPlaced(db: Snapshot, s: Session, h: int, answers: seq<Updates>, x: Item)
    requires x in BundleItems(db, s, h, answers)
    ensures Placed(h, x)
  {
    hide MetaPart, RelevantRows, ZswapRows, DustRows, UtxoEvents, Inject, StableSort, Map;
    var rows := RelevantRows(db, h, h);
    SortSorts(Pushed(db, s, h, answers));
    if x in MetaPart(db, s, h) {
      MetaPlaced(db, s, h, x);
    } else if x in Inject(rows, Fit(answers, |rows|)) {
      InjectPlaced(db, h, rows, Fit(answers, |rows|), x);
    } else if x in ZswapRows(db, s, h, h) || x in DustRows(db, s, h, h) {
      EventPlaced(db, s, h, x);
    } else {
      UtxoPlaced(db, s, h, x);
    }
  }

  /** The text a client gets for an item of transaction `t`, by kind. */
  lemma CursorTexts(h: i64, t: i64, n: i64)
    ensures ToCursor(SequenceKey(h, t, 0, 0)) == PrintInt(h) + ":" + PrintInt(t) + ":0:0"
    ensures ToCursor(SequenceKey(h, t, 0, 1)) == PrintInt(h) + ":" + PrintInt(t) + ":0:1"
    ensures ToCursor(SequenceKey(h, t, 0, n)) == PrintInt(h) + ":" + PrintInt(t) + ":0:" + PrintInt(n)
    ensures ToCursor(SequenceKey(h, t, 1, n)) == PrintInt(h) + ":" + PrintInt(t) + ":1:" + PrintInt(n)
    ensures ToCursor(SequenceKey(h, t, 2, n)) == PrintInt(h) + ":" + PrintInt(t) + ":2:" + PrintInt(n)
  {
    assert PrintInt(0) == "0" && PrintInt(1) == "1" && PrintInt(2) == "2";
  }

  // ---- Order ----

  /**
   * The order inside a bundle. Transactions ascend; within one: the Merkle updates before it, its metadata,
   * the relevant transaction, its zswap inputs and dust events by ascending event id, and its utxo events
   * by ascending utxo id (the last field of their cursors).
   */
  lemma BundleOrder(db: Snapshot, s: Session, h: int, answers: seq<Updates>, i: nat, j: nat)
    requires i < j < |BundleItems(db, s, h, answers)|
    ensures var a, b := BundleItems(db, s, h, answers)[i], BundleItems(db, s, h, answers)[j];
            a.key.txId < b.key.txId || (a.key.txId == b.key.txId &&
            match a.value
            case MerkleCollapsedUpdate(_) => true
            case TransactionMeta(_, _, _, _, _, _, _, _, _, _, _, _, _) => !b.value.MerkleCollapsedUpdate?
            case ShieldedRelevantTx(_, _, _, _, _, _) =>
              b.value.ShieldedRelevantTx? || b.value.ZswapInputRaw? || b.value.DustLedgerEvent?
              || b.value.UnshieldedUtxo?
            case ZswapInputRaw(_, _, event, _, _) =>
              b.value.UnshieldedUtxo? || (b.value.ZswapInputRaw? && event <= b.value.ledgerEventId)
              || (b.value.DustLedgerEvent? && event <= b.value.ledgerEventId)
            case DustLedgerEvent(_, event, _, _) =>
              b.value.UnshieldedUtxo? || (b.value.ZswapInputRaw? && event <= b.value.ledgerEventId)
              || (b.value.DustLedgerEvent? && event <= b.value.ledgerEventId)
            case UnshieldedUtxo(_, _, _, _, _, _, _, _, _) => b.value.UnshieldedUtxo? && a.key.ordinal <= b.key.ordinal
            case Control(_, _) => false)
  {
    hide BundleItems, Pushed;
    var items := BundleItems(db, s, h, answers);
    BundleItemPlaced(db, s, h, answers, items[i]);
    BundleItemPlaced(db, s, h, answers, items[j]);
    BundleInOrder(db, s, h, answers);
  }

  lemma BundleInOrder(db: Snapshot, s: Session, h: int, answers: seq<Updates>)
    ensures Sorted(BundleItems(db, s, h, answers))
  {
    hide Pushed;
    SortSorts(Pushed(db, s, h, answers));
  }

  /** Without Merkle updates a block's items are in the same order: a bundle with no answers holds nothing else. */
  lemma ItemsAreABundle(db: Snapshot, s: Session, h: int)
    ensures BundleItems(db, s, h, []) == Items(db, s, h)
  {
    hide MetaPart, EventPart, RelevantRows, StableSort;
    var rows := RelevantRows(db, h, h);
    NothingInjected(rows, Fit([], |rows|));
  }

  lemma InjectNothing(rows: seq<Keyed<RelevantTx>>, answers: seq<Updates>)
    requires |rows| == |answers| && rows != [] && answers[|answers| - 1] == []
    ensures var n := |rows| - 1;
            Inject(rows, answers) == Inject(rows[..n], answers[..n]) + [ShieldedItem()(rows[n])]
  {
    hide ShieldedItem, RelevantRows;
    var n := |rows| - 1;
    var before := Inject(rows[..n], answers[..n]);
    assert Inject(rows, answers) == before + UpdateItems(rows[n], answers[n]) + [ShieldedItem()(rows[n])];
    hide Inject;
    NoUpdates(rows[n]);
    assert before + [] == before;
  }

  lemma NoUpdates(row: Keyed<RelevantTx>)
    ensures UpdateItems(row, []) == []
  {
  }

  lemma MapSnoc(rows: seq<Keyed<RelevantTx>>)
    requires rows != []
    ensures var n := |rows| - 1;
            Map(ShieldedItem(), rows) == Map(ShieldedItem(), rows[..n]) + [ShieldedItem()(rows[n])]
  {
    hide ShieldedItem;
    var n := |rows| - 1;
    assert rows == rows[..n] + [rows[n]];
    MapConcat(ShieldedItem(), rows[..n], [rows[n]]);
  }

  lemma {:induction false} NothingInjected(rows: seq<Keyed<RelevantTx>>, answers: seq<Updates>)
    requires |rows| == |answers| && forall i :: 0 <= i < |answers| ==> answers[i] == []
    ensures Inject(rows, answers) == Map(ShieldedItem(), rows)
  {
    if rows == [] {
    } else {
      hide Inject, Map, ShieldedItem;
      var n := |rows| - 1;
      NothingInjected(rows[..n], answers[..n]);
      InjectNothing(rows, answers);
      MapSnoc(rows);
    }
  }
}
