/** Which rows reach a subscriber, and with what payload, in terms of the tables alone. */
module RowLaws {
  import opened Prelude
  import opened Seqs
  import opened IntSets
  import opened Sequence
  import opened Sorting
  import opened Tables
  import opened Queries
  import opened Decode
  import opened Contents
  import opened Replay

  // ---- Dust ----

  lemma OccursIff(key: Bytes, raw: Bytes)
    ensures Occurs(key, raw) <==> exists p, q :: raw == p + key + q
  {
    if Occurs(key, raw) {
      var i :| 0 <= i <= |raw| && key <= raw[i..];
      assert raw == raw[..i] + key + raw[i + |key|..];
    }
    if p, q :| raw == p + key + q {
      assert raw[|p|..] == key + q;
      assert key <= raw[|p|..];
    }
  }

  /** The wallet's dust events: all of them on request, else spends, and events that carry its key anywhere. */
  ghost predicate DustForWallet(s: Session, variant: Variant, raw: Bytes) {
    || s.allDust
    || (s.dustKey.Some? && (variant.DustSpendProcessed? || exists p, q :: raw == p + s.dustKey.value + q))
  }

  lemma DustSelectedIff(s: Session, e: EventRow)
    ensures DustSelected(s, e) <==> e.grouping.Dust? && DustForWallet(s, e.variant, e.raw)
  {
    if s.dustKey.Some? {
      OccursIff(s.dustKey.value, e.raw);
    }
  }

  /**
   * A dust item is in a block exactly when it is a stored dust event of one of its transactions, asked for in
   * full or carrying the session's key, or a dust spend of a session with a key; the item is that event.
   */
  lemma DustItemIff(db: Snapshot, s: Session, h: int, x: Item)
    requires x.value.DustLedgerEvent?
    ensures x in Items(db, s, h) <==>
      exists k :: k in db.events && db.events[k].grouping.Dust? && db.events[k].txId in db.txs
        && db.txs[db.events[k].txId].height == h
        && (s.allDust
            || (s.dustKey.Some? && (db.events[k].variant.DustSpendProcessed?
                                    || exists p, q :: db.events[k].raw == p + s.dustKey.value + q)))
        && x == Keyed(SequenceKey(h, db.events[k].txId, 1, k),
                      DustLedgerEvent(db.events[k].txId, k, h, db.events[k].raw))
  {
    hide Items, DustSelected;
    ItemsAreTheRows(db, s, h, x);
    KindsDiffer(db, s, h, x);
    if RowOf(DustMap(db, s, h, h), x) {
      var k :| k in DustMap(db, s, h, h) && DustMap(db, s, h, h)[k] == x;
      DustSelectedIff(s, db.events[k]);
    }
    if k :| k in db.events && db.events[k].grouping.Dust? && db.events[k].txId in db.txs
            && db.txs[db.events[k].txId].height == h
            && (s.allDust
                || (s.dustKey.Some? && (db.events[k].variant.DustSpendProcessed?
                                        || exists p, q :: db.events[k].raw == p + s.dustKey.value + q)))
            && x == Keyed(SequenceKey(h, db.events[k].txId, 1, k),
                          DustLedgerEvent(db.events[k].txId, k, h, db.events[k].raw)) {
      DustSelectedIff(s, db.events[k]);
      assert DustMap(db, s, h, h)[k] == x;
    }
  }

  lemma CreateKind(db: Snapshot, s: Session, h: int, x: Item)
    requires RowOf(CreateItems(db, s, h), x)
    ensures x.value.UnshieldedUtxo? && x.value.isCreate
  {
    CreateEvents(db, s, h, x);
  }

  lemma SpendKind(db: Snapshot, s: Session, h: int, x: Item)
    requires RowOf(SpendItems(db, s, h), x)
    ensures x.value.UnshieldedUtxo? && !x.value.isCreate
  {
    SpendEvents(db, s, h, x);
  }

  /** Each kind of item comes from its own rows. */
  lemma KindsDiffer(db: Snapshot, s: Session, h: int, x: Item)
    ensures RowOf(MetaItems(db, s, h), x) ==> x.value.TransactionMeta?
    ensures RowOf(ShieldedItems(db, h), x) ==> x.value.ShieldedRelevantTx?
    ensures RowOf(ZswapMap(db, s, h, h), x) ==> x.value.ZswapInputRaw?
    ensures RowOf(DustMap(db, s, h, h), x) ==> x.value.DustLedgerEvent?
    ensures RowOf(CreateItems(db, s, h), x) ==> x.value.UnshieldedUtxo? && x.value.isCreate
    ensures RowOf(SpendItems(db, s, h), x) ==> x.value.UnshieldedUtxo? && !x.value.isCreate
  {
    hide MetaItems, ShieldedItems, ZswapMap, DustMap, CreateItems, SpendItems, RowOf;
    RowKinds(db, s, h, x);
    if RowOf(CreateItems(db, s, h), x) {
      CreateKind(db, s, h, x);
    }
    if RowOf(SpendItems(db, s, h), x) {
      SpendKind(db, s, h, x);
    }
  }

  // ---- Zswap inputs ----

  /** A zswap item is in a block exactly when nullifiers are asked for and it is a stored input of the block. */
  lemma ZswapItemIff(db: Snapshot, s: Session, h: int, x: Item)
    requires x.value.ZswapInputRaw?
    ensures x in Items(db, s, h) <==>
      s.nullifiers &&
      exists k :: k in db.events && db.events[k].grouping.Zswap? && db.events[k].variant.ZswapInput?
        && db.events[k].txId in db.txs && db.txs[db.events[k].txId].height == h
        && x == Keyed(SequenceKey(h, db.events[k].txId, 1, k),
                      ZswapInputRaw(db.events[k].txId, db.txs[db.events[k].txId].hash, k, h, db.events[k].raw))
  {
    hide Items;
    ItemsAreTheRows(db, s, h, x);
    KindsDiffer(db, s, h, x);
    if k :| k in db.events && s.nullifiers && db.events[k].grouping.Zswap? && db.events[k].variant.ZswapInput?
            && db.events[k].txId in db.txs && db.txs[db.events[k].txId].height == h
            && x == Keyed(SequenceKey(h, db.events[k].txId, 1, k),
                          ZswapInputRaw(db.events[k].txId, db.txs[db.events[k].txId].hash, k, h, db.events[k].raw)) {
      assert ZswapMap(db, s, h, h)[k] == x;
    }
  }

  // ---- Unshielded utxos ----

  /** The item of a utxo event of transaction `t`. */
  function SentUtxo(db: Snapshot, t: i64, u: i64, isCreate: bool): Item
    requires t in db.txs && u in db.utxos
  {
    var tx, row := db.txs[t], db.utxos[u];
    Keyed(SequenceKey(tx.height, t, 2, u),
          UnshieldedUtxo(t, tx.hash, tx.height, isCreate, row.owner, row.details, U128Value(row.value),
                         FeeString(if tx.regular.Some? then tx.regular.value.paidFees else None), tx.actions))
  }

  /**
   * A utxo item is in a block exactly when it is the creation, or the spend, of a stored utxo of one of the
   * session's addresses by a transaction of the block.
   */
  lemma UtxoItemIff(db: Snapshot, s: Session, h: int, x: Item)
    requires x.value.UnshieldedUtxo?
    ensures x in Items(db, s, h) <==>
      exists u :: u in db.utxos && db.utxos[u].owner in s.addresses
        && if x.value.isCreate then
             && db.utxos[u].createdBy in db.txs && db.txs[db.utxos[u].createdBy].height == h
             && x == SentUtxo(db, db.utxos[u].createdBy, u, true)
           else
             && db.utxos[u].spentBy.Some? && db.utxos[u].spentBy.value in db.txs
             && db.txs[db.utxos[u].spentBy.value].height == h
             && x == SentUtxo(db, db.utxos[u].spentBy.value, u, false)
  {
    hide Items, U128Value, FeeString;
    ItemsAreTheRows(db, s, h, x);
    KindsDiffer(db, s, h, x);
    if x.value.isCreate {
      CreateItemIff(db, s, h, x);
    } else {
      SpendItemIff(db, s, h, x);
    }
  }

  lemma CreateItemIff(db: Snapshot, s: Session, h: int, x: Item)
    ensures RowOf(CreateItems(db, s, h), x) <==>
      exists u :: u in db.utxos && db.utxos[u].owner in s.addresses
        && db.utxos[u].createdBy in db.txs && db.txs[db.utxos[u].createdBy].height == h
        && x == SentUtxo(db, db.utxos[u].createdBy, u, true)
  {
    hide U128Value, FeeString;
    if u :| u in db.utxos && db.utxos[u].owner in s.addresses
            && db.utxos[u].createdBy in db.txs && db.txs[db.utxos[u].createdBy].height == h
            && x == SentUtxo(db, db.utxos[u].createdBy, u, true) {
      assert CreateItems(db, s, h)[u] == x;
    }
  }

  lemma SpendItemIff(db: Snapshot, s: Session, h: int, x: Item)
    ensures RowOf(SpendItems(db, s, h), x) <==>
      exists u :: u in db.utxos && db.utxos[u].owner in s.addresses
        && db.utxos[u].spentBy.Some? && db.utxos[u].spentBy.value in db.txs
        && db.txs[db.utxos[u].spentBy.value].height == h
        && x == SentUtxo(db, db.utxos[u].spentBy.value, u, false)
  {
    hide U128Value, FeeString;
    if u :| u in db.utxos && db.utxos[u].owner in s.addresses
            && db.utxos[u].spentBy.Some? && db.utxos[u].spentBy.value in db.txs
            && db.txs[db.utxos[u].spentBy.value].height == h
            && x == SentUtxo(db, db.utxos[u].spentBy.value, u, false) {
      assert SpendItems(db, s, h)[u] == x;
    }
  }

  // ---- Relevant transactions ----

  /** `events` are the payloads of the zswap events of `t`, by ascending event id. */
  ghost predicate ZswapPayloads(db: Snapshot, t: i64, ids: seq<i64>, events: seq<Bytes>) {
    && Ascending(ids) && |ids| == |events|
    && (forall k :: k in ids <==> k in db.events && db.events[k].txId == t && db.events[k].grouping.Zswap?)
    && (forall i :: 0 <= i < |ids| ==> ids[i] in db.events && events[i] == db.events[ids[i]].raw)
  }

  lemma PickedPayloads(db: Snapshot, t: i64, ids: seq<i64>, i: nat)
    requires (forall k :: k in ids ==> k in ZswapOf(db, {t})) && i < |ids|
    ensures |Map(RawOf(), Pick(ids, ZswapOf(db, {t})))| == |ids| && ids[i] in db.events
    ensures Map(RawOf(), Pick(ids, ZswapOf(db, {t})))[i] == db.events[ids[i]].raw
  {
    assert ids[i] in ids;
  }

  lemma PickedKey(db: Snapshot, t: i64, ids: seq<i64>, i: nat)
    requires (forall k :: k in ids ==> k in ZswapOf(db, {t})) && i < |ids|
    ensures Pick(ids, ZswapOf(db, {t}))[i].key == SequenceKey(0, t, 0, ids[i])
  {
    assert ids[i] in ids;
  }

  lemma PickedKeys(db: Snapshot, t: i64, ids: seq<i64>, i: nat, j: nat)
    requires (forall k :: k in ids ==> k in ZswapOf(db, {t})) && Ascending(ids) && i < j < |ids|
    ensures !Less(Pick(ids, ZswapOf(db, {t}))[j].key, Pick(ids, ZswapOf(db, {t}))[i].key)
  {
    hide ZswapOf, Pick;
    PickedKey(db, t, ids, i);
    PickedKey(db, t, ids, j);
  }

  lemma PickedInOrder(db: Snapshot, t: i64)
    ensures Ordered(ZswapOf(db, {t})) == Pick(SortedIds(ZswapOf(db, {t}).Keys), ZswapOf(db, {t}))
  {
    hide ZswapOf, Less, Pick, SortedIds, StableSort;
    var rows := ZswapOf(db, {t});
    var ids := SortedIds(rows.Keys);
    forall i, j | 0 <= i < j < |ids|
      ensures !Less(Pick(ids, rows)[j].key, Pick(ids, rows)[i].key)
    {
      PickedKeys(db, t, ids, i, j);
    }
    SortedIsFixed(Pick(ids, rows));
  }

  /** A relevant transaction carries all its zswap events, in order. */
  lemma ZswapPayloadsOf(db: Snapshot, t: i64) returns (ids: seq<i64>)
    ensures ZswapPayloads(db, t, ids, ZswapEventsOf(db, t))
  {
    hide Ordered, SortedIds, Map, Pick, Ascending;
    var rows := ZswapOf(db, {t});
    ids := SortedIds(rows.Keys);
    PickedInOrder(db, t);
    var events := ZswapEventsOf(db, t);
    assert events == Map(RawOf(), Pick(ids, rows));
    forall i | 0 <= i < |ids|
      ensures |events| == |ids| && ids[i] in db.events && events[i] == db.events[ids[i]].raw
    {
      PickedPayloads(db, t, ids, i);
    }
    NoPayloads(db, t, ids);
  }

  lemma NoPayloads(db: Snapshot, t: i64, ids: seq<i64>)
    requires forall k :: k in ids ==> k in ZswapOf(db, {t})
    ensures |Map(RawOf(), Pick(ids, ZswapOf(db, {t})))| == |ids|
  {
  }

  /**
   * A relevant-transaction item is in a block exactly when the wallet indexer has marked its transaction, and
   * that lies in the block; it carries the transaction's hash, paid fees, contract actions and zswap events.
   */
  lemma RelevantItemIff(db: Snapshot, s: Session, h: int, x: Item)
    requires x.value.ShieldedRelevantTx?
    ensures x in Items(db, s, h) <==>
      exists t :: t in db.relevant && t in db.txs && db.txs[t].height == h
        && x == Keyed(SequenceKey(h, t, 0, 1),
                      ShieldedRelevantTx(t, db.txs[t].hash, h, ZswapEventsOf(db, t), db.txs[t].actions,
                                         FeeString(if db.txs[t].regular.Some? then db.txs[t].regular.value.paidFees
                                                   else None)))
  {
    hide Items, FeeString, ZswapEventsOf, MetaItems, ZswapMap, DustMap, CreateItems, SpendItems;
    ItemsAreTheRows(db, s, h, x);
    KindsDiffer(db, s, h, x);
    if t :| t in db.relevant && t in db.txs && db.txs[t].height == h
            && x == Keyed(SequenceKey(h, t, 0, 1),
                          ShieldedRelevantTx(t, db.txs[t].hash, h, ZswapEventsOf(db, t), db.txs[t].actions,
                                             FeeString(if db.txs[t].regular.Some? then db.txs[t].regular.value.paidFees
                                                       else None))) {
      assert ShieldedItems(db, h)[t] == x;
    }
  }

  // ---- Transaction metadata ----

  /** A transaction that is relevant, or has a dust event or a utxo event of the session. */
  ghost predicate Touches(db: Snapshot, s: Session, t: i64) {
    || t in db.relevant
    || (exists k :: k in db.events && db.events[k].txId == t && db.events[k].grouping.Dust?
                    && DustForWallet(s, db.events[k].variant, db.events[k].raw))
    || (exists u :: u in db.utxos && db.utxos[u].owner in s.addresses
                    && (db.utxos[u].createdBy == t || db.utxos[u].spentBy == Some(t)))
  }

  lemma WalletTxIff(db: Snapshot, s: Session, t: i64)
    ensures WalletTx(db, s, t) <==> Touches(db, s, t)
  {
    hide DustForWallet, DustSelected;
    forall k | k in db.events
      ensures DustSelected(s, db.events[k]) <==>
        db.events[k].grouping.Dust? && DustForWallet(s, db.events[k].variant, db.events[k].raw)
    {
      DustSelectedIff(s, db.events[k]);
    }
  }

  lemma MetaRowIff(db: Snapshot, s: Session, h: int, x: Item)
    ensures RowOf(MetaItems(db, s, h), x) <==>
      s.txMeta && exists t :: t in db.txs && db.txs[t].height == h && WalletTx(db, s, t) && MetaItem(db, s, t) == x
  {
    hide WalletTx, MetaItem;
    if s.txMeta {
      if t :| t in db.txs && db.txs[t].height == h && WalletTx(db, s, t) && MetaItem(db, s, t) == x {
        assert t in WalletTxs(db, s, h, h);
        assert MetaItems(db, s, h)[t] == x;
      }
    }
  }

  /** `x` is the metadata of `t`: each field from the column of its name, the optional ones when asked for. */
  ghost predicate Describes(db: Snapshot, s: Session, t: i64, x: Item)
    requires t in db.txs && x.value.TransactionMeta?
  {
    var tx := db.txs[t];
    && x.key == SequenceKey(tx.height, t, 0, 0) && x.value.txId == t && x.value.height == tx.height
    && x.value.hash == tx.hash && x.value.protocolVersion == tx.protocolVersion && x.value.actions == tx.actions
    && x.value.rawTx == (if s.rawTx then Some(tx.raw) else None)
    && if tx.regular.None? then
         && x.value.result == None && x.value.identifiers == None && x.value.merkleRoot == None
         && x.value.startIndex == None && x.value.endIndex == None
         && x.value.feesPaid == None && x.value.feesEstimated == None
       else
         var regular := tx.regular.value;
         && x.value.result == Some(regular.result) && x.value.merkleRoot == regular.merkleRoot
         && x.value.identifiers == (if s.identifiers then Some(regular.identifiers) else None)
         && x.value.startIndex == regular.startIndex && x.value.endIndex == regular.endIndex
         && x.value.feesPaid == FeeOption(regular.paidFees)
         && x.value.feesEstimated == FeeOption(regular.estimatedFees)
  }

  lemma MetaItemDescribes(db: Snapshot, s: Session, t: i64, x: Item)
    requires t in db.txs && x.value.TransactionMeta?
    ensures MetaItem(db, s, t) == x <==> Describes(db, s, t, x)
  {
    hide FeeString;
  }

  /**
   * A metadata item is in a block exactly when metadata is asked for and its transaction lies in the block and
   * touches the wallet; it describes that transaction.
   */
  lemma MetaItemIff(db: Snapshot, s: Session, h: int, x: Item)
    requires x.value.TransactionMeta?
    ensures x in Items(db, s, h) <==>
      s.txMeta
      && (exists t :: t in db.txs && db.txs[t].height == h && Touches(db, s, t) && Describes(db, s, t, x))
  {
    hide Items, WalletTx, Touches, MetaItem, Describes;
    ItemsAreTheRows(db, s, h, x);
    KindsDiffer(db, s, h, x);
    MetaRowIff(db, s, h, x);
    forall t | t in db.txs
      ensures WalletTx(db, s, t) <==> Touches(db, s, t)
      ensures MetaItem(db, s, t) == x <==> Describes(db, s, t, x)
    {
      WalletTxIff(db, s, t);
      MetaItemDescribes(db, s, t, x);
    }
  }

  // ---- Printed amounts ----

  /** An amount in up to sixteen big-endian bytes is printed in decimal; nothing stored reads as zero. */
  lemma FeesArePrinted(v: nat, n: nat)
    requires 1 <= n <= U128_BYTES && v < Pow256(n)
    ensures FeeString(Some(Encode(v, n))) == PrintInt(v) && FeeOption(Some(Encode(v, n))) == Some(PrintInt(v))
    ensures FeeString(None) == "0" && FeeString(Some([])) == "0"
    ensures FeeOption(None) == None && FeeOption(Some([])) == Some("0")
  {
    DecodeInvertsEncode(v, n);
    assert |Encode(v, n)| == n;
  }

  /** The most significant byte comes first, and bytes behind the sixteenth are not read. */
  lemma ValueSamples(v: nat, rest: Bytes)
    requires v < Pow256(U128_BYTES)
    ensures U128Value([1, 2]) == 258 && U128Value([]) == 0
    ensures U128Value(Encode(v, U128_BYTES) + rest) == v
  {
    assert BigEndian([1]) == 1 && [1, 2][..1] == [1];
    DecodeInvertsEncode(v, U128_BYTES);
    assert (Encode(v, U128_BYTES) + rest)[..U128_BYTES] == Encode(v, U128_BYTES);
    assert rest == [] ==> Encode(v, U128_BYTES) + rest == Encode(v, U128_BYTES);
  }
}
