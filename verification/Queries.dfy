/** db.rs: the feed's queries over one snapshot, and the items a block owes its subscriber. */
module Queries {
  import opened Prelude
  import opened Seqs
  import opened IntSets
  import opened Sequence
  import opened Sorting
  import opened Tables
  import opened Decode
  import MerkleCache

  const PHASE_CONTROL: i64 := -1
  const PHASE_TX: i64 := 0
  const PHASE_LEDGER_EVENT: i64 := 1
  const PHASE_UNSHIELDED: i64 := 2

  datatype BlockMeta = BlockMeta(height: i64, row: BlockRow)

  datatype ResetReason = BlockGap(expected: int, got: int) | ParentMismatch(height: int)

  datatype FeedItem =
    | TransactionMeta(txId: i64, hash: Bytes, height: i64, protocolVersion: i64, result: Option<string>,
                      identifiers: Option<seq<Bytes>>, feesPaid: Option<string>, feesEstimated: Option<string>,
                      merkleRoot: Option<Bytes>, startIndex: Option<i64>, endIndex: Option<i64>,
                      rawTx: Option<Bytes>, actions: seq<ContractAction>)
    | MerkleCollapsedUpdate(update: MerkleCache.Update)
    | ShieldedRelevantTx(txId: i64, hash: Bytes, height: i64, zswapEvents: seq<Bytes>,
                         actions: seq<ContractAction>, fees: string)
    | ZswapInputRaw(txId: i64, hash: Bytes, ledgerEventId: i64, height: i64, raw: Bytes)
    | DustLedgerEvent(txId: i64, ledgerEventId: i64, height: i64, raw: Bytes)
    | UnshieldedUtxo(txId: i64, hash: Bytes, height: i64, isCreate: bool, owner: Bytes, details: UtxoDetails,
                     amount: nat, fees: string, actions: seq<ContractAction>)
    | Control(safeRestartHeight: int, reason: ResetReason)

  type Item = Keyed<FeedItem>

  // ---- SELECT ... ORDER BY ----

  function Pick<R>(ids: seq<i64>, rows: map<i64, R>): (r: seq<R>)
    requires forall x :: x in ids ==> x in rows
    ensures |r| == |ids|
    ensures forall i :: 0 <= i < |ids| ==> r[i] == rows[ids[i]]
  {
    if ids == [] then [] else [rows[ids[0]]] + Pick(ids[1..], rows)
  }

  /** The selected rows, in key order. */
  function Ordered<R>(rows: map<i64, Keyed<R>>): seq<Keyed<R>> {
    StableSort(Pick(SortedIds(rows.Keys), rows))
  }

  ghost predicate RowOf<R>(rows: map<i64, R>, x: R) {
    exists k :: k in rows && rows[k] == x
  }

  lemma PickMembers<R>(ids: seq<i64>, rows: map<i64, R>, x: R)
    requires forall k :: k in ids <==> k in rows
    ensures x in Pick(ids, rows) <==> RowOf(rows, x)
  {
    var picked := Pick(ids, rows);
    if x in picked {
      var i :| 0 <= i < |picked| && picked[i] == x;
      assert ids[i] in rows;
    }
    if k :| k in rows && rows[k] == x {
      var i :| 0 <= i < |ids| && ids[i] == k;
      assert picked[i] == x;
    }
  }

  lemma OrderedMembers<R>(rows: map<i64, Keyed<R>>)
    ensures Sorted(Ordered(rows)) && |Ordered(rows)| == |rows|
    ensures forall x :: x in Ordered(rows) <==> RowOf(rows, x)
  {
    var picked := Pick(SortedIds(rows.Keys), rows);
    SortSorts(picked);
    forall x
      ensures x in picked <==> RowOf(rows, x)
    {
      PickMembers(SortedIds(rows.Keys), rows, x);
    }
  }

  function AtHeight<T>(h: int): Keyed<T> -> bool {
    (x: Keyed<T>) => x.key.blockHeight == h
  }

  function Restrict<R>(rows: map<i64, Keyed<R>>, h: int): map<i64, Keyed<R>> {
    map k | k in rows && rows[k].key.blockHeight == h :: rows[k]
  }

  lemma PickCons<R>(k: i64, ids: seq<i64>, rows: map<i64, R>)
    requires k in rows && forall x :: x in ids ==> x in rows
    ensures Pick([k] + ids, rows) == [rows[k]] + Pick(ids, rows)
  {
    assert ([k] + ids)[1..] == ids;
  }

  function Passes<R>(rows: map<i64, R>, p: R -> bool): i64 -> bool {
    (k: i64) => k in rows && p(rows[k])
  }

  lemma {:induction false} FilterPicked<R>(ids: seq<i64>, rows: map<i64, R>, p: R -> bool, kept: seq<i64>)
    requires forall x :: x in ids ==> x in rows
    requires kept == Filter(ids, Passes(rows, p))
    ensures forall x :: x in kept ==> x in rows
    ensures Filter(Pick(ids, rows), p) == Pick(kept, rows)
  {
    if ids == [] {
    } else {
      var k, rest := ids[0], Filter(ids[1..], Passes(rows, p));
      assert ids == [k] + ids[1..];
      FilterPicked(ids[1..], rows, p, rest);
      FilterCons(rows[k], Pick(ids[1..], rows), p);
      if p(rows[k]) {
        PickCons(k, rest, rows);
      }
    }
  }

  lemma PickFilter<R>(ids: set<i64>, rows: map<i64, R>, p: R -> bool, kept: set<i64>)
    requires forall x :: x in ids ==> x in rows
    requires forall x :: x in kept <==> x in ids && p(rows[x])
    ensures Filter(Pick(SortedIds(ids), rows), p) == Pick(SortedIds(kept), rows)
  {
    hide Filter, Pick;
    FilterSortedIds(ids, Passes(rows, p), kept);
    FilterPicked(SortedIds(ids), rows, p, SortedIds(kept));
  }

  lemma PickAgrees<R>(ids: seq<i64>, a: map<i64, R>, b: map<i64, R>)
    requires forall k :: k in ids ==> k in a && k in b && a[k] == b[k]
    ensures Pick(ids, a) == Pick(ids, b)
  {
  }

  /** Filtering the result of a query is the query of the rows that pass. */
  lemma OrderedFilter<R>(rows: map<i64, Keyed<R>>, p: Keyed<R> -> bool, kept: map<i64, Keyed<R>>)
    requires forall k :: k in kept <==> k in rows && p(rows[k])
    requires forall k :: k in kept ==> kept[k] == rows[k]
    ensures Filter(Ordered(rows), p) == Ordered(kept)
  {
    hide Filter, StableSort;
    SortFilter(Pick(SortedIds(rows.Keys), rows), p);
    PickFilter(rows.Keys, rows, p, kept.Keys);
    PickAgrees(SortedIds(kept.Keys), rows, kept);
  }

  /** Filtering a range query down to one block is the query of that block. */
  lemma OrderedAtHeight<R>(rows: map<i64, Keyed<R>>, h: int)
    ensures Filter(Ordered(rows), AtHeight(h)) == Ordered(Restrict(rows, h))
  {
    hide Ordered, Filter;
    OrderedFilter(rows, AtHeight(h), Restrict(rows, h));
  }

  // ---- The queries ----

  predicate InRange(db: Snapshot, t: i64, lo: int, hi: int) {
    t in db.txs && lo <= db.txs[t].height <= hi
  }

  function Heights(db: Snapshot, lo: int, hi: int): set<i64> {
    set h | h in db.blocks && lo <= h <= hi
  }

  function Metas(db: Snapshot): map<i64, BlockMeta> {
    map h | h in db.blocks :: BlockMeta(h, db.blocks[h])
  }

  /** get_blocks_in_range_tx. */
  function BlocksInRange(db: Snapshot, lo: int, hi: int): seq<BlockMeta> {
    Pick(SortedIds(Heights(db, lo, hi)), Metas(db))
  }

  /** get_block_hash_at_height_tx. */
  function HashAt(db: Snapshot, h: int): Option<string> {
    if h in db.blocks then Some(db.blocks[h].hash) else None
  }

  datatype RelevantTx = RelevantTx(
    hash: Bytes, paidFees: Option<Bytes>, startIndex: Option<i64>, endIndex: Option<i64>,
    actions: seq<ContractAction>, zswapEvents: seq<Bytes>)

  function PaidFees(tx: TxRow): Option<Bytes> {
    if tx.regular.Some? then tx.regular.value.paidFees else None
  }

  function RawOf(): Keyed<Bytes> -> Bytes {
    (x: Keyed<Bytes>) => x.value
  }

  /** get_zswap_events_for_txs_tx: by transaction, then by event. */
  function ZswapOf(db: Snapshot, ids: set<i64>): map<i64, Keyed<Bytes>> {
    map k | k in db.events && db.events[k].txId in ids && db.events[k].grouping.Zswap? ::
      Keyed(SequenceKey(0, db.events[k].txId, 0, k), db.events[k].raw)
  }

  function ZswapEventsOf(db: Snapshot, t: i64): seq<Bytes> {
    Map(RawOf(), Ordered(ZswapOf(db, {t})))
  }

  function RelevantRow(db: Snapshot, t: i64): Keyed<RelevantTx>
    requires t in db.txs
  {
    var tx := db.txs[t];
    Keyed(SequenceKey(tx.height, t, PHASE_TX, 1),
          RelevantTx(tx.hash, PaidFees(tx),
                     if tx.regular.Some? then tx.regular.value.startIndex else None,
                     if tx.regular.Some? then tx.regular.value.endIndex else None,
                     tx.actions, ZswapEventsOf(db, t)))
  }

  function RelevantMap(db: Snapshot, lo: int, hi: int): map<i64, Keyed<RelevantTx>> {
    map t | t in db.relevant && InRange(db, t, lo, hi) :: RelevantRow(db, t)
  }

  /** get_relevant_transactions_tx. */
  function RelevantRows(db: Snapshot, lo: int, hi: int): seq<Keyed<RelevantTx>> {
    Ordered(RelevantMap(db, lo, hi))
  }

  function ShieldedItem(): Keyed<RelevantTx> -> Item {
    (row: Keyed<RelevantTx>) =>
      Keyed(row.key, ShieldedRelevantTx(row.key.txId, row.value.hash, row.key.blockHeight, row.value.zswapEvents,
                                        row.value.actions, FeeString(row.value.paidFees)))
  }

  function ZswapMap(db: Snapshot, s: Session, lo: int, hi: int): map<i64, Item> {
    map k | k in db.events && s.nullifiers && db.events[k].grouping.Zswap? && db.events[k].variant.ZswapInput?
            && InRange(db, db.events[k].txId, lo, hi) ::
      var e := db.events[k];
      var tx := db.txs[e.txId];
      Keyed(SequenceKey(tx.height, e.txId, PHASE_LEDGER_EVENT, k), ZswapInputRaw(e.txId, tx.hash, k, tx.height, e.raw))
  }

  /** get_all_zswap_input_events_in_range_tx, skipped when nullifiers are disabled. */
  function ZswapRows(db: Snapshot, s: Session, lo: int, hi: int): seq<Item> {
    Ordered(ZswapMap(db, s, lo, hi))
  }

  /** `position(key in raw) > 0`. */
  predicate Occurs(key: Bytes, raw: Bytes) {
    exists i :: 0 <= i <= |raw| && key <= raw[i..]
  }

  predicate DustSelected(s: Session, e: EventRow) {
    e.grouping.Dust?
    && (s.allDust
        || (s.dustKey.Some? && (Occurs(s.dustKey.value, e.raw) || e.variant.DustSpendProcessed?)))
  }

  function DustMap(db: Snapshot, s: Session, lo: int, hi: int): map<i64, Item> {
    map k | k in db.events && DustSelected(s, db.events[k]) && InRange(db, db.events[k].txId, lo, hi) ::
      var e := db.events[k];
      var tx := db.txs[e.txId];
      Keyed(SequenceKey(tx.height, e.txId, PHASE_LEDGER_EVENT, k), DustLedgerEvent(e.txId, k, tx.height, e.raw))
  }

  /** get_dust_events_tx and get_all_dust_events_tx. */
  function DustRows(db: Snapshot, s: Session, lo: int, hi: int): seq<Item> {
    Ordered(DustMap(db, s, lo, hi))
  }

  datatype UtxoEvent = UtxoEvent(utxoId: i64, hash: Bytes, isCreate: bool, owner: Bytes, details: UtxoDetails,
                                 valueBytes: Bytes, paidFees: Option<Bytes>, actions: seq<ContractAction>)

  /** The row's own sort key: height, transaction, utxo, and spends before creates. */
  function UtxoEventRow(db: Snapshot, t: i64, u: i64, isCreate: bool): Keyed<UtxoEvent>
    requires t in db.txs && u in db.utxos
  {
    var tx, row := db.txs[t], db.utxos[u];
    Keyed(SequenceKey(tx.height, t, u, if isCreate then 1 else 0),
          UtxoEvent(u, tx.hash, isCreate, row.owner, row.details, row.value, PaidFees(tx), tx.actions))
  }

  function CreateMap(db: Snapshot, s: Session, lo: int, hi: int): map<i64, Keyed<UtxoEvent>> {
    map u | u in db.utxos && db.utxos[u].owner in s.addresses && InRange(db, db.utxos[u].createdBy, lo, hi) ::
      UtxoEventRow(db, db.utxos[u].createdBy, u, true)
  }

  function SpendMap(db: Snapshot, s: Session, lo: int, hi: int): map<i64, Keyed<UtxoEvent>> {
    map u | u in db.utxos && db.utxos[u].owner in s.addresses && db.utxos[u].spentBy.Some?
            && InRange(db, db.utxos[u].spentBy.value, lo, hi) ::
      UtxoEventRow(db, db.utxos[u].spentBy.value, u, false)
  }

  /** get_unshielded_utxo_events_tx: creates, then spends, then sorted together. */
  function UtxoEvents(db: Snapshot, s: Session, lo: int, hi: int): seq<Keyed<UtxoEvent>> {
    StableSort(Ordered(CreateMap(db, s, lo, hi)) + Ordered(SpendMap(db, s, lo, hi)))
  }

  function UtxoItem(): Keyed<UtxoEvent> -> Item {
    (row: Keyed<UtxoEvent>) =>
      Keyed(SequenceKey(row.key.blockHeight, row.key.txId, PHASE_UNSHIELDED, row.value.utxoId),
            UnshieldedUtxo(row.key.txId, row.value.hash, row.key.blockHeight, row.value.isCreate, row.value.owner,
                           row.value.details, U128Value(row.value.valueBytes), FeeString(row.value.paidFees),
                           row.value.actions))
  }

  /** A transaction the wallet gets metadata for. */
  predicate WalletTx(db: Snapshot, s: Session, t: i64) {
    || t in db.relevant
    || (exists k :: k in db.events && db.events[k].txId == t && DustSelected(s, db.events[k]))
    || (exists u :: u in db.utxos && db.utxos[u].owner in s.addresses
                    && (db.utxos[u].createdBy == t || db.utxos[u].spentBy == Some(t)))
  }

  function MetaItem(db: Snapshot, s: Session, t: i64): Item
    requires t in db.txs
  {
    var tx := db.txs[t];
    var reg := tx.regular;
    Keyed(SequenceKey(tx.height, t, PHASE_TX, 0),
          TransactionMeta(
            t, tx.hash, tx.height, tx.protocolVersion,
            if reg.Some? then Some(reg.value.result) else None,
            if s.identifiers && reg.Some? then Some(reg.value.identifiers) else None,
            FeeOption(PaidFees(tx)),
            FeeOption(if reg.Some? then reg.value.estimatedFees else None),
            if reg.Some? then reg.value.merkleRoot else None,
            if reg.Some? then reg.value.startIndex else None,
            if reg.Some? then reg.value.endIndex else None,
            if s.rawTx then Some(tx.raw) else None,
            tx.actions))
  }

  function MetaMap(db: Snapshot, s: Session, ids: set<i64>): map<i64, Item> {
    map t | t in ids && t in db.txs :: MetaItem(db, s, t)
  }

  /** get_transaction_metadata_tx for the wallet's transactions; empty when not requested. */
  function MetaRows(db: Snapshot, s: Session, ids: set<i64>): seq<Item> {
    if s.txMeta then Ordered(MetaMap(db, s, ids)) else []
  }

  function WalletTxs(db: Snapshot, s: Session, lo: int, hi: int): set<i64> {
    set t | t in db.txs && InRange(db, t, lo, hi) && WalletTx(db, s, t)
  }

  // ---- The items of one block ----

  function MetaPart(db: Snapshot, s: Session, h: int): seq<Item> {
    MetaRows(db, s, WalletTxs(db, s, h, h))
  }

  function EventPart(db: Snapshot, s: Session, h: int): seq<Item> {
    ZswapRows(db, s, h, h) + DustRows(db, s, h, h) + Map(UtxoItem(), UtxoEvents(db, s, h, h))
  }

  /** Everything block `h` owes the subscriber besides Merkle updates, before sorting. */
  function Owed(db: Snapshot, s: Session, h: int): seq<Item> {
    MetaPart(db, s, h) + Map(ShieldedItem(), RelevantRows(db, h, h)) + EventPart(db, s, h)
  }

  function Items(db: Snapshot, s: Session, h: int): seq<Item> {
    StableSort(Owed(db, s, h))
  }

  /** The feed of heights [lo, hi). */
  function FeedOf(db: Snapshot, s: Session, lo: int, hi: int): seq<Item>
    decreases hi - lo
  {
    if lo >= hi then [] else FeedOf(db, s, lo, hi - 1) + Items(db, s, hi - 1)
  }
}
