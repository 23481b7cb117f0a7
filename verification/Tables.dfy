/** The tables behind the feed, as one repeatable-read snapshot, and how other processes change them. */
module Tables {
  import opened Prelude
  import opened IntSets

  datatype BlockRow = BlockRow(hash: string, parentHash: string, timestamp: i64)

  /** regular_transactions, joined by transaction id. */
  datatype RegularRow = RegularRow(
    result: string, merkleRoot: Option<Bytes>, startIndex: Option<i64>, endIndex: Option<i64>,
    paidFees: Option<Bytes>, estimatedFees: Option<Bytes>, identifiers: seq<Bytes>)

  datatype ContractAction = ContractAction(address: Bytes, actionType: string, entryPoint: Option<string>)

  /** A transaction with the height of its block and the contract actions that name it. */
  datatype TxRow = TxRow(
    height: i64, hash: Bytes, protocolVersion: i64, raw: Bytes,
    regular: Option<RegularRow>, actions: seq<ContractAction>)

  datatype Grouping = Zswap | Dust
  datatype Variant = ZswapInput | DustSpendProcessed | OtherVariant

  datatype EventRow = EventRow(txId: i64, grouping: Grouping, variant: Variant, raw: Bytes)

  datatype UtxoDetails = UtxoDetails(
    intentHash: Bytes, outputIndex: i64, tokenType: Bytes, initialNonce: Bytes,
    registeredForDust: bool, ctime: Option<i64>)

  datatype UtxoRow = UtxoRow(owner: Bytes, createdBy: i64, spentBy: Option<i64>, value: Bytes, details: UtxoDetails)

  /**
   * Tables as maps from primary keys (blocks by height). `relevant` holds the transactions marked for
   * this wallet; `wallet` is its row, absent or with a nullable last_indexed_transaction_id.
   */
  datatype Snapshot = Snapshot(
    blocks: map<i64, BlockRow>,
    txs: map<i64, TxRow>,
    events: map<i64, EventRow>,
    utxos: map<i64, UtxoRow>,
    relevant: set<i64>,
    wallet: Option<Option<i64>>)

  /** The session's profile and the request's flags, fixed while a feed is read. */
  datatype Session = Session(
    dustKey: Option<Bytes>, addresses: set<Bytes>,
    nullifiers: bool, txMeta: bool, rawTx: bool, identifiers: bool, allDust: bool)

  function LastIndexed(db: Snapshot): i64 {
    match db.wallet
    case Some(Some(id)) => id
    case _ => 0
  }

  /** Foreign keys and the height check. */
  ghost predicate WellFormed(db: Snapshot) {
    && (forall h :: h in db.blocks ==> h >= 0)
    && (forall t :: t in db.txs ==> db.txs[t].height in db.blocks)
  }

  /** The wallet indexer has looked at every transaction of block `h`. */
  ghost predicate Settled(db: Snapshot, h: int) {
    forall t :: t in db.txs && db.txs[t].height == h ==> t <= LastIndexed(db)
  }

  ghost predicate Extends<K, V>(m: map<K, V>, n: map<K, V>) {
    forall k :: k in m ==> k in n && n[k] == m[k]
  }

  // ---- What time does to the tables ----

  ghost predicate LaterChain(d: Snapshot, e: Snapshot) {
    && Extends(d.blocks, e.blocks)
    && (forall h, g :: h in e.blocks && h !in d.blocks && g in d.blocks ==> g < h)
    && Extends(d.txs, e.txs)
    && (forall t :: t in e.txs && t !in d.txs ==> e.txs[t].height !in d.blocks)
  }

  ghost predicate LaterEvents(d: Snapshot, e: Snapshot) {
    && Extends(d.events, e.events)
    && (forall k :: k in e.events && k !in d.events ==> e.events[k].txId !in d.txs)
  }

  /** A utxo row changes once: when a new transaction spends it. */
  ghost predicate LaterUtxos(d: Snapshot, e: Snapshot) {
    && (forall u :: u in d.utxos ==> u in e.utxos && e.utxos[u].(spentBy := d.utxos[u].spentBy) == d.utxos[u])
    && (forall u :: u in d.utxos && d.utxos[u].spentBy.Some? ==> e.utxos[u].spentBy == d.utxos[u].spentBy)
    && (forall u :: u in d.utxos && d.utxos[u].spentBy.None? && e.utxos[u].spentBy.Some? ==>
          e.utxos[u].spentBy.value !in d.txs)
    && (forall u :: u in e.utxos && u !in d.utxos ==>
          e.utxos[u].createdBy !in d.txs && (e.utxos[u].spentBy.Some? ==> e.utxos[u].spentBy.value !in d.txs))
  }

  /** Relevance is only added to transactions the indexer had not passed. */
  ghost predicate LaterWallet(d: Snapshot, e: Snapshot) {
    && (d.wallet.Some? ==> e.wallet.Some?)
    && LastIndexed(d) <= LastIndexed(e)
    && d.relevant <= e.relevant
    && (forall t :: t in e.relevant && t !in d.relevant ==> t > LastIndexed(d))
  }

  /** `e` is `d` after some block appends and wallet-indexer steps. */
  ghost predicate Later(d: Snapshot, e: Snapshot) {
    LaterChain(d, e) && LaterEvents(d, e) && LaterUtxos(d, e) && LaterWallet(d, e)
  }

  lemma LaterTransitive(d: Snapshot, e: Snapshot, f: Snapshot)
    requires Later(d, e) && Later(e, f)
    ensures Later(d, f)
  {
    assert LaterChain(d, f);
    assert LaterEvents(d, f);
    LaterUtxosTransitive(d, e, f);
    assert LaterWallet(d, f);
  }

  lemma LaterUtxosTransitive(d: Snapshot, e: Snapshot, f: Snapshot)
    requires LaterUtxos(d, e) && LaterUtxos(e, f) && Extends(d.txs, e.txs)
    ensures LaterUtxos(d, f)
  {
    forall u | u in d.utxos
      ensures u in f.utxos && f.utxos[u].(spentBy := d.utxos[u].spentBy) == d.utxos[u]
    {
      assert u in e.utxos;
    }
  }

  lemma LaterReflexive(d: Snapshot)
    ensures Later(d, d)
  {
  }

  /**
   * The two processes: the chain indexer appends a block with everything its transactions bring, in one
   * transaction; the wallet indexer moves its mark and records what it found on the way.
   */
  datatype Action =
    | AppendBlock(height: i64, row: BlockRow, txs: map<i64, TxRow>, events: map<i64, EventRow>,
                  created: map<i64, UtxoRow>, spent: map<i64, i64>)
    | IndexWallet(last: i64, found: set<i64>)

  ghost predicate Legal(db: Snapshot, a: Action) {
    match a
    case AppendBlock(height, row, txs, events, created, spent) =>
      && height >= 0
      && (forall g :: g in db.blocks ==> g < height)
      && (forall t :: t in txs ==> t !in db.txs && txs[t].height == height)
      && (forall k :: k in events ==> k !in db.events && events[k].txId in txs)
      && (forall u :: u in created ==> u !in db.utxos && created[u].createdBy in txs)
      && (forall u :: u in created && created[u].spentBy.Some? ==> created[u].spentBy.value in txs)
      && (forall u :: u in spent ==> u in db.utxos && db.utxos[u].spentBy.None? && spent[u] in txs)
    case IndexWallet(last, found) =>
      && LastIndexed(db) <= last
      && (forall t :: t in found ==> t in db.txs && LastIndexed(db) < t <= last)
  }

  function Apply(db: Snapshot, a: Action): Snapshot {
    match a
    case AppendBlock(height, row, txs, events, created, spent) =>
      db.(blocks := db.blocks[height := row],
          txs := db.txs + txs,
          events := db.events + events,
          utxos := (map u | u in db.utxos ::
                      if u in spent then db.utxos[u].(spentBy := Some(spent[u])) else db.utxos[u]) + created)
    case IndexWallet(last, found) =>
      db.(relevant := db.relevant + found, wallet := Some(Some(last)))
  }

  /** Indexing moves the mark and adds what was found; nothing else changes. */
  lemma IndexingIs(db: Snapshot, last: i64, found: set<i64>)
    ensures var e := Apply(db, IndexWallet(last, found));
            && LastIndexed(e) == last && e.wallet.Some?
            && (forall t :: t in e.relevant <==> t in db.relevant || t in found)
            && e.blocks == db.blocks && e.txs == db.txs && e.events == db.events && e.utxos == db.utxos
  {
  }

  /** An append stores the block with everything in it and marks the utxos it spends; nothing else changes. */
  lemma AppendingIs(db: Snapshot, a: Action)
    requires a.AppendBlock? && Legal(db, a)
    ensures var e := Apply(db, a);
            && e.wallet == db.wallet && e.relevant == db.relevant
            && e.blocks == db.blocks[a.height := a.row]
            && (forall t :: t in a.txs ==> t in e.txs && e.txs[t] == a.txs[t])
            && (forall k :: k in a.events ==> k in e.events && e.events[k] == a.events[k])
            && (forall u :: u in a.created ==> u in e.utxos && e.utxos[u] == a.created[u])
            && (forall u :: u in a.spent ==> u in e.utxos && e.utxos[u] == db.utxos[u].(spentBy := Some(a.spent[u])))
            && (forall u :: u in db.utxos && u !in a.spent ==> u in e.utxos && e.utxos[u] == db.utxos[u])
  {
    assert forall u :: u in a.created ==> u !in db.utxos;
  }

  lemma AppendIsLaterUtxos(db: Snapshot, a: Action)
    requires a.AppendBlock? && Legal(db, a)
    ensures LaterUtxos(db, Apply(db, a))
  {
    var e := Apply(db, a);
    forall u | u in db.utxos
      ensures u in e.utxos
      ensures e.utxos[u] == if u in a.spent then db.utxos[u].(spentBy := Some(a.spent[u])) else db.utxos[u]
    {
      assert u !in a.created;
    }
    assert forall u :: u in e.utxos && u !in db.utxos ==> u in a.created && e.utxos[u] == a.created[u];
  }

  lemma AppendIsLaterChain(db: Snapshot, a: Action)
    requires a.AppendBlock? && Legal(db, a) && WellFormed(db)
    ensures LaterChain(db, Apply(db, a)) && LaterWallet(db, Apply(db, a)) && WellFormed(Apply(db, a))
  {
  }

  lemma AppendIsLaterEvents(db: Snapshot, a: Action)
    requires a.AppendBlock? && Legal(db, a)
    ensures LaterEvents(db, Apply(db, a))
  {
  }

  /** Every legal step of either process only grows the tables in the ways `Later` allows. */
  lemma ApplyIsLater(db: Snapshot, a: Action)
    requires Legal(db, a)
    requires WellFormed(db)
    ensures Later(db, Apply(db, a)) && WellFormed(Apply(db, a))
  {
    match a {
      case AppendBlock(height, row, txs, events, created, spent) =>
        hide Legal, Apply, WellFormed, LaterChain, LaterEvents, LaterUtxos, LaterWallet;
        AppendIsLaterChain(db, a);
        AppendIsLaterEvents(db, a);
        AppendIsLaterUtxos(db, a);
      case IndexWallet(last, found) =>
        assert LaterUtxos(db, Apply(db, a));
    }
  }

  // ---- Watermarks ----

  /** SELECT COALESCE(MAX(height), 0). */
  function ChainHead(db: Snapshot): int {
    if db.blocks == map[] then 0 else MaxOf(db.blocks.Keys)
  }

  function BlockingHeights(db: Snapshot): set<i64> {
    set t | t in db.txs && t > LastIndexed(db) :: db.txs[t].height
  }

  /** `compute_wallet_ready_height_tx` for an existing wallet. */
  function ReadyHeight(db: Snapshot): Option<int> {
    var blocking := BlockingHeights(db);
    if blocking == {} then Some(ChainHead(db))
    else if MinOf(blocking) == 0 then None
    else Some(MinOf(blocking) - 1)
  }

  lemma Blocking(db: Snapshot, t: i64)
    requires t in db.txs && t > LastIndexed(db)
    ensures db.txs[t].height in BlockingHeights(db)
  {
  }

  /**
   * The ready height is the greatest height, at most the head, at or below which every transaction is
   * indexed; there is none exactly when block 0 blocks.
   */
  lemma ReadyHeightIsGreatest(db: Snapshot)
    requires WellFormed(db)
    ensures ReadyHeight(db).None? <==> !Settled(db, 0)
    ensures ReadyHeight(db).Some? ==>
      var r := ReadyHeight(db).value;
      && 0 <= r <= ChainHead(db)
      && (forall h :: h <= r ==> Settled(db, h))
      && (r == ChainHead(db) || !Settled(db, r + 1))
  {
    var blocking := BlockingHeights(db);
    forall t | t in db.txs && t > LastIndexed(db)
      ensures db.txs[t].height in blocking && 0 <= db.txs[t].height <= ChainHead(db)
    {
      Blocking(db, t);
      assert db.txs[t].height in db.blocks.Keys;
    }
    assert db.blocks != map[] ==> ChainHead(db) in db.blocks;
    if blocking != {} {
      assert MinOf(blocking) in blocking;
    }
  }

  /** The transaction's id is above the wallet's mark; a wallet that has none yet counts as marked at 0. */
  ghost predicate Unindexed(db: Snapshot, t: i64) {
    t in db.txs
    && match db.wallet
       case Some(Some(mark)) => t > mark
       case _ => t > 0
  }

  /**
   * The ready height in terms of the tables: absent exactly when a transaction of block 0 is not indexed;
   * else every transaction up to it is indexed, and it is the head or lies right below a block with one
   * that is not.
   */
  lemma ReadyHeightIs(db: Snapshot)
    requires WellFormed(db)
    ensures ReadyHeight(db).None? <==> exists t :: Unindexed(db, t) && db.txs[t].height == 0
    ensures ReadyHeight(db).Some? ==> forall t :: Unindexed(db, t) ==> db.txs[t].height > ReadyHeight(db).value
    ensures ReadyHeight(db).Some? ==>
      || (exists t :: Unindexed(db, t) && db.txs[t].height == ReadyHeight(db).value + 1)
      || (if db.blocks == map[] then ReadyHeight(db).value == 0
          else ReadyHeight(db).value in db.blocks && forall h :: h in db.blocks ==> h <= ReadyHeight(db).value)
  {
    var blocking := BlockingHeights(db);
    forall t | t in db.txs
      ensures Unindexed(db, t) <==> t > LastIndexed(db)
      ensures Unindexed(db, t) ==> db.txs[t].height in blocking
    {
    }
    if blocking != {} {
      var m := MinOf(blocking);
      var t :| t in db.txs && t > LastIndexed(db) && db.txs[t].height == m;
      assert Unindexed(db, t);
    } else if db.blocks != map[] {
      assert ChainHead(db) in db.blocks.Keys;
    }
  }

  /** Nothing at or below the ready height is still to be indexed. */
  lemma ReadyIsSettled(db: Snapshot, h: int)
    requires ReadyHeight(db).Some? && h <= ReadyHeight(db).value
    ensures Settled(db, h)
  {
    assert forall t :: t in db.txs && t > LastIndexed(db) ==> db.txs[t].height in BlockingHeights(db);
  }

  /** On a non-empty chain the ready height never falls. */
  lemma ReadyHeightNeverFalls(d: Snapshot, e: Snapshot)
    requires Later(d, e) && WellFormed(d) && WellFormed(e)
    requires d.blocks != map[] && ReadyHeight(d).Some?
    ensures ReadyHeight(e).Some? && ReadyHeight(d).value <= ReadyHeight(e).value
  {
    ReadyHeightIsGreatest(d);
    var r := ReadyHeight(d).value;
    var blocking := BlockingHeights(e);
    assert ChainHead(d) in d.blocks && ChainHead(d) in e.blocks.Keys;
    forall h | h in blocking
      ensures h > r
    {
      var t :| t in e.txs && t > LastIndexed(e) && e.txs[t].height == h;
      if t in d.txs {
        Blocking(d, t);
        assert Settled(d, Min(h, r));
      } else {
        assert h in e.blocks && h !in d.blocks;
      }
    }
  }
}
