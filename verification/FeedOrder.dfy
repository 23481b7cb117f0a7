/** When the sequence keys of a block, and of a whole feed, are strictly increasing. */
module FeedOrder {
  import opened Prelude
  import opened Seqs
  import opened Sequence
  import opened Sorting
  import opened Tables
  import opened Queries
  import opened Contents
  import opened Assembly

  /** No registered utxo created in block `h` is spent by the transaction that created it. */
  ghost predicate NoSelfSpend(db: Snapshot, s: Session, h: int) {
    forall u :: u in CreateMap(db, s, h, h) ==> db.utxos[u].spentBy != Some(db.utxos[u].createdBy)
  }

  // ---- Relevant rows and their updates ----

  ghost predicate RelevantKeys(rows: seq<Keyed<RelevantTx>>, h: int) {
    forall r :: r in rows ==> HasKey(h, PHASE_TX, 1)(r)
  }

  function HasKey<T>(h: int, phase: i64, ordinal: i64): Keyed<T> -> bool {
    (x: Keyed<T>) => x.key.blockHeight == h && x.key.phase == phase && x.key.ordinal == ordinal
  }

  function InPhase<T>(phase: i64): Keyed<T> -> bool {
    (x: Keyed<T>) => x.key.phase == phase
  }

  lemma RelevantMapKeys(db: Snapshot, h: int)
    ensures var rows := RelevantMap(db, h, h);
            forall k :: k in rows ==> rows[k].key.txId == k && HasKey(h, PHASE_TX, 1)(rows[k])
  {
  }

  lemma RelevantRowsStrict(db: Snapshot, h: int)
    ensures StrictlySorted(RelevantRows(db, h, h)) && RelevantKeys(RelevantRows(db, h, h), h)
  {
    RelevantMapKeys(db, h);
    var rows := RelevantMap(db, h, h);
    OrderedStrict(rows);
    OrderedAll(rows, HasKey(h, PHASE_TX, 1));
  }

  lemma {:induction false} InjectKeys(rows: seq<Keyed<RelevantTx>>, answers: seq<Updates>, h: int, x: Item)
    requires |rows| == |answers| && RelevantKeys(rows, h)
    requires x in Inject(rows, answers)
    ensures x.key.blockHeight == h && x.key.phase == PHASE_TX && x.key.ordinal != 0
    ensures exists i :: 0 <= i < |rows| && rows[i].key.txId == x.key.txId
  {
    var n := |rows| - 1;
    assert rows[n] in rows;
    if x in Inject(rows[..n], answers[..n]) {
      InjectKeys(rows[..n], answers[..n], h, x);
      var i :| 0 <= i < |rows[..n]| && rows[..n][i].key.txId == x.key.txId;
      assert rows[i].key.txId == x.key.txId;
    }
  }

  lemma StrictConcat<T>(a: seq<Keyed<T>>, b: seq<Keyed<T>>)
    requires StrictlySorted(a) && StrictlySorted(b)
    requires forall x, y :: x in a && y in b ==> Less(x.key, y.key)
    ensures StrictlySorted(a + b)
  {
  }

  lemma OwnStrict(row: Keyed<RelevantTx>, us: Updates)
    requires row.key.phase == PHASE_TX && row.key.ordinal == 1
    ensures StrictlySorted(UpdateItems(row, us) + [ShieldedItem()(row)])
  {
  }

  lemma EarlierRowsBelow(rows: seq<Keyed<RelevantTx>>, answers: seq<Updates>, h: int, x: Item, y: Item)
    requires |rows| == |answers| && RelevantKeys(rows, h) && StrictlySorted(rows) && rows != []
    requires var n := |rows| - 1;
             x in Inject(rows[..n], answers[..n]) && y in UpdateItems(rows[n], answers[n]) + [ShieldedItem()(rows[n])]
    ensures Less(x.key, y.key)
  {
    var n := |rows| - 1;
    var before := rows[..n];
    assert RelevantKeys(before, h);
    InjectKeys(before, answers[..n], h, x);
    var i :| 0 <= i < |before| && before[i].key.txId == x.key.txId;
    assert before[i] == rows[i] && rows[i] in rows && rows[n] in rows && Less(rows[i].key, rows[n].key);
    assert HasKey(h, PHASE_TX, 1)(rows[i]) && HasKey(h, PHASE_TX, 1)(rows[n]);
  }

  /** The pushes of a block's relevant rows are already in key order: updates first, then their row. */
  lemma {:induction false} InjectStrict(rows: seq<Keyed<RelevantTx>>, answers: seq<Updates>, h: int)
    requires |rows| == |answers| && RelevantKeys(rows, h) && StrictlySorted(rows)
    ensures StrictlySorted(Inject(rows, answers))
  {
    if rows == [] {
    } else {
      var n := |rows| - 1;
      var before, own := Inject(rows[..n], answers[..n]), UpdateItems(rows[n], answers[n]) + [ShieldedItem()(rows[n])];
      assert rows[n] in rows;
      OwnStrict(rows[n], answers[n]);
      assert RelevantKeys(rows[..n], h) && StrictlySorted(rows[..n]);
      assert Inject(rows, answers) == before + own;
      hide Inject, UpdateItems, ShieldedItem, StrictlySorted, RelevantKeys, Less;
      InjectStrict(rows[..n], answers[..n], h);
      forall x, y | x in before && y in own
        ensures Less(x.key, y.key)
      {
        EarlierRowsBelow(rows, answers, h, x, y);
      }
      StrictConcat(before, own);
    }
  }

  // ---- The other parts ----

  lemma MetaMapKeys(db: Snapshot, s: Session, h: int)
    ensures var rows := MetaMap(db, s, WalletTxs(db, s, h, h));
            forall k :: k in rows ==> rows[k].key.txId == k && HasKey(h, PHASE_TX, 0)(rows[k])
  {
  }

  lemma MetaKeys(db: Snapshot, s: Session, h: int)
    ensures DistinctBy(MetaPart(db, s, h), KeyOf())
    ensures forall x :: x in MetaPart(db, s, h) ==> x.key.phase == PHASE_TX && x.key.ordinal == 0
  {
    MetaMapKeys(db, s, h);
    var rows := MetaMap(db, s, WalletTxs(db, s, h, h));
    OrderedStrict(rows);
    OrderedAll(rows, HasKey(h, PHASE_TX, 0));
    DistinctIndexed(MetaPart(db, s, h), KeyOf());
    DistinctIndexed(Ordered(rows), KeyOf());
  }

  lemma EventMapKeys(db: Snapshot, s: Session, h: int)
    ensures var zswap := ZswapMap(db, s, h, h);
            forall k :: k in zswap ==> zswap[k].key.ordinal == k && InPhase(PHASE_LEDGER_EVENT)(zswap[k])
    ensures var dust := DustMap(db, s, h, h);
            forall k :: k in dust ==> dust[k].key.ordinal == k && InPhase(PHASE_LEDGER_EVENT)(dust[k])
    ensures ZswapMap(db, s, h, h).Keys !! DustMap(db, s, h, h).Keys
  {
  }

  lemma OrdinalsDiffer(a: map<i64, Item>, b: map<i64, Item>, x: Item, y: Item)
    requires forall k :: k in a ==> a[k].key.ordinal == k
    requires forall k :: k in b ==> b[k].key.ordinal == k
    requires a.Keys !! b.Keys && x in Ordered(a) && y in Ordered(b)
    ensures x.key != y.key
  {
    var k := OrderedRow(a, x);
    var l := OrderedRow(b, y);
    assert k in a.Keys && l in b.Keys;
  }

  lemma DisjointOrdinals(a: map<i64, Item>, b: map<i64, Item>)
    requires forall k :: k in a ==> a[k].key.ordinal == k
    requires forall k :: k in b ==> b[k].key.ordinal == k
    requires a.Keys !! b.Keys
    ensures DistinctBy(Ordered(a) + Ordered(b), KeyOf())
  {
    OrderedStrict(a);
    OrderedStrict(b);
    forall x, y | x in Ordered(a) && y in Ordered(b)
      ensures x.key != y.key
    {
      OrdinalsDiffer(a, b, x, y);
    }
    DistinctConcat(Ordered(a), Ordered(b), KeyOf());
  }

  lemma EventKeys(db: Snapshot, s: Session, h: int)
    ensures DistinctBy(ZswapRows(db, s, h, h) + DustRows(db, s, h, h), KeyOf())
    ensures forall x :: x in ZswapRows(db, s, h, h) + DustRows(db, s, h, h) ==> InPhase(PHASE_LEDGER_EVENT)(x)
  {
    hide ZswapMap, DustMap, Ordered, DistinctBy;
    EventMapKeys(db, s, h);
    DisjointOrdinals(ZswapMap(db, s, h, h), DustMap(db, s, h, h));
    OrderedAll(ZswapMap(db, s, h, h), InPhase(PHASE_LEDGER_EVENT));
    OrderedAll(DustMap(db, s, h, h), InPhase(PHASE_LEDGER_EVENT));
  }

  function UtxoKey(): Keyed<UtxoEvent> -> SequenceKey {
    (x: Keyed<UtxoEvent>) => SequenceKey(x.key.blockHeight, x.key.txId, PHASE_UNSHIELDED, x.value.utxoId)
  }

  lemma MappedDistinct(s: seq<Keyed<UtxoEvent>>)
    ensures DistinctBy(Map(UtxoItem(), s), KeyOf()) <==> DistinctBy(s, UtxoKey())
  {
    DistinctIndexed(Map(UtxoItem(), s), KeyOf());
    DistinctIndexed(s, UtxoKey());
  }

  /** A key at which the two maps collide has to be a utxo in both with one transaction. */
  ghost predicate Collide(creates: map<i64, Keyed<UtxoEvent>>, spends: map<i64, Keyed<UtxoEvent>>, u: i64) {
    u in creates && u in spends && UtxoKey()(creates[u]) == UtxoKey()(spends[u])
  }

  lemma NoCollision(creates: map<i64, Keyed<UtxoEvent>>, spends: map<i64, Keyed<UtxoEvent>>,
                    x: Keyed<UtxoEvent>, y: Keyed<UtxoEvent>)
    requires forall u :: u in creates ==> creates[u].value.utxoId == u
    requires forall u :: u in spends ==> spends[u].value.utxoId == u
    requires forall u :: !Collide(creates, spends, u)
    requires x in Ordered(creates) && y in Ordered(spends)
    ensures UtxoKey()(x) != UtxoKey()(y)
  {
    var u := OrderedRow(creates, x);
    var v := OrderedRow(spends, y);
    assert !Collide(creates, spends, u);
  }

  lemma Collision(creates: map<i64, Keyed<UtxoEvent>>, spends: map<i64, Keyed<UtxoEvent>>, u: i64)
    requires Collide(creates, spends, u)
    ensures creates[u] in Ordered(creates) && spends[u] in Ordered(spends)
    ensures UtxoKey()(creates[u]) == UtxoKey()(spends[u])
  {
    RowOrdered(creates, u);
    RowOrdered(spends, u);
  }

  lemma MergedDistinct(creates: map<i64, Keyed<UtxoEvent>>, spends: map<i64, Keyed<UtxoEvent>>)
    requires forall u :: u in creates ==> creates[u].value.utxoId == u
    requires forall u :: u in spends ==> spends[u].value.utxoId == u
    ensures DistinctBy(StableSort(Ordered(creates) + Ordered(spends)), UtxoKey())
       <==> forall u :: !Collide(creates, spends, u)
  {
    OrderedDistinct(creates, UtxoKey());
    OrderedDistinct(spends, UtxoKey());
    SortDistinct(Ordered(creates) + Ordered(spends), UtxoKey());
    DistinctConcat(Ordered(creates), Ordered(spends), UtxoKey());
    if forall u :: !Collide(creates, spends, u) {
      forall x, y | x in Ordered(creates) && y in Ordered(spends)
        ensures UtxoKey()(x) != UtxoKey()(y)
      {
        NoCollision(creates, spends, x, y);
      }
    } else {
      var u :| Collide(creates, spends, u);
      Collision(creates, spends, u);
    }
  }

  lemma CollideIsSelfSpend(db: Snapshot, s: Session, h: int)
    ensures (forall u :: !Collide(CreateMap(db, s, h, h), SpendMap(db, s, h, h), u)) <==> NoSelfSpend(db, s, h)
    ensures forall u :: u in CreateMap(db, s, h, h) ==> CreateMap(db, s, h, h)[u].value.utxoId == u
    ensures forall u :: u in SpendMap(db, s, h, h) ==> SpendMap(db, s, h, h)[u].value.utxoId == u
  {
    var creates, spends := CreateMap(db, s, h, h), SpendMap(db, s, h, h);
    if u :| u in creates && db.utxos[u].spentBy == Some(db.utxos[u].createdBy) {
      assert Collide(creates, spends, u);
    }
  }

  /** Create and spend events collide exactly on a utxo whose creator is its spender. */
  lemma UtxoKeysDistinct(db: Snapshot, s: Session, h: int)
    ensures DistinctBy(Map(UtxoItem(), UtxoEvents(db, s, h, h)), KeyOf()) <==> NoSelfSpend(db, s, h)
  {
    CollideIsSelfSpend(db, s, h);
    MergedDistinct(CreateMap(db, s, h, h), SpendMap(db, s, h, h));
    MappedDistinct(UtxoEvents(db, s, h, h));
  }

  lemma UtxoPhase(db: Snapshot, s: Session, h: int, x: Item)
    requires x in Map(UtxoItem(), UtxoEvents(db, s, h, h))
    ensures x.key.phase == PHASE_UNSHIELDED
  {
  }

  lemma PhasesDistinct(metas: seq<Item>, middle: seq<Item>, events: seq<Item>, utxos: seq<Item>)
    requires DistinctBy(metas, KeyOf()) && DistinctBy(middle, KeyOf()) && DistinctBy(events, KeyOf())
    requires forall x :: x in metas ==> x.key.phase == PHASE_TX && x.key.ordinal == 0
    requires forall x :: x in middle ==> x.key.phase == PHASE_TX && x.key.ordinal != 0
    requires forall x :: x in events ==> InPhase(PHASE_LEDGER_EVENT)(x)
    requires forall x :: x in utxos ==> x.key.phase == PHASE_UNSHIELDED
    ensures DistinctBy(metas + middle + (events + utxos), KeyOf()) <==> DistinctBy(utxos, KeyOf())
  {
    DistinctConcat(metas, middle, KeyOf());
    DistinctConcat(events, utxos, KeyOf());
    DistinctConcat(metas + middle, events + utxos, KeyOf());
  }

  /** A block's items, with any relevant part, have distinct keys exactly when no utxo is self-spent. */
  lemma PartsDistinct(db: Snapshot, s: Session, h: int, middle: seq<Item>)
    requires DistinctBy(middle, KeyOf())
    requires forall x :: x in middle ==> x.key.phase == PHASE_TX && x.key.ordinal != 0
    ensures DistinctBy(MetaPart(db, s, h) + middle + EventPart(db, s, h), KeyOf()) <==> NoSelfSpend(db, s, h)
  {
    var utxos := Map(UtxoItem(), UtxoEvents(db, s, h, h));
    MetaKeys(db, s, h);
    EventKeys(db, s, h);
    UtxoKeysDistinct(db, s, h);
    forall x | x in utxos
      ensures x.key.phase == PHASE_UNSHIELDED
    {
      UtxoPhase(db, s, h, x);
    }
    PhasesDistinct(MetaPart(db, s, h), middle, ZswapRows(db, s, h, h) + DustRows(db, s, h, h), utxos);
  }

  /**
   * With any Merkle updates injected, the keys of a bundle increase strictly exactly when no registered
   * utxo of the block is spent by its own creator.
   */
  lemma BundleStrictIff(db: Snapshot, s: Session, h: int, answers: seq<Updates>)
    ensures StrictlySorted(BundleItems(db, s, h, answers)) <==> NoSelfSpend(db, s, h)
  {
    var rows := RelevantRows(db, h, h);
    var middle := Inject(rows, Fit(answers, |rows|));
    RelevantRowsStrict(db, h);
    InjectStrict(rows, Fit(answers, |rows|), h);
    StrictIsSortedDistinct(middle);
    forall x | x in middle
      ensures x.key.phase == PHASE_TX && x.key.ordinal != 0
    {
      InjectKeys(rows, Fit(answers, |rows|), h, x);
    }
    PartsDistinct(db, s, h, middle);
    SortDistinct(Pushed(db, s, h, answers), KeyOf());
    SortSorts(Pushed(db, s, h, answers));
    StrictIsSortedDistinct(BundleItems(db, s, h, answers));
  }

  lemma ShieldedKeys(rows: seq<Keyed<RelevantTx>>, h: int)
    requires StrictlySorted(rows) && RelevantKeys(rows, h)
    ensures StrictlySorted(Map(ShieldedItem(), rows))
    ensures forall x :: x in Map(ShieldedItem(), rows) ==> x.key.phase == PHASE_TX && x.key.ordinal != 0
  {
    var part := Map(ShieldedItem(), rows);
    forall x | x in part
      ensures x.key.phase == PHASE_TX && x.key.ordinal != 0
    {
      var i :| 0 <= i < |part| && part[i] == x;
      assert rows[i] in rows;
    }
  }

  lemma ItemsStrictIff(db: Snapshot, s: Session, h: int)
    ensures Sorted(Items(db, s, h))
    ensures StrictlySorted(Items(db, s, h)) <==> NoSelfSpend(db, s, h)
  {
    RelevantRowsStrict(db, h);
    ShieldedKeys(RelevantRows(db, h, h), h);
    StrictIsSortedDistinct(Map(ShieldedItem(), RelevantRows(db, h, h)));
    PartsDistinct(db, s, h, Map(ShieldedItem(), RelevantRows(db, h, h)));
    SortDistinct(Owed(db, s, h), KeyOf());
    SortSorts(Owed(db, s, h));
    StrictIsSortedDistinct(Items(db, s, h));
  }

  lemma {:induction false} FeedHeights(db: Snapshot, s: Session, lo: int, hi: int, x: Item)
    requires x in FeedOf(db, s, lo, hi)
    ensures lo <= x.key.blockHeight < hi && x in Items(db, s, x.key.blockHeight)
    decreases hi - lo
  {
    if x in Items(db, s, hi - 1) {
      ItemsHeight(db, s, hi - 1, x);
    } else {
      FeedHeights(db, s, lo, hi - 1, x);
    }
  }

  lemma SortedConcat<T>(a: seq<Keyed<T>>, b: seq<Keyed<T>>)
    requires forall x, y :: x in a && y in b ==> Less(x.key, y.key)
    ensures Sorted(a + b) <==> Sorted(a) && Sorted(b)
    ensures StrictlySorted(a + b) <==> StrictlySorted(a) && StrictlySorted(b)
  {
    var t := a + b;
    assert forall i :: 0 <= i < |a| ==> t[i] == a[i];
    assert forall i :: 0 <= i < |b| ==> t[|a| + i] == b[i];
    forall i, j | 0 <= i < |a| && 0 <= j < |b|
      ensures Less(a[i].key, b[j].key) && !Less(b[j].key, a[i].key)
    {
      assert a[i] in a && b[j] in b;
      LessTotal(a[i].key, b[j].key);
    }
  }

  lemma EmptyStrict<T>(a: seq<Keyed<T>>)
    requires a == []
    ensures Sorted(a) && StrictlySorted(a)
  {
  }

  /** A feed is always in key order, and strictly so exactly when none of its blocks has a self-spend. */
  lemma {:induction false} FeedStrictIff(db: Snapshot, s: Session, lo: int, hi: int)
    ensures Sorted(FeedOf(db, s, lo, hi))
    ensures StrictlySorted(FeedOf(db, s, lo, hi)) <==> forall h :: lo <= h < hi ==> NoSelfSpend(db, s, h)
    decreases hi - lo
  {
    hide Items, NoSelfSpend, Sorted, StrictlySorted;
    if lo >= hi {
      EmptyStrict(FeedOf(db, s, lo, hi));
    } else {
      FeedStrictIff(db, s, lo, hi - 1);
      ItemsStrictIff(db, s, hi - 1);
      forall x, y | x in FeedOf(db, s, lo, hi - 1) && y in Items(db, s, hi - 1)
        ensures Less(x.key, y.key)
      {
        FeedHeights(db, s, lo, hi - 1, x);
        ItemsHeight(db, s, hi - 1, y);
      }
      SortedConcat(FeedOf(db, s, lo, hi - 1), Items(db, s, hi - 1));
    }
  }
}
