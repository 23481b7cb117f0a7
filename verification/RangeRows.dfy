/** Both feeds fetch rows for a range of heights and hand them out block by block. */
module RangeRows {
  import opened Prelude
  import opened Seqs
  import opened Sorting
  import opened Tables
  import opened Queries

  /** The rows of heights [lo, hi], one query each. */
  datatype RangeRows = RangeRows(
    metas: seq<Item>, relevant: seq<Keyed<RelevantTx>>, zswap: seq<Item>, dust: seq<Item>,
    utxos: seq<Keyed<UtxoEvent>>)

  function FetchRows(db: Snapshot, s: Session, lo: int, hi: int): RangeRows {
    RangeRows(MetaRows(db, s, WalletTxs(db, s, lo, hi)), RelevantRows(db, lo, hi), ZswapRows(db, s, lo, hi),
              DustRows(db, s, lo, hi), UtxoEvents(db, s, lo, hi))
  }

  // ---- Rows of one height ----

  lemma RelevantAtHeight(db: Snapshot, lo: int, hi: int, h: int)
    requires lo <= h <= hi
    ensures Filter(RelevantRows(db, lo, hi), AtHeight(h)) == RelevantRows(db, h, h)
  {
    hide Ordered, ZswapEventsOf, PaidFees;
    assert Restrict(RelevantMap(db, lo, hi), h) == RelevantMap(db, h, h);
    hide RelevantMap, Restrict;
    OrderedAtHeight(RelevantMap(db, lo, hi), h);
  }

  lemma ZswapAtHeight(db: Snapshot, s: Session, lo: int, hi: int, h: int)
    requires lo <= h <= hi
    ensures Filter(ZswapRows(db, s, lo, hi), AtHeight(h)) == ZswapRows(db, s, h, h)
  {
    hide Ordered, ZswapMap, Restrict;
    ZswapMapAtHeight(db, s, lo, hi, h);
    OrderedAtHeight(ZswapMap(db, s, lo, hi), h);
  }

  lemma ZswapMapAtHeight(db: Snapshot, s: Session, lo: int, hi: int, h: int)
    requires lo <= h <= hi
    ensures Restrict(ZswapMap(db, s, lo, hi), h) == ZswapMap(db, s, h, h)
  {
  }

  lemma DustAtHeight(db: Snapshot, s: Session, lo: int, hi: int, h: int)
    requires lo <= h <= hi
    ensures Filter(DustRows(db, s, lo, hi), AtHeight(h)) == DustRows(db, s, h, h)
  {
    hide DustSelected, Ordered;
    assert Restrict(DustMap(db, s, lo, hi), h) == DustMap(db, s, h, h);
    hide DustMap, Restrict;
    OrderedAtHeight(DustMap(db, s, lo, hi), h);
  }

  lemma UtxosAtHeight(db: Snapshot, s: Session, lo: int, hi: int, h: int)
    requires lo <= h <= hi
    ensures Filter(UtxoEvents(db, s, lo, hi), AtHeight(h)) == UtxoEvents(db, s, h, h)
  {
    assert Restrict(CreateMap(db, s, lo, hi), h) == CreateMap(db, s, h, h);
    assert Restrict(SpendMap(db, s, lo, hi), h) == SpendMap(db, s, h, h);
    hide Ordered, CreateMap, SpendMap, Restrict, StableSort;
    var creates, spends := Ordered(CreateMap(db, s, lo, hi)), Ordered(SpendMap(db, s, lo, hi));
    OrderedAtHeight(CreateMap(db, s, lo, hi), h);
    OrderedAtHeight(SpendMap(db, s, lo, hi), h);
    SortFilter(creates + spends, AtHeight(h));
    FilterConcat(creates, spends, AtHeight(h));
  }

  lemma MetasAtHeight(db: Snapshot, s: Session, lo: int, hi: int, h: int)
    requires lo <= h <= hi
    ensures Filter(MetaRows(db, s, WalletTxs(db, s, lo, hi)), AtHeight(h)) == MetaRows(db, s, WalletTxs(db, s, h, h))
  {
    MetaMapAtHeight(db, s, lo, hi, h);
    hide Ordered, MetaMap, Restrict, WalletTxs;
    OrderedAtHeight(MetaMap(db, s, WalletTxs(db, s, lo, hi)), h);
  }

  lemma MetaMapAtHeight(db: Snapshot, s: Session, lo: int, hi: int, h: int)
    requires lo <= h <= hi
    ensures Restrict(MetaMap(db, s, WalletTxs(db, s, lo, hi)), h) == MetaMap(db, s, WalletTxs(db, s, h, h))
  {
    hide WalletTx;
  }

  // ---- Which transactions the wallet gets metadata for ----

  function IdsOf<T>(rows: seq<Keyed<T>>): set<i64> {
    set i | 0 <= i < |rows| :: rows[i].key.txId
  }

  lemma IdsSnoc<T>(rows: seq<Keyed<T>>, i: nat)
    requires i < |rows|
    ensures IdsOf(rows[..i + 1]) == IdsOf(rows[..i]) + {rows[i].key.txId}
  {
    forall t
      ensures t in IdsOf(rows[..i + 1]) <==> t in IdsOf(rows[..i]) + {rows[i].key.txId}
    {
      if t in IdsOf(rows[..i]) {
        var j :| 0 <= j < i && rows[..i][j].key.txId == t;
        assert rows[..i + 1][j].key.txId == t;
      }
      if t == rows[i].key.txId {
        assert rows[..i + 1][i].key.txId == t;
      }
    }
  }

  lemma IdsOfOrdered<T>(rows: map<i64, Keyed<T>>, t: i64)
    ensures t in IdsOf(Ordered(rows)) <==> exists k :: k in rows && rows[k].key.txId == t
  {
    hide Ordered;
    OrderedMembers(rows);
    if t in IdsOf(Ordered(rows)) {
      var i :| 0 <= i < |Ordered(rows)| && Ordered(rows)[i].key.txId == t;
      assert RowOf(rows, Ordered(rows)[i]);
    }
    if k :| k in rows && rows[k].key.txId == t {
      assert RowOf(rows, rows[k]);
      var i :| 0 <= i < |Ordered(rows)| && Ordered(rows)[i] == rows[k];
    }
  }

  lemma IdsOfMerged<T>(a: seq<Keyed<T>>, b: seq<Keyed<T>>)
    ensures IdsOf(StableSort(a + b)) == IdsOf(a) + IdsOf(b)
  {
    hide StableSort;
    SortSorts(a + b);
    forall x | x in StableSort(a + b)
      ensures x in a + b
    {
      assert x in multiset(StableSort(a + b));
    }
    SameIds(StableSort(a + b), a + b);
    SameIds(a + b, StableSort(a + b));
    assert forall i :: 0 <= i < |b| ==> b[i] == (a + b)[|a| + i];
    assert forall i :: 0 <= i < |a| ==> a[i] == (a + b)[i];
  }

  lemma SameIds<T>(a: seq<Keyed<T>>, b: seq<Keyed<T>>)
    requires forall x :: x in a ==> x in b
    ensures IdsOf(a) <= IdsOf(b)
  {
    forall t | t in IdsOf(a)
      ensures t in IdsOf(b)
    {
      var i :| 0 <= i < |a| && a[i].key.txId == t;
      assert a[i] in a;
      var j :| 0 <= j < |b| && b[j] == a[i];
    }
  }

  /** The transactions of the relevant, dust and utxo rows are the wallet's transactions of the range. */
  lemma RowsNameTheWalletTxs(db: Snapshot, s: Session, lo: int, hi: int)
    ensures IdsOf(RelevantRows(db, lo, hi)) + IdsOf(DustRows(db, s, lo, hi)) + IdsOf(UtxoEvents(db, s, lo, hi))
         == WalletTxs(db, s, lo, hi)
  {
    hide Ordered, IdsOf;
    forall t: i64
      ensures t in IdsOf(RelevantRows(db, lo, hi)) <==> t in db.relevant && InRange(db, t, lo, hi)
      ensures t in IdsOf(DustRows(db, s, lo, hi)) <==>
        InRange(db, t, lo, hi) && exists k :: k in db.events && db.events[k].txId == t && DustSelected(s, db.events[k])
      ensures t in IdsOf(UtxoEvents(db, s, lo, hi)) <==>
        InRange(db, t, lo, hi) && exists u :: u in db.utxos && db.utxos[u].owner in s.addresses
                                              && (db.utxos[u].createdBy == t || db.utxos[u].spentBy == Some(t))
    {
      RelevantIds(db, lo, hi, t);
      DustIds(db, s, lo, hi, t);
      UtxoIds(db, s, lo, hi, t);
    }
  }

  lemma RelevantIds(db: Snapshot, lo: int, hi: int, t: i64)
    ensures t in IdsOf(RelevantRows(db, lo, hi)) <==> t in db.relevant && InRange(db, t, lo, hi)
  {
    hide Ordered, IdsOf;
    IdsOfOrdered(RelevantMap(db, lo, hi), t);
    if t in db.relevant && InRange(db, t, lo, hi) {
      assert RelevantMap(db, lo, hi)[t].key.txId == t;
    }
  }

  lemma DustIds(db: Snapshot, s: Session, lo: int, hi: int, t: i64)
    ensures t in IdsOf(DustRows(db, s, lo, hi)) <==>
      InRange(db, t, lo, hi) && exists k :: k in db.events && db.events[k].txId == t && DustSelected(s, db.events[k])
  {
    hide Ordered, IdsOf, DustSelected;
    IdsOfOrdered(DustMap(db, s, lo, hi), t);
    if InRange(db, t, lo, hi) {
      if k :| k in db.events && db.events[k].txId == t && DustSelected(s, db.events[k]) {
        assert DustMap(db, s, lo, hi)[k].key.txId == t;
      }
    }
  }

  lemma UtxoIds(db: Snapshot, s: Session, lo: int, hi: int, t: i64)
    ensures t in IdsOf(UtxoEvents(db, s, lo, hi)) <==>
      InRange(db, t, lo, hi) && exists u :: u in db.utxos && db.utxos[u].owner in s.addresses
                                            && (db.utxos[u].createdBy == t || db.utxos[u].spentBy == Some(t))
  {
    hide Ordered, IdsOf, StableSort;
    var creates, spends := CreateMap(db, s, lo, hi), SpendMap(db, s, lo, hi);
    IdsOfMerged(Ordered(creates), Ordered(spends));
    IdsOfOrdered(creates, t);
    IdsOfOrdered(spends, t);
    if InRange(db, t, lo, hi) {
      if u :| u in db.utxos && db.utxos[u].owner in s.addresses
              && (db.utxos[u].createdBy == t || db.utxos[u].spentBy == Some(t)) {
        assert db.utxos[u].createdBy == t ==> creates[u].key.txId == t;
        assert db.utxos[u].spentBy == Some(t) ==> spends[u].key.txId == t;
      }
    }
  }

  method CollectIds<T>(ids: set<i64>, rows: seq<Keyed<T>>) returns (r: set<i64>)
    ensures r == ids + IdsOf(rows)
  {
    r := ids;
    for i := 0 to |rows|
      invariant r == ids + IdsOf(rows[..i])
    {
      r := r + {rows[i].key.txId};
      IdsSnoc(rows, i);
    }
    assert rows[..|rows|] == rows;
  }

  // ---- Zswap events by transaction ----

  function OfTx(t: i64): Keyed<Bytes> -> bool {
    (x: Keyed<Bytes>) => x.key.txId == t
  }

  function EventsIn(groups: map<i64, seq<Bytes>>, t: i64): seq<Bytes> {
    if t in groups then groups[t] else []
  }

  lemma EventsOfTx(db: Snapshot, ids: set<i64>, t: i64)
    requires t in ids
    ensures Filter(Ordered(ZswapOf(db, ids)), OfTx(t)) == Ordered(ZswapOf(db, {t}))
  {
    hide Ordered, Filter;
    OrderedFilter(ZswapOf(db, ids), OfTx(t), ZswapOf(db, {t}));
  }

  lemma RawsSnoc(rows: seq<Keyed<Bytes>>, i: nat, t: i64)
    requires i < |rows|
    ensures var before := Map(RawOf(), Filter(rows[..i], OfTx(t)));
            Map(RawOf(), Filter(rows[..i + 1], OfTx(t)))
            == if rows[i].key.txId == t then before + [rows[i].value] else before
  {
    FilterSnoc(rows, i, OfTx(t));
    MapConcat(RawOf(), Filter(rows[..i], OfTx(t)), [rows[i]]);
  }

  /** The loop that groups the events: each transaction's own, in order of event id. */
  method GroupZswap(db: Snapshot, ids: set<i64>) returns (byTx: map<i64, seq<Bytes>>)
    ensures forall t :: t in ids ==> EventsIn(byTx, t) == ZswapEventsOf(db, t)
  {
    hide Ordered, Filter, Map, ZswapOf;
    var rows := Ordered(ZswapOf(db, ids));
    byTx := map[];
    NoRaws(rows);
    for i := 0 to |rows|
      invariant forall t :: EventsIn(byTx, t) == Map(RawOf(), Filter(rows[..i], OfTx(t)))
    {
      forall t
        ensures var before := Map(RawOf(), Filter(rows[..i], OfTx(t)));
                Map(RawOf(), Filter(rows[..i + 1], OfTx(t)))
                == if rows[i].key.txId == t then before + [rows[i].value] else before
      {
        RawsSnoc(rows, i, t);
      }
      var tx := rows[i].key.txId;
      byTx := byTx[tx := EventsIn(byTx, tx) + [rows[i].value]];
    }
    assert rows[..|rows|] == rows;
    forall t | t in ids
      ensures EventsIn(byTx, t) == ZswapEventsOf(db, t)
    {
      EventsOfTx(db, ids, t);
    }
  }

  lemma NoRaws(rows: seq<Keyed<Bytes>>)
    ensures forall t :: Map(RawOf(), Filter(rows[..0], OfTx(t))) == []
  {
  }

  lemma RelevantRowEvents(db: Snapshot, lo: int, hi: int, r: Keyed<RelevantTx>)
    requires r in RelevantRows(db, lo, hi)
    ensures r.value.zswapEvents == ZswapEventsOf(db, r.key.txId) && r.key.txId in IdsOf(RelevantRows(db, lo, hi))
  {
    hide Ordered, ZswapEventsOf;
    OrderedMembers(RelevantMap(db, lo, hi));
    assert RowOf(RelevantMap(db, lo, hi), r);
  }

  /**
   * The queries of one range; transaction metadata is asked for by the ids the other rows name, and zswap
   * events are grouped into those each relevant row carries.
   */
  method Fetch(db: Snapshot, s: Session, lo: int, hi: int) returns (rows: RangeRows, zswapByTx: map<i64, seq<Bytes>>)
    ensures rows == FetchRows(db, s, lo, hi)
    ensures forall r :: r in rows.relevant ==> r.value.zswapEvents == EventsIn(zswapByTx, r.key.txId)
  {
    hide RelevantRows, DustRows, UtxoEvents, WalletTxs, MetaRows, ZswapRows, IdsOf, ZswapEventsOf;
    var relevant := RelevantRows(db, lo, hi);
    var ids := CollectIds({}, relevant);
    zswapByTx := GroupZswap(db, ids);
    assert ids == IdsOf(relevant);
    forall r | r in relevant
      ensures r.value.zswapEvents == EventsIn(zswapByTx, r.key.txId)
    {
      RelevantRowEvents(db, lo, hi, r);
    }
    var dust := DustRows(db, s, lo, hi);
    var utxos := UtxoEvents(db, s, lo, hi);
    ids := CollectIds(ids, dust);
    ids := CollectIds(ids, utxos);
    RowsNameTheWalletTxs(db, s, lo, hi);
    assert ids == WalletTxs(db, s, lo, hi);
    rows := RangeRows(MetaRows(db, s, ids), relevant, ZswapRows(db, s, lo, hi), dust, utxos);
  }

  /** One inner loop of the bundle builders: the rows of this height, as items, in row order. */
  method PushAt<T>(pushed: seq<Item>, rows: seq<Keyed<T>>, height: int, item: Keyed<T> -> Item) returns (r: seq<Item>)
    ensures r == pushed + Map(item, Filter(rows, AtHeight(height)))
  {
    hide Map, Filter;
    r := pushed;
    for i := 0 to |rows|
      invariant r + Map(item, Filter(rows[i..], AtHeight(height))) == pushed + Map(item, Filter(rows, AtHeight(height)))
    {
      PushStep(rows, i, height, item);
      if rows[i].key.blockHeight == height {
        r := r + [item(rows[i])];
      }
    }
    PushedAll(rows, height, item);
  }

  lemma PushStep<T>(rows: seq<Keyed<T>>, i: nat, height: int, item: Keyed<T> -> Item)
    requires i < |rows|
    ensures Map(item, Filter(rows[i..], AtHeight(height)))
         == (if rows[i].key.blockHeight == height then [item(rows[i])] else [])
            + Map(item, Filter(rows[i + 1..], AtHeight(height)))
  {
    var rest := Filter(rows[i + 1..], AtHeight(height));
    assert rows[i..] == [rows[i]] + rows[i + 1..];
    FilterCons(rows[i], rows[i + 1..], AtHeight(height));
    MapConcat(item, if rows[i].key.blockHeight == height then [rows[i]] else [], rest);
  }

  lemma PushedAll<T>(rows: seq<Keyed<T>>, height: int, item: Keyed<T> -> Item)
    ensures Map(item, Filter(rows[|rows|..], AtHeight(height))) == []
    ensures rows[0..] == rows
  {
  }
}
