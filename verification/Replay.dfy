/** What a wallet gets by replaying the unshielded create and spend events it was sent. */
module Replay {
  import opened Prelude
  import opened Seqs
  import opened Totals
  import opened Sequence
  import opened Sorting
  import opened Tables
  import opened Queries
  import opened Decode
  import opened Contents
  import opened Assembly
  import opened FeedOrder
  import opened StreamSpec
  import opened ExactlyOnce
  import opened MerkleTiling
  import opened Resume

  /** The utxos held with their values, the sums of the events so far, and how many events made no sense. */
  datatype Ledger = Ledger(live: map<i64, nat>, created: nat, spent: nat, faults: nat)

  const BLANK := Ledger(map[], 0, 0, 0)

  function Post(w: Ledger, u: i64, isCreate: bool, amount: nat): Ledger {
    if isCreate then
      Ledger(w.live[u := amount], w.created + amount, w.spent, w.faults + if u in w.live then 1 else 0)
    else
      Ledger(w.live - {u}, w.created, w.spent + amount, w.faults + if u in w.live then 0 else 1)
  }

  /** The client knows a utxo by the last field of its item's cursor. */
  function Note(w: Ledger, x: OrderedFeedItem): Ledger {
    if x.item.UnshieldedUtxo? && ParseCursor(x.sequence).Success? then
      Post(w, ParseCursor(x.sequence).value.ordinal, x.item.isCreate, x.item.amount)
    else w
  }

  function Replayed(items: seq<OrderedFeedItem>): Ledger {
    if items == [] then BLANK else Note(Replayed(items[..|items| - 1]), items[|items| - 1])
  }

  function NoteItem(w: Ledger, x: Item): Ledger {
    if x.value.UnshieldedUtxo? then Post(w, x.key.ordinal, x.value.isCreate, x.value.amount) else w
  }

  function ReplayedItems(items: seq<Item>, n: nat): Ledger
    requires n <= |items|
  {
    if n == 0 then BLANK else NoteItem(ReplayedItems(items, n - 1), items[n - 1])
  }

  lemma {:induction false} ReplayRendered(items: seq<Item>, n: nat)
    requires n <= |items|
    ensures Replayed(Map(Render(), items)[..n]) == ReplayedItems(items, n)
  {
    if n == 0 {
    } else {
      ReplayRendered(items, n - 1);
      CursorRoundTrip(items[n - 1].key);
      assert Map(Render(), items)[..n][..n - 1] == Map(Render(), items)[..n - 1];
    }
  }

  // ---- Any sensible sequence of events ----

  ghost predicate EventOf(x: Item, u: i64, isCreate: bool) {
    x.value.UnshieldedUtxo? && x.key.ordinal == u && x.value.isCreate == isCreate
  }

  ghost predicate SeenAt(items: seq<Item>, i: nat, u: i64, isCreate: bool)
    requires i < |items|
  {
    EventOf(items[i], u, isCreate)
  }

  ghost predicate Seen(items: seq<Item>, n: nat, u: i64, isCreate: bool)
    requires n <= |items|
  {
    exists i :: 0 <= i < n && SeenAt(items, i, u, isCreate)
  }

  /** Event `n` names a utxo with its value, is the first of its kind for it, and spends only what was created. */
  ghost predicate SensibleAt(items: seq<Item>, n: nat, values: map<i64, nat>)
    requires n < |items|
  {
    var x := items[n];
    x.value.UnshieldedUtxo? ==>
      && x.key.ordinal in values && x.value.amount == values[x.key.ordinal]
      && !Seen(items, n, x.key.ordinal, x.value.isCreate)
      && (if x.value.isCreate then !Seen(items, n, x.key.ordinal, false)
          else Seen(items, n, x.key.ordinal, true))
  }

  ghost predicate Sensible(items: seq<Item>, values: map<i64, nat>) {
    forall n :: 0 <= n < |items| ==> SensibleAt(items, n, values)
  }

  /** The ledger holds what was created and not spent, has met no fault, and balances. */
  ghost predicate Balanced(w: Ledger, items: seq<Item>, n: nat, values: map<i64, nat>)
    requires n <= |items|
  {
    && (forall u :: u in w.live <==> Seen(items, n, u, true) && !Seen(items, n, u, false))
    && (forall u :: u in w.live ==> u in values && w.live[u] == values[u])
    && w.faults == 0
    && Total(w.live) + w.spent == w.created
  }

  lemma SeenSnoc(items: seq<Item>, n: nat, u: i64, isCreate: bool)
    requires n < |items|
    ensures Seen(items, n + 1, u, isCreate) <==> Seen(items, n, u, isCreate) || EventOf(items[n], u, isCreate)
  {
    if EventOf(items[n], u, isCreate) {
      assert SeenAt(items, n, u, isCreate);
    }
  }

  lemma NoteBalances(w: Ledger, items: seq<Item>, n: nat, values: map<i64, nat>)
    requires n < |items| && SensibleAt(items, n, values) && Balanced(w, items, n, values)
    ensures Balanced(NoteItem(w, items[n]), items, n + 1, values)
  {
    hide Seen;
    forall u, isCreate
      ensures Seen(items, n + 1, u, isCreate) <==> Seen(items, n, u, isCreate) || EventOf(items[n], u, isCreate)
    {
      SeenSnoc(items, n, u, isCreate);
    }
    var x := items[n];
    if x.value.UnshieldedUtxo? {
      if x.value.isCreate {
        TotalWith(w.live, x.key.ordinal, x.value.amount);
      } else {
        TotalWithout(w.live, x.key.ordinal);
      }
    }
  }

  lemma BlankBalances(items: seq<Item>, values: map<i64, nat>)
    ensures Balanced(BLANK, items, 0, values)
  {
  }

  lemma {:induction false} ReplayBalances(items: seq<Item>, n: nat, values: map<i64, nat>)
    requires n <= |items| && Sensible(items, values)
    ensures Balanced(ReplayedItems(items, n), items, n, values)
  {
    hide Balanced, SensibleAt, NoteItem;
    if n == 0 {
      BlankBalances(items, values);
    } else {
      ReplayBalances(items, n - 1, values);
      assert SensibleAt(items, n - 1, values);
      NoteBalances(ReplayedItems(items, n - 1), items, n - 1, values);
    }
  }

  // ---- The events of a feed ----

  /** Every stored utxo's transactions are stored, and it is not spent before it is created. */
  ghost predicate SpendsFollow(db: Snapshot) {
    forall u :: u in db.utxos ==>
      && db.utxos[u].createdBy in db.txs
      && (db.utxos[u].spentBy.Some? ==>
            && db.utxos[u].spentBy.value in db.txs
            && (db.utxos[u].spentBy.value == db.utxos[u].createdBy
                || Before(db, db.utxos[u].createdBy, db.utxos[u].spentBy.value)))
  }

  /** The wallet's utxo `u` is created (or spent) in blocks lo to hi - 1. */
  predicate Happens(db: Snapshot, s: Session, u: i64, isCreate: bool, lo: int, hi: int) {
    && u in db.utxos && db.utxos[u].owner in s.addresses
    && (if isCreate then InRange(db, db.utxos[u].createdBy, lo, hi - 1)
        else db.utxos[u].spentBy.Some? && InRange(db, db.utxos[u].spentBy.value, lo, hi - 1))
  }

  /** The wallet's utxo `u`, created below height `hi`, is spent by the transaction that created it. */
  predicate SelfSpent(db: Snapshot, s: Session, u: i64, hi: int) {
    Happens(db, s, u, true, 0, hi) && db.utxos[u].spentBy == Some(db.utxos[u].createdBy)
  }

  ghost predicate NoneSelfSpent(db: Snapshot, s: Session, hi: int) {
    forall u :: !SelfSpent(db, s, u, hi)
  }

  function EventTx(db: Snapshot, u: i64, isCreate: bool): i64
    requires u in db.utxos && (isCreate || db.utxos[u].spentBy.Some?)
  {
    if isCreate then db.utxos[u].createdBy else db.utxos[u].spentBy.value
  }

  function EventItem(db: Snapshot, s: Session, u: i64, isCreate: bool, lo: int, hi: int): Item
    requires Happens(db, s, u, isCreate, lo, hi)
  {
    UtxoItem()(UtxoEventRow(db, EventTx(db, u, isCreate), u, isCreate))
  }

  lemma {:induction false} FeedHolds(db: Snapshot, s: Session, lo: int, hi: int, h: int, x: Item)
    requires lo <= h < hi && x in Items(db, s, h)
    ensures x in FeedOf(db, s, lo, hi)
    decreases hi - h
  {
    hide Items;
    if h >= hi - 1 {
    } else {
      FeedHolds(db, s, lo, hi - 1, h, x);
    }
  }

  lemma ItemsEvents(db: Snapshot, s: Session, h: int, x: Item)
    requires x.value.UnshieldedUtxo?
    ensures x in Items(db, s, h) <==> RowOf(CreateItems(db, s, h), x) || RowOf(SpendItems(db, s, h), x)
  {
    hide Items;
    ItemsAreTheRows(db, s, h, x);
    RowKinds(db, s, h, x);
  }

  lemma RowKinds(db: Snapshot, s: Session, h: int, x: Item)
    ensures RowOf(MetaItems(db, s, h), x) ==> x.value.TransactionMeta?
    ensures RowOf(ShieldedItems(db, h), x) ==> x.value.ShieldedRelevantTx?
    ensures RowOf(ZswapMap(db, s, h, h), x) ==> x.value.ZswapInputRaw?
    ensures RowOf(DustMap(db, s, h, h), x) ==> x.value.DustLedgerEvent?
  {
  }

  /** Every utxo item of a feed is the creation or the spend of one of the wallet's utxos. */
  lemma FeedEvents(db: Snapshot, s: Session, lo: int, hi: int, x: Item)
    requires x in FeedOf(db, s, lo, hi) && x.value.UnshieldedUtxo?
    ensures Happens(db, s, x.key.ordinal, x.value.isCreate, lo, hi)
    ensures x == EventItem(db, s, x.key.ordinal, x.value.isCreate, lo, hi)
  {
    hide Items, FeedOf, CreateItems, SpendItems;
    FeedHeights(db, s, lo, hi, x);
    var h := x.key.blockHeight;
    ItemsEvents(db, s, h, x);
    if RowOf(CreateItems(db, s, h), x) {
      CreateEvents(db, s, h, x);
    } else {
      SpendEvents(db, s, h, x);
    }
  }

  lemma CreateEvents(db: Snapshot, s: Session, h: int, x: Item)
    requires RowOf(CreateItems(db, s, h), x)
    ensures x.value.UnshieldedUtxo? && x.value.isCreate && Happens(db, s, x.key.ordinal, true, h, h + 1)
    ensures x == EventItem(db, s, x.key.ordinal, true, h, h + 1)
  {
    var u :| u in CreateItems(db, s, h) && CreateItems(db, s, h)[u] == x;
    assert x == UtxoItem()(UtxoEventRow(db, db.utxos[u].createdBy, u, true));
  }

  lemma SpendEvents(db: Snapshot, s: Session, h: int, x: Item)
    requires RowOf(SpendItems(db, s, h), x)
    ensures x.value.UnshieldedUtxo? && !x.value.isCreate && Happens(db, s, x.key.ordinal, false, h, h + 1)
    ensures x == EventItem(db, s, x.key.ordinal, false, h, h + 1)
  {
    var u :| u in SpendItems(db, s, h) && SpendItems(db, s, h)[u] == x;
    assert x == UtxoItem()(UtxoEventRow(db, db.utxos[u].spentBy.value, u, false));
  }

  lemma EventsInFeed(db: Snapshot, s: Session, lo: int, hi: int, u: i64, isCreate: bool)
    requires Happens(db, s, u, isCreate, lo, hi)
    ensures EventItem(db, s, u, isCreate, lo, hi) in FeedOf(db, s, lo, hi)
  {
    hide Items, FeedOf;
    var x := EventItem(db, s, u, isCreate, lo, hi);
    var h := x.key.blockHeight;
    if isCreate {
      assert u in CreateItems(db, s, h) && CreateItems(db, s, h)[u] == x;
    } else {
      assert u in SpendItems(db, s, h) && SpendItems(db, s, h)[u] == x;
    }
    ItemsEvents(db, s, h, x);
    FeedHolds(db, s, lo, hi, h, x);
  }

  function Values(db: Snapshot): map<i64, nat> {
    map u | u in db.utxos :: U128Value(db.utxos[u].value)
  }

  lemma FeedIsStrict(db: Snapshot, s: Session, hi: int)
    requires NoneSelfSpent(db, s, hi)
    ensures StrictlySorted(FeedOf(db, s, 0, hi))
  {
    hide FeedOf;
    forall h | 0 <= h < hi
      ensures NoSelfSpend(db, s, h)
    {
      forall u | u in CreateMap(db, s, h, h)
        ensures db.utxos[u].spentBy != Some(db.utxos[u].createdBy)
      {
        assert !SelfSpent(db, s, u, hi);
      }
    }
    FeedStrictIff(db, s, 0, hi);
  }

  lemma EventIndex(items: seq<Item>, x: Item) returns (i: nat)
    requires x in items
    ensures i < |items| && items[i] == x
  {
    i :| 0 <= i < |items| && items[i] == x;
  }

  lemma StrictIndices(items: seq<Item>, i: nat, j: nat)
    requires StrictlySorted(items) && i < |items| && j < |items|
    ensures i < j <==> Less(items[i].key, items[j].key)
  {
    LessTotal(items[i].key, items[j].key);
  }

  lemma CreateComesFirst(db: Snapshot, s: Session, u: i64, hi: int)
    requires WellFormed(db) && SpendsFollow(db) && NoneSelfSpent(db, s, hi) && Happens(db, s, u, false, 0, hi)
    ensures Happens(db, s, u, true, 0, hi)
    ensures Less(EventItem(db, s, u, true, 0, hi).key, EventItem(db, s, u, false, 0, hi).key)
  {
    assert !SelfSpent(db, s, u, hi);
  }

  lemma SeenMeans(db: Snapshot, s: Session, lo: int, hi: int, n: nat, u: i64, isCreate: bool) returns (i: nat)
    requires n <= |FeedOf(db, s, lo, hi)| && Seen(FeedOf(db, s, lo, hi), n, u, isCreate)
    ensures i < n && Happens(db, s, u, isCreate, lo, hi)
    ensures FeedOf(db, s, lo, hi)[i] == EventItem(db, s, u, isCreate, lo, hi)
  {
    hide FeedOf;
    i :| 0 <= i < n && SeenAt(FeedOf(db, s, lo, hi), i, u, isCreate);
    FeedEvents(db, s, lo, hi, FeedOf(db, s, lo, hi)[i]);
  }

  lemma FeedSensibleAt(db: Snapshot, s: Session, hi: int, n: nat)
    requires WellFormed(db) && SpendsFollow(db) && NoneSelfSpent(db, s, hi) && n < |FeedOf(db, s, 0, hi)|
    ensures SensibleAt(FeedOf(db, s, 0, hi), n, Values(db))
  {
    hide FeedOf, EventItem, Happens, SpendsFollow, WellFormed, NoneSelfSpent;
    var items := FeedOf(db, s, 0, hi);
    var x := items[n];
    FeedIsStrict(db, s, hi);
    if x.value.UnshieldedUtxo? {
      var u := x.key.ordinal;
      FeedEvents(db, s, 0, hi, x);
      EventValue(db, s, u, x.value.isCreate, 0, hi);
      if Seen(items, n, u, x.value.isCreate) {
        var i := SeenMeans(db, s, 0, hi, n, u, x.value.isCreate);
        StrictIndices(items, i, n);
        StrictIndices(items, n, i);
      }
      if x.value.isCreate && Seen(items, n, u, false) {
        var i := SeenMeans(db, s, 0, hi, n, u, false);
        CreateComesFirst(db, s, u, hi);
        StrictIndices(items, n, i);
      }
      if !x.value.isCreate {
        CreateComesFirst(db, s, u, hi);
        EventsInFeed(db, s, 0, hi, u, true);
        EventValue(db, s, u, true, 0, hi);
        var i := EventIndex(items, EventItem(db, s, u, true, 0, hi));
        StrictIndices(items, i, n);
        assert SeenAt(items, i, u, true);
      }
    }
  }

  lemma EventValue(db: Snapshot, s: Session, u: i64, isCreate: bool, lo: int, hi: int)
    requires Happens(db, s, u, isCreate, lo, hi)
    ensures EventOf(EventItem(db, s, u, isCreate, lo, hi), u, isCreate)
    ensures u in Values(db) && EventItem(db, s, u, isCreate, lo, hi).value.amount == Values(db)[u]
  {
  }

  lemma SeenIffHappens(db: Snapshot, s: Session, lo: int, hi: int, u: i64, isCreate: bool)
    ensures Seen(FeedOf(db, s, lo, hi), |FeedOf(db, s, lo, hi)|, u, isCreate) <==> Happens(db, s, u, isCreate, lo, hi)
  {
    hide FeedOf, EventItem, Happens, Values;
    var items := FeedOf(db, s, lo, hi);
    if Seen(items, |items|, u, isCreate) {
      var _ := SeenMeans(db, s, lo, hi, |items|, u, isCreate);
    }
    if Happens(db, s, u, isCreate, lo, hi) {
      EventsInFeed(db, s, lo, hi, u, isCreate);
      EventValue(db, s, u, isCreate, lo, hi);
      var i := EventIndex(items, EventItem(db, s, u, isCreate, lo, hi));
      assert SeenAt(items, i, u, isCreate);
    }
  }

  /** The wallet's utxos created below height `hi` and not spent below it, with their values. */
  function LiveUtxos(db: Snapshot, s: Session, hi: int): map<i64, nat> {
    map u | u in db.utxos && Happens(db, s, u, true, 0, hi) && !Happens(db, s, u, false, 0, hi) ::
      U128Value(db.utxos[u].value)
  }

  lemma FeedBalances(db: Snapshot, s: Session, hi: int)
    requires WellFormed(db) && SpendsFollow(db) && NoneSelfSpent(db, s, hi)
    ensures var items := FeedOf(db, s, 0, hi);
            Balanced(ReplayedItems(items, |items|), items, |items|, Values(db))
  {
    hide FeedOf, SpendsFollow, WellFormed, NoneSelfSpent, SensibleAt, Balanced, Values;
    var items := FeedOf(db, s, 0, hi);
    forall n | 0 <= n < |items|
      ensures SensibleAt(items, n, Values(db))
    {
      FeedSensibleAt(db, s, hi, n);
    }
    ReplayBalances(items, |items|, Values(db));
  }

  lemma BalancedIsLive(db: Snapshot, s: Session, hi: int, w: Ledger)
    requires var items := FeedOf(db, s, 0, hi); Balanced(w, items, |items|, Values(db))
    ensures w.live == LiveUtxos(db, s, hi)
  {
    hide FeedOf, Seen;
    var items := FeedOf(db, s, 0, hi);
    forall u
      ensures u in w.live <==> u in LiveUtxos(db, s, hi)
    {
      SeenIffHappens(db, s, 0, hi, u, true);
      SeenIffHappens(db, s, 0, hi, u, false);
    }
  }

  lemma ReplayOfFeed(db: Snapshot, s: Session, hi: int)
    ensures Replayed(Expected(db, s, 0, hi, None)) == ReplayedItems(FeedOf(db, s, 0, hi), |FeedOf(db, s, 0, hi)|)
  {
    hide FeedOf, ReplayedItems, Filter;
    var items := FeedOf(db, s, 0, hi);
    NoCursor(items);
    ReplayRendered(items, |items|);
    assert Map(Render(), items)[..|items|] == Map(Render(), items);
  }

  /**
   * Unless the wallet has a utxo that its creator spends, replaying the feed of blocks 0 to hi - 1 ends with
   * exactly the live utxos, meets no spend of an absent utxo and no second creation, and the values held
   * are what was created less what was spent.
   */
  lemma ReplayGivesTheLiveUtxos(db: Snapshot, s: Session, hi: int)
    requires WellFormed(db) && SpendsFollow(db) && NoneSelfSpent(db, s, hi)
    ensures var w := Replayed(Expected(db, s, 0, hi, None));
            && w.live == LiveUtxos(db, s, hi) && w.faults == 0
            && Total(w.live) + w.spent == w.created
  {
    hide FeedOf, SpendsFollow, WellFormed, NoneSelfSpent, Seen, ReplayedItems, Values, LiveUtxos, Total, Expected;
    var items := FeedOf(db, s, 0, hi);
    ReplayOfFeed(db, s, hi);
    FeedBalances(db, s, hi);
    BalancedIsLive(db, s, hi, ReplayedItems(items, |items|));
  }

  // ---- A utxo spent by its creator ----

  lemma OrderedOne<T>(k: i64, x: Keyed<T>)
    ensures Ordered(map[k := x]) == [x]
  {
    hide Ordered;
    var rows := map[k := x];
    OrderedMembers(rows);
    assert RowOf(rows, Ordered(rows)[0]);
  }

  lemma OrderedSingle<T>(rows: map<i64, Keyed<T>>, p: Keyed<T> -> bool, k: i64)
    requires k in rows && p(rows[k]) && forall j :: j in rows && p(rows[j]) ==> j == k
    ensures Filter(Ordered(rows), p) == [rows[k]]
  {
    hide Ordered, Filter;
    OrderedFilter(rows, p, map[k := rows[k]]);
    OrderedOne(k, rows[k]);
  }

  function ItemKeyIs(k: SequenceKey): Keyed<UtxoEvent> -> bool {
    (row: Keyed<UtxoEvent>) => UtxoItem()(row).key == k
  }

  lemma {:induction false} FilterUtxoItems(rows: seq<Keyed<UtxoEvent>>, k: SequenceKey)
    ensures Filter(Map(UtxoItem(), rows), WithKey(k)) == Map(UtxoItem(), Filter(rows, ItemKeyIs(k)))
  {
    hide UtxoItem;
    if rows == [] {
    } else {
      FilterUtxoItems(rows[1..], k);
      assert Map(UtxoItem(), rows) == [UtxoItem()(rows[0])] + Map(UtxoItem(), rows[1..]);
      FilterCons(UtxoItem()(rows[0]), Map(UtxoItem(), rows[1..]), WithKey(k));
      assert rows == [rows[0]] + rows[1..];
      FilterCons(rows[0], rows[1..], ItemKeyIs(k));
      MapConcat(UtxoItem(), Filter([rows[0]], ItemKeyIs(k)), Filter(rows[1..], ItemKeyIs(k)));
    }
  }

  lemma SortPair<T>(a: Keyed<T>, b: Keyed<T>)
    requires Less(b.key, a.key)
    ensures StableSort([a] + [b]) == [b, a]
  {
    assert ([a] + [b])[1..] == [b] && [b][1..] == [];
    assert StableSort([b]) == [b];
    assert Insert(a, [b]) == [b] + Insert(a, []);
  }

  /** The query's sort puts the spend of a self-spent utxo before its creation. */
  lemma SelfSpendRows(db: Snapshot, s: Session, u: i64, h: int)
    requires u in CreateMap(db, s, h, h) && db.utxos[u].spentBy == Some(db.utxos[u].createdBy)
    ensures var k := UtxoItem()(CreateMap(db, s, h, h)[u]).key;
            && u in SpendMap(db, s, h, h)
            && Filter(UtxoEvents(db, s, h, h), ItemKeyIs(k)) == [SpendMap(db, s, h, h)[u], CreateMap(db, s, h, h)[u]]
  {
    var creates, spends := CreateMap(db, s, h, h), SpendMap(db, s, h, h);
    var p := ItemKeyIs(UtxoItem()(creates[u]).key);
    assert u in spends && p(spends[u]) && Less(spends[u].key, creates[u].key);
    assert forall j :: j in creates && p(creates[j]) ==> j == u;
    assert forall j :: j in spends && p(spends[j]) ==> j == u;
    hide Ordered, CreateMap, SpendMap, StableSort, Filter;
    OrderedSingle(creates, p, u);
    OrderedSingle(spends, p, u);
    SortFilter(Ordered(creates) + Ordered(spends), p);
    FilterConcat(Ordered(creates), Ordered(spends), p);
    SortPair(creates[u], spends[u]);
  }

  lemma OwedWithUtxoKey(db: Snapshot, s: Session, h: int, k: SequenceKey)
    requires k.phase == PHASE_UNSHIELDED
    ensures Filter(Owed(db, s, h), WithKey(k)) == Filter(Map(UtxoItem(), UtxoEvents(db, s, h, h)), WithKey(k))
  {
    hide MetaPart, RelevantRows, ZswapRows, DustRows, UtxoEvents, Filter, Map;
    var metas, shielded := MetaPart(db, s, h), Map(ShieldedItem(), RelevantRows(db, h, h));
    var events, utxos := ZswapRows(db, s, h, h) + DustRows(db, s, h, h), Map(UtxoItem(), UtxoEvents(db, s, h, h));
    MetaKeys(db, s, h);
    RelevantRowsStrict(db, h);
    ShieldedKeys(RelevantRows(db, h, h), h);
    EventKeys(db, s, h);
    FilterNone(metas, WithKey(k));
    FilterNone(shielded, WithKey(k));
    FilterNone(events, WithKey(k));
    FilterConcat(metas, shielded, WithKey(k));
    FilterConcat(metas + shielded, events + utxos, WithKey(k));
    FilterConcat(events, utxos, WithKey(k));
  }

  lemma ItemsWithKey(db: Snapshot, s: Session, h: int, k: SequenceKey)
    ensures Filter(Items(db, s, h), WithKey(k)) == Filter(Owed(db, s, h), WithKey(k))
  {
    hide Owed, Filter;
    SortSorts(Owed(db, s, h));
    StableSortUnique(Owed(db, s, h), Items(db, s, h));
  }

  lemma FeedWithKey(db: Snapshot, s: Session, lo: int, hi: int, k: SequenceKey)
    requires lo <= k.blockHeight < hi
    ensures Filter(FeedOf(db, s, lo, hi), WithKey(k)) == Filter(Items(db, s, k.blockHeight), WithKey(k))
  {
    hide FeedOf, Items, Filter;
    var h: int := k.blockHeight;
    FeedOfOne(db, s, h);
    FeedConcat(db, s, lo, h, hi);
    FeedConcat(db, s, h, h + 1, hi);
    NoKeyOutside(db, s, lo, h, k);
    NoKeyOutside(db, s, h + 1, hi, k);
    FilterMiddle(FeedOf(db, s, lo, h), Items(db, s, h), FeedOf(db, s, h + 1, hi), WithKey(k));
  }

  lemma FeedOfOne(db: Snapshot, s: Session, h: int)
    ensures FeedOf(db, s, h, h + 1) == Items(db, s, h)
  {
    hide Items;
    assert FeedOf(db, s, h, h) == [];
  }

  lemma FilterMiddle(a: seq<Item>, b: seq<Item>, c: seq<Item>, p: Item -> bool)
    requires Filter(a, p) == [] && Filter(c, p) == []
    ensures Filter(a + (b + c), p) == Filter(b, p)
  {
    hide Filter;
    FilterConcat(a, b + c, p);
    FilterConcat(b, c, p);
  }

  lemma NoKeyOutside(db: Snapshot, s: Session, lo: int, hi: int, k: SequenceKey)
    requires !(lo <= k.blockHeight < hi)
    ensures Filter(FeedOf(db, s, lo, hi), WithKey(k)) == []
  {
    hide FeedOf, Items;
    forall x | x in FeedOf(db, s, lo, hi)
      ensures !WithKey(k)(x)
    {
      FeedHeights(db, s, lo, hi, x);
    }
    FilterNone(FeedOf(db, s, lo, hi), WithKey(k));
  }

  lemma SelfSpendItems(db: Snapshot, s: Session, u: i64, hi: int)
    requires SelfSpent(db, s, u, hi)
    ensures Happens(db, s, u, false, 0, hi)
    ensures var create, spend := EventItem(db, s, u, true, 0, hi), EventItem(db, s, u, false, 0, hi);
            var h := create.key.blockHeight;
            && 0 <= h < hi && create.key.phase == PHASE_UNSHIELDED && spend.key == create.key
            && u in CreateMap(db, s, h, h) && create == UtxoItem()(CreateMap(db, s, h, h)[u])
            && u in SpendMap(db, s, h, h) && spend == UtxoItem()(SpendMap(db, s, h, h)[u])
  {
  }

  lemma SelfSpendInBlock(db: Snapshot, s: Session, u: i64, h: int)
    requires u in CreateMap(db, s, h, h) && db.utxos[u].spentBy == Some(db.utxos[u].createdBy)
    ensures var create := UtxoItem()(CreateMap(db, s, h, h)[u]);
            && u in SpendMap(db, s, h, h)
            && Filter(Items(db, s, h), WithKey(create.key)) == [UtxoItem()(SpendMap(db, s, h, h)[u]), create]
  {
    SelfSpendRows(db, s, u, h);
    hide Items, Owed, UtxoEvents, CreateMap, SpendMap, Filter, UtxoItem;
    var k := UtxoItem()(CreateMap(db, s, h, h)[u]).key;
    ItemsWithKey(db, s, h, k);
    UtxoItemPhase(CreateMap(db, s, h, h)[u]);
    OwedWithUtxoKey(db, s, h, k);
    FilterUtxoItems(UtxoEvents(db, s, h, h), k);
    MapPair(SpendMap(db, s, h, h)[u], CreateMap(db, s, h, h)[u]);
  }

  lemma UtxoItemPhase(row: Keyed<UtxoEvent>)
    ensures UtxoItem()(row).key.phase == PHASE_UNSHIELDED
  {
  }

  lemma MapPair(a: Keyed<UtxoEvent>, b: Keyed<UtxoEvent>)
    ensures Map(UtxoItem(), [a, b]) == [UtxoItem()(a), UtxoItem()(b)]
  {
    assert [a, b][1..] == [b];
  }

  /** In the feed, too, a self-spent utxo has one key, and its spend comes first. */
  lemma SelfSpendPair(db: Snapshot, s: Session, u: i64, hi: int)
    requires SelfSpent(db, s, u, hi)
    ensures Happens(db, s, u, false, 0, hi)
    ensures var create, spend := EventItem(db, s, u, true, 0, hi), EventItem(db, s, u, false, 0, hi);
            && spend.key == create.key
            && Filter(FeedOf(db, s, 0, hi), WithKey(create.key)) == [spend, create]
  {
    SelfSpendItems(db, s, u, hi);
    hide FeedOf, Items, UtxoEvents, CreateMap, SpendMap, Filter, Happens, EventItem, UtxoItem;
    var create := EventItem(db, s, u, true, 0, hi);
    SelfSpendInBlock(db, s, u, create.key.blockHeight);
    FeedWithKey(db, s, 0, hi, create.key);
  }

  lemma PairInOrder(items: seq<Item>, p: Item -> bool, a: Item, b: Item, i: nat, j: nat)
    requires Filter(items, p) == [a, b] && i < j < |items| && p(items[i]) && p(items[j])
    ensures items[i] == a && items[j] == b
  {
    var front, back := items[..j], items[j..];
    assert items == front + back;
    FilterConcat(front, back, p);
    assert front[i] == items[i] && back[0] == items[j];
    FilterMember(front, p, items[i]);
    FilterMember(back, p, items[j]);
    assert |Filter(front, p)| + |Filter(back, p)| == 2;
  }

  lemma {:induction false} LiveAfterCreate(items: seq<Item>, n: nat, c: nat, u: i64)
    requires c < n <= |items| && SeenAt(items, c, u, true)
    requires forall j :: c < j < n ==> !SeenAt(items, j, u, false)
    ensures u in ReplayedItems(items, n).live
  {
    if n == c + 1 {
    } else {
      LiveAfterCreate(items, n - 1, c, u);
      assert !SeenAt(items, n - 1, u, false);
    }
  }

  lemma NoSpendAfterCreate(db: Snapshot, s: Session, u: i64, hi: int, c: nat, j: nat)
    requires SelfSpent(db, s, u, hi) && c < j < |FeedOf(db, s, 0, hi)|
    requires FeedOf(db, s, 0, hi)[c] == EventItem(db, s, u, true, 0, hi)
    ensures !SeenAt(FeedOf(db, s, 0, hi), j, u, false)
  {
    hide FeedOf, Filter, Happens;
    var items := FeedOf(db, s, 0, hi);
    if SeenAt(items, j, u, false) {
      SelfSpendPair(db, s, u, hi);
      FeedEvents(db, s, 0, hi, items[j]);
      var create, spend := EventItem(db, s, u, true, 0, hi), EventItem(db, s, u, false, 0, hi);
      PairInOrder(items, WithKey(create.key), spend, create, c, j);
    }
  }

  /** Replay leaves a self-spent utxo live for ever: its spend found nothing to remove. */
  lemma SelfSpentStaysLive(db: Snapshot, s: Session, u: i64, hi: int)
    requires SelfSpent(db, s, u, hi)
    ensures u in Replayed(Expected(db, s, 0, hi, None)).live && u !in LiveUtxos(db, s, hi)
  {
    hide FeedOf, ReplayedItems, Expected, EventItem;
    var items := FeedOf(db, s, 0, hi);
    EventsInFeed(db, s, 0, hi, u, true);
    EventValue(db, s, u, true, 0, hi);
    var c := EventIndex(items, EventItem(db, s, u, true, 0, hi));
    forall j | c < j < |items|
      ensures !SeenAt(items, j, u, false)
    {
      NoSpendAfterCreate(db, s, u, hi, c, j);
    }
    LiveAfterCreate(items, |items|, c, u);
    ReplayOfFeed(db, s, hi);
  }

  /** The spend comes before the creation, and both are sent. */
  lemma SpendThenCreate(db: Snapshot, s: Session, u: i64, hi: int) returns (i: nat, j: nat)
    requires SelfSpent(db, s, u, hi)
    ensures Happens(db, s, u, false, 0, hi) && i < j < |FeedOf(db, s, 0, hi)|
    ensures FeedOf(db, s, 0, hi)[i] == EventItem(db, s, u, false, 0, hi)
    ensures FeedOf(db, s, 0, hi)[j] == EventItem(db, s, u, true, 0, hi)
  {
    hide FeedOf, Filter, Happens, EventItem;
    var items := FeedOf(db, s, 0, hi);
    SelfSpendPair(db, s, u, hi);
    EventsInFeed(db, s, 0, hi, u, true);
    EventsInFeed(db, s, 0, hi, u, false);
    EventValue(db, s, u, true, 0, hi);
    EventValue(db, s, u, false, 0, hi);
    var create, spend := EventItem(db, s, u, true, 0, hi), EventItem(db, s, u, false, 0, hi);
    i := EventIndex(items, spend);
    j := EventIndex(items, create);
    if j < i {
      PairInOrder(items, WithKey(create.key), spend, create, j, i);
    }
  }

  lemma NotAfterItself(items: seq<Item>, x: Item)
    ensures Render()(x) !in Map(Render(), Filter(items, After(Some(x.key))))
  {
    var left := Filter(items, After(Some(x.key)));
    forall i | 0 <= i < |left|
      ensures Map(Render(), left)[i] != Render()(x)
    {
      assert left[i] in left;
      FilterMember(items, After(Some(x.key)), left[i]);
      if ToCursor(left[i].key) == ToCursor(x.key) {
        CursorInjective(left[i].key, x.key);
      }
    }
  }

  /** A cut right after the spend of a self-spent utxo loses its creation. */
  lemma SelfSpendCutLosesCreate(db: Snapshot, s: Session, u: i64, hi: int) returns (i: nat)
    requires SelfSpent(db, s, u, hi)
    ensures var all, create := Expected(db, s, 0, hi, None), Render()(EventItem(db, s, u, true, 0, hi));
            && i < |all| && all[i].item.UnshieldedUtxo? && !all[i].item.isCreate
            && create in all[i + 1..] && create !in Resumed(db, s, all[i].sequence, hi)
  {
    var j;
    i, j := SpendThenCreate(db, s, u, hi);
    SelfSpendPair(db, s, u, hi);
    EventValue(db, s, u, false, 0, hi);
    hide FeedOf, Filter, Happens, EventItem, Resumed, ToCursor;
    var items, all := FeedOf(db, s, 0, hi), Expected(db, s, 0, hi, None);
    var create := EventItem(db, s, u, true, 0, hi);
    NoCursor(items);
    CutItem(db, s, 0, hi, None, i);
    NotAfterItself(items, create);
    assert all[j] == Render()(create) && all[i + 1..][j - i - 1] == all[j];
  }

  /**
   * Replay is exact, without a spend of an absent utxo, if and only if no transaction below `hi` spends
   * one of the wallet's utxos that it creates itself.
   */
  lemma ReplayExactIff(db: Snapshot, s: Session, hi: int)
    requires WellFormed(db) && SpendsFollow(db)
    ensures var w := Replayed(Expected(db, s, 0, hi, None));
            w.live == LiveUtxos(db, s, hi) && w.faults == 0 <==> NoneSelfSpent(db, s, hi)
  {
    hide WellFormed, SpendsFollow, Replayed, Expected, LiveUtxos, SelfSpent;
    if NoneSelfSpent(db, s, hi) {
      ReplayGivesTheLiveUtxos(db, s, hi);
    } else {
      var u :| SelfSpent(db, s, u, hi);
      SelfSpentStaysLive(db, s, u, hi);
    }
  }

  /** The same for everything a stream started at block 0 has sent, at any point of any run. */
  lemma StreamReplay(s: Session, db: Snapshot, steps: seq<Step>)
    requires WellFormed(db) && LegalRun(s, World(db, Start(None, None)), steps)
    requires SpendsFollow(Run(s, World(db, Start(None, None)), steps).db)
    ensures var r := Run(s, World(db, Start(None, None)), steps);
            var w := Replayed(Content(r.stream.sent));
            && (w.live == LiveUtxos(r.db, s, r.stream.height) && w.faults == 0
                <==> NoneSelfSpent(r.db, s, r.stream.height))
            && (NoneSelfSpent(r.db, s, r.stream.height) ==> Total(w.live) + w.spent == w.created)
  {
    hide Run, LegalRun, Content, Expected, Later, WellFormed, SpendsFollow, NoneSelfSpent, Replayed, LiveUtxos, Total;
    var r := Run(s, World(db, Start(None, None)), steps);
    StartKeeps(s, db, None, None);
    RunKeeps(s, World(db, Start(None, None)), steps, 0, None);
    LaterReflexive(r.db);
    DeliveredExactlyOnce(s, db, None, None, steps, r.db);
    ReplayExactIff(r.db, s, r.stream.height);
    if NoneSelfSpent(r.db, s, r.stream.height) {
      ReplayGivesTheLiveUtxos(r.db, s, r.stream.height);
    }
  }
}
