/** What a block's items are: which rows they come from, and when their keys are distinct. */
module Contents {
  import opened Prelude
  import opened Seqs
  import opened IntSets
  import opened Sequence
  import opened Sorting
  import opened Tables
  import opened Queries

  // ---- Membership ----

  function ItemMap<A>(f: Keyed<A> -> Item, rows: map<i64, Keyed<A>>): map<i64, Item> {
    map k | k in rows :: f(rows[k])
  }

  lemma MappedMembers<A>(f: Keyed<A> -> Item, rows: map<i64, Keyed<A>>, s: seq<Keyed<A>>, x: Item)
    requires forall y :: y in s <==> RowOf(rows, y)
    ensures x in Map(f, s) <==> RowOf(ItemMap(f, rows), x)
  {
    if x in Map(f, s) {
      var i :| 0 <= i < |s| && Map(f, s)[i] == x;
      assert s[i] in s && f(s[i]) == x;
      var k :| k in rows && rows[k] == s[i];
      assert ItemMap(f, rows)[k] == x;
    }
    if k :| k in rows && f(rows[k]) == x {
      assert RowOf(rows, rows[k]);
      var i :| 0 <= i < |s| && s[i] == rows[k];
      assert Map(f, s)[i] == x;
    }
  }

  /** One item for each selected row of each query. */
  function MetaItems(db: Snapshot, s: Session, h: int): map<i64, Item> {
    if s.txMeta then MetaMap(db, s, WalletTxs(db, s, h, h)) else map[]
  }

  function ShieldedItems(db: Snapshot, h: int): map<i64, Item> {
    ItemMap(ShieldedItem(), RelevantMap(db, h, h))
  }

  function CreateItems(db: Snapshot, s: Session, h: int): map<i64, Item> {
    ItemMap(UtxoItem(), CreateMap(db, s, h, h))
  }

  function SpendItems(db: Snapshot, s: Session, h: int): map<i64, Item> {
    ItemMap(UtxoItem(), SpendMap(db, s, h, h))
  }

  lemma MetaMembers(db: Snapshot, s: Session, h: int, x: Item)
    ensures x in MetaPart(db, s, h) <==> RowOf(MetaItems(db, s, h), x)
  {
    OrderedMembers(MetaMap(db, s, WalletTxs(db, s, h, h)));
  }

  lemma ShieldedMembers(db: Snapshot, h: int, x: Item)
    ensures x in Map(ShieldedItem(), RelevantRows(db, h, h)) <==> RowOf(ShieldedItems(db, h), x)
  {
    OrderedMembers(RelevantMap(db, h, h));
    MappedMembers(ShieldedItem(), RelevantMap(db, h, h), RelevantRows(db, h, h), x);
  }

  lemma SameMembersMapped<A>(f: Keyed<A> -> Item, s: seq<Keyed<A>>, t: seq<Keyed<A>>, x: Item)
    requires forall y :: y in s ==> y in t
    requires x in Map(f, s)
    ensures x in Map(f, t)
  {
    var i :| 0 <= i < |s| && Map(f, s)[i] == x;
    assert s[i] in s;
    var j :| 0 <= j < |t| && t[j] == s[i];
    assert Map(f, t)[j] == x;
  }

  lemma SortedConcatMembers<A>(f: Keyed<A> -> Item, a: seq<Keyed<A>>, b: seq<Keyed<A>>, x: Item)
    ensures x in Map(f, StableSort(a + b)) <==> x in Map(f, a) || x in Map(f, b)
  {
    SortSorts(a + b);
    MapConcat(f, a, b);
    if x in Map(f, StableSort(a + b)) {
      SameMembersMapped(f, StableSort(a + b), a + b, x);
    }
    if x in Map(f, a + b) {
      SameMembersMapped(f, a + b, StableSort(a + b), x);
    }
  }

  lemma UtxoMembers(db: Snapshot, s: Session, h: int, x: Item)
    ensures x in Map(UtxoItem(), UtxoEvents(db, s, h, h))
       <==> RowOf(CreateItems(db, s, h), x) || RowOf(SpendItems(db, s, h), x)
  {
    var creates, spends := CreateMap(db, s, h, h), SpendMap(db, s, h, h);
    OrderedMembers(creates);
    OrderedMembers(spends);
    MappedMembers(UtxoItem(), creates, Ordered(creates), x);
    MappedMembers(UtxoItem(), spends, Ordered(spends), x);
    SortedConcatMembers(UtxoItem(), Ordered(creates), Ordered(spends), x);
  }

  lemma EventMembers(db: Snapshot, s: Session, h: int, x: Item)
    ensures x in ZswapRows(db, s, h, h) <==> RowOf(ZswapMap(db, s, h, h), x)
    ensures x in DustRows(db, s, h, h) <==> RowOf(DustMap(db, s, h, h), x)
  {
    OrderedMembers(ZswapMap(db, s, h, h));
    OrderedMembers(DustMap(db, s, h, h));
  }

  lemma ItemsParts(db: Snapshot, s: Session, h: int, x: Item)
    ensures x in Items(db, s, h) <==>
      || x in MetaPart(db, s, h)
      || x in Map(ShieldedItem(), RelevantRows(db, h, h))
      || x in ZswapRows(db, s, h, h)
      || x in DustRows(db, s, h, h)
      || x in Map(UtxoItem(), UtxoEvents(db, s, h, h))
  {
    SortSorts(Owed(db, s, h));
  }

  /** Nothing is lost and nothing is made up: the items of a block are exactly the items of its rows. */
  lemma ItemsAreTheRows(db: Snapshot, s: Session, h: int, x: Item)
    ensures x in Items(db, s, h) <==>
      || RowOf(MetaItems(db, s, h), x)
      || RowOf(ShieldedItems(db, h), x)
      || RowOf(ZswapMap(db, s, h, h), x)
      || RowOf(DustMap(db, s, h, h), x)
      || RowOf(CreateItems(db, s, h), x)
      || RowOf(SpendItems(db, s, h), x)
  {
    ItemsParts(db, s, h, x);
    MetaMembers(db, s, h, x);
    ShieldedMembers(db, h, x);
    EventMembers(db, s, h, x);
    UtxoMembers(db, s, h, x);
  }

  lemma TxPartsCount(db: Snapshot, s: Session, h: int)
    ensures |MetaPart(db, s, h)| == |MetaItems(db, s, h)|
    ensures |RelevantRows(db, h, h)| == |ShieldedItems(db, h)|
  {
    OrderedMembers(MetaMap(db, s, WalletTxs(db, s, h, h)));
    OrderedMembers(RelevantMap(db, h, h));
    assert ShieldedItems(db, h).Keys == RelevantMap(db, h, h).Keys;
  }

  lemma EventPartCount(db: Snapshot, s: Session, h: int)
    ensures |EventPart(db, s, h)| ==
      |ZswapMap(db, s, h, h)| + |DustMap(db, s, h, h)| + |CreateItems(db, s, h)| + |SpendItems(db, s, h)|
  {
    hide Ordered, StableSort, ZswapMap, DustMap, CreateMap, SpendMap;
    OrderedMembers(ZswapMap(db, s, h, h));
    OrderedMembers(DustMap(db, s, h, h));
    var creates, spends := CreateMap(db, s, h, h), SpendMap(db, s, h, h);
    OrderedMembers(creates);
    OrderedMembers(spends);
    SortSorts(Ordered(creates) + Ordered(spends));
    assert CreateItems(db, s, h).Keys == creates.Keys;
    assert SpendItems(db, s, h).Keys == spends.Keys;
  }

  /** Every selected row appears once: a block has as many items as its queries have rows. */
  lemma ItemsCount(db: Snapshot, s: Session, h: int)
    ensures |Items(db, s, h)| ==
      |MetaItems(db, s, h)| + |ShieldedItems(db, h)| + |ZswapMap(db, s, h, h)|
      + |DustMap(db, s, h, h)| + |CreateItems(db, s, h)| + |SpendItems(db, s, h)|
  {
    SortSorts(Owed(db, s, h));
    TxPartsCount(db, s, h);
    EventPartCount(db, s, h);
  }

  // ---- Each row once ----

  function Is(x: Item): Item -> bool {
    (y: Item) => y == x
  }

  function Yields<A>(f: Keyed<A> -> Item, x: Item): Keyed<A> -> bool {
    (row: Keyed<A>) => f(row) == x
  }

  function KeysOf(rows: map<i64, Item>, x: Item): set<i64> {
    set k | k in rows && rows[k] == x
  }

  /** How many of the rows are the item `x`. */
  function Copies(rows: map<i64, Item>, x: Item): nat {
    |KeysOf(rows, x)|
  }

  lemma {:induction false} CountIsFilter(s: seq<Item>, x: Item)
    ensures multiset(s)[x] == |Filter(s, Is(x))|
  {
    if s == [] {
    } else {
      assert s == [s[0]] + s[1..];
      CountIsFilter(s[1..], x);
    }
  }

  lemma {:induction false} FilterMapped<A>(f: Keyed<A> -> Item, s: seq<Keyed<A>>, x: Item)
    ensures |Filter(Map(f, s), Is(x))| == |Filter(s, Yields(f, x))|
  {
    if s == [] {
    } else {
      assert Map(f, s)[1..] == Map(f, s[1..]);
      FilterMapped(f, s[1..], x);
    }
  }

  lemma OrderedCount<R>(rows: map<i64, Keyed<R>>, p: Keyed<R> -> bool, kept: set<i64>)
    requires forall k :: k in kept <==> k in rows && p(rows[k])
    ensures |Filter(Ordered(rows), p)| == |kept|
  {
    hide StableSort, Filter, Pick, SortedIds;
    var picked := Pick(SortedIds(rows.Keys), rows);
    SortFilter(picked, p);
    PickFilter(rows.Keys, rows, p, kept);
    SortSorts(Filter(picked, p));
  }

  lemma OrderedCopies(rows: map<i64, Item>, x: Item)
    ensures |Filter(Ordered(rows), Is(x))| == Copies(rows, x)
  {
    hide Ordered, Filter;
    OrderedCount(rows, Is(x), KeysOf(rows, x));
  }

  lemma MappedCopies<A>(f: Keyed<A> -> Item, rows: map<i64, Keyed<A>>, x: Item)
    ensures |Filter(Ordered(rows), Yields(f, x))| == Copies(ItemMap(f, rows), x)
  {
    hide Ordered, Filter;
    OrderedCount(rows, Yields(f, x), KeysOf(ItemMap(f, rows), x));
  }

  lemma MetaCopies(db: Snapshot, s: Session, h: int, x: Item)
    ensures |Filter(MetaPart(db, s, h), Is(x))| == Copies(MetaItems(db, s, h), x)
  {
    hide Ordered, MetaMap;
    if s.txMeta {
      OrderedCopies(MetaMap(db, s, WalletTxs(db, s, h, h)), x);
    }
  }

  lemma ShieldedCopies(db: Snapshot, h: int, x: Item)
    ensures |Filter(Map(ShieldedItem(), RelevantRows(db, h, h)), Is(x))| == Copies(ShieldedItems(db, h), x)
  {
    hide Ordered, RelevantMap, Copies, ItemMap, Filter, Map;
    FilterMapped(ShieldedItem(), RelevantRows(db, h, h), x);
    MappedCopies(ShieldedItem(), RelevantMap(db, h, h), x);
  }

  lemma UtxoCopies(db: Snapshot, s: Session, h: int, x: Item)
    ensures |Filter(Map(UtxoItem(), UtxoEvents(db, s, h, h)), Is(x))|
         == Copies(CreateItems(db, s, h), x) + Copies(SpendItems(db, s, h), x)
  {
    hide Ordered, CreateMap, SpendMap, Copies, ItemMap, Filter, Map, StableSort;
    var creates, spends := Ordered(CreateMap(db, s, h, h)), Ordered(SpendMap(db, s, h, h));
    var p := Yields(UtxoItem(), x);
    FilterMapped(UtxoItem(), StableSort(creates + spends), x);
    SortFilter(creates + spends, p);
    SortSorts(Filter(creates + spends, p));
    FilterConcat(creates, spends, p);
    MappedCopies(UtxoItem(), CreateMap(db, s, h, h), x);
    MappedCopies(UtxoItem(), SpendMap(db, s, h, h), x);
  }

  lemma EventCopies(db: Snapshot, s: Session, h: int, x: Item)
    ensures |Filter(EventPart(db, s, h), Is(x))|
         == Copies(ZswapMap(db, s, h, h), x) + Copies(DustMap(db, s, h, h), x)
            + Copies(CreateItems(db, s, h), x) + Copies(SpendItems(db, s, h), x)
  {
    hide Ordered, ZswapMap, DustMap, UtxoEvents, CreateItems, SpendItems, Copies, Filter, Map;
    var zswap, dust := ZswapRows(db, s, h, h), DustRows(db, s, h, h);
    var utxos := Map(UtxoItem(), UtxoEvents(db, s, h, h));
    OrderedCopies(ZswapMap(db, s, h, h), x);
    OrderedCopies(DustMap(db, s, h, h), x);
    UtxoCopies(db, s, h, x);
    FilterConcat(zswap, dust, Is(x));
    FilterConcat(zswap + dust, utxos, Is(x));
  }

  /**
   * Every selected row appears exactly once: an item occurs in a block as often as there are rows, over
   * all its queries, whose item it is.
   */
  lemma EachRowOnce(db: Snapshot, s: Session, h: int, x: Item)
    ensures multiset(Items(db, s, h))[x] ==
      Copies(MetaItems(db, s, h), x) + Copies(ShieldedItems(db, h), x)
      + Copies(ZswapMap(db, s, h, h), x) + Copies(DustMap(db, s, h, h), x)
      + Copies(CreateItems(db, s, h), x) + Copies(SpendItems(db, s, h), x)
  {
    hide MetaPart, RelevantRows, EventPart, MetaItems, ShieldedItems, ZswapMap, DustMap, CreateItems, SpendItems,
         Copies, Filter, Map, StableSort;
    var metas, shielded := MetaPart(db, s, h), Map(ShieldedItem(), RelevantRows(db, h, h));
    SortSorts(Owed(db, s, h));
    CountIsFilter(Owed(db, s, h), x);
    FilterConcat(metas, shielded, Is(x));
    FilterConcat(metas + shielded, EventPart(db, s, h), Is(x));
    MetaCopies(db, s, h, x);
    ShieldedCopies(db, h, x);
    EventCopies(db, s, h, x);
  }

  // ---- Where the items lie ----

  ghost predicate PlainAt(h: int, x: Item) {
    x.key.blockHeight == h && !x.value.MerkleCollapsedUpdate?
  }

  lemma RowsPlain(db: Snapshot, s: Session, h: int)
    ensures forall k :: k in MetaItems(db, s, h) ==> PlainAt(h, MetaItems(db, s, h)[k])
    ensures forall k :: k in ShieldedItems(db, h) ==> PlainAt(h, ShieldedItems(db, h)[k])
    ensures forall k :: k in ZswapMap(db, s, h, h) ==> PlainAt(h, ZswapMap(db, s, h, h)[k])
    ensures forall k :: k in DustMap(db, s, h, h) ==> PlainAt(h, DustMap(db, s, h, h)[k])
  {
  }

  lemma UtxoRowsPlain(db: Snapshot, s: Session, h: int)
    ensures forall k :: k in CreateItems(db, s, h) ==> PlainAt(h, CreateItems(db, s, h)[k])
    ensures forall k :: k in SpendItems(db, s, h) ==> PlainAt(h, SpendItems(db, s, h)[k])
  {
  }

  lemma ItemsHeight(db: Snapshot, s: Session, h: int, x: Item)
    requires x in Items(db, s, h)
    ensures PlainAt(h, x)
  {
    ItemsAreTheRows(db, s, h, x);
    RowsPlain(db, s, h);
    UtxoRowsPlain(db, s, h);
  }

  // ---- Distinct keys ----

  function Having<T>(f: Keyed<T> -> SequenceKey, k: SequenceKey): Keyed<T> -> bool {
    (x: Keyed<T>) => f(x) == k
  }

  /** No two positions agree on `f`. */
  ghost predicate DistinctBy<T(!new)>(s: seq<Keyed<T>>, f: Keyed<T> -> SequenceKey) {
    forall k :: |Filter(s, Having(f, k))| <= 1
  }

  function KeyOf<T>(): Keyed<T> -> SequenceKey {
    (x: Keyed<T>) => x.key
  }

  /** Sorting neither makes nor hides a shared key. */
  lemma SortDistinct<T(!new)>(s: seq<Keyed<T>>, f: Keyed<T> -> SequenceKey)
    ensures DistinctBy(StableSort(s), f) <==> DistinctBy(s, f)
  {
    forall k
      ensures |Filter(StableSort(s), Having(f, k))| == |Filter(s, Having(f, k))|
    {
      SortFilter(s, Having(f, k));
      SortSorts(Filter(s, Having(f, k)));
    }
  }

  lemma FilterPair<A>(s: seq<A>, i: nat, j: nat, p: A -> bool)
    requires i < j < |s| && p(s[i]) && p(s[j])
    ensures |Filter(s, p)| >= 2
  {
    assert s == s[..j] + s[j..];
    FilterConcat(s[..j], s[j..], p);
    assert s[..j][i] == s[i] && s[j..][0] == s[j];
    FilterMember(s[..j], p, s[i]);
    FilterMember(s[j..], p, s[j]);
  }

  lemma {:induction false} FilterAtMostOne<T>(s: seq<Keyed<T>>, f: Keyed<T> -> SequenceKey, k: SequenceKey)
    requires forall i, j :: 0 <= i < j < |s| ==> f(s[i]) != f(s[j])
    ensures |Filter(s, Having(f, k))| <= 1
  {
    if s == [] {
    } else {
      var rest := s[1..];
      assert forall i :: 0 <= i < |rest| ==> rest[i] == s[i + 1];
      FilterAtMostOne(rest, f, k);
      if f(s[0]) == k {
        FilterNone(rest, Having(f, k));
      }
    }
  }

  lemma DistinctIndexed<T(!new)>(s: seq<Keyed<T>>, f: Keyed<T> -> SequenceKey)
    ensures DistinctBy(s, f) <==> forall i, j :: 0 <= i < j < |s| ==> f(s[i]) != f(s[j])
  {
    if DistinctBy(s, f) {
      forall i, j | 0 <= i < j < |s|
        ensures f(s[i]) != f(s[j])
      {
        if f(s[i]) == f(s[j]) {
          FilterPair(s, i, j, Having(f, f(s[i])));
        }
      }
    }
    if forall i, j :: 0 <= i < j < |s| ==> f(s[i]) != f(s[j]) {
      forall k
        ensures |Filter(s, Having(f, k))| <= 1
      {
        FilterAtMostOne(s, f, k);
      }
    }
  }

  lemma DistinctConcat<T(!new)>(a: seq<Keyed<T>>, b: seq<Keyed<T>>, f: Keyed<T> -> SequenceKey)
    ensures DistinctBy(a + b, f) <==>
      DistinctBy(a, f) && DistinctBy(b, f) && forall x, y :: x in a && y in b ==> f(x) != f(y)
  {
    forall k
      ensures |Filter(a + b, Having(f, k))| == |Filter(a, Having(f, k))| + |Filter(b, Having(f, k))|
    {
      FilterConcat(a, b, Having(f, k));
    }
    if DistinctBy(a + b, f) {
      forall k
        ensures |Filter(a, Having(f, k))| <= 1 && |Filter(b, Having(f, k))| <= 1
      {
        assert |Filter(a + b, Having(f, k))| <= 1;
      }
      forall x, y | x in a && y in b
        ensures f(x) != f(y)
      {
        FilterMember(a, Having(f, f(x)), x);
        FilterMember(b, Having(f, f(x)), y);
        assert |Filter(a + b, Having(f, f(x)))| <= 1;
      }
    }
    if DistinctBy(a, f) && DistinctBy(b, f) && forall x, y :: x in a && y in b ==> f(x) != f(y) {
      forall k
        ensures |Filter(a + b, Having(f, k))| <= 1
      {
        assert |Filter(a, Having(f, k))| <= 1 && |Filter(b, Having(f, k))| <= 1;
        if Filter(a, Having(f, k)) != [] && Filter(b, Having(f, k)) != [] {
          FilterMember(a, Having(f, k), Filter(a, Having(f, k))[0]);
          FilterMember(b, Having(f, k), Filter(b, Having(f, k))[0]);
        }
      }
    }
  }

  lemma OrderedDistinct<T(!new)>(rows: map<i64, Keyed<T>>, f: Keyed<T> -> SequenceKey)
    requires forall k, l :: k in rows && l in rows && k != l ==> f(rows[k]) != f(rows[l])
    ensures DistinctBy(Ordered(rows), f)
  {
    var ids := SortedIds(rows.Keys);
    SortDistinct(Pick(ids, rows), f);
    forall i, j | 0 <= i < j < |ids|
      ensures f(Pick(ids, rows)[i]) != f(Pick(ids, rows)[j])
    {
      assert ids[i] in ids && ids[j] in ids && ids[i] < ids[j];
    }
    DistinctIndexed(Pick(ids, rows), f);
  }

  /** Rows whose keys hold their primary key are strictly ordered. */
  lemma OrderedStrict<T(!new)>(rows: map<i64, Keyed<T>>)
    requires (forall k :: k in rows ==> rows[k].key.txId == k) || (forall k :: k in rows ==> rows[k].key.ordinal == k)
    ensures StrictlySorted(Ordered(rows)) && DistinctBy(Ordered(rows), KeyOf())
  {
    OrderedMembers(rows);
    OrderedDistinct(rows, KeyOf());
    StrictIsSortedDistinct(Ordered(rows));
  }

  lemma OrderedRow<T>(rows: map<i64, Keyed<T>>, x: Keyed<T>) returns (k: i64)
    requires x in Ordered(rows)
    ensures k in rows && rows[k] == x
  {
    hide Ordered;
    OrderedMembers(rows);
    assert RowOf(rows, x);
    k :| k in rows && rows[k] == x;
  }

  lemma RowOrdered<T>(rows: map<i64, Keyed<T>>, k: i64)
    requires k in rows
    ensures rows[k] in Ordered(rows)
  {
    hide Ordered;
    OrderedMembers(rows);
    assert RowOf(rows, rows[k]);
  }

  lemma OrderedAll<T>(rows: map<i64, Keyed<T>>, p: Keyed<T> -> bool)
    requires forall k :: k in rows ==> p(rows[k])
    ensures forall x :: x in Ordered(rows) ==> p(x)
  {
    hide Ordered;
    OrderedMembers(rows);
    forall x | x in Ordered(rows)
      ensures p(x)
    {
      assert RowOf(rows, x);
    }
  }

  lemma StrictIsSortedDistinct<T(!new)>(s: seq<Keyed<T>>)
    ensures StrictlySorted(s) <==> Sorted(s) && DistinctBy(s, KeyOf())
  {
    DistinctIndexed(s, KeyOf<T>());
    if Sorted(s) && DistinctBy(s, KeyOf()) {
      forall i, j | 0 <= i < j < |s|
        ensures Less(s[i].key, s[j].key)
      {
        assert KeyOf<T>()(s[i]) != KeyOf<T>()(s[j]);
        LessTotal(s[i].key, s[j].key);
      }
    }
    if StrictlySorted(s) {
      forall i, j | 0 <= i < j < |s|
        ensures !Less(s[j].key, s[i].key) && s[i].key != s[j].key
      {
        LessTotal(s[i].key, s[j].key);
      }
    }
  }
}
