/** The event check on real bundles: their ledger event ids are always distinct. */
module BundleEvents {
  import opened Prelude
  import opened Seqs
  import opened Totals
  import opened Sorting
  import opened Tables
  import opened Queries
  import opened Contents
  import opened Assembly
  import opened FeedOrder
  import opened MerkleTiling
  import EventGaps

  function IsEvent(): Item -> bool {
    (x: Item) => EventGaps.EventOf(x).Some?
  }

  /** An event item of block `h`, keyed by its transaction and event ids. */
  ghost predicate IsEventRow(h: int, x: Item) {
    && EventGaps.EventOf(x) == Some((x.key.txId, x.key.ordinal))
    && x.key.blockHeight == h && x.key.phase == PHASE_LEDGER_EVENT
  }

  lemma EventRows(db: Snapshot, s: Session, h: int, x: Item)
    requires x in ZswapRows(db, s, h, h) + DustRows(db, s, h, h)
    ensures IsEventRow(h, x)
  {
    hide Ordered;
    OrderedMembers(ZswapMap(db, s, h, h));
    OrderedMembers(DustMap(db, s, h, h));
    assert RowOf(ZswapMap(db, s, h, h), x) || RowOf(DustMap(db, s, h, h), x);
  }

  lemma EventPartEvents(db: Snapshot, s: Session, h: int)
    ensures Filter(EventPart(db, s, h), IsEvent()) == ZswapRows(db, s, h, h) + DustRows(db, s, h, h)
  {
    hide ZswapRows, DustRows, UtxoEvents, IsEventRow;
    var events, utxos := ZswapRows(db, s, h, h) + DustRows(db, s, h, h), Map(UtxoItem(), UtxoEvents(db, s, h, h));
    forall x | x in events
      ensures IsEvent()(x)
    {
      EventRows(db, s, h, x);
      KeyedIsEvent(h, x);
    }
    FilterAll(events, IsEvent());
    FilterNone(utxos, IsEvent());
    FilterConcat(events, utxos, IsEvent());
  }

  lemma KeyedIsEvent(h: int, x: Item)
    requires IsEventRow(h, x)
    ensures IsEvent()(x)
  {
  }

  lemma BundleEventItems(db: Snapshot, s: Session, h: int, answers: seq<Updates>)
    ensures Filter(BundleItems(db, s, h, answers), IsEvent())
         == StableSort(ZswapRows(db, s, h, h) + DustRows(db, s, h, h))
  {
    hide MetaPart, EventPart, RelevantRows, Inject, ZswapRows, DustRows;
    var rows := RelevantRows(db, h, h);
    var middle := Inject(rows, Fit(answers, |rows|));
    forall x | x in MetaPart(db, s, h)
      ensures !IsEvent()(x)
    {
      MetaPartKind(db, s, h, x);
    }
    forall x | x in middle
      ensures !IsEvent()(x)
    {
      InjectInTree(rows, Fit(answers, |rows|), x);
    }
    FilterNone(MetaPart(db, s, h), IsEvent());
    FilterNone(middle, IsEvent());
    EventPartEvents(db, s, h);
    FilterSorted(MetaPart(db, s, h), middle, EventPart(db, s, h), IsEvent(),
                 ZswapRows(db, s, h, h) + DustRows(db, s, h, h));
  }

  lemma {:induction false} IdsOfEvents(items: seq<Item>, n: nat, t: i64)
    requires n <= |items|
    ensures EventGaps.IdsFor(items[..n], t) == EventGaps.IdsFor(Filter(items[..n], IsEvent()), t)
  {
    if n == 0 {
    } else {
      IdsOfEvents(items, n - 1, t);
      FilterSnoc(items, n - 1, IsEvent());
      assert items[..n][..n - 1] == items[..n - 1];
      var before := Filter(items[..n - 1], IsEvent());
      assert (before + [items[n - 1]])[..|before|] == before;
    }
  }

  lemma {:induction false} NoSuchId(events: seq<Item>, t: i64, k: i64)
    requires forall i :: 0 <= i < |events| ==> EventGaps.EventOf(events[i]) != Some((t, k))
    ensures k !in EventGaps.IdsFor(events, t)
  {
    if events == [] {
    } else {
      NoSuchId(events[..|events| - 1], t, k);
    }
  }

  lemma {:induction false} KeyedIdsDistinct(events: seq<Item>, h: int, t: i64)
    requires forall x :: x in events ==> IsEventRow(h, x)
    requires forall i, j :: 0 <= i < j < |events| ==> events[i].key != events[j].key
    ensures EventGaps.Distinct(EventGaps.IdsFor(events, t))
  {
    if events == [] {
    } else {
      var n := |events| - 1;
      KeyedIdsDistinct(events[..n], h, t);
      assert events[n] in events;
      if events[n].key.txId == t {
        forall i | 0 <= i < n
          ensures EventGaps.EventOf(events[..n][i]) != Some((t, events[n].key.ordinal))
        {
          assert events[i] in events && events[i].key != events[n].key;
        }
        NoSuchId(events[..n], t, events[n].key.ordinal);
      }
    }
  }

  /** No bundle names a ledger event twice. */
  lemma BundleIdsDistinct(db: Snapshot, s: Session, h: int, answers: seq<Updates>)
    ensures EventGaps.DistinctIds(BundleItems(db, s, h, answers))
  {
    hide BundleItems, ZswapRows, DustRows, IsEventRow, EventGaps.IdsFor, StableSort;
    var items := BundleItems(db, s, h, answers);
    var rows := ZswapRows(db, s, h, h) + DustRows(db, s, h, h);
    var events := StableSort(rows);
    BundleEventItems(db, s, h, answers);
    EventKeys(db, s, h);
    SortDistinct(rows, KeyOf());
    DistinctIndexed(events, KeyOf());
    SortSorts(rows);
    forall x | x in events
      ensures IsEventRow(h, x)
    {
      EventRows(db, s, h, x);
    }
    assert forall i :: 0 <= i < |events| ==> KeyOf<FeedItem>()(events[i]) == events[i].key;
    forall t
      ensures EventGaps.Distinct(EventGaps.IdsFor(items, t))
    {
      assert items[..|items|] == items;
      IdsOfEvents(items, |items|, t);
      KeyedIdsDistinct(events, h, t);
    }
  }

  /**
   * On a bundle the check counts the maximal runs of each transaction's event ids beyond the first, so it
   * stays silent exactly when every transaction's ids form one interval.
   */
  lemma BundleAnomalies(db: Snapshot, s: Session, h: int, answers: seq<Updates>)
    ensures var items := BundleItems(db, s, h, answers);
            && Total(EventGaps.BreaksByTx(items)) == Total(EventGaps.RunsByTx(items)) - |EventGaps.EventTxs(items)|
            && (Total(EventGaps.BreaksByTx(items)) == 0
                <==> forall t :: t in EventGaps.EventTxs(items) ==>
                       EventGaps.OneInterval(EventGaps.IdsFor(items, t)))
  {
    hide BundleItems;
    BundleIdsDistinct(db, s, h, answers);
    EventGaps.AnomaliesAreExtraRuns(BundleItems(db, s, h, answers));
    EventGaps.NoAnomalyIff(BundleItems(db, s, h, answers));
  }
}
