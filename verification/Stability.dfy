/** A block whose transactions are all indexed owes the same items for ever. */
module Stability {
  import opened Prelude
  import opened Tables
  import opened Queries

  ghost predicate Final(d: Snapshot, h: int) {
    h in d.blocks && Settled(d, h)
  }

  lemma FinalStays(d: Snapshot, e: Snapshot, h: int)
    requires Later(d, e) && Final(d, h)
    ensures Final(e, h)
    ensures forall t :: InRange(e, t, h, h) <==> InRange(d, t, h, h)
    ensures forall t :: InRange(d, t, h, h) ==> e.txs[t] == d.txs[t] && (t in e.relevant <==> t in d.relevant)
  {
  }

  lemma ZswapEventsStable(d: Snapshot, e: Snapshot, t: i64)
    requires Later(d, e) && t in d.txs
    ensures ZswapEventsOf(e, t) == ZswapEventsOf(d, t)
  {
    assert ZswapOf(e, {t}) == ZswapOf(d, {t});
  }

  lemma RelevantStable(d: Snapshot, e: Snapshot, h: int)
    requires Later(d, e) && Final(d, h)
    ensures RelevantMap(e, h, h) == RelevantMap(d, h, h)
  {
    hide Ordered, ZswapEventsOf, Settled, LaterChain, LaterEvents, LaterUtxos, LaterWallet;
    FinalStays(d, e, h);
    forall t | t in RelevantMap(d, h, h)
      ensures RelevantRow(e, t) == RelevantRow(d, t)
    {
      ZswapEventsStable(d, e, t);
    }
  }

  /** The events of block `h`, with their transactions, are the same rows. */
  ghost predicate SameEventsAt(d: Snapshot, e: Snapshot, h: int) {
    && (forall k :: k in d.events && InRange(d, d.events[k].txId, h, h) ==>
          k in e.events && e.events[k] == d.events[k] && InRange(e, d.events[k].txId, h, h)
          && e.txs[d.events[k].txId] == d.txs[d.events[k].txId])
    && (forall k :: k in e.events && InRange(e, e.events[k].txId, h, h) ==>
          k in d.events && InRange(d, d.events[k].txId, h, h))
  }

  lemma EventsStable(d: Snapshot, e: Snapshot, h: int)
    requires Later(d, e) && Final(d, h)
    ensures SameEventsAt(d, e, h)
  {
    FinalStays(d, e, h);
  }

  lemma ZswapStable(d: Snapshot, e: Snapshot, s: Session, h: int)
    requires SameEventsAt(d, e, h)
    ensures ZswapMap(e, s, h, h) == ZswapMap(d, s, h, h)
  {
  }

  lemma DustStable(d: Snapshot, e: Snapshot, s: Session, h: int)
    requires SameEventsAt(d, e, h)
    ensures DustMap(e, s, h, h) == DustMap(d, s, h, h)
  {
  }

  lemma CreateStable(d: Snapshot, e: Snapshot, s: Session, h: int, u: i64)
    requires Later(d, e) && Final(d, h)
    ensures u in CreateMap(e, s, h, h) <==> u in CreateMap(d, s, h, h)
    ensures u in CreateMap(d, s, h, h) ==> CreateMap(e, s, h, h)[u] == CreateMap(d, s, h, h)[u]
  {
    FinalStays(d, e, h);
  }

  lemma CreatesStable(d: Snapshot, e: Snapshot, s: Session, h: int)
    requires Later(d, e) && Final(d, h)
    ensures CreateMap(e, s, h, h) == CreateMap(d, s, h, h)
  {
    hide CreateMap, Later, Final;
    forall u
      ensures u in CreateMap(e, s, h, h) <==> u in CreateMap(d, s, h, h)
      ensures u in CreateMap(d, s, h, h) ==> CreateMap(e, s, h, h)[u] == CreateMap(d, s, h, h)[u]
    {
      CreateStable(d, e, s, h, u);
    }
  }

  lemma SpendStable(d: Snapshot, e: Snapshot, s: Session, h: int, u: i64)
    requires Later(d, e) && Final(d, h)
    ensures u in SpendMap(e, s, h, h) <==> u in SpendMap(d, s, h, h)
    ensures u in SpendMap(d, s, h, h) ==> SpendMap(e, s, h, h)[u] == SpendMap(d, s, h, h)[u]
  {
    FinalStays(d, e, h);
  }

  lemma SpendsStable(d: Snapshot, e: Snapshot, s: Session, h: int)
    requires Later(d, e) && Final(d, h)
    ensures SpendMap(e, s, h, h) == SpendMap(d, s, h, h)
  {
    hide SpendMap, Later, Final;
    forall u
      ensures u in SpendMap(e, s, h, h) <==> u in SpendMap(d, s, h, h)
      ensures u in SpendMap(d, s, h, h) ==> SpendMap(e, s, h, h)[u] == SpendMap(d, s, h, h)[u]
    {
      SpendStable(d, e, s, h, u);
    }
  }

  lemma WalletTxStable(d: Snapshot, e: Snapshot, s: Session, t: i64)
    requires Later(d, e) && t in d.txs && t <= LastIndexed(d)
    ensures WalletTx(e, s, t) == WalletTx(d, s, t)
  {
    if k :| k in d.events && d.events[k].txId == t && DustSelected(s, d.events[k]) {
      assert k in e.events && e.events[k] == d.events[k];
    }
    if u :| u in d.utxos && d.utxos[u].owner in s.addresses
            && (d.utxos[u].createdBy == t || d.utxos[u].spentBy == Some(t)) {
      assert u in e.utxos;
    }
    if u :| u in e.utxos && e.utxos[u].owner in s.addresses
            && (e.utxos[u].createdBy == t || e.utxos[u].spentBy == Some(t)) {
      assert u in d.utxos && d.utxos[u].owner in s.addresses;
    }
  }

  lemma MetaStable(d: Snapshot, e: Snapshot, s: Session, h: int)
    requires Later(d, e) && Final(d, h)
    ensures MetaMap(e, s, WalletTxs(e, s, h, h)) == MetaMap(d, s, WalletTxs(d, s, h, h))
  {
    FinalStays(d, e, h);
    hide WalletTx, MetaItem, Later;
    forall t | InRange(d, t, h, h)
      ensures WalletTx(e, s, t) == WalletTx(d, s, t)
    {
      WalletTxStable(d, e, s, t);
    }
    assert WalletTxs(e, s, h, h) == WalletTxs(d, s, h, h);
    assert forall t :: t in WalletTxs(d, s, h, h) ==> MetaItem(e, s, t) == MetaItem(d, s, t);
  }

  /** Appends, spends and further indexing never change what a final block owes. */
  lemma ItemsStable(d: Snapshot, e: Snapshot, s: Session, h: int)
    requires Later(d, e) && Final(d, h)
    ensures Items(e, s, h) == Items(d, s, h)
  {
    RelevantStable(d, e, h);
    EventsStable(d, e, h);
    ZswapStable(d, e, s, h);
    DustStable(d, e, s, h);
    CreatesStable(d, e, s, h);
    SpendsStable(d, e, s, h);
    MetaStable(d, e, s, h);
  }

  lemma {:induction false} FeedStable(d: Snapshot, e: Snapshot, s: Session, lo: int, hi: int)
    requires Later(d, e) && forall h :: lo <= h < hi ==> Final(d, h)
    ensures FeedOf(e, s, lo, hi) == FeedOf(d, s, lo, hi)
    decreases hi - lo
  {
    if lo >= hi {
    } else {
      FeedStable(d, e, s, lo, hi - 1);
      ItemsStable(d, e, s, hi - 1);
    }
  }
}
