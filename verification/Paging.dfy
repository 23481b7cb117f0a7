/** Following the polling feed page by page. */
module Paging {
  import opened Prelude
  import opened Seqs
  import opened Sequence
  import opened Sorting
  import opened Tables
  import opened Queries
  import opened Stability
  import opened Assembly
  import opened Scan
  import opened ExactlyOnce
  import opened StreamProgress
  import opened FeedSpec

  // ---- One page ----

  lemma PageItemsAre(db: Snapshot, s: Session, meta: BlockMeta, c: Option<SequenceKey>)
    requires c.Some? ==> c.value.blockHeight <= meta.height
    ensures PageItems(db, s, meta, c) == Map(Render(), Filter(Items(db, s, meta.height), After(c)))
  {
    hide Items;
    var items := Items(db, s, meta.height);
    if c.None? {
      NoCursor(items);
    } else if c.value.blockHeight == meta.height {
      RetainIsKeyFilter(items, c.value);
    } else {
      PassesCursor(db, s, meta.height, c.value);
    }
  }

  lemma ItemsOfSnoc(blocks: seq<BlockBundle>, b: BlockBundle)
    ensures ItemsOf(blocks + [b]) == ItemsOf(blocks) + b.items
  {
    assert (blocks + [b])[..|blocks|] == blocks;
  }

  /** The bundles of a run of blocks hold what those heights owe after the cursor. */
  lemma {:induction false} PageBundlesHold(db: Snapshot, s: Session, blocks: seq<BlockMeta>, from: int,
                                           c: Option<SequenceKey>)
    requires HeightRun(blocks, from) && (c.Some? ==> c.value.blockHeight <= from)
    ensures ItemsOf(PageBundles(db, s, blocks, c)) == Expected(db, s, from, from + |blocks|, c)
  {
    hide Items, PageItems, Expected, Map, Filter, HeightRun;
    if blocks == [] {
      NothingExpected(db, s, from, c);
    } else {
      var n := |blocks| - 1;
      LastHeightOf(blocks, from);
      HeightRunPrefix(blocks, from, n);
      PageBundlesHold(db, s, blocks[..n], from, c);
      PageItemsAre(db, s, blocks[n], c);
      ExpectedSnoc(db, s, from, from + n, c);
      var items := PageItems(db, s, blocks[n], c);
      var before := PageBundles(db, s, blocks[..n], c);
      if items == [] {
        assert PageBundles(db, s, blocks, c) == before;
      } else {
        ItemsOfSnoc(before, BlockBundle(blocks[n], items));
        assert PageBundles(db, s, blocks, c) == before + [BlockBundle(blocks[n], items)];
      }
    }
  }

  lemma NothingExpected(db: Snapshot, s: Session, h: int, c: Option<SequenceKey>)
    ensures Expected(db, s, h, h, c) == []
  {
  }

  lemma LastHeightOf(blocks: seq<BlockMeta>, from: int)
    requires HeightRun(blocks, from) && blocks != []
    ensures blocks[|blocks| - 1].height == from + |blocks| - 1
  {
    assert HeightOk(blocks, from, |blocks| - 1);
  }

  lemma HeightRunPrefix(blocks: seq<BlockMeta>, from: int, n: nat)
    requires HeightRun(blocks, from) && n <= |blocks|
    ensures HeightRun(blocks[..n], from)
  {
    forall i | 0 <= i < n
      ensures HeightOk(blocks[..n], from, i)
    {
      assert HeightOk(blocks, from, i);
    }
  }

  /** The page reads at least one block and the scan accepts what it read. */
  ghost predicate Accepts(db: Snapshot, from: int, limit: int) {
    && ReadyHeight(db).Some? && from <= ReadyHeight(db).value && Fetched(db, from, limit) != []
    && FirstReset(Fetched(db, from, limit), from, PageBoundary(db, from)).None?
  }

  /** An accepted page carries exactly the feed of the blocks it read. */
  lemma PageCarries(db: Snapshot, s: Session, from: int, limit: int, c: Option<SequenceKey>)
    requires Accepts(db, from, limit) && (c.Some? ==> c.value.blockHeight <= from)
    ensures ItemsOf(FeedPage(db, s, from, limit, c).blocks)
         == Expected(db, s, from, from + |Fetched(db, from, limit)|, c)
  {
    hide ReadyHeight, BlocksInRange, FirstReset, PageBundles, Expected;
    var blocks := Fetched(db, from, limit);
    AcceptedHeights(blocks, from, PageBoundary(db, from));
    PageBundlesHold(db, s, blocks, from, c);
  }

  lemma {:induction false} PageMetas(db: Snapshot, s: Session, blocks: seq<BlockMeta>, c: Option<SequenceKey>,
                                     b: BlockBundle)
    requires b in PageBundles(db, s, blocks, c)
    ensures b.meta in blocks && b.items != []
  {
    hide PageItems;
    var n := |blocks| - 1;
    if b in PageBundles(db, s, blocks[..n], c) {
      PageMetas(db, s, blocks[..n], c, b);
    }
  }

  /** No page holds a block above the ready height, whatever was asked for and whatever is stored. */
  lemma NoPageAboveReady(db: Snapshot, s: Session, from: int, limit: int, c: Option<SequenceKey>, b: BlockBundle)
    requires b in FeedPage(db, s, from, limit, c).blocks
    ensures from <= b.meta.height && UpTo(db, b.meta.height) && b.items != []
  {
    hide ReadyHeight, BlocksInRange, FirstReset, PageBundles;
    var blocks, last := Fetched(db, from, limit), LastHeight(from, limit, ReadyHeight(db).value);
    BlocksAscend(db, from, last);
    if FirstReset(blocks, from, PageBoundary(db, from)).None? {
      PageMetas(db, s, blocks, c, b);
    }
  }

  /**
   * `next_height` skips a gap at the end of a page: an accepted page has read every height up to its
   * last exactly when the last height is stored, yet paging goes on above that height either way.
   */
  lemma TailGapIff(db: Snapshot, s: Session, from: int, limit: int, c: Option<SequenceKey>)
    requires Accepts(db, from, limit) && limit >= 1
    ensures var last := LastHeight(from, limit, ReadyHeight(db).value);
            && (from + |Fetched(db, from, limit)| == last + 1 <==> last in db.blocks)
            && (last < ReadyHeight(db).value <==> FeedPage(db, s, from, limit, c).nextHeight == Some(last + 1))
  {
    hide ReadyHeight, BlocksInRange, FirstReset, PageBundles;
    var blocks, last := Fetched(db, from, limit), LastHeight(from, limit, ReadyHeight(db).value);
    AcceptedHeights(blocks, from, PageBoundary(db, from));
    BlocksAscend(db, from, last);
    assert HeightOk(blocks, from, |blocks| - 1);
    if last in db.blocks {
      var i :| 0 <= i < |blocks| && blocks[i].height == last;
      assert HeightOk(blocks, from, i);
    }
  }

  lemma LastCursorIs(blocks: seq<BlockBundle>)
    requires forall b :: b in blocks ==> b.items != []
    ensures var items := ItemsOf(blocks);
            LastCursor(blocks) == if items == [] then None else Some(items[|items| - 1].sequence)
  {
    if blocks != [] {
      assert blocks[|blocks| - 1] in blocks;
    }
  }

  /**
   * `next_cursor` is the cursor of the page's last item; it is missing exactly when the blocks read owe
   * nothing after the cursor, even with more pages to come, so it cannot drive paging by itself.
   */
  lemma NextCursorIsTheLast(db: Snapshot, s: Session, from: int, limit: int, c: Option<SequenceKey>)
    requires Accepts(db, from, limit) && (c.Some? ==> c.value.blockHeight <= from)
    ensures var owed := Expected(db, s, from, from + |Fetched(db, from, limit)|, c);
            FeedPage(db, s, from, limit, c).nextCursor
            == if owed == [] then None else Some(owed[|owed| - 1].sequence)
  {
    hide ReadyHeight, BlocksInRange, FirstReset, PageBundles, Expected, ItemsOf, LastCursor;
    PageCarries(db, s, from, limit, c);
    var bundles := PageBundles(db, s, Fetched(db, from, limit), c);
    forall b | b in bundles
      ensures b.items != []
    {
      PageMetas(db, s, Fetched(db, from, limit), c, b);
    }
    LastCursorIs(bundles);
  }

  // ---- All pages ----

  lemma LinkedPage(db: Snapshot, s: Session, from: int, limit: int, c: Option<SequenceKey>)
    requires Linked(db) && WellFormed(db) && UpTo(db, from) && from >= 0 && limit >= 1
    ensures Accepts(db, from, limit)
    ensures from + |Fetched(db, from, limit)| == LastHeight(from, limit, ReadyHeight(db).value) + 1
  {
    hide ReadyHeight, BlocksInRange, FirstReset, WellFormed;
    ReadyHeightIsGreatest(db);
    var last := LastHeight(from, limit, ReadyHeight(db).value);
    LinkedBatch(db, from, last);
    LinkedAccepted(db, from, last, PageBoundary(db, from));
  }

  lemma {:induction false} ExpectedSplit(db: Snapshot, s: Session, lo: int, mid: int, hi: int, c: Option<SequenceKey>)
    requires lo <= mid <= hi && (c.Some? ==> c.value.blockHeight < mid)
    ensures Expected(db, s, lo, hi, c) == Expected(db, s, lo, mid, c) + Expected(db, s, mid, hi, None)
    decreases hi - mid
  {
    hide Items, Expected, Map, Filter;
    if mid == hi {
      NothingExpected(db, s, mid, None);
    } else {
      ExpectedSplit(db, s, lo, mid, hi - 1, c);
      ExpectedSnoc(db, s, lo, hi - 1, c);
      ExpectedSnoc(db, s, mid, hi - 1, None);
      NoCursor(Items(db, s, hi - 1));
      if c.Some? {
        PassesCursor(db, s, hi - 1, c.value);
      }
    }
  }

  /** `pages` is blocks / limit, rounded up. */
  ghost predicate RoundedUp(pages: int, blocks: int, limit: int) {
    (pages - 1) * limit < blocks <= pages * limit
  }

  lemma OneMorePage(pages: int, blocks: int, limit: int)
    requires RoundedUp(pages, blocks - limit, limit)
    ensures RoundedUp(1 + pages, blocks, limit)
  {
    assert (pages - 1) * limit + limit == pages * limit;
    assert pages * limit + limit == (pages + 1) * limit;
  }

  lemma OnePage(blocks: int, limit: int)
    requires 1 <= blocks <= limit
    ensures RoundedUp(1, blocks, limit)
  {
  }

  /**
   * On a well-linked snapshot, following `next_height` from any height takes ceil(blocks / limit) pages,
   * and the pages together are the feed of all those heights after the cursor, whatever the limit.
   */
  lemma {:induction false} PollingIsTheFeed(db: Snapshot, s: Session, from: int, limit: int, c: Option<SequenceKey>)
    requires Linked(db) && WellFormed(db) && UpTo(db, from) && from >= 0 && limit >= 1
    requires c.Some? ==> c.value.blockHeight <= from
    ensures var ready := ReadyHeight(db).value;
            && Polled(Poll(db, s, from, limit, c)) == Expected(db, s, from, ready + 1, c)
            && RoundedUp(|Poll(db, s, from, limit, c)|, ready - from + 1, limit)
    decreases ReadyHeight(db).value - from
  {
    hide ReadyHeight, FeedPage, Expected, Linked, WellFormed, RoundedUp, Fetched, Accepts;
    var ready := ReadyHeight(db).value;
    var page, last := FeedPage(db, s, from, limit, c), LastHeight(from, limit, ready);
    LinkedPage(db, s, from, limit, c);
    PageCarries(db, s, from, limit, c);
    PageNext(db, s, from, limit, c);
    if last < ready {
      PollingIsTheFeed(db, s, last + 1, limit, None);
      ExpectedSplit(db, s, from, last + 1, ready + 1, c);
      OneMorePage(|Poll(db, s, last + 1, limit, None)|, ready - from + 1, limit);
      assert Poll(db, s, from, limit, c)[1..] == Poll(db, s, last + 1, limit, None);
    } else {
      OnePage(ready - from + 1, limit);
      assert Poll(db, s, from, limit, c)[1..] == [];
    }
  }

  lemma PageNext(db: Snapshot, s: Session, from: int, limit: int, c: Option<SequenceKey>)
    requires Accepts(db, from, limit)
    ensures var last := LastHeight(from, limit, ReadyHeight(db).value);
            FeedPage(db, s, from, limit, c).nextHeight
            == if last < ReadyHeight(db).value then Some(last + 1) else None
  {
    hide ReadyHeight, BlocksInRange, FirstReset, PageBundles;
  }

  // ---- Pages of a growing chain ----

  lemma ReadyIsFinal(db: Snapshot, h: int)
    requires Linked(db) && WellFormed(db) && UpTo(db, h) && h >= 0
    ensures Final(db, h)
  {
    ReadyHeightIsGreatest(db);
  }

  lemma FeedKeeps(d: Snapshot, e: Snapshot, s: Session, lo: int, hi: int, c: Option<SequenceKey>)
    requires Linked(d) && WellFormed(d) && UpTo(d, hi - 1) && lo >= 0 && Later(d, e)
    ensures Expected(e, s, lo, hi, c) == Expected(d, s, lo, hi, c)
  {
    hide Linked, WellFormed, ReadyHeight, Later, Final, FeedOf;
    forall h | lo <= h < hi
      ensures Final(d, h)
    {
      UpToLower(d, hi - 1, h);
      ReadyIsFinal(d, h);
    }
    FeedStable(d, e, s, lo, hi);
  }

  /** Well-linked snapshots, each a later state of the one before it, and `e` later than all of them. */
  ghost predicate Growing(visits: seq<Visit>, e: Snapshot)
    decreases |visits|
  {
    visits != [] ==>
      && Linked(visits[0].db) && WellFormed(visits[0].db) && visits[0].limit >= 1
      && Later(visits[0].db, if |visits| > 1 then visits[1].db else e)
      && Growing(visits[1..], e)
  }

  lemma {:induction false} GrowingIsLater(visits: seq<Visit>, e: Snapshot)
    requires Growing(visits, e) && visits != []
    ensures Later(visits[0].db, e)
    decreases |visits|
  {
    hide Later, Linked, WellFormed;
    if |visits| == 1 {
    } else {
      GrowingIsLater(visits[1..], e);
      LaterTransitive(visits[0].db, visits[1].db, e);
    }
  }

  /** What a page showed is the same when read from any later database. */
  lemma PageKeeps(db: Snapshot, e: Snapshot, s: Session, from: int, limit: int, c: Option<SequenceKey>)
    requires Linked(db) && WellFormed(db) && UpTo(db, from) && from >= 0 && limit >= 1 && Later(db, e)
    requires c.Some? ==> c.value.blockHeight <= from
    ensures var last := LastHeight(from, limit, ReadyHeight(db).value);
            && from <= last <= ReadyHeight(db).value
            && ItemsOf(FeedPage(db, s, from, limit, c).blocks) == Expected(e, s, from, last + 1, c)
            && FeedPage(db, s, from, limit, c).nextHeight
               == if last < ReadyHeight(db).value then Some(last + 1) else None
  {
    hide ReadyHeight, FeedPage, Expected, Linked, WellFormed, Fetched, Accepts, Later;
    var last := LastHeight(from, limit, ReadyHeight(db).value);
    LinkedPage(db, s, from, limit, c);
    PageCarries(db, s, from, limit, c);
    PageNext(db, s, from, limit, c);
    UpToLower(db, ReadyHeight(db).value, last);
    FeedKeeps(db, e, s, from, last + 1, c);
  }

  /**
   * While the chain grows under the client, each request reading a later snapshot with any limit, the pages
   * followed by next heights are the feed of the heights passed, as read from any later database.
   */
  lemma {:induction false} PollingAGrowingChain(visits: seq<Visit>, s: Session, from: int, c: Option<SequenceKey>,
                                                e: Snapshot)
    requires Growing(visits, e) && from >= 0 && (visits != [] ==> UpTo(visits[0].db, from))
    requires c.Some? ==> c.value.blockHeight <= from
    ensures from <= HeightAfter(visits, from)
    ensures Polled(PollOver(visits, s, from, c)) == Expected(e, s, from, HeightAfter(visits, from), c)
    decreases |visits|
  {
    hide ReadyHeight, FeedPage, Expected, Linked, WellFormed, Later, UpTo;
    if visits == [] {
      NothingExpected(e, s, from, c);
    } else {
      var db := visits[0].db;
      UpToMeans(db, from);
      GrowingIsLater(visits, e);
      PageKeeps(db, e, s, from, visits[0].limit, c);
      var ready := ReadyHeight(db).value;
      var last := LastHeight(from, visits[0].limit, ready);
      var rest := if last < ready then PollOver(visits[1..], s, last + 1, None) else [];
      assert PollOver(visits, s, from, c)[1..] == rest;
      if last < ready {
        if |visits| > 1 {
          UpToLater(db, visits[1].db, last + 1);
        }
        PollingAGrowingChain(visits[1..], s, last + 1, None, e);
        ExpectedSplit(e, s, from, last + 1, HeightAfter(visits, from), c);
      }
    }
  }

  lemma UpToMeans(db: Snapshot, h: int)
    requires UpTo(db, h)
    ensures db.blocks != map[] && ReadyHeight(db).Some? && h <= ReadyHeight(db).value
  {
  }

  lemma UpToLater(d: Snapshot, e: Snapshot, h: int)
    requires Later(d, e) && WellFormed(d) && WellFormed(e) && d.blocks != map[]
    requires ReadyHeight(d).Some? && h <= ReadyHeight(d).value
    ensures UpTo(e, h)
  {
    hide ReadyHeight, Later, WellFormed;
    ReadyHeightNeverFalls(d, e);
    LaterNotEmpty(d, e);
  }
}
