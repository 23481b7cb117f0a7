/** `get_feed`: one page of the polling feed as a function of a snapshot and a request. */
module FeedSpec {
  import opened Prelude
  import opened Seqs
  import opened Sequence
  import opened Tables
  import opened Queries
  import opened Assembly
  import opened Scan
  import opened StreamSpec

  const DEFAULT_LIMIT_BLOCKS: i64 := 50

  datatype Page = Page(blocks: seq<BlockBundle>, nextHeight: Option<int>, nextCursor: Option<string>)

  const EMPTY := Page([], None, None)

  /** The requested limit, capped by the configuration, and never below one block. */
  function Limit(requested: Option<i64>, ceiling: i64): (limit: int)
    ensures 1 <= limit <= Max(ceiling, 1)
    ensures requested.None? && ceiling >= 50 ==> limit == 50
    ensures requested.Some? && 1 <= requested.value <= ceiling ==> limit == requested.value
    ensures requested.Some? && requested.value < 1 ==> limit == 1
    ensures (if requested.Some? then requested.value else 50) > ceiling ==> limit == Max(ceiling, 1)
  {
    Max(Min(if requested.Some? then requested.value else DEFAULT_LIMIT_BLOCKS, ceiling), 1)
  }

  function LastHeight(from: int, limit: int, ready: int): int {
    Min(from + limit - 1, ready)
  }

  function PageBoundary(db: Snapshot, from: int): Option<string> {
    if from > 0 then HashAt(db, from - 1) else None
  }

  function PageItems(db: Snapshot, s: Session, meta: BlockMeta, c: Option<SequenceKey>): seq<OrderedFeedItem> {
    var items := Map(Render(), Items(db, s, meta.height));
    if c.Some? && c.value.blockHeight == meta.height then Filter(items, KeepAfter(c.value)) else items
  }

  /** The bundles of the blocks that have items left to send. */
  function PageBundles(db: Snapshot, s: Session, blocks: seq<BlockMeta>, c: Option<SequenceKey>): seq<BlockBundle> {
    if blocks == [] then []
    else
      var n := |blocks| - 1;
      var items := PageItems(db, s, blocks[n], c);
      PageBundles(db, s, blocks[..n], c) + (if items == [] then [] else [BlockBundle(blocks[n], items)])
  }

  function LastCursor(blocks: seq<BlockBundle>): Option<string> {
    if blocks == [] || blocks[|blocks| - 1].items == [] then None
    else
      var items := blocks[|blocks| - 1].items;
      Some(items[|items| - 1].sequence)
  }

  /** A refused page: one control item in the bundle of the first block fetched. */
  function ControlBundle(first: BlockMeta, reset: Reset): BlockBundle {
    BlockBundle(first, [OrderedFeedItem(ToCursor(SequenceKey(first.height, -1, PHASE_CONTROL, 0)),
                                        Control(reset.safeRestartHeight, reset.reason))])
  }

  function Fetched(db: Snapshot, from: int, limit: int): seq<BlockMeta>
    requires ReadyHeight(db).Some?
  {
    BlocksInRange(db, from, LastHeight(from, limit, ReadyHeight(db).value))
  }

  function FeedPage(db: Snapshot, s: Session, from: int, limit: int, c: Option<SequenceKey>): Page {
    if ReadyHeight(db).None? || from > ReadyHeight(db).value || Fetched(db, from, limit) == [] then EMPTY
    else
      var blocks, last := Fetched(db, from, limit), LastHeight(from, limit, ReadyHeight(db).value);
      var reset := FirstReset(blocks, from, PageBoundary(db, from));
      if reset.Some? then Page([ControlBundle(blocks[0], reset.value)], None, None)
      else
        var bundles := PageBundles(db, s, blocks, c);
        Page(bundles, if last < ReadyHeight(db).value then Some(last + 1) else None, LastCursor(bundles))
  }

  lemma NextIsAhead(db: Snapshot, s: Session, from: int, limit: int, c: Option<SequenceKey>)
    requires limit >= 1 && FeedPage(db, s, from, limit, c).nextHeight.Some?
    ensures ReadyHeight(db).Some?
    ensures from < FeedPage(db, s, from, limit, c).nextHeight.value <= ReadyHeight(db).value
  {
    hide ReadyHeight, BlocksInRange, FirstReset, PageBundles, HashAt;
  }

  /** The items of a page, in order. */
  function ItemsOf(blocks: seq<BlockBundle>): seq<OrderedFeedItem> {
    if blocks == [] then [] else ItemsOf(blocks[..|blocks| - 1]) + blocks[|blocks| - 1].items
  }

  /** A client that asks again from each page's next height until there is none; only the first request has a cursor. */
  function Poll(db: Snapshot, s: Session, from: int, limit: int, c: Option<SequenceKey>): seq<Page>
    requires limit >= 1
    decreases if ReadyHeight(db).Some? then ReadyHeight(db).value - from else 0
  {
    hide FeedPage, ReadyHeight;
    var page := FeedPage(db, s, from, limit, c);
    if page.nextHeight.None? then [page]
    else
      NextIsAhead(db, s, from, limit, c);
      [page] + Poll(db, s, page.nextHeight.value, limit, None)
  }

  function Polled(pages: seq<Page>): seq<OrderedFeedItem>
    decreases |pages|
  {
    if pages == [] then [] else ItemsOf(pages[0].blocks) + Polled(pages[1..])
  }

  /** One request of a polling client: the snapshot it happens to read, and its limit. */
  datatype Visit = Visit(db: Snapshot, limit: int)

  /** A client that follows next heights while every request reads a snapshot of its own. */
  function PollOver(visits: seq<Visit>, s: Session, from: int, c: Option<SequenceKey>): seq<Page>
    decreases |visits|
  {
    if visits == [] then []
    else
      var page := FeedPage(visits[0].db, s, from, visits[0].limit, c);
      [page] + if page.nextHeight.Some? then PollOver(visits[1..], s, page.nextHeight.value, None) else []
  }

  /** The first height such a client has not been shown. */
  function HeightAfter(visits: seq<Visit>, from: int): int
    decreases |visits|
  {
    if visits == [] || ReadyHeight(visits[0].db).None? then from
    else
      var ready := ReadyHeight(visits[0].db).value;
      var last := LastHeight(from, visits[0].limit, ready);
      if last < ready then HeightAfter(visits[1..], last + 1) else last + 1
  }
}
