/** `get_feed`: the polling endpoint. */
module Feed {
  import opened Prelude
  import opened Seqs
  import opened Sequence
  import opened Sorting
  import opened Tables
  import opened Queries
  import opened Assembly
  import opened Scan
  import opened StreamSpec
  import opened RangeRows
  import opened BundleBuilder
  import opened Streaming
  import opened FeedSpec

  datatype FeedError = BadCursor(error: CursorError) | WalletNotFound

  datatype Request = Request(cursor: Option<string>, fromHeight: Option<i64>, limitBlocks: Option<i64>)

  /** The request's cursor, when it has one that parses. */
  function CursorOf(request: Request): Option<SequenceKey> {
    if request.cursor.None? then None
    else
      match ParseCursor(request.cursor.value)
      case Success(k) => Some(k)
      case Failure(_) => None
  }

  /** `limit_blocks_max: u32`. */
  type u32 = x: int | 0 <= x < 0x1_0000_0000

  /** The items of one block, from the rows fetched for the whole page. */
  method BuildItems(db: Snapshot, s: Session, rows: RangeRows, lo: int, hi: int, meta: BlockMeta,
                    c: Option<SequenceKey>) returns (items: seq<OrderedFeedItem>)
    requires rows == FetchRows(db, s, lo, hi) && lo <= meta.height <= hi
    ensures items == PageItems(db, s, meta, c)
  {
    hide FetchRows, MetaPart, RelevantRows, ZswapRows, DustRows, UtxoEvents, Filter, Items, Map, AtHeight;
    var h := meta.height;
    RowsAtHeight(db, s, lo, hi, h);
    var metas := PushAt([], rows.metas, h, Self());
    var relevant := PushAt(metas, rows.relevant, h, ShieldedItem());
    var zswap := PushAt(relevant, rows.zswap, h, Self());
    var dust := PushAt(zswap, rows.dust, h, Self());
    var sortable := PushAt(dust, rows.utxos, h, UtxoItem());
    OwedInOrder(db, s, h, metas, relevant, zswap, dust, sortable);
    items := Map(Render(), StableSort(sortable));
    if c.Some? && c.value.blockHeight == h {
      items := RetainAfter(items, c.value);
    }
  }

  lemma OwedInOrder(db: Snapshot, s: Session, h: int, metas: seq<Item>, relevant: seq<Item>, zswap: seq<Item>,
                    dust: seq<Item>, sortable: seq<Item>)
    requires metas == [] + Map(Self(), MetaPart(db, s, h))
    requires relevant == metas + Map(ShieldedItem(), RelevantRows(db, h, h))
    requires zswap == relevant + Map(Self(), ZswapRows(db, s, h, h))
    requires dust == zswap + Map(Self(), DustRows(db, s, h, h))
    requires sortable == dust + Map(UtxoItem(), UtxoEvents(db, s, h, h))
    ensures StableSort(sortable) == Items(db, s, h)
  {
    hide MetaPart, RelevantRows, ZswapRows, DustRows, UtxoEvents, StableSort, Map;
    MapSelf(MetaPart(db, s, h));
    MapSelf(ZswapRows(db, s, h, h));
    MapSelf(DustRows(db, s, h, h));
    assert sortable == Owed(db, s, h);
  }

  method BuildPage(db: Snapshot, s: Session, blocks: seq<BlockMeta>, lo: int, hi: int, c: Option<SequenceKey>)
    returns (bundles: seq<BlockBundle>)
    requires forall b :: b in blocks ==> lo <= b.height <= hi
    ensures bundles == PageBundles(db, s, blocks, c)
  {
    hide FetchRows, PageItems;
    var rows, _ := Fetch(db, s, lo, hi);
    bundles := [];
    for i := 0 to |blocks|
      invariant bundles == PageBundles(db, s, blocks[..i], c)
    {
      assert blocks[i] in blocks && blocks[..i + 1][..i] == blocks[..i];
      var items := BuildItems(db, s, rows, lo, hi, blocks[i], c);
      if items != [] {
        bundles := bundles + [BlockBundle(blocks[i], items)];
      }
    }
    assert blocks[..|blocks|] == blocks;
  }

  /** The page from a height that may be anything, once the request is understood. */
  method ReadPage(db: Snapshot, s: Session, fromHeight: i64, limitBlocks: i64, fromCursor: Option<SequenceKey>)
    returns (page: Page)
    requires AdditionsFit(db, fromHeight, limitBlocks) && limitBlocks >= 1
    ensures page == FeedPage(db, s, fromHeight, limitBlocks, fromCursor)
  {
    hide ReadyHeight, BlocksInRange, FirstReset, PageBundles;
    var ready := ReadyHeight(db);
    if ready.None? || fromHeight > ready.value {
      return EMPTY;
    }
    var pastLast: i64 := fromHeight + limitBlocks;
    var toHeight: i64 := Min(pastLast - 1, ready.value);
    var blocks := BlocksInRange(db, fromHeight, toHeight);
    if blocks == [] {
      return EMPTY;
    }
    var boundary := if fromHeight > 0 then HashAt(db, fromHeight - 1) else None;
    var reset := ScanBlocks(blocks, fromHeight, boundary);
    if reset.Some? {
      return Page([ControlBundle(blocks[0], reset.value)], None, None);
    }
    BlocksWithin(db, fromHeight, toHeight);
    var bundles := BuildPage(db, s, blocks, fromHeight, toHeight, fromCursor);
    var nextHeight := if toHeight < ready.value then Some(toHeight as int + 1) else None;
    page := Page(bundles, nextHeight, LastCursor(bundles));
  }

  /**
   * One request: the page of the specification for the height, limit and cursor it stands for, or the
   * error for a cursor that does not parse or a wallet that does not exist.
   */
  method GetFeed(db: Snapshot, s: Session, request: Request, ceiling: u32) returns (r: Result<Page, FeedError>)
    requires request.cursor.None? || ParseCursor(request.cursor.value).Success? ==>
               AdditionsFit(db, StartHeight(request.fromHeight, CursorOf(request)), Limit(request.limitBlocks, ceiling))
    ensures if request.cursor.Some? && ParseCursor(request.cursor.value).Failure? then
              r == Failure(BadCursor(ParseCursor(request.cursor.value).error))
            else if db.wallet.None? then r == Failure(WalletNotFound)
            else
              var c := if request.cursor.None? then None else Some(ParseCursor(request.cursor.value).value);
              var asked := if c.Some? then c.value.blockHeight
                           else if request.fromHeight.Some? then request.fromHeight.value else 0;
              r == Success(FeedPage(db, s, if asked < 0 then 0 else asked, Limit(request.limitBlocks, ceiling), c))
  {
    hide ReadyHeight, FeedPage, ParseCursor;
    var fromCursor: Option<SequenceKey> := None;
    if request.cursor.Some? {
      var parsed := ParseCursor(request.cursor.value);
      if parsed.Failure? {
        return Failure(BadCursor(parsed.error));
      }
      fromCursor := Some(parsed.value);
    }
    var requested := if fromCursor.Some? then fromCursor.value.blockHeight
                     else if request.fromHeight.Some? then request.fromHeight.value else 0;
    var fromHeight: i64 := Max(requested, 0);
    var limitBlocks: i64 :=
      Max(Min(if request.limitBlocks.Some? then request.limitBlocks.value else DEFAULT_LIMIT_BLOCKS, ceiling), 1);
    if db.wallet.None? {
      return Failure(WalletNotFound);
    }
    var page := ReadPage(db, s, fromHeight, limitBlocks, fromCursor);
    r := Success(page);
  }

  lemma BlocksWithin(db: Snapshot, lo: int, hi: int)
    ensures forall b :: b in BlocksInRange(db, lo, hi) ==> lo <= b.height <= hi
  {
    hide BlocksInRange;
    BlocksAscend(db, lo, hi);
  }
}
