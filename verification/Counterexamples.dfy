/** Inputs at which claims that look true of the feed fail. */
module Counterexamples {
  import opened Prelude
  import opened Seqs
  import opened Tables
  import opened Queries
  import opened Contents
  import opened Assembly
  import opened Scan
  import opened StreamSpec
  import opened ExactlyOnce
  import opened StreamProgress
  import opened FeedSpec
  import opened Paging
  import opened CursorPaging
  import opened ForkDetection
  import opened Resume
  import opened Replay

  // ---- A gap at the end of a page ----

  /** Blocks 0 and 2, but no block 1; nothing is left to index. */
  const BLOCK_MISSING := Snapshot(
    map[0 := BlockRow("a", "", 0), 2 := BlockRow("c", "b", 0)], map[], map[], map[], {}, Some(None))

  lemma MissingHead()
    ensures ReadyHeight(BLOCK_MISSING) == Some(2)
  {
    assert 2 in BLOCK_MISSING.blocks && BLOCK_MISSING.blocks.Keys == {0, 2};
    ReadyIsHead(BLOCK_MISSING);
  }

  lemma OneBlockAccepted(db: Snapshot, limit: int, h: i64)
    requires h in db.blocks && ReadyHeight(db).Some? && h <= ReadyHeight(db).value && limit >= 1
    requires forall g :: g in db.blocks && h <= g < h + limit ==> g == h
    requires PageBoundary(db, h).None?
    ensures Accepts(db, h, limit)
  {
    hide ReadyHeight, BlocksInRange;
    OneStored(db, h, LastHeight(h, limit, ReadyHeight(db).value), h);
    OneBlockScanned(BlockMeta(h, db.blocks[h]));
  }

  lemma OneBlockScanned(b: BlockMeta)
    ensures FirstReset([b], b.height, None).None?
  {
    assert [b][1..] == [];
  }

  /** The first page of two blocks is accepted and sends the client past block 1, which is not stored. */
  lemma PageSkipsAMissingBlock(s: Session)
    ensures Accepts(BLOCK_MISSING, 0, 2) && 1 !in BLOCK_MISSING.blocks
    ensures FeedPage(BLOCK_MISSING, s, 0, 2, None).nextHeight == Some(2)
    ensures Accepts(BLOCK_MISSING, 2, 2)
  {
    var db := BLOCK_MISSING;
    assert 0 in db.blocks && 2 in db.blocks && 1 !in db.blocks;
    MissingHead();
    hide ReadyHeight, FeedPage, Accepts;
    OneBlockAccepted(db, 2, 0);
    OneBlockAccepted(db, 2, 2);
    PageNext(db, s, 0, 2, None);
  }

  lemma ReadyIsHead(db: Snapshot)
    requires db.txs == map[]
    ensures ReadyHeight(db) == Some(ChainHead(db))
  {
    assert BlockingHeights(db) == {};
  }

  lemma OneStored(db: Snapshot, lo: int, hi: int, h: i64)
    requires h in db.blocks && lo <= h <= hi && forall g :: g in db.blocks && lo <= g <= hi ==> g == h
    ensures BlocksInRange(db, lo, hi) == [BlockMeta(h, db.blocks[h])]
  {
    assert Heights(db, lo, hi) == {h};
    BlocksAscend(db, lo, hi);
    assert BlocksInRange(db, lo, hi)[0].height == h;
  }

  // ---- A utxo spent by its creator ----

  function Transaction(h: i64): TxRow {
    TxRow(h, [], 0, [], Some(RegularRow("ok", None, None, None, None, None, [])), [])
  }

  /** A registered utxo that transaction `t` creates and spends. */
  function OwnUtxo(t: i64): UtxoRow {
    UtxoRow([1], t, Some(t), [5], UtxoDetails([], 0, [], [], false, None))
  }

  /** Two blocks of one relevant transaction each, with a zswap input, a dust event and such a utxo. */
  const TWO_BLOCKS := Snapshot(
    map[0 := BlockRow("a", "", 0), 1 := BlockRow("b", "a", 0)],
    map[1 := Transaction(0), 2 := Transaction(1)],
    map[10 := EventRow(1, Zswap, ZswapInput, []), 11 := EventRow(1, Dust, OtherVariant, []),
        12 := EventRow(2, Zswap, ZswapInput, []), 13 := EventRow(2, Dust, OtherVariant, [])],
    map[7 := OwnUtxo(1), 8 := OwnUtxo(2)],
    {1, 2}, Some(Some(2)))

  const EVERYTHING := Session(None, {[1]}, true, true, false, false, true)

  lemma UtxoIsSelfSpent()
    ensures WellFormed(TWO_BLOCKS) && SpendsFollow(TWO_BLOCKS) && SelfSpent(TWO_BLOCKS, EVERYTHING, 7, 1)
  {
  }

  /** Cutting the feed of block 0 after the spend, and resuming from its cursor, loses the creation. */
  lemma ResumeLosesACreate() returns (i: nat, create: OrderedFeedItem)
    ensures create.item.UnshieldedUtxo? && create.item.isCreate
    ensures var all := Expected(TWO_BLOCKS, EVERYTHING, 0, 1, None);
            && i < |all| && create in all[i + 1..]
            && create !in Resumed(TWO_BLOCKS, EVERYTHING, all[i].sequence, 1)
  {
    UtxoIsSelfSpent();
    hide Expected, Resumed, SelfSpent;
    i := SelfSpendCutLosesCreate(TWO_BLOCKS, EVERYTHING, 7, 1);
    create := SentCreate(TWO_BLOCKS, EVERYTHING, 7, 1);
  }

  lemma SentCreate(db: Snapshot, s: Session, u: i64, hi: int) returns (create: OrderedFeedItem)
    requires SelfSpent(db, s, u, hi)
    ensures create == Render()(EventItem(db, s, u, true, 0, hi))
    ensures create.item.UnshieldedUtxo? && create.item.isCreate
  {
    create := Render()(EventItem(db, s, u, true, 0, hi));
  }

  /** Replaying the same feed leaves a spent utxo live. */
  lemma ReplayKeepsASpentUtxo()
    ensures 7 in Replayed(Expected(TWO_BLOCKS, EVERYTHING, 0, 1, None)).live
    ensures 7 !in LiveUtxos(TWO_BLOCKS, EVERYTHING, 1)
  {
    UtxoIsSelfSpent();
    hide Replayed, Expected, LiveUtxos, SelfSpent;
    SelfSpentStaysLive(TWO_BLOCKS, EVERYTHING, 7, 1);
  }

  // ---- Paging by cursor ----

  lemma TwoBlocksHead()
    ensures TWO_BLOCKS.blocks.Keys == {0, 1} && ChainHead(TWO_BLOCKS) == 1
  {
    assert 1 in TWO_BLOCKS.blocks;
  }

  lemma TwoBlocksReady()
    ensures ReadyHeight(TWO_BLOCKS) == Some(1)
  {
    TwoBlocksHead();
    hide ChainHead;
    assert BlockingHeights(TWO_BLOCKS) == {};
  }

  lemma TwoBlocksChain()
    ensures WellFormed(TWO_BLOCKS) && Linked(TWO_BLOCKS) && UpTo(TWO_BLOCKS, 0)
    ensures ReadyHeight(TWO_BLOCKS) == Some(1)
  {
    hide ChainHead, ReadyHeight;
    TwoBlocksHead();
    TwoBlocksReady();
    assert 0 in TWO_BLOCKS.blocks && 1 in TWO_BLOCKS.blocks;
    assert Linked(TWO_BLOCKS);
    hide Linked;
    assert WellFormed(TWO_BLOCKS);
  }

  lemma SecondBlockOwes()
    ensures Owes(TWO_BLOCKS, EVERYTHING, 1, None)
  {
    var zswap := ZswapMap(TWO_BLOCKS, EVERYTHING, 1, 1);
    assert 12 in zswap;
    var x := zswap[12];
    assert RowOf(zswap, x);
    hide Items, Filter;
    ItemsAreTheRows(TWO_BLOCKS, EVERYTHING, 1, x);
    NoCursor(Items(TWO_BLOCKS, EVERYTHING, 1));
  }

  /** With a limit of one block, following `next_cursor` never brings what the second block owes. */
  lemma CursorPollingMissesABlock()
    ensures Polled(PollByCursor(TWO_BLOCKS, EVERYTHING, 0, 1, None)) != Expected(TWO_BLOCKS, EVERYTHING, 0, 2, None)
  {
    hide PollByCursor, Polled, Expected, Owes, ReadyHeight, Linked, WellFormed;
    TwoBlocksChain();
    SecondBlockOwes();
    CursorPollingIff(TWO_BLOCKS, EVERYTHING, 0, 1, None);
    assert !OwesJustBelow(TWO_BLOCKS, EVERYTHING, 0, 1, None, 1);
  }

  // ---- A fork two blocks deep ----

  const BEFORE_FORK := Snapshot(
    map[0 := BlockRow("a0", "", 0), 1 := BlockRow("a1", "a0", 0), 2 := BlockRow("a2", "a1", 0)],
    map[], map[], map[], {}, Some(None))

  const AFTER_FORK := Snapshot(
    map[0 := BlockRow("a0", "", 0), 1 := BlockRow("b1", "a0", 0), 2 := BlockRow("b2", "b1", 0),
        3 := BlockRow("b3", "b2", 0)],
    map[], map[], map[], {}, Some(None))

  function ForkBlock(): string -> BlockRow {
    (hash: string) =>
      if hash == "a0" then BlockRow("a0", "", 0)
      else if hash == "a1" then BlockRow("a1", "a0", 0)
      else if hash == "a2" then BlockRow("a2", "a1", 0)
      else if hash == "b1" then BlockRow("b1", "a0", 0)
      else if hash == "b2" then BlockRow("b2", "b1", 0)
      else BlockRow("b3", "b2", 0)
  }

  const LIVE := Env(false, false, BACKLOG_BATCH_SIZE, [])

  lemma FirstHead()
    ensures BEFORE_FORK.blocks.Keys == {0, 1, 2} && ChainHead(BEFORE_FORK) == 2
  {
    assert 2 in BEFORE_FORK.blocks;
  }

  lemma FirstChain()
    ensures Plausible(BEFORE_FORK, ForkBlock()) && ReadyHeight(BEFORE_FORK) == Some(2)
  {
    hide ChainHead, ReadyHeight;
    FirstHead();
    assert 2 in BEFORE_FORK.blocks;
    ReadyIsHead(BEFORE_FORK);
    assert Linked(BEFORE_FORK);
    hide Linked;
    assert WellFormed(BEFORE_FORK);
    assert Determined(BEFORE_FORK, ForkBlock());
  }

  lemma SecondHead()
    ensures AFTER_FORK.blocks.Keys == {0, 1, 2, 3} && ChainHead(AFTER_FORK) == 3
  {
    assert 3 in AFTER_FORK.blocks;
  }

  lemma SecondLinked()
    ensures Linked(AFTER_FORK) && WellFormed(AFTER_FORK)
  {
    hide ChainHead;
    SecondHead();
    assert 3 in AFTER_FORK.blocks;
  }

  lemma SecondDetermined()
    ensures Determined(AFTER_FORK, ForkBlock())
  {
    assert ForkBlock()("a0") == AFTER_FORK.blocks[0] && ForkBlock()("b1") == AFTER_FORK.blocks[1];
    assert ForkBlock()("b2") == AFTER_FORK.blocks[2] && ForkBlock()("b3") == AFTER_FORK.blocks[3];
    hide ForkBlock;
    assert AFTER_FORK.blocks.Keys == {0, 1, 2, 3};
  }

  lemma SecondChain()
    ensures Plausible(AFTER_FORK, ForkBlock()) && ReadyHeight(AFTER_FORK) == Some(3)
  {
    hide ChainHead, ReadyHeight, Linked, WellFormed, Determined;
    SecondHead();
    ReadyIsHead(AFTER_FORK);
    SecondLinked();
    SecondDetermined();
  }

  /** The stream that has read the first chain: it has accepted its three blocks and goes on. */
  lemma BeforeTheFork(s: Session)
    ensures var st := RunOver(s, Start(None, None), [Reading(BEFORE_FORK, LIVE)]);
            && !st.stopped && st.height == 3 && |st.accepted| == 3
            && Agrees(st.accepted, BEFORE_FORK, 3) && st.accepted[1].height == 1
  {
    hide Iterate, ReadyHeight, Linked, WellFormed, Determined, FirstReset, Batch, Agrees, RunOver, ForkBlock;
    var db, first := BEFORE_FORK, Start(None, None);
    FirstChain();
    NoReadingsYet(s, first, Reading(db, LIVE));
    assert 0 in db.blocks;
    assert UpTo(db, 0) && CanDeliver(db, first, LIVE);
    ForksAreDetected(s, None, None, [], db, LIVE, ForkBlock());
    NothingAccepted(db);
    IterateLinked(s, db, first, LIVE, 0);
    LinkedBatchIs(db, first);
    assert first.accepted + Batch(first, db) == Batch(first, db);
    AcceptedHeights(Batch(first, db), 0, Boundary(first, db));
    assert HeightOk(Batch(first, db), 0, 1);
  }

  lemma NoReadingsYet(s: Session, st: StreamState, r: Reading)
    ensures RunOver(s, st, []) == st && RunOver(s, st, [r]) == Iterate(s, st, r.db, r.env)
  {
    hide Iterate;
    assert [r][..0] == [];
  }

  lemma NothingAccepted(db: Snapshot)
    ensures Agrees([], db, 0)
  {
  }

  /**
   * Reading the second chain it is told to restart at height 2, although the block it has accepted at
   * height 1 has been replaced as well.
   */
  lemma RestartHeightMissesTheFork(s: Session)
    ensures var st := RunOver(s, Start(None, None), [Reading(BEFORE_FORK, LIVE)]);
            var next := Iterate(s, st, AFTER_FORK, LIVE);
            && next.sent == st.sent + [ControlEvent(Reset(2, ParentMismatch(3)))]
            && |st.accepted| == 3 && st.accepted[1].height == 1 && !AgreesAt(st.accepted, AFTER_FORK, 1)
  {
    var readings := [Reading(BEFORE_FORK, LIVE)];
    var st := RunOver(s, Start(None, None), readings);
    FirstChain();
    SecondChain();
    BeforeTheFork(s);
    hide Iterate, ReadyHeight, Linked, WellFormed, Determined, RunOver;
    assert AgreesAt(st.accepted, BEFORE_FORK, 1);
    assert !AgreesAt(st.accepted, AFTER_FORK, 1);
    assert 3 in AFTER_FORK.blocks;
    assert UpTo(AFTER_FORK, 3) && CanDeliver(AFTER_FORK, st, LIVE);
    ForksAreDetected(s, None, None, readings, AFTER_FORK, LIVE, ForkBlock());
  }
}
