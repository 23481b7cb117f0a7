/** What either feed does with any stored chain, in terms of the stored blocks alone. */
module ChainLaws {
  import opened Prelude
  import opened Sequence
  import opened Tables
  import opened Queries
  import opened Assembly
  import opened Scan
  import opened StreamSpec
  import opened StreamProgress
  import opened ForkDetection
  import opened FeedSpec
  import opened Paging

  // ---- The scan over stored blocks ----

  lemma BlockAtIndex(db: Snapshot, lo: int, hi: int, h: i64) returns (i: nat)
    requires h in db.blocks && lo <= h <= hi
    ensures i < |BlocksInRange(db, lo, hi)| && BlocksInRange(db, lo, hi)[i] == BlockMeta(h, db.blocks[h])
  {
    hide BlocksInRange;
    BlocksAscend(db, lo, hi);
    i :| 0 <= i < |BlocksInRange(db, lo, hi)| && BlocksInRange(db, lo, hi)[i].height == h;
  }

  lemma HeightOrder(db: Snapshot, lo: int, hi: int, i: nat, j: nat)
    requires i < |BlocksInRange(db, lo, hi)| && j < |BlocksInRange(db, lo, hi)|
    ensures i < j <==> BlocksInRange(db, lo, hi)[i].height < BlocksInRange(db, lo, hi)[j].height
  {
    hide BlocksInRange;
    BlocksAscend(db, lo, hi);
  }

  /** The blocks stored in [lo, hi] run on from `lo` and name each other as parents. */
  ghost predicate RunsOn(db: Snapshot, lo: int, hi: int) {
    && lo in db.blocks
    && forall h :: h in db.blocks && lo < h <= hi ==>
         h - 1 in db.blocks && db.blocks[h].parentHash == db.blocks[h - 1].hash
  }

  lemma {:induction false} RunHeights(db: Snapshot, lo: int, hi: int, i: nat)
    requires lo in db.blocks && lo <= hi && i < |BlocksInRange(db, lo, hi)|
    requires forall h :: h in db.blocks && lo < h <= hi ==> h - 1 in db.blocks
    ensures BlocksInRange(db, lo, hi)[i].height == lo + i
  {
    hide BlocksInRange;
    var bs := BlocksInRange(db, lo, hi);
    BlocksAscend(db, lo, hi);
    if i == 0 {
      var j := BlockAtIndex(db, lo, hi, lo);
      HeightOrder(db, lo, hi, 0, j);
    } else {
      RunHeights(db, lo, hi, i - 1);
      HeightOrder(db, lo, hi, i - 1, i);
      var j := BlockAtIndex(db, lo, hi, bs[i].height - 1);
      HeightOrder(db, lo, hi, j, i);
      HeightOrder(db, lo, hi, i - 1, j);
    }
  }

  lemma ChainedRunsOn(db: Snapshot, lo: int, hi: int, boundary: Option<string>)
    requires Chained(BlocksInRange(db, lo, hi), lo, boundary) && BlocksInRange(db, lo, hi) != []
    ensures RunsOn(db, lo, hi) && lo <= hi
    ensures boundary.Some? ==> db.blocks[lo].parentHash == boundary.value
  {
    hide BlocksInRange;
    var bs := BlocksInRange(db, lo, hi);
    BlocksAscend(db, lo, hi);
    assert LinkOk(bs, lo, boundary, 0);
    forall h | h in db.blocks && lo < h <= hi
      ensures h - 1 in db.blocks && db.blocks[h].parentHash == db.blocks[h - 1].hash
    {
      var i := BlockAtIndex(db, lo, hi, h);
      assert LinkOk(bs, lo, boundary, i);
      assert LinkOk(bs, lo, boundary, i - 1);
    }
  }

  lemma RunsOnChained(db: Snapshot, lo: int, hi: int, boundary: Option<string>)
    requires RunsOn(db, lo, hi) && lo <= hi
    requires boundary.Some? ==> db.blocks[lo].parentHash == boundary.value
    ensures Chained(BlocksInRange(db, lo, hi), lo, boundary) && BlocksInRange(db, lo, hi) != []
  {
    hide BlocksInRange;
    var bs := BlocksInRange(db, lo, hi);
    BlocksAscend(db, lo, hi);
    var _ := BlockAtIndex(db, lo, hi, lo);
    forall i | 0 <= i < |bs|
      ensures LinkOk(bs, lo, boundary, i)
    {
      RunHeights(db, lo, hi, i);
      if i > 0 {
        RunHeights(db, lo, hi, i - 1);
      }
    }
  }

  /** The scan of the stored blocks [lo, hi] passes exactly when they run on and the first fits the boundary. */
  lemma ScanPassesIff(db: Snapshot, lo: int, hi: int, boundary: Option<string>)
    requires BlocksInRange(db, lo, hi) != []
    ensures FirstReset(BlocksInRange(db, lo, hi), lo, boundary).None?
       <==> RunsOn(db, lo, hi) && (boundary.Some? ==> db.blocks[lo].parentHash == boundary.value)
  {
    hide BlocksInRange, FirstReset, Chained;
    BlocksAscend(db, lo, hi);
    ScanAcceptsIff(BlocksInRange(db, lo, hi), lo, boundary);
    if Chained(BlocksInRange(db, lo, hi), lo, boundary) {
      ChainedRunsOn(db, lo, hi, boundary);
    }
    if RunsOn(db, lo, hi) && (boundary.Some? ==> db.blocks[lo].parentHash == boundary.value) {
      assert lo <= BlocksInRange(db, lo, hi)[0].height <= hi;
      RunsOnChained(db, lo, hi, boundary);
    }
  }


  /** A chained front of the blocks holds every height up to its length, each block naming the one before. */
  lemma FrontRuns(db: Snapshot, lo: int, hi: int, boundary: Option<string>, n: nat, h: int)
    requires n <= |BlocksInRange(db, lo, hi)| && Chained(BlocksInRange(db, lo, hi)[..n], lo, boundary)
    requires lo <= h < lo + n
    ensures h in db.blocks && BlocksInRange(db, lo, hi)[h - lo] == BlockMeta(h, db.blocks[h])
    ensures lo < h ==> h - 1 in db.blocks && db.blocks[h].parentHash == db.blocks[h - 1].hash
  {
    hide BlocksInRange;
    var bs := BlocksInRange(db, lo, hi);
    BlocksAscend(db, lo, hi);
    assert LinkOk(bs[..n], lo, boundary, h - lo);
    if lo < h {
      assert LinkOk(bs[..n], lo, boundary, h - lo - 1);
    }
  }

  lemma NothingBetween(db: Snapshot, lo: int, hi: int, boundary: Option<string>, n: nat, h: i64)
    requires n < |BlocksInRange(db, lo, hi)| && Chained(BlocksInRange(db, lo, hi)[..n], lo, boundary)
    requires lo + n <= h && h in db.blocks
    ensures BlocksInRange(db, lo, hi)[n].height <= h
  {
    hide BlocksInRange;
    var bs := BlocksInRange(db, lo, hi);
    BlocksAscend(db, lo, hi);
    if h < bs[n].height {
      var i := BlockAtIndex(db, lo, hi, h);
      HeightOrder(db, lo, hi, i, n);
      FrontHeight(db, lo, hi, boundary, n, i);
    }
  }

  lemma FrontHeight(db: Snapshot, lo: int, hi: int, boundary: Option<string>, n: nat, i: nat)
    requires i < n <= |BlocksInRange(db, lo, hi)| && Chained(BlocksInRange(db, lo, hi)[..n], lo, boundary)
    ensures BlocksInRange(db, lo, hi)[i].height == lo + i
  {
    hide BlocksInRange;
    assert LinkOk(BlocksInRange(db, lo, hi)[..n], lo, boundary, i);
  }

  lemma FrontAll(db: Snapshot, lo: int, hi: int, boundary: Option<string>, n: nat)
    requires n <= |BlocksInRange(db, lo, hi)| && Chained(BlocksInRange(db, lo, hi)[..n], lo, boundary)
    ensures forall h: i64 :: lo <= h < lo + n ==> h in db.blocks
    ensures forall h :: h in db.blocks && lo < h < lo + n ==>
      h - 1 in db.blocks && db.blocks[h].parentHash == db.blocks[h - 1].hash
  {
    hide BlocksInRange, Chained;
    forall h: i64 | lo <= h < lo + n
      ensures h in db.blocks
    {
      FrontRuns(db, lo, hi, boundary, n, h);
    }
    forall h | h in db.blocks && lo < h < lo + n
      ensures h - 1 in db.blocks && db.blocks[h].parentHash == db.blocks[h - 1].hash
    {
      FrontRuns(db, lo, hi, boundary, n, h);
    }
  }

  lemma BreakHeight(db: Snapshot, lo: int, hi: int, boundary: Option<string>, n: nat)
    requires n < |BlocksInRange(db, lo, hi)| && Chained(BlocksInRange(db, lo, hi)[..n], lo, boundary)
    ensures lo + n <= BlocksInRange(db, lo, hi)[n].height <= hi
  {
    hide BlocksInRange, Chained;
    BlocksAscend(db, lo, hi);
    if n > 0 {
      FrontHeight(db, lo, hi, boundary, n, n - 1);
      HeightOrder(db, lo, hi, n - 1, n);
    }
  }

  /** The n-th block is where it should be, but names another parent. */
  lemma BrokenLink(db: Snapshot, lo: int, hi: int, boundary: Option<string>, n: nat)
    requires n < |BlocksInRange(db, lo, hi)| && Chained(BlocksInRange(db, lo, hi)[..n], lo, boundary)
    requires HeightOk(BlocksInRange(db, lo, hi), lo, n) && !ParentOk(BlocksInRange(db, lo, hi), boundary, n)
    ensures lo + n in db.blocks
    ensures n == 0 ==> boundary.Some? && db.blocks[lo].parentHash != boundary.value
    ensures n > 0 ==> lo + n - 1 in db.blocks && db.blocks[lo + n].parentHash != db.blocks[lo + n - 1].hash
  {
    hide BlocksInRange, Chained;
    BlocksAscend(db, lo, hi);
    if n > 0 {
      FrontRuns(db, lo, hi, boundary, n, lo + n - 1);
    }
  }

  /** The n-th block lies above where it should be: nothing is stored in between. */
  lemma BrokenHeight(db: Snapshot, lo: int, hi: int, boundary: Option<string>, n: nat)
    requires n < |BlocksInRange(db, lo, hi)| && Chained(BlocksInRange(db, lo, hi)[..n], lo, boundary)
    requires BlocksInRange(db, lo, hi)[n].height != lo + n
    ensures var got := BlocksInRange(db, lo, hi)[n].height;
            && lo + n < got <= hi && got in db.blocks
            && forall h: i64 :: lo + n <= h < got ==> h !in db.blocks
  {
    hide BlocksInRange, Chained;
    BlocksAscend(db, lo, hi);
    BreakHeight(db, lo, hi, boundary, n);
    forall h: i64 | lo + n <= h < BlocksInRange(db, lo, hi)[n].height
      ensures h !in db.blocks
    {
      if h in db.blocks {
        NothingBetween(db, lo, hi, boundary, n, h);
      }
    }
  }

  /**
   * A refused batch: up to some height `g` everything is stored and linked; the reset names `g`, with the
   * height below it to restart from, as missing, or as the block that names another parent.
   */
  lemma ResetNamesTheBreak(db: Snapshot, lo: int, hi: int, boundary: Option<string>, reset: Reset) returns (g: int)
    requires FirstReset(BlocksInRange(db, lo, hi), lo, boundary) == Some(reset)
    ensures lo <= g <= hi && reset.safeRestartHeight == if g > 0 then g - 1 else 0
    ensures forall h: i64 :: lo <= h < g ==> h in db.blocks
    ensures forall h :: h in db.blocks && lo < h < g ==>
      h - 1 in db.blocks && db.blocks[h].parentHash == db.blocks[h - 1].hash
    ensures if g in db.blocks then
              && reset.reason == ParentMismatch(g)
              && (if g == lo then boundary.Some? && db.blocks[g].parentHash != boundary.value
                  else g - 1 in db.blocks && db.blocks[g].parentHash != db.blocks[g - 1].hash)
            else
              && reset.reason.BlockGap? && reset.reason.expected == g
              && reset.reason.got in db.blocks && g < reset.reason.got <= hi
              && forall h: i64 :: g <= h < reset.reason.got ==> h !in db.blocks
  {
    hide BlocksInRange, FirstReset, Chained, ParentOk;
    var n := ScanReportsTheFirst(BlocksInRange(db, lo, hi), lo, boundary);
    g := lo + n;
    FrontAll(db, lo, hi, boundary, n);
    BreakHeight(db, lo, hi, boundary, n);
    if HeightOk(BlocksInRange(db, lo, hi), lo, n) {
      BrokenLink(db, lo, hi, boundary, n);
    } else {
      BrokenHeight(db, lo, hi, boundary, n);
    }
  }

  // ---- One iteration of the stream ----

  /** The hash the next block must name: the one tracked, else that of the block stored below it. */
  function RequiredParent(db: Snapshot, st: StreamState): Option<string> {
    if st.lastHash.Some? then st.lastHash
    else if st.height > 0 && st.height - 1 in db.blocks then Some(db.blocks[st.height - 1].hash)
    else None
  }

  /** A running stream with an open channel and a wallet, and a stored block in its next fifty ready heights. */
  ghost predicate HasBatch(db: Snapshot, st: StreamState, env: Env, hi: int) {
    && !st.stopped && !env.closed && db.wallet.Some?
    && ReadyHeight(db).Some? && st.height <= ReadyHeight(db).value
    && hi == Min(st.height + 49, ReadyHeight(db).value)
    && exists h :: h in db.blocks && st.height <= h <= hi
  }

  lemma BatchStored(db: Snapshot, st: StreamState, env: Env, hi: int)
    requires HasBatch(db, st, env, hi)
    ensures Batch(st, db) == BlocksInRange(db, st.height, hi) && Batch(st, db) != []
    ensures Boundary(st, db) == RequiredParent(db, st)
    ensures CanDeliver(db, st, env)
  {
    hide BlocksInRange, ReadyHeight;
    var h :| h in db.blocks && st.height <= h <= hi;
    var _ := BlockAtIndex(db, st.height, hi, h);
  }

  /** With a batch, the scan decides whether its blocks are accepted or the stream ends where it is. */
  lemma DeliversOrRefuses(s: Session, db: Snapshot, st: StreamState, env: Env, start: int)
    requires CanDeliver(db, st, env) && Batch(st, db) != [] && SentWithin(st, start)
    ensures var next := Iterate(s, st, db, env);
            if FirstReset(Batch(st, db), st.height, Boundary(st, db)).None? then
              next.accepted == st.accepted + Batch(st, db)
            else next.accepted == st.accepted && next.height == st.height && next.stopped
  {
    hide Iterate, Deliver, Batch, ReadyHeight, FirstReset, HeightRun, SentWithin, EndAfterBlocks, MissedInBlocks,
         Boundary, NoResets, UpTo;
    if FirstReset(Batch(st, db), st.height, Boundary(st, db)).None? {
      CanDeliverDelivers(db, st, env);
      DeliversIs(s, db, st, env);
      var checked := st.(lastHash := Boundary(st, db));
      WithinGrows(st, checked, start);
      DeliverPasses(s, checked, db, Batch(st, db), env, start);
    } else {
      RefusesIs(s, db, st, env);
    }
  }

  /**
   * Whatever is stored, an iteration with a batch accepts it exactly when the stored blocks from the stream's
   * height run on, each naming the one below it, and the first names the hash tracked or, without one, the
   * hash of the block stored below.
   */
  lemma IterationAcceptsIff(s: Session, db: Snapshot, st: StreamState, env: Env, hi: int, start: int)
    requires HasBatch(db, st, env, hi) && SentWithin(st, start)
    ensures var next := Iterate(s, st, db, env);
            && (next.accepted == st.accepted + BlocksInRange(db, st.height, hi)
                <==> RunsOn(db, st.height, hi)
                     && (st.lastHash.Some? ==> db.blocks[st.height].parentHash == st.lastHash.value)
                     && (st.lastHash.None? && st.height > 0 && st.height - 1 in db.blocks ==>
                           db.blocks[st.height].parentHash == db.blocks[st.height - 1].hash))
            && (next.accepted != st.accepted + BlocksInRange(db, st.height, hi) ==>
                  next.accepted == st.accepted && next.height == st.height && next.stopped)
  {
    BatchStored(db, st, env, hi);
    ScanPassesIff(db, st.height, hi, Boundary(st, db));
    hide Iterate, Batch, BlocksInRange, ReadyHeight, FirstReset, SentWithin, RunsOn, HasBatch;
    DeliversOrRefuses(s, db, st, env, start);
  }

  /** Otherwise it sends one reset, if it can send at all, that names the break, and ends. */
  lemma IterationRefuses(s: Session, db: Snapshot, st: StreamState, env: Env, hi: int) returns (g: int, reset: Reset)
    requires HasBatch(db, st, env, hi)
    requires !(RunsOn(db, st.height, hi)
               && (RequiredParent(db, st).Some? ==> db.blocks[st.height].parentHash == RequiredParent(db, st).value))
    ensures var next := Iterate(s, st, db, env);
            next.stopped && next.sent == if env.sends == 0 then st.sent else st.sent + [ControlEvent(reset)]
    ensures st.height <= g <= hi && reset.safeRestartHeight == if g > 0 then g - 1 else 0
    ensures forall h: i64 :: st.height <= h < g ==> h in db.blocks
    ensures forall h :: h in db.blocks && st.height < h < g ==>
      h - 1 in db.blocks && db.blocks[h].parentHash == db.blocks[h - 1].hash
    ensures if g in db.blocks then
              && reset.reason == ParentMismatch(g)
              && (if g == st.height then
                    RequiredParent(db, st).Some? && db.blocks[g].parentHash != RequiredParent(db, st).value
                  else g - 1 in db.blocks && db.blocks[g].parentHash != db.blocks[g - 1].hash)
            else
              && reset.reason.BlockGap? && reset.reason.expected == g
              && reset.reason.got in db.blocks && g < reset.reason.got <= hi
              && forall h: i64 :: g <= h < reset.reason.got ==> h !in db.blocks
  {
    BatchStored(db, st, env, hi);
    ScanPassesIff(db, st.height, hi, Boundary(st, db));
    hide Iterate, Batch, BlocksInRange, ReadyHeight, FirstReset, RunsOn, HasBatch, Boundary, RequiredParent;
    reset := FirstReset(Batch(st, db), st.height, Boundary(st, db)).value;
    g := ResetNamesTheBreak(db, st.height, hi, Boundary(st, db), reset);
    RefusesIs(s, db, st, env);
  }

  /**
   * The first link of a stream without a tracked hash: it goes on only if the first block names the block
   * stored below it as its parent; otherwise the client is told to restart at that block.
   */
  lemma FirstLinkDecides(s: Session, db: Snapshot, st: StreamState, env: Env)
    requires !st.stopped && !env.closed && db.wallet.Some? && st.lastHash.None?
    requires st.height > 0 && st.height - 1 in db.blocks && st.height in db.blocks
    requires ReadyHeight(db).Some? && st.height <= ReadyHeight(db).value
    requires db.blocks[st.height].parentHash != db.blocks[st.height - 1].hash
    ensures var next := Iterate(s, st, db, env);
            && next.stopped && next.height == st.height && next.accepted == st.accepted
            && next.sent == if env.sends == 0 then st.sent
                            else st.sent + [ControlEvent(Reset(st.height - 1, ParentMismatch(st.height)))]
  {
    var hi := Min(st.height + 49, ReadyHeight(db).value);
    assert HasBatch(db, st, env, hi);
    BatchStored(db, st, env, hi);
    FirstLinkBroken(db, st.height, hi, db.blocks[st.height - 1].hash);
    hide Iterate, Batch, ReadyHeight, FirstReset, HasBatch;
    RefusesIs(s, db, st, env);
  }

  lemma FirstLinkBroken(db: Snapshot, lo: int, hi: int, parent: string)
    requires lo in db.blocks && lo <= hi && db.blocks[lo].parentHash != parent
    ensures FirstReset(BlocksInRange(db, lo, hi), lo, Some(parent)) == Some(Reset(Max(lo - 1, 0), ParentMismatch(lo)))
  {
    hide BlocksInRange;
    var i := BlockAtIndex(db, lo, hi, lo);
    BlocksAscend(db, lo, hi);
    HeightOrder(db, lo, hi, 0, i);
  }

  // ---- What an iteration does without a batch ----

  /** A stream that has ended does nothing more. */
  lemma EndedStays(s: Session, db: Snapshot, st: StreamState, env: Env)
    requires st.stopped
    ensures Iterate(s, st, db, env) == st
  {
  }

  /** A closed channel or a missing wallet ends the stream; nothing is sent. */
  lemma EndsQuietly(s: Session, db: Snapshot, st: StreamState, env: Env)
    requires !st.stopped && (env.closed || db.wallet.None?)
    ensures Iterate(s, st, db, env) == st.(stopped := true)
  {
  }

  /**
   * A stream that waits sends, when one is due, a heartbeat with the highest stored height, the ready height
   * and its own, and keeps waiting; a heartbeat that cannot be sent ends it.
   */
  lemma WaitsWithHeartbeats(s: Session, db: Snapshot, st: StreamState, env: Env, head: int)
    requires !st.stopped && !env.closed && db.wallet.Some?
    requires ReadyHeight(db).None? || st.height > ReadyHeight(db).value
    requires if db.blocks == map[] then head == 0
             else head in db.blocks && forall h :: h in db.blocks ==> h <= head
    ensures Iterate(s, st, db, env) ==
      if !env.heartbeatDue then st
      else if env.sends == 0 then st.(stopped := true)
      else st.(sent := st.sent + [Heartbeat(head, ReadyHeight(db), st.height)])
  {
    hide ReadyHeight;
    if db.blocks != map[] {
      assert ChainHead(db) in db.blocks.Keys;
    }
  }

  /** Nothing stored from the stream's height on, although that is ready: the iteration changes nothing. */
  lemma WaitsForBlocks(s: Session, db: Snapshot, st: StreamState, env: Env)
    requires !st.stopped && !env.closed && db.wallet.Some?
    requires ReadyHeight(db).Some? && st.height <= ReadyHeight(db).value
    requires forall h :: h in db.blocks && st.height <= h <= ReadyHeight(db).value ==> h > st.height + 49
    ensures Iterate(s, st, db, env) == st
  {
    hide ReadyHeight;
    assert Heights(db, st.height, Min(st.height + BACKLOG_BATCH_SIZE - 1, ReadyHeight(db).value)) == {};
  }

  // ---- One page ----

  /** Nothing to show: the wallet is not ready that far, or nothing is stored in the page's heights. */
  lemma EmptyPage(db: Snapshot, s: Session, from: int, limit: int, c: Option<SequenceKey>)
    requires ReadyHeight(db).None? || from > ReadyHeight(db).value
             || forall h :: h in db.blocks && from <= h <= ReadyHeight(db).value ==> h >= from + limit
    ensures FeedPage(db, s, from, limit, c) == Page([], None, None)
  {
    hide ReadyHeight;
    if ReadyHeight(db).Some? && from <= ReadyHeight(db).value {
      assert Heights(db, from, LastHeight(from, limit, ReadyHeight(db).value)) == {};
    }
  }

  /** Something is stored in the heights of a page that ends at `last`. */
  ghost predicate PageStored(db: Snapshot, from: int, limit: int, last: int) {
    && ReadyHeight(db).Some? && from <= ReadyHeight(db).value
    && last == Min(from + limit - 1, ReadyHeight(db).value)
    && exists h :: h in db.blocks && from <= h <= last
  }

  lemma PageFetched(db: Snapshot, from: int, limit: int, last: int)
    requires PageStored(db, from, limit, last)
    ensures Fetched(db, from, limit) == BlocksInRange(db, from, last) && Fetched(db, from, limit) != []
  {
    hide BlocksInRange, ReadyHeight;
    var h :| h in db.blocks && from <= h <= last;
    var _ := BlockAtIndex(db, from, last, h);
  }

  /** The block stored below a page, whose hash the page's first block must name. */
  ghost predicate FitsBelow(db: Snapshot, from: int) {
    from > 0 && from - 1 in db.blocks && from in db.blocks ==> db.blocks[from].parentHash == db.blocks[from - 1].hash
  }

  /** A page is accepted exactly when its stored blocks run on and the first fits the block below. */
  lemma PageAcceptsIff(db: Snapshot, from: int, limit: int, last: int)
    requires PageStored(db, from, limit, last)
    ensures Accepts(db, from, limit) <==> RunsOn(db, from, last) && FitsBelow(db, from)
  {
    hide BlocksInRange, ReadyHeight, FirstReset;
    PageFetched(db, from, limit, last);
    ScanPassesIff(db, from, last, PageBoundary(db, from));
  }

  lemma RefusedPage(db: Snapshot, s: Session, from: int, limit: int, c: Option<SequenceKey>, last: int)
    requires PageStored(db, from, limit, last) && !Accepts(db, from, limit)
    ensures FirstReset(BlocksInRange(db, from, last), from, PageBoundary(db, from)).Some?
    ensures Fetched(db, from, limit) != []
    ensures var reset := FirstReset(BlocksInRange(db, from, last), from, PageBoundary(db, from)).value;
            FeedPage(db, s, from, limit, c) == Page([ControlBundle(Fetched(db, from, limit)[0], reset)], None, None)
    ensures Fetched(db, from, limit) == BlocksInRange(db, from, last)
  {
    hide BlocksInRange, ReadyHeight, FirstReset, PageBundles;
    PageFetched(db, from, limit, last);
  }

  /**
   * Otherwise it holds one control item, in the bundle of the lowest block stored in its heights and with a
   * cursor before all of that block's items; it names the break, and there is no next height or cursor.
   */
  lemma PageRefuses(db: Snapshot, s: Session, from: int, limit: int, c: Option<SequenceKey>, last: int)
    returns (g: int, reset: Reset, lowest: i64)
    requires PageStored(db, from, limit, last) && !(RunsOn(db, from, last) && FitsBelow(db, from))
    ensures lowest in db.blocks && from <= lowest <= last
    ensures forall h :: h in db.blocks && from <= h <= last ==> lowest <= h
    ensures FeedPage(db, s, from, limit, c)
         == Page([BlockBundle(BlockMeta(lowest, db.blocks[lowest]),
                              [OrderedFeedItem(PrintInt(lowest) + ":-1:-1:0",
                                               Control(reset.safeRestartHeight, reset.reason))])],
                 None, None)
    ensures from <= g <= last && reset.safeRestartHeight == if g > 0 then g - 1 else 0
    ensures forall h: i64 :: from <= h < g ==> h in db.blocks
    ensures forall h :: h in db.blocks && from < h < g ==>
      h - 1 in db.blocks && db.blocks[h].parentHash == db.blocks[h - 1].hash
    ensures if g in db.blocks then
              && reset.reason == ParentMismatch(g)
              && g - 1 in db.blocks && db.blocks[g].parentHash != db.blocks[g - 1].hash
            else
              && reset.reason.BlockGap? && reset.reason.expected == g
              && reset.reason.got in db.blocks && g < reset.reason.got <= last
              && forall h: i64 :: g <= h < reset.reason.got ==> h !in db.blocks
  {
    hide BlocksInRange, ReadyHeight, FirstReset, RunsOn, FeedPage, Fetched, PageStored, Accepts;
    PageAcceptsIff(db, from, limit, last);
    RefusedPage(db, s, from, limit, c, last);
    reset := FirstReset(BlocksInRange(db, from, last), from, PageBoundary(db, from)).value;
    g := ResetNamesTheBreak(db, from, last, PageBoundary(db, from), reset);
    lowest := LowestBlock(db, from, last);
    ControlText(lowest);
  }

  lemma LowestBlock(db: Snapshot, lo: int, hi: int) returns (lowest: i64)
    requires BlocksInRange(db, lo, hi) != []
    ensures lowest in db.blocks && lo <= lowest <= hi && forall h :: h in db.blocks && lo <= h <= hi ==> lowest <= h
    ensures BlocksInRange(db, lo, hi)[0] == BlockMeta(lowest, db.blocks[lowest])
  {
    hide BlocksInRange;
    BlocksAscend(db, lo, hi);
    lowest := BlocksInRange(db, lo, hi)[0].height;
    forall h | h in db.blocks && lo <= h <= hi
      ensures lowest <= h
    {
      var i := BlockAtIndex(db, lo, hi, h);
      HeightOrder(db, lo, hi, i, 0);
    }
  }

  lemma ControlText(h: i64)
    ensures ToCursor(SequenceKey(h, -1, PHASE_CONTROL, 0)) == PrintInt(h) + ":-1:-1:0"
  {
    assert PrintInt(-1) == "-1" && PrintInt(0) == "0";
  }

  lemma AcceptsMeansReady(db: Snapshot, from: int, limit: int)
    requires Accepts(db, from, limit)
    ensures ReadyHeight(db).Some?
  {
  }

  /** Where an accepted page sends the client on: just above its last height, unless that is the ready one. */
  lemma AcceptedPageGoesOn(db: Snapshot, s: Session, from: int, limit: int, c: Option<SequenceKey>)
    requires Accepts(db, from, limit)
    ensures FeedPage(db, s, from, limit, c).nextHeight
         == if from + limit <= ReadyHeight(db).value then Some(from + limit) else None
  {
    hide FeedPage, Fetched, ReadyHeight, Accepts;
    assert ReadyHeight(db).Some? by {
      AcceptsMeansReady(db, from, limit);
    }
    PageNext(db, s, from, limit, c);
  }
}
