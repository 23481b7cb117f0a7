/** The live stream as an object whose fields its loop updates. */
module Streaming {
  import opened Prelude
  import opened Seqs
  import opened Sequence
  import opened Sorting
  import opened Tables
  import opened Queries
  import opened MerkleCache
  import opened Assembly
  import opened Scan
  import opened StreamSpec
  import opened TreeRuns
  import opened BundleBuilder

  /** A height that is looked past at all, because it is ready, leaves room for `count` more blocks. */
  predicate AdditionsFit(db: Snapshot, height: i64, count: int) {
    ReadyHeight(db).Some? && height <= ReadyHeight(db).value ==> height + count <= I64_MAX
  }

  /** `items.retain(...)` on cursor texts. */
  method RetainAfter(items: seq<OrderedFeedItem>, c: SequenceKey) returns (kept: seq<OrderedFeedItem>)
    ensures kept == Filter(items, KeepAfter(c))
    ensures forall x :: x in kept <==> x in items && forall k :: ParseCursor(x.sequence) == Success(k) ==> Less(c, k)
  {
    hide ParseCursor;
    kept := [];
    for i := 0 to |items|
      invariant kept == Filter(items[..i], KeepAfter(c))
    {
      FilterSnoc(items, i, KeepAfter(c));
      var sequence := ParseCursor(items[i].sequence);
      if sequence.Failure? || Less(c, sequence.value) {
        kept := kept + [items[i]];
      }
    }
    assert items[..|items|] == items;
    forall x
      ensures x in kept <==> x in items && forall k :: ParseCursor(x.sequence) == Success(k) ==> Less(c, k)
    {
      FilterMember(items, KeepAfter(c), x);
    }
  }

  lemma {:induction false} NoLookupsNeeded(db: Snapshot, blocks: seq<BlockMeta>, last: i64)
    ensures GoodLookups(db, blocks, [], last)
  {
    hide RelevantRows;
    if blocks == [] {
    } else {
      var n := |blocks| - 1;
      var rows := RelevantRows(db, blocks[n].height, blocks[n].height);
      NoLookupsNeeded(db, blocks[..n], last);
      NoAnswers(rows, Fit([], |rows|), EndAfterBlocks(db, blocks[..n], last));
    }
  }

  lemma {:induction false} NoAnswers(rows: seq<Keyed<RelevantTx>>, answers: seq<Updates>, last: i64)
    requires |rows| == |answers| && forall i :: 0 <= i < |answers| ==> answers[i] == []
    ensures GoodAnswers(rows, answers, last)
  {
    if rows == [] {
    } else {
      NoAnswers(rows[..|rows| - 1], answers[..|rows| - 1], last);
    }
  }

  /** The loop's state: `sent` is what it has put into the client's channel. */
  class Stream {
    const session: Session
    const cache: MerkleCacheManager?
    var currentHeight: i64
    var fromCursor: Option<SequenceKey>
    var lastBlockHash: Option<string>
    var lastMerkleEndIndex: i64
    var sent: seq<SseEvent>
    var stopped: bool
    ghost var accepted: seq<BlockMeta>
    ghost var missed: seq<(i64, i64)>

    ghost predicate Valid()
      reads this, if cache == null then {} else {cache}
    {
      cache != null ==> cache.Valid()
    }

    ghost function State(): StreamState
      reads this
    {
      StreamState(currentHeight, fromCursor, lastBlockHash, lastMerkleEndIndex, sent, stopped, accepted, missed)
    }

    constructor (session: Session, cache: MerkleCacheManager?, fromHeight: Option<i64>, cursor: Option<SequenceKey>)
      requires cache != null ==> cache.Valid()
      ensures Valid() && this.session == session && this.cache == cache
      ensures State() == Start(fromHeight, cursor)
      ensures var asked := if cursor.Some? then cursor.value.blockHeight
                           else if fromHeight.Some? then fromHeight.value else 0;
              State() == StreamState(if asked < 0 then 0 else asked, cursor, None, -1, [], false, [], [])
    {
      this.session, this.cache := session, cache;
      var requested := if cursor.Some? then cursor.value.blockHeight
                       else if fromHeight.Some? then fromHeight.value else 0;
      currentHeight := Max(requested, 0);
      fromCursor, lastBlockHash, lastMerkleEndIndex := cursor, None, -1;
      sent, stopped, accepted, missed := [], false, [], [];
    }

    /** Pass one bundle: drop what the cursor covers, skip it if nothing is left, else try to send it. */
    method SendOne(bundle: BlockBundle, left: nat) returns (rest: nat)
      requires !stopped && bundle.meta.height < I64_MAX
      modifies this
      ensures State() == (if Kept(old(State()), bundle) != [] && left == 0 then
                            old(State()).(cursor := Advance(old(State()), bundle).cursor, stopped := true)
                          else Advance(old(State()), bundle))
      ensures rest == if Kept(old(State()), bundle) != [] && left > 0 then left - 1 else left
    {
      ghost var before := State();
      rest := left;
      var height, items := bundle.meta.height, bundle.items;
      if fromCursor.Some? && height == fromCursor.value.blockHeight {
        items := RetainAfter(items, fromCursor.value);
        fromCursor := None;
      }
      assert items == Kept(before, bundle);
      hide Kept;
      if items == [] {
        currentHeight := height + 1;
        return;
      }
      if left == 0 {
        stopped := true;
        return;
      }
      sent := sent + [BlockEvent(BlockBundle(bundle.meta, items))];
      rest := left - 1;
      currentHeight := height + 1;
    }

    /** Send the bundles that still have items; a failed send ends the stream at once. */
    method SendAll(bundles: seq<BlockBundle>, sends: nat)
      requires !stopped
      requires forall b :: b in bundles ==> b.meta.height < I64_MAX
      modifies this
      ensures State() == SendBundles(old(State()), bundles, sends)
    {
      hide Kept, Advance;
      var left := sends;
      assert bundles[0..] == bundles;
      for i := 0 to |bundles|
        invariant !stopped
        invariant SendBundles(State(), bundles[i..], left) == SendBundles(old(State()), bundles, sends)
      {
        assert bundles[i..][0] == bundles[i] && bundles[i..][1..] == bundles[i + 1..];
        AdvanceDelivers(State(), bundles[i]);
        left := SendOne(bundles[i], left);
        if stopped {
          return;
        }
      }
    }

    method SendHeartbeat(db: Snapshot, due: bool, sends: nat)
      modifies this
      ensures State() == Beat(old(State()), db, Env(false, due, sends, []))
    {
      if due {
        if sends == 0 {
          stopped := true;
        } else {
          sent := sent + [Heartbeat(ChainHead(db), ReadyHeight(db), currentHeight)];
        }
      }
    }

    /** Build the bundles of an accepted batch and send them. */
    method DeliverBatch(db: Snapshot, blocks: seq<BlockMeta>, sends: nat, lookups: seq<seq<LookupEnv>>,
                        ghost due: bool)
      returns (answers: seq<seq<Updates>>)
      requires Valid() && !stopped && blocks != []
      requires forall b :: b in blocks ==> blocks[0].height <= b.height <= blocks[|blocks| - 1].height < I64_MAX
      modifies this, if cache == null then {} else {cache}
      ensures Valid()
      ensures State() == Deliver(session, old(State()), db, blocks, Env(false, due, sends, answers))
      ensures GoodLookups(db, blocks, answers, old(lastMerkleEndIndex))
    {
      hide Bundle, EndAfterBlocks, MissedInBlocks, GoodLookups, SendBundles, Grew;
      var bundles, newMerkleEnd;
      bundles, newMerkleEnd, answers := BuildBlockBundles(db, session, blocks, lastMerkleEndIndex, cache, lookups);
      MetasOf(db, session, blocks, answers);
      missed := missed + MissedInBlocks(db, blocks, answers, lastMerkleEndIndex);
      accepted := accepted + blocks;
      lastMerkleEndIndex := newMerkleEnd;
      SendAll(bundles, sends);
      if !stopped {
        lastBlockHash := Some(blocks[|blocks| - 1].row.hash);
      }
    }

    /**
     * One iteration of the loop: exactly the step of the specification, for the answers its Merkle lookups
     * gave, each of which is nothing or an exact cover.
     */
    method Step(db: Snapshot, closed: bool, heartbeatDue: bool, sends: nat, lookups: seq<seq<LookupEnv>>)
      returns (answers: seq<seq<Updates>>)
      requires Valid() && AdditionsFit(db, currentHeight, BACKLOG_BATCH_SIZE)
      modifies this, if cache == null then {} else {cache}
      ensures Valid()
      ensures State() == Iterate(session, old(State()), db, Env(closed, heartbeatDue, sends, answers))
      ensures LookedUp(db, old(State()), Env(closed, heartbeatDue, sends, answers))
    {
      hide Deliver, FirstReset, BlocksInRange, GoodLookups, ReadyHeight, ChainHead;
      answers := [];
      NoLookupsNeeded(db, Batch(State(), db), lastMerkleEndIndex);
      if stopped {
        return;
      }
      if closed || db.wallet.None? {
        stopped := true;
        return;
      }
      var ready := ReadyHeight(db);
      if ready.None? || currentHeight > ready.value {
        SendHeartbeat(db, heartbeatDue, sends);
        return;
      }
      var pastLast: i64 := currentHeight + BACKLOG_BATCH_SIZE;
      var toHeight: i64 := Min(pastLast - 1, ready.value);
      var blocks := BlocksInRange(db, currentHeight, toHeight);
      if blocks == [] {
        return;
      }
      if lastBlockHash.None? && currentHeight > 0 {
        lastBlockHash := HashAt(db, currentHeight - 1);
      }
      var reset := ScanBlocks(blocks, currentHeight, lastBlockHash);
      if reset.Some? {
        if sends > 0 {
          sent := sent + [ControlEvent(reset.value)];
        }
        stopped := true;
        return;
      }
      FetchedInOrder(db, currentHeight, toHeight);
      answers := DeliverBatch(db, blocks, sends, lookups, heartbeatDue);
    }
  }

  lemma MetasOf(db: Snapshot, s: Session, blocks: seq<BlockMeta>, answers: seq<seq<Updates>>)
    requires forall b :: b in blocks ==> b.height < I64_MAX
    ensures forall b :: b in Bundles(db, s, blocks, answers) ==> b.meta.height < I64_MAX
  {
    hide BundleItems;
  }

  lemma FetchedInOrder(db: Snapshot, lo: int, hi: int)
    ensures var bs := BlocksInRange(db, lo, hi);
            forall b :: b in bs ==> bs[0].height <= b.height <= bs[|bs| - 1].height <= hi
  {
    hide BlocksInRange;
    BlocksAscend(db, lo, hi);
  }
}
