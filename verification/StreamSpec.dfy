/** `run_stream`: one iteration of the live stream as a function of its state and a snapshot. */
module StreamSpec {
  import opened Prelude
  import opened Seqs
  import opened Sequence
  import opened Tables
  import opened Queries
  import opened Assembly
  import opened Scan

  const BACKLOG_BATCH_SIZE := 50

  datatype SseEvent =
    | BlockEvent(bundle: BlockBundle)
    | Heartbeat(chainHead: int, ready: Option<int>, height: int)
    | ControlEvent(reset: Reset)

  /**
   * The loop's variables, the events sent so far, and two histories: the blocks the scan has accepted
   * and the Merkle gaps whose lookup found nothing.
   */
  datatype StreamState = StreamState(
    height: int, cursor: Option<SequenceKey>, lastHash: Option<string>, merkleEnd: i64,
    sent: seq<SseEvent>, stopped: bool, accepted: seq<BlockMeta>, missed: seq<(i64, i64)>)

  /**
   * What one iteration meets besides the database: a closed channel, an elapsed heartbeat interval, how
   * many sends still succeed, and what the Merkle lookups of each block's relevant rows answer.
   */
  datatype Env = Env(closed: bool, heartbeatDue: bool, sends: nat, answers: seq<seq<Updates>>)

  function Start(fromHeight: Option<i64>, cursor: Option<SequenceKey>): StreamState {
    StreamState(StartHeight(fromHeight, cursor), cursor, None, -1, [], false, [], [])
  }

  function StartHeight(fromHeight: Option<i64>, cursor: Option<SequenceKey>): int {
    Max(if cursor.Some? then cursor.value.blockHeight else if fromHeight.Some? then fromHeight.value else 0, 0)
  }

  // ---- Merkle position across a batch ----

  function At(answers: seq<seq<Updates>>, i: nat): seq<Updates> {
    if i < |answers| then answers[i] else []
  }

  function EndAfterBlocks(db: Snapshot, blocks: seq<BlockMeta>, last: i64): i64 {
    if blocks == [] then last
    else
      var n := |blocks| - 1;
      EndAfter(RelevantRows(db, blocks[n].height, blocks[n].height), EndAfterBlocks(db, blocks[..n], last))
  }

  function MissedInBlocks(db: Snapshot, blocks: seq<BlockMeta>, answers: seq<seq<Updates>>, last: i64)
    : seq<(i64, i64)>
  {
    if blocks == [] then []
    else
      var n := |blocks| - 1;
      var rows := RelevantRows(db, blocks[n].height, blocks[n].height);
      MissedInBlocks(db, blocks[..n], answers, last)
      + Missed(rows, Fit(At(answers, n), |rows|), EndAfterBlocks(db, blocks[..n], last))
  }

  ghost predicate GoodLookups(db: Snapshot, blocks: seq<BlockMeta>, answers: seq<seq<Updates>>, last: i64) {
    blocks != [] ==>
      var n := |blocks| - 1;
      var rows := RelevantRows(db, blocks[n].height, blocks[n].height);
      && GoodLookups(db, blocks[..n], answers, last)
      && GoodAnswers(rows, Fit(At(answers, n), |rows|), EndAfterBlocks(db, blocks[..n], last))
  }

  function Bundles(db: Snapshot, s: Session, blocks: seq<BlockMeta>, answers: seq<seq<Updates>>): (r: seq<BlockBundle>)
    ensures |r| == |blocks|
  {
    seq(|blocks|, i requires 0 <= i < |blocks| => Bundle(db, s, blocks[i], At(answers, i)))
  }

  // ---- Sending ----

  /** The retain filter: by the parsed cursor text, keeping what does not parse. */
  function KeepAfter(c: SequenceKey): OrderedFeedItem -> bool {
    (x: OrderedFeedItem) => match ParseCursor(x.sequence)
                            case Success(k) => Less(c, k)
                            case Failure(_) => true
  }

  predicate CursorHits(st: StreamState, b: BlockBundle) {
    st.cursor.Some? && st.cursor.value.blockHeight == b.meta.height
  }

  function Kept(st: StreamState, b: BlockBundle): seq<OrderedFeedItem> {
    if CursorHits(st, b) then Filter(b.items, KeepAfter(st.cursor.value)) else b.items
  }

  function Advance(st: StreamState, b: BlockBundle): StreamState {
    st.(height := b.meta.height + 1,
        cursor := if CursorHits(st, b) then None else st.cursor,
        sent := if Kept(st, b) == [] then st.sent else st.sent + [BlockEvent(BlockBundle(b.meta, Kept(st, b)))])
  }

  /** Empty bundles are skipped; the first failed send ends the stream before its height is passed. */
  function SendBundles(st: StreamState, bundles: seq<BlockBundle>, sends: nat): StreamState
    decreases |bundles|
  {
    if bundles == [] then st
    else if Kept(st, bundles[0]) == [] then SendBundles(Advance(st, bundles[0]), bundles[1..], sends)
    else if sends == 0 then st.(cursor := Advance(st, bundles[0]).cursor, stopped := true)
    else SendBundles(Advance(st, bundles[0]), bundles[1..], sends - 1)
  }

  function Beat(st: StreamState, db: Snapshot, env: Env): StreamState {
    if !env.heartbeatDue then st
    else if env.sends == 0 then st.(stopped := true)
    else st.(sent := st.sent + [Heartbeat(ChainHead(db), ReadyHeight(db), st.height)])
  }

  function Refuse(st: StreamState, reset: Reset, env: Env): StreamState {
    st.(sent := if env.sends == 0 then st.sent else st.sent + [ControlEvent(reset)], stopped := true)
  }

  /** The hash the batch's first block must name: tracked, or fetched for the first batch. */
  function Boundary(st: StreamState, db: Snapshot): Option<string> {
    if st.lastHash.None? && st.height > 0 then HashAt(db, st.height - 1) else st.lastHash
  }

  function Batch(st: StreamState, db: Snapshot): seq<BlockMeta> {
    if ReadyHeight(db).None? || st.height > ReadyHeight(db).value then []
    else BlocksInRange(db, st.height, Min(st.height + BACKLOG_BATCH_SIZE - 1, ReadyHeight(db).value))
  }

  function Deliver(s: Session, st: StreamState, db: Snapshot, blocks: seq<BlockMeta>, env: Env): StreamState
    requires blocks != []
  {
    var built := st.(merkleEnd := EndAfterBlocks(db, blocks, st.merkleEnd),
                     missed := st.missed + MissedInBlocks(db, blocks, env.answers, st.merkleEnd),
                     accepted := st.accepted + blocks);
    var done := SendBundles(built, Bundles(db, s, blocks, env.answers), env.sends);
    if done.stopped then done else done.(lastHash := Some(blocks[|blocks| - 1].row.hash))
  }

  function Iterate(s: Session, st: StreamState, db: Snapshot, env: Env): StreamState {
    if st.stopped then st
    else if env.closed || db.wallet.None? then st.(stopped := true)
    else if ReadyHeight(db).None? || st.height > ReadyHeight(db).value then Beat(st, db, env)
    else
      var blocks := Batch(st, db);
      if blocks == [] then st
      else
        var checked := st.(lastHash := Boundary(st, db));
        var reset := FirstReset(blocks, st.height, checked.lastHash);
        if reset.Some? then Refuse(checked, reset.value, env) else Deliver(s, checked, db, blocks, env)
  }

  // ---- What the client has received ----

  function Delivered(sent: seq<SseEvent>): seq<OrderedFeedItem> {
    if sent == [] then []
    else
      var last := sent[|sent| - 1];
      Delivered(sent[..|sent| - 1]) + (if last.BlockEvent? then last.bundle.items else [])
  }

  function NotMerkleItem(): OrderedFeedItem -> bool {
    (x: OrderedFeedItem) => !x.item.MerkleCollapsedUpdate?
  }

  /** The items received so far, Merkle updates aside. */
  function Content(sent: seq<SseEvent>): seq<OrderedFeedItem> {
    Filter(Delivered(sent), NotMerkleItem())
  }

  lemma DeliveredSnoc(sent: seq<SseEvent>, e: SseEvent)
    ensures Delivered(sent + [e]) == Delivered(sent) + (if e.BlockEvent? then e.bundle.items else [])
  {
    assert (sent + [e])[..|sent|] == sent;
  }
}
