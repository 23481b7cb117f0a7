/** Runs of the stream over a chain that may be replaced at any moment. */
module ForkDetection {
  import opened Prelude
  import opened Sequence
  import opened Tables
  import opened Queries
  import opened Scan
  import opened StreamSpec
  import opened StreamProgress

  /** A block's hash determines the block. */
  ghost predicate Determined(db: Snapshot, blockOf: string -> BlockRow) {
    forall h :: h in db.blocks ==> blockOf(db.blocks[h].hash) == db.blocks[h]
  }

  /** One iteration and whatever it reads: any well-linked chain, with no relation to the ones before. */
  datatype Reading = Reading(db: Snapshot, env: Env)

  ghost predicate Plausible(db: Snapshot, blockOf: string -> BlockRow) {
    WellFormed(db) && Linked(db) && Determined(db, blockOf)
  }

  function RunOver(s: Session, st: StreamState, readings: seq<Reading>): StreamState {
    if readings == [] then st
    else
      var n := |readings| - 1;
      Iterate(s, RunOver(s, st, readings[..n]), readings[n].db, readings[n].env)
  }

  ghost predicate AgreesAt(accepted: seq<BlockMeta>, db: Snapshot, i: nat)
    requires i < |accepted|
  {
    accepted[i].height in db.blocks && db.blocks[accepted[i].height] == accepted[i].row
  }

  /** The first `n` accepted blocks are the snapshot's blocks at their heights. */
  ghost predicate Agrees(accepted: seq<BlockMeta>, db: Snapshot, n: nat)
    requires n <= |accepted|
  {
    forall i :: 0 <= i < n ==> AgreesAt(accepted, db, i)
  }

  ghost predicate HistoryAt(accepted: seq<BlockMeta>, blockOf: string -> BlockRow, start: int, i: nat)
    requires i < |accepted|
  {
    LinkOk(accepted, start, None, i) && blockOf(accepted[i].row.hash) == accepted[i].row
  }

  /** What a live stream has accepted is one linked chain from its first height, ending in its boundary hash. */
  ghost predicate History(st: StreamState, blockOf: string -> BlockRow, start: int) {
    && start >= 0
    && st.height == start + |st.accepted|
    && (forall i :: 0 <= i < |st.accepted| ==> HistoryAt(st.accepted, blockOf, start, i))
    && st.lastHash == (if st.accepted == [] then None else Some(st.accepted[|st.accepted| - 1].row.hash))
  }

  /** If one accepted block is still in the chain, so is every block accepted before it. */
  lemma {:induction false} AgreementGoesDown(st: StreamState, db: Snapshot, blockOf: string -> BlockRow, start: int,
                                             k: nat)
    requires History(st, blockOf, start) && Plausible(db, blockOf)
    requires k < |st.accepted| && AgreesAt(st.accepted, db, k)
    ensures Agrees(st.accepted, db, k + 1)
  {
    if k == 0 {
    } else {
      assert HistoryAt(st.accepted, blockOf, start, k) && HistoryAt(st.accepted, blockOf, start, k - 1);
      var h := st.accepted[k].height;
      assert h > 0 && h - 1 in db.blocks;
      assert db.blocks[h].parentHash == db.blocks[h - 1].hash;
      AgreementGoesDown(st, db, blockOf, start, k - 1);
    }
  }

  lemma BatchAgrees(st: StreamState, db: Snapshot)
    requires WellFormed(db) && Linked(db) && UpTo(db, st.height) && st.height >= 0
    ensures var blocks := Batch(st, db);
            && blocks != [] && Agrees(blocks, db, |blocks|)
            && blocks[0].height == st.height && st.height in db.blocks
  {
    hide BlocksInRange, ReadyHeight, WellFormed;
    var hi := NextHeight(db, st) - 1;
    ReadyHeightIsGreatest(db);
    LinkedBatch(db, st.height, hi);
  }

  lemma AgreesConcat(a: seq<BlockMeta>, b: seq<BlockMeta>, db: Snapshot)
    requires Agrees(a, db, |a|) && Agrees(b, db, |b|)
    ensures Agrees(a + b, db, |a + b|)
  {
    forall i | 0 <= i < |a + b|
      ensures AgreesAt(a + b, db, i)
    {
      assert i < |a| ==> AgreesAt(a, db, i);
      assert i >= |a| ==> AgreesAt(b, db, i - |a|);
    }
  }

  /** If the last accepted block has been replaced, the first block of the batch names another parent. */
  lemma ReplacedIsRefused(st: StreamState, db: Snapshot, blockOf: string -> BlockRow, start: int)
    requires History(st, blockOf, start) && Plausible(db, blockOf)
    requires UpTo(db, st.height) && st.accepted != [] && !AgreesAt(st.accepted, db, |st.accepted| - 1)
    ensures FirstReset(Batch(st, db), st.height, Boundary(st, db))
         == Some(Reset(Max(st.height - 1, 0), ParentMismatch(st.height)))
  {
    hide Batch, ReadyHeight, ChainHead;
    var last := |st.accepted| - 1;
    BatchAgrees(st, db);
    assert AgreesAt(Batch(st, db), db, 0);
    assert HistoryAt(st.accepted, blockOf, start, last);
    assert st.height - 1 in db.blocks;
    assert db.blocks[st.height].parentHash == db.blocks[st.height - 1].hash;
  }

  /** The batch is accepted exactly when the whole history is still in the chain. */
  lemma BoundaryDecides(st: StreamState, db: Snapshot, blockOf: string -> BlockRow, start: int)
    requires History(st, blockOf, start) && Plausible(db, blockOf)
    requires UpTo(db, st.height) && !st.stopped
    ensures var reset := FirstReset(Batch(st, db), st.height, Boundary(st, db));
            && Batch(st, db) != []
            && (reset.None? <==> Agrees(st.accepted, db, |st.accepted|))
            && (reset.Some? ==> reset.value == Reset(Max(st.height - 1, 0), ParentMismatch(st.height)))
            && (reset.None? ==> Agrees(st.accepted + Batch(st, db), db, |st.accepted + Batch(st, db)|))
  {
    hide Batch, ReadyHeight, FirstReset, Linked, WellFormed, Determined;
    var last := |st.accepted| - 1;
    BatchAgrees(st, db);
    if st.accepted != [] && !AgreesAt(st.accepted, db, last) {
      ReplacedIsRefused(st, db, blockOf, start);
    } else {
      if st.accepted != [] {
        AgreementGoesDown(st, db, blockOf, start, last);
        assert HistoryAt(st.accepted, blockOf, start, last);
      }
      LinkedBatchIs(db, st);
      AgreesConcat(st.accepted, Batch(st, db), db);
    }
  }

  lemma HistoryConcat(st: StreamState, db: Snapshot, blockOf: string -> BlockRow, start: int, blocks: seq<BlockMeta>,
                      i: nat)
    requires History(st, blockOf, start) && Determined(db, blockOf)
    requires Chained(blocks, st.height, Boundary(st, db)) && Agrees(blocks, db, |blocks|)
    requires i < |st.accepted + blocks|
    ensures HistoryAt(st.accepted + blocks, blockOf, start, i)
  {
    var n := |st.accepted|;
    if i < n {
      assert HistoryAt(st.accepted, blockOf, start, i);
    } else {
      assert LinkOk(blocks, st.height, Boundary(st, db), i - n) && AgreesAt(blocks, db, i - n);
    }
  }

  /** Accepting a batch extends the history by it. */
  lemma HistoryGrows(st: StreamState, db: Snapshot, blockOf: string -> BlockRow, start: int, blocks: seq<BlockMeta>,
                     next: StreamState)
    requires History(st, blockOf, start) && Determined(db, blockOf) && blocks != []
    requires FirstReset(blocks, st.height, Boundary(st, db)).None? && Agrees(blocks, db, |blocks|)
    requires next.accepted == st.accepted + blocks && next.height == st.height + |blocks|
    requires next.lastHash == Some(blocks[|blocks| - 1].row.hash)
    ensures History(next, blockOf, start)
  {
    ScanAcceptsIff(blocks, st.height, Boundary(st, db));
    hide FirstReset, Chained, Agrees, HistoryAt, Determined, Boundary;
    forall i | 0 <= i < |next.accepted|
      ensures HistoryAt(next.accepted, blockOf, start, i)
    {
      HistoryConcat(st, db, blockOf, start, blocks, i);
    }
  }

  lemma IterateHistory(s: Session, st: StreamState, db: Snapshot, env: Env, blockOf: string -> BlockRow, start: int)
    requires Plausible(db, blockOf) && SentWithin(st, start)
    requires !st.stopped ==> History(st, blockOf, start)
    ensures !Iterate(s, st, db, env).stopped ==> History(Iterate(s, st, db, env), blockOf, start)
  {
    hide Iterate, Deliver, Delivers, Batch, SentWithin, ReadyHeight, FirstReset, HeightRun, Agrees, Linked,
         WellFormed, Determined, EndAfterBlocks, MissedInBlocks, Boundary;
    if !st.stopped && CanDeliver(db, st, env) {
      BoundaryDecides(st, db, blockOf, start);
      if FirstReset(Batch(st, db), st.height, Boundary(st, db)).None? {
        CanDeliverDelivers(db, st, env);
        DeliversIs(s, db, st, env);
        var checked := st.(lastHash := Boundary(st, db));
        WithinGrows(st, checked, start);
        DeliverPasses(s, checked, db, Batch(st, db), env, start);
        if !Iterate(s, st, db, env).stopped {
          BatchAgrees(st, db);
          HistoryGrows(st, db, blockOf, start, Batch(st, db), Iterate(s, st, db, env));
        }
      } else {
        RefusesIs(s, db, st, env);
      }
    } else {
      LinkedWaits(s, db, st, env);
    }
  }

  lemma CanDeliverDelivers(db: Snapshot, st: StreamState, env: Env)
    requires CanDeliver(db, st, env) && Batch(st, db) != []
    requires FirstReset(Batch(st, db), st.height, Boundary(st, db)).None?
    ensures Delivers(db, st, env)
  {
  }

  lemma RefusesIs(s: Session, db: Snapshot, st: StreamState, env: Env)
    requires CanDeliver(db, st, env) && Batch(st, db) != []
    requires FirstReset(Batch(st, db), st.height, Boundary(st, db)).Some?
    ensures var reset := FirstReset(Batch(st, db), st.height, Boundary(st, db)).value;
            Iterate(s, st, db, env) == Refuse(st.(lastHash := Boundary(st, db)), reset, env)
  {
    hide ReadyHeight, BlocksInRange, FirstReset;
  }

  lemma {:induction false} RunHistory(s: Session, st: StreamState, readings: seq<Reading>, blockOf: string -> BlockRow,
                                      start: int)
    requires forall r :: r in readings ==> Plausible(r.db, blockOf)
    requires SentWithin(st, start) && History(st, blockOf, start)
    ensures var r := RunOver(s, st, readings);
            SentWithin(r, start) && (!r.stopped ==> History(r, blockOf, start))
    decreases |readings|
  {
    hide SentWithin, History, Iterate, Plausible;
    if readings == [] {
    } else {
      var n := |readings| - 1;
      var before := RunOver(s, st, readings[..n]);
      RunHistory(s, st, readings[..n], blockOf, start);
      assert readings[n] in readings;
      IterateHistory(s, before, readings[n].db, readings[n].env, blockOf, start);
      IterateGated(s, readings[n].db, before, readings[n].env, start);
    }
  }

  /**
   * Whatever chains earlier iterations read: an iteration that has a batch to send accepts it exactly when
   * every block accepted so far is still in the chain; otherwise it adds nothing, tells the client to
   * reset at the height below, and the stream ends.
   */
  lemma ForksAreDetected(s: Session, fromHeight: Option<i64>, c: Option<SequenceKey>, readings: seq<Reading>,
                         db: Snapshot, env: Env, blockOf: string -> BlockRow)
    requires Plausible(db, blockOf) && forall r :: r in readings ==> Plausible(r.db, blockOf)
    requires CanDeliver(db, RunOver(s, Start(fromHeight, c), readings), env)
    ensures var st := RunOver(s, Start(fromHeight, c), readings);
            var next := Iterate(s, st, db, env);
            if Agrees(st.accepted, db, |st.accepted|) then
              && next.accepted == st.accepted + Batch(st, db) && Batch(st, db) != []
              && Agrees(next.accepted, db, |next.accepted|)
            else
              && next.stopped && next.accepted == st.accepted
              && var reset := ControlEvent(Reset(Max(st.height - 1, 0), ParentMismatch(st.height)));
                 next.sent == (if env.sends == 0 then st.sent else st.sent + [reset])
  {
    hide Iterate, Deliver, Delivers, Batch, ReadyHeight, FirstReset, HeightRun, Agrees, Linked, WellFormed,
         Determined, EndAfterBlocks, MissedInBlocks, Boundary, RunOver, SentWithin;
    var start := StartHeight(fromHeight, c);
    var st := RunOver(s, Start(fromHeight, c), readings);
    StartsClean(fromHeight, c, blockOf);
    RunHistory(s, Start(fromHeight, c), readings, blockOf, start);
    BoundaryDecides(st, db, blockOf, start);
    if FirstReset(Batch(st, db), st.height, Boundary(st, db)).None? {
      CanDeliverDelivers(db, st, env);
      DeliversIs(s, db, st, env);
      var checked := st.(lastHash := Boundary(st, db));
      WithinGrows(st, checked, start);
      DeliverPasses(s, checked, db, Batch(st, db), env, start);
    } else {
      RefusesIs(s, db, st, env);
    }
  }

  lemma StartsClean(fromHeight: Option<i64>, c: Option<SequenceKey>, blockOf: string -> BlockRow)
    ensures SentWithin(Start(fromHeight, c), StartHeight(fromHeight, c))
    ensures History(Start(fromHeight, c), blockOf, StartHeight(fromHeight, c))
  {
  }

  /** Below a replaced last block, survival is decided by the block before it. */
  lemma SurvivesBelow(st: StreamState, db: Snapshot, blockOf: string -> BlockRow, start: int)
    requires History(st, blockOf, start) && Plausible(db, blockOf)
    requires UpTo(db, st.height) && !st.stopped && !Agrees(st.accepted, db, |st.accepted|)
    ensures var n := |st.accepted|;
            && n > 0 && st.accepted[n - 1].height == st.height - 1 && !AgreesAt(st.accepted, db, n - 1)
            && (Agrees(st.accepted, db, n - 1) <==> n == 1 || AgreesAt(st.accepted, db, n - 2))
  {
    hide ReadyHeight, AgreesAt, Linked, WellFormed, Determined;
    var n := |st.accepted|;
    if AgreesAt(st.accepted, db, n - 1) {
      AgreementGoesDown(st, db, blockOf, start, n - 1);
    }
    assert HistoryAt(st.accepted, blockOf, start, n - 1);
    if n > 1 && AgreesAt(st.accepted, db, n - 2) {
      AgreementGoesDown(st, db, blockOf, start, n - 2);
    }
  }

  /**
   * How far the advertised restart height can be trusted. When a stream is told to reset, the block at the
   * restart height has itself been replaced; everything accepted below it survives exactly when the
   * block one further down does.
   */
  lemma RestartHeightReach(s: Session, fromHeight: Option<i64>, c: Option<SequenceKey>, readings: seq<Reading>,
                           db: Snapshot, env: Env, blockOf: string -> BlockRow)
    requires Plausible(db, blockOf) && forall r :: r in readings ==> Plausible(r.db, blockOf)
    requires var st := RunOver(s, Start(fromHeight, c), readings);
             CanDeliver(db, st, env) && !Agrees(st.accepted, db, |st.accepted|)
    ensures var st := RunOver(s, Start(fromHeight, c), readings);
            var reset := FirstReset(Batch(st, db), st.height, Boundary(st, db));
            var n := |st.accepted|;
            && n > 0 && reset == Some(Reset(st.accepted[n - 1].height, ParentMismatch(st.height)))
            && !AgreesAt(st.accepted, db, n - 1)
            && (Agrees(st.accepted, db, n - 1) <==> n == 1 || AgreesAt(st.accepted, db, n - 2))
  {
    hide Batch, ReadyHeight, FirstReset, Agrees, AgreesAt, Linked, WellFormed, Determined, Boundary, RunOver,
         SentWithin;
    var start := StartHeight(fromHeight, c);
    var st := RunOver(s, Start(fromHeight, c), readings);
    StartsClean(fromHeight, c, blockOf);
    RunHistory(s, Start(fromHeight, c), readings, blockOf, start);
    BoundaryDecides(st, db, blockOf, start);
    SurvivesBelow(st, db, blockOf, start);
    assert HistoryAt(st.accepted, blockOf, start, |st.accepted| - 1);
  }
}
