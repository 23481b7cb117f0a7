/** The stream's gate, its progress, and when it never refuses a chain. */
module StreamProgress {
  import opened Prelude
  import opened Sequence
  import opened Tables
  import opened Queries
  import opened Assembly
  import opened Scan
  import opened StreamSpec
  import opened ExactlyOnce

  ghost predicate MetaAt(bundles: seq<BlockBundle>, h: int, i: nat)
    requires i < |bundles|
  {
    bundles[i].meta.height == h + i
  }

  /** The bundles are those of heights h, h + 1, ... */
  ghost predicate MetaRun(bundles: seq<BlockBundle>, h: int) {
    forall i :: 0 <= i < |bundles| ==> MetaAt(bundles, h, i)
  }

  lemma MetaRunHead(bundles: seq<BlockBundle>, h: int)
    requires MetaRun(bundles, h) && bundles != []
    ensures bundles[0].meta.height == h && MetaRun(bundles[1..], h + 1)
  {
    assert MetaAt(bundles, h, 0);
    var rest, next := bundles[1..], h + 1;
    forall i | 0 <= i < |rest|
      ensures MetaAt(rest, next, i)
    {
      assert MetaAt(bundles, h, i + 1);
    }
  }

  /** Every block event sent is of a height passed. */
  ghost predicate SentWithin(st: StreamState, start: int) {
    && start <= st.height
    && forall e :: e in st.sent && e.BlockEvent? ==> start <= e.bundle.meta.height < st.height
  }

  lemma WithinGrows(a: StreamState, b: StreamState, start: int)
    requires SentWithin(a, start) && a.height == b.height
    requires Quiet(a.sent, b.sent)
    ensures SentWithin(b, start)
  {
  }

  /** At most one event was added, and it is not a block. */
  ghost predicate Quiet(a: seq<SseEvent>, b: seq<SseEvent>) {
    b == a || (|b| == |a| + 1 && b[..|a|] == a && !b[|a|].BlockEvent?)
  }

  ghost predicate NoResets(sent: seq<SseEvent>) {
    forall e :: e in sent ==> !e.ControlEvent?
  }

  lemma AdvanceSends(st: StreamState, b: BlockBundle, start: int)
    requires SentWithin(st, start) && b.meta.height == st.height
    ensures SentWithin(Advance(st, b), start) && Advance(st, b).height == st.height + 1
    ensures NoResets(st.sent) ==> NoResets(Advance(st, b).sent)
    ensures Advance(st, b) == st.(height := st.height + 1, cursor := Advance(st, b).cursor,
                                  sent := Advance(st, b).sent)
  {
    hide Kept;
  }

  /** Sending passes the bundles one height at a time and touches nothing but height, cursor and events. */
  lemma {:induction false} SendPasses(st: StreamState, bundles: seq<BlockBundle>, sends: nat, start: int)
    requires MetaRun(bundles, st.height) && SentWithin(st, start) && !st.stopped
    ensures var r := SendBundles(st, bundles, sends);
            && SentWithin(r, start) && (NoResets(st.sent) ==> NoResets(r.sent))
            && st.height <= r.height <= st.height + |bundles|
            && (if r.stopped then sends < |bundles| else r.height == st.height + |bundles|)
            && r == st.(height := r.height, cursor := r.cursor, sent := r.sent, stopped := r.stopped)
    decreases |bundles|
  {
    hide Kept, Advance, MetaRun, SentWithin, NoResets;
    if bundles == [] {
    } else {
      MetaRunHead(bundles, st.height);
      AdvanceSends(st, bundles[0], start);
      var next := Advance(st, bundles[0]);
      if Kept(st, bundles[0]) == [] {
        SendPasses(next, bundles[1..], sends, start);
      } else if sends > 0 {
        SendPasses(next, bundles[1..], sends - 1, start);
      } else {
        StopsInPlace(st, next, start);
      }
    }
  }

  lemma StopsInPlace(st: StreamState, next: StreamState, start: int)
    requires SentWithin(st, start)
    ensures SentWithin(st.(cursor := next.cursor, stopped := true), start)
  {
  }

  ghost predicate HeightRun(blocks: seq<BlockMeta>, h: int) {
    forall i :: 0 <= i < |blocks| ==> HeightOk(blocks, h, i)
  }

  lemma BundleMetas(s: Session, db: Snapshot, blocks: seq<BlockMeta>, answers: seq<seq<Updates>>, h: int)
    requires HeightRun(blocks, h)
    ensures MetaRun(Bundles(db, s, blocks, answers), h)
  {
    hide BundleItems;
    forall i | 0 <= i < |blocks|
      ensures MetaAt(Bundles(db, s, blocks, answers), h, i)
    {
      assert HeightOk(blocks, h, i);
    }
  }

  lemma AcceptedHeights(blocks: seq<BlockMeta>, h: int, boundary: Option<string>)
    requires FirstReset(blocks, h, boundary).None?
    ensures HeightRun(blocks, h)
  {
    ScanAcceptsIff(blocks, h, boundary);
    forall i | 0 <= i < |blocks|
      ensures HeightOk(blocks, h, i)
    {
      assert LinkOk(blocks, h, boundary, i);
    }
  }

  /** Delivering an accepted batch passes its blocks, and all of them unless a send fails. */
  lemma DeliverPasses(s: Session, st: StreamState, db: Snapshot, blocks: seq<BlockMeta>, env: Env, start: int)
    requires blocks != [] && HeightRun(blocks, st.height) && SentWithin(st, start) && !st.stopped
    ensures var r := Deliver(s, st, db, blocks, env);
            && SentWithin(r, start) && (NoResets(st.sent) ==> NoResets(r.sent))
            && st.height <= r.height <= st.height + |blocks|
            && (if r.stopped then env.sends < |blocks|
                else r.height == st.height + |blocks| && r.lastHash == Some(blocks[|blocks| - 1].row.hash))
            && r.accepted == st.accepted + blocks
            && r.merkleEnd == EndAfterBlocks(db, blocks, st.merkleEnd)
            && r.missed == st.missed + MissedInBlocks(db, blocks, env.answers, st.merkleEnd)
  {
    BundleMetas(s, db, blocks, env.answers, st.height);
    hide NoResets, SentWithin, Bundles, HeightRun, MetaRun, SendBundles, EndAfterBlocks, MissedInBlocks;
    var built := st.(merkleEnd := EndAfterBlocks(db, blocks, st.merkleEnd),
                     missed := st.missed + MissedInBlocks(db, blocks, env.answers, st.merkleEnd),
                     accepted := st.accepted + blocks);
    var done := SendBundles(built, Bundles(db, s, blocks, env.answers), env.sends);
    WithinGrows(st, built, start);
    SendPasses(built, Bundles(db, s, blocks, env.answers), env.sends, start);
    WithinGrows(done, Deliver(s, st, db, blocks, env), start);
  }

  /** The chain is not empty and `h` is not above its ready height. */
  ghost predicate UpTo(db: Snapshot, h: int) {
    db.blocks != map[] && ReadyHeight(db).Some? && h <= ReadyHeight(db).value
  }

  lemma UpToLower(db: Snapshot, h: int, g: int)
    requires UpTo(db, h) && g <= h
    ensures UpTo(db, g)
  {
  }

  lemma BatchBelowReady(st: StreamState, db: Snapshot)
    requires HeightRun(Batch(st, db), st.height) && Batch(st, db) != []
    ensures UpTo(db, st.height + |Batch(st, db)| - 1)
  {
    hide ReadyHeight, BlocksInRange;
    var blocks := Batch(st, db);
    var hi := Min(st.height + BACKLOG_BATCH_SIZE - 1, ReadyHeight(db).value);
    BlocksAscend(db, st.height, hi);
    assert HeightOk(blocks, st.height, |blocks| - 1);
  }

  /** The iteration gets as far as building bundles. */
  ghost predicate Delivers(db: Snapshot, st: StreamState, env: Env) {
    && !st.stopped && !env.closed && db.wallet.Some? && Batch(st, db) != []
    && FirstReset(Batch(st, db), st.height, Boundary(st, db)).None?
  }

  lemma DeliversIs(s: Session, db: Snapshot, st: StreamState, env: Env)
    requires Delivers(db, st, env)
    ensures Iterate(s, st, db, env) == Deliver(s, st.(lastHash := Boundary(st, db)), db, Batch(st, db), env)
    ensures HeightRun(Batch(st, db), st.height) && UpTo(db, st.height + |Batch(st, db)| - 1)
  {
    hide ReadyHeight, BlocksInRange, FirstReset, Deliver, HeightRun, UpTo;
    AcceptedHeights(Batch(st, db), st.height, Boundary(st, db));
    BatchBelowReady(st, db);
  }

  lemma OtherwiseQuiet(s: Session, db: Snapshot, st: StreamState, env: Env)
    requires !Delivers(db, st, env)
    ensures var next := Iterate(s, st, db, env);
            && Quiet(st.sent, next.sent)
            && next == st.(lastHash := next.lastHash, sent := next.sent, stopped := next.stopped)
            && (st.stopped ==> next.stopped)
  {
    hide ReadyHeight, ChainHead, BlocksInRange, FirstReset, Deliver;
  }

  /** An iteration never passes the snapshot's ready height. */
  lemma IterateGated(s: Session, db: Snapshot, st: StreamState, env: Env, start: int)
    requires SentWithin(st, start)
    ensures var next := Iterate(s, st, db, env);
            && SentWithin(next, start) && st.height <= next.height
            && (st.height < next.height ==> UpTo(db, next.height - 1))
  {
    hide Iterate, Delivers, Batch, Deliver, HeightRun, UpTo, SentWithin, EndAfterBlocks, MissedInBlocks;
    var next := Iterate(s, st, db, env);
    if Delivers(db, st, env) {
      var blocks, checked := Batch(st, db), st.(lastHash := Boundary(st, db));
      DeliversIs(s, db, st, env);
      WithinGrows(st, checked, start);
      assert blocks != [] && !st.stopped by {
        DeliversMeans(db, st, env);
      }
      DeliverPasses(s, checked, db, blocks, env, start);
      UpToLower(db, st.height + |blocks| - 1, next.height - 1);
    } else {
      OtherwiseQuiet(s, db, st, env);
      WithinGrows(st, next, start);
    }
  }

  lemma DeliversMeans(db: Snapshot, st: StreamState, env: Env)
    requires Delivers(db, st, env)
    ensures Batch(st, db) != [] && !st.stopped
  {
  }

  ghost predicate Gated(db: Snapshot, st: StreamState, start: int) {
    && SentWithin(st, start)
    && (start < st.height ==> UpTo(db, st.height - 1))
  }

  lemma {:induction false} GatedRun(s: Session, w: World, steps: seq<Step>, start: int)
    requires WellFormed(w.db) && LegalRun(s, w, steps) && Gated(w.db, w.stream, start)
    ensures Gated(Run(s, w, steps).db, Run(s, w, steps).stream, start)
    decreases |steps|
  {
    hide WellFormed, Later, Legal, Apply, Iterate, SentWithin, ReadyHeight;
    if steps == [] {
    } else {
      var next := Take(s, w, steps[0]);
      match steps[0] {
        case Change(a) =>
          ApplyIsLater(w.db, a);
          if start < w.stream.height {
            ReadyHeightNeverFalls(w.db, next.db);
            LaterNotEmpty(w.db, next.db);
          }
        case Iteration(env) =>
          IterateGated(s, w.db, w.stream, env, start);
      }
      GatedRun(s, next, steps[1..], start);
    }
  }

  lemma LaterNotEmpty(d: Snapshot, e: Snapshot)
    requires Later(d, e) && d.blocks != map[]
    ensures e.blocks != map[]
  {
    assert ChainHead(d) in e.blocks;
  }

  /** At no point of any run has a block been sent that lies above the ready height of that moment. */
  lemma NothingAboveReady(s: Session, db: Snapshot, fromHeight: Option<i64>, c: Option<SequenceKey>,
                          steps: seq<Step>, e: SseEvent)
    requires WellFormed(db) && LegalRun(s, World(db, Start(fromHeight, c)), steps)
    requires e in Run(s, World(db, Start(fromHeight, c)), steps).stream.sent && e.BlockEvent?
    ensures UpTo(Run(s, World(db, Start(fromHeight, c)), steps).db, e.bundle.meta.height)
  {
    GatedRun(s, World(db, Start(fromHeight, c)), steps, StartHeight(fromHeight, c));
  }

  // ---- What a block event holds ----

  /** Every block event holds a stored block and at least one item. */
  ghost predicate SentStored(db: Snapshot, sent: seq<SseEvent>) {
    forall e :: e in sent && e.BlockEvent? ==>
      && e.bundle.items != [] && e.bundle.meta.height in db.blocks
      && e.bundle.meta.row == db.blocks[e.bundle.meta.height]
  }

  ghost predicate MetasStored(db: Snapshot, bundles: seq<BlockBundle>) {
    forall b :: b in bundles ==> b.meta.height in db.blocks && b.meta.row == db.blocks[b.meta.height]
  }

  lemma AdvanceStores(db: Snapshot, st: StreamState, b: BlockBundle)
    requires SentStored(db, st.sent) && MetasStored(db, [b])
    ensures SentStored(db, Advance(st, b).sent)
  {
    hide Kept;
    assert b in [b];
  }

  lemma {:induction false} SendStores(db: Snapshot, st: StreamState, bundles: seq<BlockBundle>, sends: nat)
    requires SentStored(db, st.sent) && MetasStored(db, bundles)
    ensures SentStored(db, SendBundles(st, bundles, sends).sent)
    decreases |bundles|
  {
    hide Kept, Advance, SentStored;
    if bundles == [] {
    } else {
      assert bundles[0] in bundles && forall b :: b in bundles[1..] ==> b in bundles;
      AdvanceStores(db, st, bundles[0]);
      SendStores(db, Advance(st, bundles[0]), bundles[1..], sends);
      if sends > 0 {
        SendStores(db, Advance(st, bundles[0]), bundles[1..], sends - 1);
      }
    }
  }

  lemma BundlesStored(s: Session, db: Snapshot, lo: int, hi: int, answers: seq<seq<Updates>>)
    ensures MetasStored(db, Bundles(db, s, BlocksInRange(db, lo, hi), answers))
  {
    hide BlocksInRange, BundleItems;
    BlocksAscend(db, lo, hi);
  }

  lemma QuietStores(db: Snapshot, a: seq<SseEvent>, b: seq<SseEvent>)
    requires SentStored(db, a) && Quiet(a, b)
    ensures SentStored(db, b)
  {
  }

  lemma BatchMetasStored(s: Session, db: Snapshot, st: StreamState, env: Env)
    requires Batch(st, db) != []
    ensures MetasStored(db, Bundles(db, s, Batch(st, db), env.answers))
  {
    hide BlocksInRange, ReadyHeight, Bundles;
    BundlesStored(s, db, st.height, Min(st.height + BACKLOG_BATCH_SIZE - 1, ReadyHeight(db).value), env.answers);
  }

  lemma IterateStores(s: Session, db: Snapshot, st: StreamState, env: Env)
    requires SentStored(db, st.sent)
    ensures SentStored(db, Iterate(s, st, db, env).sent)
  {
    hide Iterate, Delivers, Batch, SentStored, HeightRun, UpTo, Bundles, SendBundles, EndAfterBlocks, MissedInBlocks;
    if Delivers(db, st, env) {
      var blocks, checked := Batch(st, db), st.(lastHash := Boundary(st, db));
      DeliversIs(s, db, st, env);
      DeliversMeans(db, st, env);
      BatchMetasStored(s, db, st, env);
      var built := checked.(merkleEnd := EndAfterBlocks(db, blocks, checked.merkleEnd),
                            missed := checked.missed + MissedInBlocks(db, blocks, env.answers, checked.merkleEnd),
                            accepted := checked.accepted + blocks);
      SendStores(db, built, Bundles(db, s, blocks, env.answers), env.sends);
    } else {
      OtherwiseQuiet(s, db, st, env);
      QuietStores(db, st.sent, Iterate(s, st, db, env).sent);
    }
  }

  lemma LaterStores(d: Snapshot, e: Snapshot, sent: seq<SseEvent>)
    requires Later(d, e) && SentStored(d, sent)
    ensures SentStored(e, sent)
  {
  }

  lemma {:induction false} StoredRun(s: Session, w: World, steps: seq<Step>)
    requires WellFormed(w.db) && LegalRun(s, w, steps) && SentStored(w.db, w.stream.sent)
    ensures SentStored(Run(s, w, steps).db, Run(s, w, steps).stream.sent)
    decreases |steps|
  {
    hide WellFormed, Later, Legal, Apply, Iterate, SentStored;
    if steps == [] {
    } else {
      var next := Take(s, w, steps[0]);
      match steps[0] {
        case Change(a) =>
          ApplyIsLater(w.db, a);
          LaterStores(w.db, next.db, w.stream.sent);
        case Iteration(env) =>
          IterateStores(s, w.db, w.stream, env);
      }
      StoredRun(s, next, steps[1..]);
    }
  }

  /** No run sends an empty block, or one that is not stored as sent. */
  lemma SentBlocksAreStored(s: Session, db: Snapshot, fromHeight: Option<i64>, c: Option<SequenceKey>, steps: seq<Step>,
                            e: SseEvent)
    requires WellFormed(db) && LegalRun(s, World(db, Start(fromHeight, c)), steps)
    requires e in Run(s, World(db, Start(fromHeight, c)), steps).stream.sent && e.BlockEvent?
    ensures var w := Run(s, World(db, Start(fromHeight, c)), steps);
            && e.bundle.items != [] && e.bundle.meta.height in w.db.blocks
            && e.bundle.meta.row == w.db.blocks[e.bundle.meta.height]
  {
    hide WellFormed, LegalRun, Run;
    StoredRun(s, World(db, Start(fromHeight, c)), steps);
  }

  // ---- Well-linked chains ----

  /** A running stream's boundary hash is that of the block below its height. */
  ghost predicate Tracks(db: Snapshot, st: StreamState) {
    && st.height >= 0
    && (!st.stopped && st.lastHash.Some? ==> HashAt(db, st.height - 1) == st.lastHash)
  }

  ghost predicate CanDeliver(db: Snapshot, st: StreamState, env: Env) {
    && !st.stopped && !env.closed && db.wallet.Some?
    && UpTo(db, st.height)
  }

  /** The first height the iteration does not fetch. */
  function NextHeight(db: Snapshot, st: StreamState): int
    requires ReadyHeight(db).Some?
  {
    Min(st.height + BACKLOG_BATCH_SIZE, ReadyHeight(db).value + 1)
  }

  lemma LinkedBatchIs(db: Snapshot, st: StreamState)
    requires Linked(db) && WellFormed(db) && Tracks(db, st) && UpTo(db, st.height) && !st.stopped
    ensures var blocks := Batch(st, db);
            && |blocks| == NextHeight(db, st) - st.height && blocks != []
            && FirstReset(blocks, st.height, Boundary(st, db)).None?
            && HashAt(db, NextHeight(db, st) - 1) == Some(blocks[|blocks| - 1].row.hash)
  {
    hide FirstReset, BlocksInRange, ReadyHeight, WellFormed;
    var hi := NextHeight(db, st) - 1;
    ReadyHeightIsGreatest(db);
    LinkedBatch(db, st.height, hi);
    LinkedAccepted(db, st.height, hi, Boundary(st, db));
  }

  lemma NothingStored(db: Snapshot, st: StreamState)
    requires db.blocks == map[]
    ensures Batch(st, db) == []
  {
    hide ReadyHeight;
    assert forall lo, hi :: Heights(db, lo, hi) == {};
  }

  /** On a well-linked chain an iteration never refuses, and with a live client it passes a whole batch. */
  lemma IterateLinked(s: Session, db: Snapshot, st: StreamState, env: Env, start: int)
    requires Linked(db) && WellFormed(db) && Tracks(db, st) && SentWithin(st, start)
    ensures var next := Iterate(s, st, db, env);
            && Tracks(db, next) && (NoResets(st.sent) ==> NoResets(next.sent))
            && (CanDeliver(db, st, env) && env.sends >= BACKLOG_BATCH_SIZE ==>
                  !next.stopped && next.height == NextHeight(db, st))
  {
    hide Linked, WellFormed, ReadyHeight, FirstReset, Iterate, Batch, Deliver, HeightRun, SentWithin,
         EndAfterBlocks, MissedInBlocks, NoResets;
    var blocks, checked := Batch(st, db), st.(lastHash := Boundary(st, db));
    if CanDeliver(db, st, env) {
      LinkedBatchIs(db, st);
      DeliversIs(s, db, st, env);
      WithinGrows(st, checked, start);
      DeliverPasses(s, checked, db, blocks, env, start);
    } else {
      LinkedWaits(s, db, st, env);
    }
  }

  lemma LinkedWaits(s: Session, db: Snapshot, st: StreamState, env: Env)
    requires !CanDeliver(db, st, env)
    ensures var next := Iterate(s, st, db, env);
            && (NoResets(st.sent) ==> NoResets(next.sent))
            && next == st.(sent := next.sent, stopped := next.stopped)
            && (st.stopped ==> next.stopped)
  {
    hide ReadyHeight, ChainHead, BlocksInRange, FirstReset, Deliver;
    if db.blocks == map[] {
      NothingStored(db, st);
    }
  }

  ghost predicate AlwaysLinked(s: Session, w: World, steps: seq<Step>)
    decreases |steps|
  {
    Linked(w.db) && (steps != [] ==> AlwaysLinked(s, Take(s, w, steps[0]), steps[1..]))
  }

  lemma LaterTracks(d: Snapshot, e: Snapshot, st: StreamState)
    requires Later(d, e) && Tracks(d, st)
    ensures Tracks(e, st)
  {
  }

  lemma {:induction false} LinkedRun(s: Session, w: World, steps: seq<Step>, start: int)
    requires WellFormed(w.db) && LegalRun(s, w, steps) && AlwaysLinked(s, w, steps)
    requires Tracks(w.db, w.stream) && SentWithin(w.stream, start) && NoResets(w.stream.sent)
    ensures NoResets(Run(s, w, steps).stream.sent)
    decreases |steps|
  {
    hide WellFormed, Linked, Later, Legal, Apply, Iterate, SentWithin, NoResets, Tracks;
    if steps == [] {
    } else {
      var next := Take(s, w, steps[0]);
      match steps[0] {
        case Change(a) =>
          ApplyIsLater(w.db, a);
          LaterTracks(w.db, next.db, w.stream);
        case Iteration(env) =>
          IterateLinked(s, w.db, w.stream, env, start);
          IterateGated(s, w.db, w.stream, env, start);
      }
      LinkedRun(s, next, steps[1..], start);
    }
  }

  /** While the chain stays gapless and well linked, no run of the stream ever sends a reset. */
  lemma NoResetOnLinkedChain(s: Session, db: Snapshot, fromHeight: Option<i64>, c: Option<SequenceKey>,
                             steps: seq<Step>)
    requires WellFormed(db) && LegalRun(s, World(db, Start(fromHeight, c)), steps)
    requires AlwaysLinked(s, World(db, Start(fromHeight, c)), steps)
    ensures NoResets(Run(s, World(db, Start(fromHeight, c)), steps).stream.sent)
  {
    LinkedRun(s, World(db, Start(fromHeight, c)), steps, StartHeight(fromHeight, c));
  }
}
