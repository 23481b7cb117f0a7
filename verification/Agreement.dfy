/** The live stream and the polling feed give the same items, however either one batches. */
module Agreement {
  import opened Prelude
  import opened Sequence
  import opened Tables
  import opened Scan
  import opened StreamSpec
  import opened ExactlyOnce
  import opened StreamProgress
  import opened FeedSpec
  import opened Paging

  /** Iterations that meet an open channel whose sends succeed. */
  ghost predicate Live(steps: seq<Step>) {
    forall step :: step in steps ==>
      step.Iteration? && !step.env.closed && step.env.sends >= BACKLOG_BATCH_SIZE
  }

  lemma {:induction false} LiveIsLegal(s: Session, w: World, steps: seq<Step>)
    requires Live(steps)
    ensures LegalRun(s, w, steps)
    decreases |steps|
  {
    hide Iterate;
    if steps == [] {
    } else {
      assert steps[0] in steps;
      LiveIsLegal(s, Take(s, w, steps[0]), steps[1..]);
    }
  }

  lemma CaughtUpStays(s: Session, st: StreamState, db: Snapshot, env: Env)
    requires !st.stopped && !env.closed && env.sends > 0 && db.wallet.Some?
    requires ReadyHeight(db).Some? && st.height > ReadyHeight(db).value
    ensures Iterate(s, st, db, env).height == st.height && !Iterate(s, st, db, env).stopped
  {
    hide ReadyHeight, ChainHead;
  }

  /** On a fixed well-linked snapshot, a live stream passes up to fifty blocks an iteration and then waits. */
  lemma {:induction false} StreamCatchesUp(s: Session, w: World, steps: seq<Step>, start: int)
    requires Linked(w.db) && WellFormed(w.db) && w.db.wallet.Some? && Live(steps)
    requires Tracks(w.db, w.stream) && SentWithin(w.stream, start) && !w.stream.stopped
    requires UpTo(w.db, w.stream.height - 1)
    requires ReadyHeight(w.db).value - w.stream.height + 1 <= BACKLOG_BATCH_SIZE * |steps|
    ensures var r := Run(s, w, steps);
            r.db == w.db && !r.stream.stopped && r.stream.height == ReadyHeight(w.db).value + 1
    decreases |steps|
  {
    hide Linked, WellFormed, Tracks, SentWithin, ReadyHeight, Iterate;
    if steps == [] {
    } else {
      assert steps[0] in steps;
      var env := steps[0].env;
      IterateGated(s, w.db, w.stream, env, start);
      IterateLinked(s, w.db, w.stream, env, start);
      if w.stream.height > ReadyHeight(w.db).value {
        CaughtUpStays(s, w.stream, w.db, env);
      }
      StreamCatchesUp(s, Take(s, w, steps[0]), steps[1..], start);
    }
  }

  lemma StartsTracking(db: Snapshot, fromHeight: Option<i64>, c: Option<SequenceKey>)
    ensures var st := Start(fromHeight, c);
            && Tracks(db, st) && SentWithin(st, StartHeight(fromHeight, c)) && !st.stopped
            && st.height == StartHeight(fromHeight, c) >= 0 && (c.Some? ==> c.value.blockHeight <= st.height)
  {
  }

  /**
   * On any well-linked snapshot, streaming to the ready height and polling to the last page deliver the
   * same items in the same order, for every page limit.
   */
  lemma StreamingIsPolling(s: Session, db: Snapshot, fromHeight: Option<i64>, c: Option<SequenceKey>,
                           steps: seq<Step>, limit: int)
    requires Linked(db) && WellFormed(db) && db.wallet.Some? && limit >= 1
    requires UpTo(db, StartHeight(fromHeight, c)) && Live(steps)
    requires ReadyHeight(db).value - StartHeight(fromHeight, c) + 1 <= BACKLOG_BATCH_SIZE * |steps|
    ensures Content(Run(s, World(db, Start(fromHeight, c)), steps).stream.sent)
         == Polled(Poll(db, s, StartHeight(fromHeight, c), limit, c))
  {
    hide Linked, WellFormed, ReadyHeight, Run, Content, Poll, Polled, Expected, Live, LegalRun, RoundedUp, Later,
         SentWithin, Tracks, Start, StartHeight;
    var start, w := StartHeight(fromHeight, c), World(db, Start(fromHeight, c));
    StartsTracking(db, fromHeight, c);
    PollingIsTheFeed(db, s, start, limit, c);
    UpToLower(db, start, start - 1);
    StreamCatchesUp(s, w, steps, start);
    LiveIsLegal(s, w, steps);
    LaterReflexive(db);
    DeliveredExactlyOnce(s, db, fromHeight, c, steps, db);
  }
}
