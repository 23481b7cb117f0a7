/** The tiling of the commitment tree over whole runs of the stream. */
module TreeRuns {
  import opened Prelude
  import opened Seqs
  import opened Sequence
  import opened Sorting
  import opened Tables
  import opened Queries
  import opened Assembly
  import opened Scan
  import opened StreamSpec
  import opened ExactlyOnce
  import opened StreamProgress
  import opened MerkleTiling

  /** The items tile the tree up to `last`, but for the holes `missed`. */
  ghost predicate Tiles(e: Snapshot, items: seq<OrderedFeedItem>, last: i64, missed: seq<(i64, i64)>) {
    LayAll(FRESH, Spans(e, items)) == Tiling(Max(last, 0), missed, false)
  }

  /** A batch of blocks h, h + 1, ... with the answers to its lookups, met at position `last`. */
  datatype Load = Load(db: Snapshot, blocks: seq<BlockMeta>, answers: seq<seq<Updates>>, last: i64, h: int)

  function EndAt(b: Load, n: nat): i64
    requires n <= |b.blocks|
  {
    EndAfterBlocks(b.db, b.blocks[..n], b.last)
  }

  function MissedAt(b: Load, n: nat): seq<(i64, i64)>
    requires n <= |b.blocks|
  {
    MissedInBlocks(b.db, b.blocks[..n], b.answers, b.last)
  }

  ghost predicate Sound(e: Snapshot, b: Load) {
    && IncreasingRanges(e) && Extends(b.db.txs, e.txs)
    && HeightRun(b.blocks, b.h) && GoodLookups(b.db, b.blocks, b.answers, b.last)
  }

  lemma {:induction false} LookupsAt(b: Load, n: nat, k: nat)
    requires k < n <= |b.blocks| && GoodLookups(b.db, b.blocks[..n], b.answers, b.last)
    ensures var rows := RelevantRows(b.db, b.blocks[k].height, b.blocks[k].height);
            GoodAnswers(rows, Fit(At(b.answers, k), |rows|), EndAt(b, k))
    decreases n
  {
    assert b.blocks[..n][..n - 1] == b.blocks[..n - 1];
    if k >= n - 1 {
    } else {
      LookupsAt(b, n - 1, k);
    }
  }

  lemma NextBlock(b: Load, k: nat)
    requires k < |b.blocks|
    ensures var rows := RelevantRows(b.db, b.blocks[k].height, b.blocks[k].height);
            && EndAt(b, k + 1) == EndAfter(rows, EndAt(b, k))
            && MissedAt(b, k + 1) == MissedAt(b, k) + Missed(rows, Fit(At(b.answers, k), |rows|), EndAt(b, k))
  {
    hide RelevantRows, EndAfter, Missed;
    assert b.blocks[..k + 1][..k] == b.blocks[..k];
  }

  lemma {:induction false} MissedGrows(b: Load, k: nat, n: nat)
    requires k <= n <= |b.blocks|
    ensures MissedAt(b, k) <= MissedAt(b, n)
    decreases n - k
  {
    hide MissedAt;
    if k >= n {
    } else {
      NextBlock(b, k);
      MissedGrows(b, k + 1, n);
    }
  }

  /** After `n` blocks of the batch the tiling by `items` stands where the batch's bookkeeping says. */
  ghost predicate Reached(e: Snapshot, b: Load, items: seq<OrderedFeedItem>, missed: seq<(i64, i64)>, n: nat)
    requires n <= |b.blocks|
  {
    Tiles(e, items, EndAt(b, n), missed + MissedAt(b, n)) && Anchored(e, EndAt(b, n), b.h + n)
  }

  lemma HeightAt(blocks: seq<BlockMeta>, h: int, k: nat)
    requires HeightRun(blocks, h) && k < |blocks|
    ensures blocks[k].height == h + k
  {
    assert HeightOk(blocks, h, k);
  }

  lemma StepReaches(e: Snapshot, s: Session, b: Load, items: seq<OrderedFeedItem>, missed: seq<(i64, i64)>, k: nat,
                    own: seq<OrderedFeedItem>)
    requires k < |b.blocks| && Sound(e, b) && Reached(e, b, items, missed, k)
    requires own == Bundle(b.db, s, b.blocks[k], At(b.answers, k)).items
    ensures Reached(e, b, items + own, missed, k + 1)
  {
    hide Bundle, RelevantRows, EndAt, MissedAt, Anchored, Spans, IncreasingRanges, Extends, GoodLookups, GoodAnswers,
         LayAll, EndAfter, Missed, HeightOk, At;
    HeightAt(b.blocks, b.h, k);
    LookupsInBatch(b, k);
    NextBlock(b, k);
    var t := LayAll(FRESH, Spans(e, items));
    BundleTiles(e, b.db, s, b.blocks[k], At(b.answers, k), EndAt(b, k), t);
    SpansConcat(e, items, own);
    LayConcat(FRESH, Spans(e, items), Spans(e, own));
  }

  lemma LookupsInBatch(b: Load, k: nat)
    requires k < |b.blocks| && GoodLookups(b.db, b.blocks, b.answers, b.last)
    ensures var rows := RelevantRows(b.db, b.blocks[k].height, b.blocks[k].height);
            GoodAnswers(rows, Fit(At(b.answers, k), |rows|), EndAt(b, k))
  {
    hide RelevantRows, GoodAnswers, EndAt, GoodLookups;
    assert b.blocks[..|b.blocks|] == b.blocks;
    LookupsAt(b, |b.blocks|, k);
  }

  // ---- What the start cursor holds back ----

  function AtOrBefore(c: SequenceKey): Item -> bool {
    (x: Item) => !Less(c, x.key)
  }

  lemma {:induction false} SortedSplit(items: seq<Item>, c: SequenceKey)
    requires Sorted(items)
    ensures Filter(items, AtOrBefore(c)) + Filter(items, After(Some(c))) == items
  {
    if items == [] {
    } else {
      SortedSplit(items[1..], c);
      if After(Some(c))(items[0]) {
        forall x | x in items
          ensures !AtOrBefore(c)(x)
        {
          var j :| 0 <= j < |items| && items[j] == x;
        }
        FilterNone(items, AtOrBefore(c));
        FilterAll(items, After(Some(c)));
      }
    }
  }

  /** The items the retain filter takes out of a bundle: those at or before the cursor. */
  ghost predicate HeldBack(s: Session, c: Option<SequenceKey>, held: seq<OrderedFeedItem>) {
    held == [] ||
    (c.Some? && exists db, answers ::
       held == Map(Render(), Filter(BundleItems(db, s, c.value.blockHeight, answers), AtOrBefore(c.value))))
  }

  /** Of a sorted bundle they are the front. */
  lemma HoldBack(db: Snapshot, s: Session, meta: BlockMeta, answers: seq<Updates>, c: SequenceKey)
    returns (held: seq<OrderedFeedItem>)
    requires meta.height == c.blockHeight
    ensures HeldBack(s, Some(c), held)
    ensures held + Filter(Bundle(db, s, meta, answers).items, KeepAfter(c)) == Bundle(db, s, meta, answers).items
  {
    hide BundleItems, Filter, Map, KeepAfter;
    var items := BundleItems(db, s, c.blockHeight, answers);
    held := Map(Render(), Filter(items, AtOrBefore(c)));
    BundleSorted(db, s, c.blockHeight, answers);
    SortedSplit(items, c);
    RetainIsKeyFilter(items, c);
    MapConcat(Render(), Filter(items, AtOrBefore(c)), Filter(items, After(Some(c))));
  }

  lemma BundleSorted(db: Snapshot, s: Session, h: int, answers: seq<Updates>)
    ensures Sorted(BundleItems(db, s, h, answers))
  {
    hide Pushed;
    SortSorts(Pushed(db, s, h, answers));
  }

  /** The cursor is the start cursor, and nothing has been sent or held back before it is used up. */
  ghost predicate CursorWaits(st: StreamState, c: Option<SequenceKey>, held: seq<OrderedFeedItem>) {
    st.cursor.Some? ==>
      && st.cursor == c && c.value.blockHeight <= st.height
      && (c.value.blockHeight == st.height ==> held == [] && Delivered(st.sent) == [])
  }

  lemma AdvanceDelivers(st: StreamState, b: BlockBundle)
    ensures Delivered(Advance(st, b).sent) == Delivered(st.sent) + Kept(st, b)
    ensures Advance(st, b).stopped == st.stopped && Advance(st, b).height == b.meta.height + 1
    ensures Advance(st, b).cursor == if CursorHits(st, b) then None else st.cursor
  {
    hide Kept;
    DeliveredSnoc(st.sent, BlockEvent(BlockBundle(b.meta, Kept(st, b))));
  }

  /** Held back or delivered, every item of the next bundle is accounted for. */
  lemma NextHeld(s: Session, db: Snapshot, meta: BlockMeta, answers: seq<Updates>, st: StreamState,
                 c: Option<SequenceKey>, held: seq<OrderedFeedItem>) returns (now: seq<OrderedFeedItem>)
    requires CursorWaits(st, c, held) && HeldBack(s, c, held) && meta.height == st.height
    ensures var b := Bundle(db, s, meta, answers);
            && HeldBack(s, c, now) && CursorWaits(Advance(st, b), c, now)
            && now + Delivered(Advance(st, b).sent) == held + Delivered(st.sent) + b.items
  {
    hide Bundle, HeldBack, Delivered, Advance, Kept, Filter;
    var b := Bundle(db, s, meta, answers);
    MetaOf(db, s, meta, answers);
    AdvanceDelivers(st, b);
    KeptIs(st, b);
    now := held;
    if CursorHits(st, b) {
      now := HoldBack(db, s, meta, answers, c.value);
      assert [] + [] + b.items == b.items;
    } else {
      assert held + (Delivered(st.sent) + b.items) == held + Delivered(st.sent) + b.items;
    }
  }

  lemma KeptIs(st: StreamState, b: BlockBundle)
    ensures Kept(st, b) == if CursorHits(st, b) then Filter(b.items, KeepAfter(st.cursor.value)) else b.items
  {
  }

  lemma MetaOf(db: Snapshot, s: Session, meta: BlockMeta, answers: seq<Updates>)
    ensures Bundle(db, s, meta, answers).meta == meta
  {
  }

  lemma StopWaits(st: StreamState, next: StreamState, c: Option<SequenceKey>, held: seq<OrderedFeedItem>)
    requires CursorWaits(st, c, held) && (next.cursor.None? || next.cursor == st.cursor)
    ensures CursorWaits(st.(cursor := next.cursor, stopped := true), c, held)
  {
  }

  /** A stream that sends a batch keeps the tiling, wherever a failed send cuts it. */
  lemma {:induction false} SendTiles(e: Snapshot, s: Session, b: Load, st: StreamState, missed: seq<(i64, i64)>,
                                     k: nat, sends: nat, c: Option<SequenceKey>, held: seq<OrderedFeedItem>)
    returns (n: nat, now: seq<OrderedFeedItem>)
    requires k <= |b.blocks| && Sound(e, b) && st.height == b.h + k && !st.stopped
    requires CursorWaits(st, c, held) && HeldBack(s, c, held)
    requires Reached(e, b, held + Delivered(st.sent), missed, k)
    ensures HeldBack(s, c, now) && n <= |b.blocks|
    ensures var r := SendBundles(st, Bundles(b.db, s, b.blocks, b.answers)[k..], sends);
            && CursorWaits(r, c, now) && Reached(e, b, now + Delivered(r.sent), missed, n)
            && (!r.stopped ==> n == |b.blocks|)
    decreases |b.blocks| - k
  {
    var bundles := Bundles(b.db, s, b.blocks, b.answers);
    hide Sound, Reached, Bundle, Kept, Advance, HeldBack, CursorWaits, Delivered, At;
    n, now := k, held;
    if k < |b.blocks| {
      var own := Bundle(b.db, s, b.blocks[k], At(b.answers, k));
      assert bundles[k..][0] == own && bundles[k..][1..] == bundles[k + 1..];
      HeightOfBlock(e, b, k);
      MetaOf(b.db, s, b.blocks[k], At(b.answers, k));
      AdvanceDelivers(st, own);
      StepReaches(e, s, b, held + Delivered(st.sent), missed, k, own.items);
      var next := Advance(st, own);
      var later := NextHeld(s, b.db, b.blocks[k], At(b.answers, k), st, c, held);
      if Kept(st, own) == [] {
        n, now := SendTiles(e, s, b, next, missed, k + 1, sends, c, later);
      } else if sends > 0 {
        n, now := SendTiles(e, s, b, next, missed, k + 1, sends - 1, c, later);
      } else {
        StopWaits(st, next, c, held);
      }
    }
  }

  lemma HeightOfBlock(e: Snapshot, b: Load, k: nat)
    requires Sound(e, b) && k < |b.blocks|
    ensures b.blocks[k].height == b.h + k
  {
    hide IncreasingRanges, Extends, GoodLookups;
    HeightAt(b.blocks, b.h, k);
  }

  // ---- One iteration ----

  /**
   * The items held back and delivered so far, in that order, tile the tree up to the stream's position;
   * or, if a failed send has cut a batch, they are the front of such a tiling.
   */
  ghost predicate Follows(e: Snapshot, s: Session, st: StreamState, c: Option<SequenceKey>,
                          held: seq<OrderedFeedItem>, cut: bool)
  {
    && HeldBack(s, c, held) && CursorWaits(st, c, held)
    && if cut then
         var t := LayAll(FRESH, Spans(e, held + Delivered(st.sent)));
         st.stopped && !t.overlaps && t.holes <= st.missed
       else Tiles(e, held + Delivered(st.sent), st.merkleEnd, st.missed) && Anchored(e, st.merkleEnd, st.height)
  }

  /** Every gap lookup of an iteration came back with nothing or with an exact cover. */
  ghost predicate LookedUp(db: Snapshot, st: StreamState, env: Env) {
    GoodLookups(db, Batch(st, db), env.answers, st.merkleEnd)
  }

  lemma FrontOfTiling(e: Snapshot, b: Load, items: seq<OrderedFeedItem>, missed: seq<(i64, i64)>, n: nat)
    requires n <= |b.blocks| && Reached(e, b, items, missed, n)
    ensures var t := LayAll(FRESH, Spans(e, items));
            !t.overlaps && t.holes <= missed + MissedInBlocks(b.db, b.blocks, b.answers, b.last)
  {
    assert b.blocks[..|b.blocks|] == b.blocks;
    MissedGrows(b, n, |b.blocks|);
  }

  lemma DeliverFollows(e: Snapshot, s: Session, db: Snapshot, st: StreamState, blocks: seq<BlockMeta>, env: Env,
                       c: Option<SequenceKey>, held: seq<OrderedFeedItem>) returns (now: seq<OrderedFeedItem>)
    requires Follows(e, s, st, c, held, false) && !st.stopped && blocks != []
    requires Sound(e, Load(db, blocks, env.answers, st.merkleEnd, st.height))
    requires !Deliver(s, st, db, blocks, env).stopped ==>
      Deliver(s, st, db, blocks, env).height == st.height + |blocks|
    ensures var next := Deliver(s, st, db, blocks, env); Follows(e, s, next, c, now, next.stopped)
  {
    hide Sound, Tiles, Anchored, Bundles, GoodLookups, SendBundles, HeldBack, Delivered, LayAll, Spans, MissedInBlocks,
         EndAfterBlocks;
    var b := Load(db, blocks, env.answers, st.merkleEnd, st.height);
    var built := st.(merkleEnd := EndAfterBlocks(db, blocks, st.merkleEnd),
                     missed := st.missed + MissedInBlocks(db, blocks, env.answers, st.merkleEnd),
                     accepted := st.accepted + blocks);
    var bundles := Bundles(db, s, blocks, env.answers);
    assert bundles[0..] == bundles && blocks[..0] == [] && blocks[..|blocks|] == blocks;
    NothingMissed(db, env.answers, st.merkleEnd);
    assert st.missed + [] == st.missed;
    var n;
    n, now := SendTiles(e, s, b, built, st.missed, 0, env.sends, c, held);
    var done := SendBundles(built, bundles, env.sends);
    SendOnlyMoves(built, bundles, env.sends);
    if done.stopped {
      FrontOfTiling(e, b, now + Delivered(done.sent), st.missed, n);
    }
  }

  lemma NothingMissed(db: Snapshot, answers: seq<seq<Updates>>, last: i64)
    ensures MissedInBlocks(db, [], answers, last) == [] && EndAfterBlocks(db, [], last) == last
  {
  }

  lemma {:induction false} SendOnlyMoves(st: StreamState, bundles: seq<BlockBundle>, sends: nat)
    ensures var r := SendBundles(st, bundles, sends);
            r == st.(height := r.height, cursor := r.cursor, sent := r.sent, stopped := r.stopped)
    decreases |bundles|
  {
    hide Kept;
    if bundles == [] {
    } else {
      SendOnlyMoves(Advance(st, bundles[0]), bundles[1..], sends);
      if sends > 0 {
        SendOnlyMoves(Advance(st, bundles[0]), bundles[1..], sends - 1);
      }
    }
  }

  lemma QuietFollows(e: Snapshot, s: Session, st: StreamState, next: StreamState, c: Option<SequenceKey>,
                     held: seq<OrderedFeedItem>, cut: bool)
    requires Follows(e, s, st, c, held, cut) && Quiet(st.sent, next.sent)
    requires next == st.(lastHash := next.lastHash, sent := next.sent, stopped := next.stopped)
    requires st.stopped ==> next.stopped
    ensures Follows(e, s, next, c, held, cut)
  {
    hide HeldBack, Tiles, Anchored, LayAll, Spans;
    if next.sent != st.sent {
      DeliveredSnoc(st.sent, next.sent[|st.sent|]);
      assert next.sent == st.sent + [next.sent[|st.sent|]];
      assert Delivered(next.sent) == Delivered(st.sent);
    }
  }

  /** A failed send cut the batch of this iteration. */
  ghost predicate CutsBatch(s: Session, db: Snapshot, st: StreamState, env: Env) {
    Delivers(db, st, env) && Iterate(s, st, db, env).stopped
  }

  lemma CutIsStopped(e: Snapshot, s: Session, st: StreamState, c: Option<SequenceKey>, held: seq<OrderedFeedItem>)
    requires Follows(e, s, st, c, held, true)
    ensures st.stopped
  {
  }

  lemma IterateFollows(e: Snapshot, s: Session, db: Snapshot, st: StreamState, env: Env, start: int,
                       c: Option<SequenceKey>, held: seq<OrderedFeedItem>, cut: bool)
    returns (now: seq<OrderedFeedItem>)
    requires Follows(e, s, st, c, held, cut) && IncreasingRanges(e) && Extends(db.txs, e.txs) && LookedUp(db, st, env)
    requires SentWithin(st, start)
    ensures Follows(e, s, Iterate(s, st, db, env), c, now, cut || CutsBatch(s, db, st, env))
  {
    hide Follows, Iterate, Delivers, Batch, Deliver, HeightRun, GoodLookups, UpTo, IncreasingRanges, Extends,
         EndAfterBlocks, MissedInBlocks, SentWithin;
    var next := Iterate(s, st, db, env);
    now := held;
    if Delivers(db, st, env) {
      var blocks, checked := Batch(st, db), st.(lastHash := Boundary(st, db));
      DeliversMeans(db, st, env);
      DeliversIs(s, db, st, env);
      if cut {
        CutIsStopped(e, s, st, c, held);
      } else {
        QuietFollows(e, s, st, checked, c, held, false);
        WithinGrows(st, checked, start);
        DeliverPasses(s, checked, db, blocks, env, start);
        now := DeliverFollows(e, s, db, checked, blocks, env, c, held);
      }
    } else {
      OtherwiseQuiet(s, db, st, env);
      QuietFollows(e, s, st, next, c, held, cut);
    }
  }

  // ---- Runs ----

  /** In every iteration of the run the lookups answered with nothing or with exact covers. */
  ghost predicate AlwaysLookedUp(s: Session, w: World, steps: seq<Step>)
    decreases |steps|
  {
    steps != [] ==>
      && (steps[0].Iteration? ==> LookedUp(w.db, w.stream, steps[0].env))
      && AlwaysLookedUp(s, Take(s, w, steps[0]), steps[1..])
  }

  lemma {:induction false} RunGrows(s: Session, w: World, steps: seq<Step>)
    requires WellFormed(w.db) && LegalRun(s, w, steps)
    ensures WellFormed(Run(s, w, steps).db) && Later(w.db, Run(s, w, steps).db)
    decreases |steps|
  {
    hide Later, WellFormed, Iterate, Apply, Legal;
    LaterReflexive(w.db);
    if steps == [] {
    } else {
      if steps[0].Change? {
        ApplyIsLater(w.db, steps[0].action);
      }
      RunGrows(s, Take(s, w, steps[0]), steps[1..]);
      LaterTransitive(w.db, Take(s, w, steps[0]).db, Run(s, w, steps).db);
    }
  }

  lemma LaterExtends(d: Snapshot, e: Snapshot)
    requires Later(d, e)
    ensures Extends(d.txs, e.txs)
  {
  }

  /** Some iteration of the run had its batch cut by a failed send. */
  ghost predicate CutShort(s: Session, w: World, steps: seq<Step>)
    decreases |steps|
  {
    steps != [] &&
    ((steps[0].Iteration? && CutsBatch(s, w.db, w.stream, steps[0].env))
     || CutShort(s, Take(s, w, steps[0]), steps[1..]))
  }

  lemma {:induction false} RunFollows(e: Snapshot, s: Session, w: World, steps: seq<Step>, start: int,
                                      c: Option<SequenceKey>, held: seq<OrderedFeedItem>, cut: bool)
    returns (now: seq<OrderedFeedItem>)
    requires WellFormed(w.db) && LegalRun(s, w, steps) && AlwaysLookedUp(s, w, steps)
    requires IncreasingRanges(e) && e == Run(s, w, steps).db
    requires Follows(e, s, w.stream, c, held, cut) && SentWithin(w.stream, start)
    ensures Follows(e, s, Run(s, w, steps).stream, c, now, cut || CutShort(s, w, steps))
    decreases |steps|
  {
    hide Later, WellFormed, Iterate, Apply, Legal, Follows, SentWithin, IncreasingRanges, LookedUp, Extends, CutsBatch;
    now := held;
    if steps == [] {
    } else {
      var next := Take(s, w, steps[0]);
      RunGrows(s, w, steps);
      LaterExtends(w.db, e);
      match steps[0] {
        case Change(a) =>
          ApplyIsLater(w.db, a);
          now := RunFollows(e, s, next, steps[1..], start, c, held, cut);
        case Iteration(env) =>
          now := IterateFollows(e, s, w.db, w.stream, env, start, c, held, cut);
          IterateGated(s, w.db, w.stream, env, start);
          now := RunFollows(e, s, next, steps[1..], start, c, now, cut || CutsBatch(s, w.db, w.stream, env));
      }
    }
  }

  lemma StartFollows(e: Snapshot, s: Session, fromHeight: Option<i64>, c: Option<SequenceKey>)
    ensures Follows(e, s, Start(fromHeight, c), c, [], false)
    ensures SentWithin(Start(fromHeight, c), StartHeight(fromHeight, c))
  {
    assert [] + Delivered([]) == [];
  }

  /**
   * Over every run: the Merkle updates and relevant transactions a stream delivers, in delivery order and
   * starting where the items held back by its start cursor end, never overlap and never go back; the
   * holes are exactly the gaps whose lookup found nothing, and the position reached is the stream's own.
   * Only a failed send in the middle of a batch leaves less: the front of that tiling.
   */
  lemma TreeIsTiled(s: Session, db: Snapshot, fromHeight: Option<i64>, c: Option<SequenceKey>, steps: seq<Step>)
    returns (held: seq<OrderedFeedItem>)
    requires WellFormed(db) && LegalRun(s, World(db, Start(fromHeight, c)), steps)
    requires AlwaysLookedUp(s, World(db, Start(fromHeight, c)), steps)
    requires IncreasingRanges(Run(s, World(db, Start(fromHeight, c)), steps).db)
    ensures HeldBack(s, c, held) && (c.None? ==> held == [])
    ensures var start := World(db, Start(fromHeight, c));
            var w := Run(s, start, steps);
            var t := LayAll(LayAll(FRESH, Spans(w.db, held)), Spans(w.db, Delivered(w.stream.sent)));
            if CutShort(s, start, steps) then w.stream.stopped && !t.overlaps && t.holes <= w.stream.missed
            else t == Tiling(Max(w.stream.merkleEnd, 0), w.stream.missed, false)
  {
    var start := World(db, Start(fromHeight, c));
    StartFollows(Run(s, start, steps).db, s, fromHeight, c);
    hide Later, WellFormed, LegalRun, AlwaysLookedUp, Run, IncreasingRanges, Start, CutShort, LayAll, Spans, Delivered;
    var w := Run(s, start, steps);
    held := RunFollows(w.db, s, start, steps, StartHeight(fromHeight, c), c, [], false);
    SpansConcat(w.db, held, Delivered(w.stream.sent));
    LayConcat(FRESH, Spans(w.db, held), Spans(w.db, Delivered(w.stream.sent)));
  }
}
