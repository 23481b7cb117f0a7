/** Exactly-once delivery over every interleaving of the stream with the two indexers. */
module ExactlyOnce {
  import opened Prelude
  import opened Seqs
  import opened Sequence
  import opened Sorting
  import opened Tables
  import opened Queries
  import opened Contents
  import opened Stability
  import opened Assembly
  import opened Scan
  import opened StreamSpec

  /** The feed of heights [lo, hi) after cursor `c`, as the client sees it. */
  function Expected(db: Snapshot, s: Session, lo: int, hi: int, c: Option<SequenceKey>): seq<OrderedFeedItem> {
    Map(Render(), Filter(FeedOf(db, s, lo, hi), After(c)))
  }

  // ---- Rendered items and their keys ----

  lemma {:induction false} RenderFilter(items: seq<Item>)
    ensures Filter(Map(Render(), items), NotMerkleItem()) == Map(Render(), Filter(items, NotMerkle()))
  {
    if items == [] {
    } else {
      RenderFilter(items[1..]);
      MapConcat(Render(), Filter([items[0]], NotMerkle()), Filter(items[1..], NotMerkle()));
      assert Map(Render(), items) == [Render()(items[0])] + Map(Render(), items[1..]);
      FilterCons(Render()(items[0]), Map(Render(), items[1..]), NotMerkleItem());
      FilterCons(items[0], items[1..], NotMerkle());
      assert items == [items[0]] + items[1..];
      assert Filter([items[0]], NotMerkle()) == if NotMerkle()(items[0]) then [items[0]] else [];
    }
  }

  /** Filtering rendered items by their cursor text is filtering by key; no text fails to parse. */
  lemma {:induction false} RetainIsKeyFilter(items: seq<Item>, c: SequenceKey)
    ensures Filter(Map(Render(), items), KeepAfter(c)) == Map(Render(), Filter(items, After(Some(c))))
  {
    if items == [] {
    } else {
      CursorRoundTrip(items[0].key);
      RetainIsKeyFilter(items[1..], c);
      var p: Item -> bool := After(Some(c));
      assert Map(Render(), items) == [Render()(items[0])] + Map(Render(), items[1..]);
      FilterCons(Render()(items[0]), Map(Render(), items[1..]), KeepAfter(c));
      FilterCons(items[0], items[1..], p);
      assert items == [items[0]] + items[1..];
      if p(items[0]) {
        assert Filter(items, p) == [items[0]] + Filter(items[1..], p);
      } else {
        assert Filter(items, p) == Filter(items[1..], p);
      }
    }
  }

  // ---- The invariant ----

  function CursorAt(c: Option<SequenceKey>, h: int): Option<SequenceKey> {
    if c.Some? && (c.value.blockHeight < 0 || h <= c.value.blockHeight) then c else None
  }

  ghost predicate StartsAt(start: int, c: Option<SequenceKey>) {
    start >= 0 && (c.Some? ==> start == Max(c.value.blockHeight, 0))
  }

  /** Everything below the stream's height is final and has been delivered once, in order. */
  ghost predicate Inv(s: Session, db: Snapshot, st: StreamState, start: int, c: Option<SequenceKey>) {
    && start <= st.height
    && (forall h :: start <= h < st.height ==> Final(db, h))
    && Content(st.sent) == Expected(db, s, start, st.height, c)
    && (!st.stopped ==> st.cursor == CursorAt(c, st.height))
  }

  /** `b` carries the items of block `h`, with some Merkle updates. */
  ghost predicate Carries(s: Session, db: Snapshot, b: BlockBundle, h: int) {
    b.meta.height == h && exists answers :: b.items == Map(Render(), BundleItems(db, s, h, answers))
  }

  lemma PassesCursor(db: Snapshot, s: Session, h: int, c: SequenceKey)
    requires c.blockHeight < h
    ensures Filter(Items(db, s, h), After(Some(c))) == Items(db, s, h)
  {
    forall x | x in Items(db, s, h)
      ensures After(Some(c))(x)
    {
      ItemsHeight(db, s, h, x);
    }
    FilterAll(Items(db, s, h), After(Some(c)));
  }

  lemma NoCursor(items: seq<Item>)
    ensures Filter(items, After(None)) == items
  {
    FilterAll(items, After(None));
  }

  /** What is kept of a bundle is what the block owes after the client's cursor. */
  lemma KeptContent(s: Session, db: Snapshot, st: StreamState, b: BlockBundle, start: int, c: Option<SequenceKey>)
    requires Carries(s, db, b, st.height) && StartsAt(start, c) && start <= st.height
    requires st.cursor == CursorAt(c, st.height)
    ensures Filter(Kept(st, b), NotMerkleItem()) == Map(Render(), Filter(Items(db, s, st.height), After(c)))
  {
    hide Items, BundleItems;
    var h := st.height;
    var answers :| b.items == Map(Render(), BundleItems(db, s, h, answers));
    var items := BundleItems(db, s, h, answers);
    BundleWithoutMerkle(db, s, h, answers);
    if CursorHits(st, b) {
      RetainIsKeyFilter(items, c.value);
      RenderFilter(Filter(items, After(c)));
      FilterCommutes(items, After(c), NotMerkle());
    } else {
      RenderFilter(items);
      if c.Some? {
        PassesCursor(db, s, h, c.value);
      } else {
        NoCursor(Items(db, s, h));
      }
    }
  }

  lemma ExpectedSnoc(db: Snapshot, s: Session, lo: int, h: int, c: Option<SequenceKey>)
    requires lo <= h
    ensures Expected(db, s, lo, h + 1, c)
         == Expected(db, s, lo, h, c) + Map(Render(), Filter(Items(db, s, h), After(c)))
  {
    FilterConcat(FeedOf(db, s, lo, h), Items(db, s, h), After(c));
    MapConcat(Render(), Filter(FeedOf(db, s, lo, h), After(c)), Filter(Items(db, s, h), After(c)));
  }

  lemma AdvanceContent(st: StreamState, b: BlockBundle)
    ensures Content(Advance(st, b).sent) == Content(st.sent) + Filter(Kept(st, b), NotMerkleItem())
  {
    if Kept(st, b) != [] {
      DeliveredSnoc(st.sent, BlockEvent(BlockBundle(b.meta, Kept(st, b))));
      FilterConcat(Delivered(st.sent), Kept(st, b), NotMerkleItem());
    }
  }

  lemma AdvanceKeeps(s: Session, db: Snapshot, st: StreamState, b: BlockBundle, start: int, c: Option<SequenceKey>)
    requires Inv(s, db, st, start, c) && !st.stopped && StartsAt(start, c)
    requires Carries(s, db, b, st.height) && Final(db, st.height)
    ensures Inv(s, db, Advance(st, b), start, c) && !Advance(st, b).stopped
    ensures Advance(st, b).height == st.height + 1
  {
    hide Items, FeedOf, BundleItems, Content, Expected, Final, Kept;
    KeptContent(s, db, st, b, start, c);
    AdvanceContent(st, b);
    ExpectedSnoc(db, s, start, st.height, c);
  }

  lemma StopKeeps(s: Session, db: Snapshot, st: StreamState, cursor: Option<SequenceKey>, start: int,
                  c: Option<SequenceKey>)
    requires Inv(s, db, st, start, c)
    ensures Inv(s, db, st.(cursor := cursor, stopped := true), start, c)
  {
    hide Items, FeedOf, Content, Expected, Final;
  }

  ghost predicate CarryAt(s: Session, db: Snapshot, bundles: seq<BlockBundle>, h: int, i: nat)
    requires i < |bundles|
  {
    Carries(s, db, bundles[i], h + i) && Final(db, h + i)
  }

  /** The bundles carry blocks h, h + 1, ..., all of them final. */
  ghost predicate CarryRun(s: Session, db: Snapshot, bundles: seq<BlockBundle>, h: int) {
    forall i :: 0 <= i < |bundles| ==> CarryAt(s, db, bundles, h, i)
  }

  lemma CarryRunHead(s: Session, db: Snapshot, bundles: seq<BlockBundle>, h: int)
    requires CarryRun(s, db, bundles, h) && bundles != []
    ensures Carries(s, db, bundles[0], h) && Final(db, h)
    ensures CarryRun(s, db, bundles[1..], h + 1)
  {
    hide Carries, Final;
    assert CarryAt(s, db, bundles, h, 0);
    var rest, next := bundles[1..], h + 1;
    forall i | 0 <= i < |rest|
      ensures CarryAt(s, db, rest, next, i)
    {
      assert CarryAt(s, db, bundles, h, i + 1);
    }
  }

  lemma {:induction false} SendKeeps(s: Session, db: Snapshot, st: StreamState, bundles: seq<BlockBundle>, sends: nat,
                                     start: int, c: Option<SequenceKey>)
    requires Inv(s, db, st, start, c) && !st.stopped && StartsAt(start, c)
    requires CarryRun(s, db, bundles, st.height)
    ensures Inv(s, db, SendBundles(st, bundles, sends), start, c)
    ensures !SendBundles(st, bundles, sends).stopped ==>
              SendBundles(st, bundles, sends).height == st.height + |bundles|
    ensures sends >= |bundles| ==> !SendBundles(st, bundles, sends).stopped
    decreases |bundles|
  {
    hide Items, FeedOf, BundleItems, Content, Expected, Final, Inv, Carries, CarryRun;
    if bundles == [] {
    } else {
      CarryRunHead(s, db, bundles, st.height);
      AdvanceKeeps(s, db, st, bundles[0], start, c);
      var next := Advance(st, bundles[0]);
      if Kept(st, bundles[0]) == [] {
        SendKeeps(s, db, next, bundles[1..], sends, start, c);
      } else if sends > 0 {
        SendKeeps(s, db, next, bundles[1..], sends - 1, start, c);
      } else {
        StopKeeps(s, db, st, next.cursor, start, c);
      }
    }
  }

  // ---- One iteration ----

  ghost predicate FinalAt(db: Snapshot, blocks: seq<BlockMeta>, h: int, i: nat)
    requires i < |blocks|
  {
    blocks[i].height == h + i && Final(db, h + i)
  }

  /** The blocks are those of heights h, h + 1, ... and all of them are final. */
  ghost predicate FinalRun(db: Snapshot, blocks: seq<BlockMeta>, h: int) {
    forall i :: 0 <= i < |blocks| ==> FinalAt(db, blocks, h, i)
  }

  lemma BundleCarries(s: Session, db: Snapshot, block: BlockMeta, answers: seq<Updates>)
    ensures Carries(s, db, Bundle(db, s, block, answers), block.height)
  {
    hide BundleItems;
  }

  lemma BundlesCarry(s: Session, db: Snapshot, blocks: seq<BlockMeta>, answers: seq<seq<Updates>>, h: int)
    requires FinalRun(db, blocks, h)
    ensures CarryRun(s, db, Bundles(db, s, blocks, answers), h)
  {
    hide Carries, Bundle, Final;
    forall i | 0 <= i < |blocks|
      ensures CarryAt(s, db, Bundles(db, s, blocks, answers), h, i)
    {
      assert FinalAt(db, blocks, h, i);
      BundleCarries(s, db, blocks[i], At(answers, i));
    }
  }

  lemma FetchedIsReady(st: StreamState, db: Snapshot, i: nat)
    requires i < |Batch(st, db)|
    ensures Batch(st, db)[i].height in db.blocks && Settled(db, Batch(st, db)[i].height)
  {
    hide Settled, BlocksInRange, ReadyHeight;
    var hi := Min(st.height + BACKLOG_BATCH_SIZE - 1, ReadyHeight(db).value);
    BlocksAscend(db, st.height, hi);
    ReadyIsSettled(db, Batch(st, db)[i].height);
  }

  lemma AcceptedAreFinal(st: StreamState, db: Snapshot, boundary: Option<string>)
    requires FirstReset(Batch(st, db), st.height, boundary).None?
    ensures FinalRun(db, Batch(st, db), st.height)
  {
    hide Settled, FirstReset, Batch, ParentOk;
    var blocks := Batch(st, db);
    ScanAcceptsIff(blocks, st.height, boundary);
    forall i | 0 <= i < |blocks|
      ensures FinalAt(db, blocks, st.height, i)
    {
      assert LinkOk(blocks, st.height, boundary, i);
      FetchedIsReady(st, db, i);
    }
  }

  /** Nothing but blocks and cursor enter the invariant. */
  lemma InvIgnores(s: Session, db: Snapshot, a: StreamState, b: StreamState, start: int, c: Option<SequenceKey>)
    requires Inv(s, db, a, start, c)
    requires b.height == a.height && b.cursor == a.cursor && Content(b.sent) == Content(a.sent)
    requires a.stopped ==> b.stopped
    ensures Inv(s, db, b, start, c)
  {
    hide Items, FeedOf, Content, Expected, Final;
  }

  lemma ContentIgnoresOthers(sent: seq<SseEvent>, e: SseEvent)
    requires !e.BlockEvent?
    ensures Content(sent + [e]) == Content(sent)
  {
    DeliveredSnoc(sent, e);
    assert Delivered(sent + [e]) == Delivered(sent);
  }

  lemma DeliverKeeps(s: Session, db: Snapshot, st: StreamState, blocks: seq<BlockMeta>, env: Env, start: int,
                     c: Option<SequenceKey>)
    requires Inv(s, db, st, start, c) && StartsAt(start, c) && !st.stopped
    requires blocks != [] && FinalRun(db, blocks, st.height)
    ensures Inv(s, db, Deliver(s, st, db, blocks, env), start, c)
    ensures !Deliver(s, st, db, blocks, env).stopped ==>
              Deliver(s, st, db, blocks, env).height == st.height + |blocks|
    ensures env.sends >= |blocks| ==> !Deliver(s, st, db, blocks, env).stopped
  {
    BundlesCarry(s, db, blocks, env.answers, st.height);
    hide Inv, Content, Bundles, CarryRun, FinalRun, SendBundles, EndAfterBlocks, MissedInBlocks;
    var built := st.(merkleEnd := EndAfterBlocks(db, blocks, st.merkleEnd),
                     missed := st.missed + MissedInBlocks(db, blocks, env.answers, st.merkleEnd),
                     accepted := st.accepted + blocks);
    var done := SendBundles(built, Bundles(db, s, blocks, env.answers), env.sends);
    InvIgnores(s, db, st, built, start, c);
    SendKeeps(s, db, built, Bundles(db, s, blocks, env.answers), env.sends, start, c);
    InvIgnores(s, db, done, Deliver(s, st, db, blocks, env), start, c);
  }

  lemma IterateKeeps(s: Session, db: Snapshot, st: StreamState, env: Env, start: int, c: Option<SequenceKey>)
    requires Inv(s, db, st, start, c) && StartsAt(start, c)
    ensures Inv(s, db, Iterate(s, st, db, env), start, c)
  {
    hide Inv, Content, Batch, FirstReset, FinalRun, Deliver, ReadyHeight, ChainHead;
    var next := Iterate(s, st, db, env);
    var blocks := Batch(st, db);
    var checked := st.(lastHash := Boundary(st, db));
    ContentIgnoresOthers(st.sent, Heartbeat(ChainHead(db), ReadyHeight(db), st.height));
    if blocks == [] || st.stopped || env.closed || db.wallet.None? || ReadyHeight(db).None?
       || st.height > ReadyHeight(db).value {
      InvIgnores(s, db, st, next, start, c);
    } else {
      InvIgnores(s, db, st, checked, start, c);
      var reset := FirstReset(blocks, st.height, checked.lastHash);
      if reset.Some? {
        ContentIgnoresOthers(st.sent, ControlEvent(reset.value));
        InvIgnores(s, db, st, next, start, c);
      } else {
        AcceptedAreFinal(st, db, checked.lastHash);
        DeliverKeeps(s, db, checked, blocks, env, start, c);
      }
    }
  }

  lemma StartKeeps(s: Session, db: Snapshot, fromHeight: Option<i64>, c: Option<SequenceKey>)
    ensures StartsAt(StartHeight(fromHeight, c), c)
    ensures Inv(s, db, Start(fromHeight, c), StartHeight(fromHeight, c), c)
  {
  }

  /** What the two indexers do leaves the invariant alone. */
  lemma LaterKeeps(s: Session, d: Snapshot, e: Snapshot, st: StreamState, start: int, c: Option<SequenceKey>)
    requires Inv(s, d, st, start, c) && Later(d, e)
    ensures Inv(s, e, st, start, c)
  {
    hide Later, Final, Content, FeedOf;
    forall h | start <= h < st.height
      ensures Final(e, h)
    {
      FinalStays(d, e, h);
    }
    FeedStable(d, e, s, start, st.height);
  }

  // ---- Runs ----

  /** One step of the system: an indexer changes the tables, or the stream reads them. */
  datatype Step = Change(action: Action) | Iteration(env: Env)

  datatype World = World(db: Snapshot, stream: StreamState)

  function Take(s: Session, w: World, step: Step): World {
    match step
    case Change(a) => w.(db := Apply(w.db, a))
    case Iteration(env) => w.(stream := Iterate(s, w.stream, w.db, env))
  }

  function Run(s: Session, w: World, steps: seq<Step>): World
    decreases |steps|
  {
    if steps == [] then w else Run(s, Take(s, w, steps[0]), steps[1..])
  }

  /** Every change is one the indexers can make at that point. */
  ghost predicate LegalRun(s: Session, w: World, steps: seq<Step>)
    decreases |steps|
  {
    steps != [] ==>
      && (steps[0].Change? ==> Legal(w.db, steps[0].action))
      && LegalRun(s, Take(s, w, steps[0]), steps[1..])
  }

  lemma {:induction false} RunKeeps(s: Session, w: World, steps: seq<Step>, start: int, c: Option<SequenceKey>)
    requires WellFormed(w.db) && LegalRun(s, w, steps)
    requires Inv(s, w.db, w.stream, start, c) && StartsAt(start, c)
    ensures var r := Run(s, w, steps);
            WellFormed(r.db) && Later(w.db, r.db) && Inv(s, r.db, r.stream, start, c)
    decreases |steps|
  {
    hide Inv, Later, WellFormed, Iterate, Apply, Legal;
    if steps == [] {
      LaterReflexive(w.db);
    } else {
      var next := Take(s, w, steps[0]);
      match steps[0] {
        case Change(a) =>
          ApplyIsLater(w.db, a);
          LaterKeeps(s, w.db, next.db, w.stream, start, c);
        case Iteration(env) =>
          LaterReflexive(w.db);
          IterateKeeps(s, w.db, w.stream, env, start, c);
      }
      RunKeeps(s, next, steps[1..], start, c);
      LaterTransitive(w.db, next.db, Run(s, w, steps).db);
    }
  }

  /**
   * Over every interleaving of block appends, wallet-indexer steps and stream iterations, what the client
   * holds is exactly the feed of the heights passed, after its cursor, as read from any later database.
   */
  lemma DeliveredExactlyOnce(s: Session, db: Snapshot, fromHeight: Option<i64>, c: Option<SequenceKey>,
                             steps: seq<Step>, later: Snapshot)
    requires WellFormed(db) && LegalRun(s, World(db, Start(fromHeight, c)), steps)
    requires Later(Run(s, World(db, Start(fromHeight, c)), steps).db, later)
    ensures var stream := Run(s, World(db, Start(fromHeight, c)), steps).stream;
            Content(stream.sent) == Expected(later, s, StartHeight(fromHeight, c), stream.height, c)
  {
    hide Later, Start, StartHeight, Content, Expected, Run, LegalRun;
    StartKeeps(s, db, fromHeight, c);
    RunKeeps(s, World(db, Start(fromHeight, c)), steps, StartHeight(fromHeight, c), c);
    var w := Run(s, World(db, Start(fromHeight, c)), steps);
    LaterKeeps(s, w.db, later, w.stream, StartHeight(fromHeight, c), c);
  }
}
