/** Where a stream or a page begins, for the heights and cursors a client can ask for. */
module Requests {
  import opened Prelude
  import opened Seqs
  import opened Sequence
  import opened Tables
  import opened Queries
  import opened Assembly
  import opened Scan
  import opened StreamSpec
  import opened ExactlyOnce
  import opened StreamProgress
  import opened FeedSpec
  import opened Paging

  /** A cursor's height counts, else the height asked for, else 0; negative heights count as 0. */
  lemma StartsWhereAsked(fromHeight: Option<i64>, c: Option<SequenceKey>)
    ensures c.Some? ==> StartHeight(fromHeight, c) == if c.value.blockHeight < 0 then 0 else c.value.blockHeight
    ensures c.None? && fromHeight.Some? ==>
      StartHeight(fromHeight, c) == if fromHeight.value < 0 then 0 else fromHeight.value
    ensures c.None? && fromHeight.None? ==> StartHeight(fromHeight, c) == 0
  {
  }

  /** A stream asked to begin at height `f` delivers the feed from `f` on, whatever happens meanwhile. */
  lemma StreamBeginsAtHeight(s: Session, db: Snapshot, f: i64, steps: seq<Step>, later: Snapshot)
    requires WellFormed(db) && LegalRun(s, World(db, Start(Some(f), None)), steps)
    requires Later(Run(s, World(db, Start(Some(f), None)), steps).db, later)
    ensures var stream := Run(s, World(db, Start(Some(f), None)), steps).stream;
            Content(stream.sent) == Expected(later, s, if f < 0 then 0 else f, stream.height, None)
  {
    hide Later, Start, StartHeight, Content, Expected, Run, LegalRun;
    StartsWhereAsked(Some(f), None);
    DeliveredExactlyOnce(s, db, Some(f), None, steps, later);
  }

  /** With a cursor the height asked for makes no difference. */
  lemma CursorOverridesHeight(f: Option<i64>, g: Option<i64>, k: SequenceKey)
    ensures Start(f, Some(k)) == Start(g, Some(k))
  {
  }

  lemma {:induction false} FirstBundle(db: Snapshot, s: Session, blocks: seq<BlockMeta>, c: Option<SequenceKey>)
    requires blocks != [] && PageItems(db, s, blocks[0], c) != []
    ensures PageBundles(db, s, blocks, c) != []
    ensures PageBundles(db, s, blocks, c)[0] == BlockBundle(blocks[0], PageItems(db, s, blocks[0], c))
  {
    hide PageItems;
    var n := |blocks| - 1;
    if n == 0 {
      assert PageBundles(db, s, blocks[..0], c) == [];
    } else {
      FirstBundle(db, s, blocks[..n], c);
    }
  }

  /** An accepted page begins with the block it was asked for, when that block owes anything. */
  lemma PageBeginsAtHeight(db: Snapshot, s: Session, from: int, limit: int)
    requires Accepts(db, from, limit) && Items(db, s, from) != []
    ensures var page := FeedPage(db, s, from, limit, None);
            && page.blocks != [] && from in db.blocks
            && page.blocks[0] == BlockBundle(BlockMeta(from, db.blocks[from]), Map(Render(), Items(db, s, from)))
  {
    hide ReadyHeight, BlocksInRange, FirstReset, PageBundles, Items;
    var blocks := Fetched(db, from, limit);
    AcceptedHeights(blocks, from, PageBoundary(db, from));
    assert HeightOk(blocks, from, 0);
    BlocksAscend(db, from, LastHeight(from, limit, ReadyHeight(db).value));
    NotEmptied(Items(db, s, from));
    FirstBundle(db, s, blocks, None);
  }

  lemma NotEmptied(items: seq<Item>)
    requires items != []
    ensures Map(Render(), items) != []
  {
  }
}
