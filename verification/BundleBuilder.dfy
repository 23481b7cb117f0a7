/** `build_block_bundles_tx` of the live stream, with the lookups that fill Merkle gaps. */
module BundleBuilder {
  import opened Prelude
  import opened Seqs
  import opened Sequence
  import opened Sorting
  import opened Tables
  import opened Queries
  import opened MerkleCache
  import opened Assembly
  import opened StreamSpec
  import opened RangeRows
  import opened EventGaps

  /** What the outside does during the `n`-th lookup; with nothing given the lookup finds nothing. */
  function EnvAt(lookups: seq<LookupEnv>, n: nat): LookupEnv {
    if n < |lookups| then lookups[n] else LookupEnv([], true, [])
  }

  // ---- One relevant row ----

  method PushUpdates(pushed: seq<Item>, row: Keyed<RelevantTx>, updates: Updates) returns (r: seq<Item>)
    ensures r == pushed + UpdateItems(row, updates)
    ensures forall i :: 0 <= i < |updates| ==>
      r[|pushed| + i] == Keyed(SequenceKey(row.key.blockHeight, row.key.txId, 0, i - |updates|),
                               MerkleCollapsedUpdate(updates[i]))
  {
    r := pushed;
    var count: i64 := |updates|;
    for idx := 0 to |updates|
      invariant r == pushed + UpdateItems(row, updates)[..idx]
    {
      var sequence := SequenceKey(row.key.blockHeight, row.key.txId, PHASE_TX, -count + idx);
      r := r + [Keyed(sequence, MerkleCollapsedUpdate(updates[idx]))];
    }
  }

  /** Before the row, the updates that fill the gap in front of it; after it, the tree position behind it. */
  method PushRow(cache: MerkleCacheManager?, pushed: seq<Item>, row: Keyed<RelevantTx>, last: i64, env: LookupEnv)
    returns (r: seq<Item>, newLast: i64, answer: Updates)
    requires cache != null ==> cache.Valid()
    modifies if cache == null then {} else {cache}
    ensures cache != null ==> cache.Valid() && Grew(old(cache.rows), cache.rows)
    ensures r == pushed + UpdateItems(row, answer) + [ShieldedItem()(row)]
    ensures newLast == EndAfterRow(row.value, last)
    ensures var gap := GapBefore(row.value, last);
            answer == [] || (gap.Some? && ExactCover(answer, gap.value.0, gap.value.1))
  {
    r, newLast, answer := pushed, last, [];
    if row.value.startIndex.Some? && row.value.endIndex.Some? {
      var start, end := row.value.startIndex.value, row.value.endIndex.value;
      var needUpdate := if last < 0 then start > 0 else start > last;
      if needUpdate {
        var from: i64 := if last < 0 then 0 else last;
        var found := ResolveGap(cache, from, start, env);
        if found != [] {
          CoverBounds(found, from, start);
          answer := found;
          r := PushUpdates(r, row, answer);
        }
      }
      newLast := end;
    }
    r := r + [ShieldedItem()(row)];
  }

  // ---- The relevant rows of one block ----

  lemma InjectSnoc(rows: seq<Keyed<RelevantTx>>, row: Keyed<RelevantTx>, answers: seq<Updates>, answer: Updates,
                   last: i64)
    requires |rows| == |answers| && GoodAnswers(rows, answers, last)
    requires var gap := GapBefore(row.value, EndAfter(rows, last));
             answer == [] || (gap.Some? && ExactCover(answer, gap.value.0, gap.value.1))
    ensures Inject(rows + [row], answers + [answer])
         == Inject(rows, answers) + UpdateItems(row, answer) + [ShieldedItem()(row)]
    ensures EndAfter(rows + [row], last) == EndAfterRow(row.value, EndAfter(rows, last))
    ensures GoodAnswers(rows + [row], answers + [answer], last)
  {
    assert (rows + [row])[..|rows|] == rows && (answers + [answer])[..|rows|] == answers;
  }

  /** `r` and `newLast` are what the rows `own` with these answers make of `pushed` and `last`. */
  ghost predicate RowsPushed(own: seq<Keyed<RelevantTx>>, answers: seq<Updates>, pushed: seq<Item>, last: i64,
                             r: seq<Item>, newLast: i64)
  {
    && |answers| == |own| && r == pushed + Inject(own, answers)
    && newLast == EndAfter(own, last) && GoodAnswers(own, answers, last)
  }

  lemma OneMoreRow(own: seq<Keyed<RelevantTx>>, answers: seq<Updates>, pushed: seq<Item>, last: i64, r: seq<Item>,
                   newLast: i64, row: Keyed<RelevantTx>, answer: Updates)
    requires RowsPushed(own, answers, pushed, last, r, newLast)
    requires var gap := GapBefore(row.value, newLast);
             answer == [] || (gap.Some? && ExactCover(answer, gap.value.0, gap.value.1))
    ensures RowsPushed(own + [row], answers + [answer], pushed, last,
                       r + UpdateItems(row, answer) + [ShieldedItem()(row)], EndAfterRow(row.value, newLast))
  {
    hide Inject, EndAfter, GoodAnswers, ExactCover, UpdateItems, GapBefore, EndAfterRow, ShieldedItem;
    InjectSnoc(own, row, answers, answer, last);
  }

  method PushRelevant(cache: MerkleCacheManager?, pushed: seq<Item>, rows: seq<Keyed<RelevantTx>>, height: int,
                      last: i64, lookups: seq<LookupEnv>)
    returns (r: seq<Item>, newLast: i64, answers: seq<Updates>)
    requires cache != null ==> cache.Valid()
    modifies if cache == null then {} else {cache}
    ensures cache != null ==> cache.Valid() && Grew(old(cache.rows), cache.rows)
    ensures var own := Filter(rows, AtHeight(height));
            && |answers| == |own| && r == pushed + Inject(own, answers)
            && newLast == EndAfter(own, last) && GoodAnswers(own, answers, last)
  {
    r, newLast, answers := pushed, last, [];
    NothingPushed(rows, height, pushed, last);
    hide Filter, RowsPushed, ExactCover, UpdateItems, GapBefore, EndAfterRow, ShieldedItem;
    for i := 0 to |rows|
      invariant cache != null ==> cache.Valid() && Grew(old(cache.rows), cache.rows)
      invariant RowsPushed(Filter(rows[..i], AtHeight(height)), answers, pushed, last, r, newLast)
    {
      FilterSnoc(rows, i, AtHeight(height));
      if rows[i].key.blockHeight == height {
        ghost var before, position := r, newLast;
        var answer: Updates;
        r, newLast, answer := PushRow(cache, r, rows[i], newLast, EnvAt(lookups, |answers|));
        OneMoreRow(Filter(rows[..i], AtHeight(height)), answers, pushed, last, before, position, rows[i], answer);
        answers := answers + [answer];
      }
    }
    assert rows[..|rows|] == rows;
    RowsPushedMeans(Filter(rows, AtHeight(height)), answers, pushed, last, r, newLast);
  }

  lemma RowsPushedMeans(own: seq<Keyed<RelevantTx>>, answers: seq<Updates>, pushed: seq<Item>, last: i64, r: seq<Item>,
                        newLast: i64)
    requires RowsPushed(own, answers, pushed, last, r, newLast)
    ensures |answers| == |own| && r == pushed + Inject(own, answers)
    ensures newLast == EndAfter(own, last) && GoodAnswers(own, answers, last)
  {
  }

  lemma NothingPushed(rows: seq<Keyed<RelevantTx>>, h: int, pushed: seq<Item>, last: i64)
    ensures RowsPushed(Filter(rows[..0], AtHeight(h)), [], pushed, last, pushed, last)
  {
    assert Filter(rows[..0], AtHeight<RelevantTx>(h)) == [];
  }

  // ---- One block, then a batch ----

  function Self(): Item -> Item {
    (x: Item) => x
  }

  lemma MapSelf(items: seq<Item>)
    ensures Map(Self(), items) == items
  {
  }

  lemma RowsAtHeight(db: Snapshot, s: Session, lo: int, hi: int, h: int)
    requires lo <= h <= hi
    ensures var rows := FetchRows(db, s, lo, hi);
            && Filter(rows.metas, AtHeight(h)) == MetaPart(db, s, h)
            && Filter(rows.relevant, AtHeight(h)) == RelevantRows(db, h, h)
            && Filter(rows.zswap, AtHeight(h)) == ZswapRows(db, s, h, h)
            && Filter(rows.dust, AtHeight(h)) == DustRows(db, s, h, h)
            && Filter(rows.utxos, AtHeight(h)) == UtxoEvents(db, s, h, h)
  {
    hide RelevantRows, ZswapRows, DustRows, UtxoEvents, MetaRows, WalletTxs, Filter;
    MetasAtHeight(db, s, lo, hi, h);
    RelevantAtHeight(db, lo, hi, h);
    ZswapAtHeight(db, s, lo, hi, h);
    DustAtHeight(db, s, lo, hi, h);
    UtxosAtHeight(db, s, lo, hi, h);
  }

  method BuildBundle(db: Snapshot, s: Session, rows: RangeRows, lo: int, hi: int, meta: BlockMeta, last: i64,
                     cache: MerkleCacheManager?, lookups: seq<LookupEnv>)
    returns (bundle: BlockBundle, newLast: i64, answers: seq<Updates>)
    requires rows == FetchRows(db, s, lo, hi) && lo <= meta.height <= hi
    requires cache != null ==> cache.Valid()
    modifies if cache == null then {} else {cache}
    ensures cache != null ==> cache.Valid() && Grew(old(cache.rows), cache.rows)
    ensures var own := RelevantRows(db, meta.height, meta.height);
            && |answers| == |own| && bundle == Bundle(db, s, meta, answers)
            && newLast == EndAfter(own, last) && GoodAnswers(own, answers, last)
  {
    hide FetchRows, MetaPart, RelevantRows, ZswapRows, DustRows, UtxoEvents, Filter, Inject, EndAfter, GoodAnswers,
         Bundle, Map, Grew, AtHeight, BreaksByTx;
    var h := meta.height;
    RowsAtHeight(db, s, lo, hi, h);
    var metas := PushAt([], rows.metas, h, Self());
    var pushed;
    pushed, newLast, answers := PushRelevant(cache, metas, rows.relevant, h, last, lookups);
    var zswap := PushAt(pushed, rows.zswap, h, Self());
    var dust := PushAt(zswap, rows.dust, h, Self());
    var items := PushAt(dust, rows.utxos, h, UtxoItem());
    PushedInOrder(db, s, meta, answers, metas, pushed, zswap, dust, items);
    var sorted := StableSort(items);
    var _ := ValidateEventOrdering(sorted);
    bundle := BlockBundle(meta, Map(Render(), sorted));
  }

  lemma PushedInOrder(db: Snapshot, s: Session, meta: BlockMeta, answers: seq<Updates>, metas: seq<Item>,
                      pushed: seq<Item>, zswap: seq<Item>, dust: seq<Item>, items: seq<Item>)
    requires |answers| == |RelevantRows(db, meta.height, meta.height)|
    requires metas == [] + Map(Self(), MetaPart(db, s, meta.height))
    requires pushed == metas + Inject(RelevantRows(db, meta.height, meta.height), answers)
    requires zswap == pushed + Map(Self(), ZswapRows(db, s, meta.height, meta.height))
    requires dust == zswap + Map(Self(), DustRows(db, s, meta.height, meta.height))
    requires items == dust + Map(UtxoItem(), UtxoEvents(db, s, meta.height, meta.height))
    ensures BlockBundle(meta, Map(Render(), StableSort(items))) == Bundle(db, s, meta, answers)
  {
    hide MetaPart, RelevantRows, ZswapRows, DustRows, UtxoEvents, Inject, StableSort, Map;
    MapSelf(MetaPart(db, s, meta.height));
    MapSelf(ZswapRows(db, s, meta.height, meta.height));
    MapSelf(DustRows(db, s, meta.height, meta.height));
    assert items == Pushed(db, s, meta.height, answers);
  }

  function LookupsOf(lookups: seq<seq<LookupEnv>>, n: nat): seq<LookupEnv> {
    if n < |lookups| then lookups[n] else []
  }

  lemma BatchSnoc(db: Snapshot, blocks: seq<BlockMeta>, answers: seq<seq<Updates>>, last: i64, i: nat,
                  own: seq<Updates>)
    requires |answers| == i < |blocks| && GoodLookups(db, blocks[..i], answers, last)
    requires var rows := RelevantRows(db, blocks[i].height, blocks[i].height);
             |own| == |rows| && GoodAnswers(rows, own, EndAfterBlocks(db, blocks[..i], last))
    ensures var rows := RelevantRows(db, blocks[i].height, blocks[i].height);
            EndAfterBlocks(db, blocks[..i + 1], last) == EndAfter(rows, EndAfterBlocks(db, blocks[..i], last))
    ensures GoodLookups(db, blocks[..i + 1], answers + [own], last)
  {
    hide RelevantRows, EndAfter, GoodAnswers;
    assert blocks[..i + 1][..i] == blocks[..i];
    SameLookups(db, blocks[..i], answers, answers + [own], last);
  }

  lemma {:induction false} SameLookups(db: Snapshot, blocks: seq<BlockMeta>, a: seq<seq<Updates>>,
                                       b: seq<seq<Updates>>, last: i64)
    requires |blocks| <= |a| <= |b| && forall i :: 0 <= i < |a| ==> a[i] == b[i]
    requires GoodLookups(db, blocks, a, last)
    ensures GoodLookups(db, blocks, b, last)
  {
    hide RelevantRows, EndAfter, GoodAnswers;
    if blocks == [] {
    } else {
      SameLookups(db, blocks[..|blocks| - 1], a, b, last);
    }
  }

  /**
   * The bundles of a batch: what the specification builds from the same answers, the tree position after
   * them, and every answer either nothing or an exact cover of its gap.
   */
  method BuildBlockBundles(db: Snapshot, s: Session, blocks: seq<BlockMeta>, last: i64, cache: MerkleCacheManager?,
                           lookups: seq<seq<LookupEnv>>)
    returns (bundles: seq<BlockBundle>, newLast: i64, answers: seq<seq<Updates>>)
    requires cache != null ==> cache.Valid()
    requires forall b :: b in blocks ==> blocks[0].height <= b.height <= blocks[|blocks| - 1].height
    modifies if cache == null then {} else {cache}
    ensures cache != null ==> cache.Valid() && Grew(old(cache.rows), cache.rows)
    ensures bundles == Bundles(db, s, blocks, answers)
    ensures newLast == EndAfterBlocks(db, blocks, last)
    ensures GoodLookups(db, blocks, answers, last)
  {
    bundles, newLast, answers := [], last, [];
    if blocks == [] {
      return;
    }
    var fromHeight, toHeight := blocks[0].height, blocks[|blocks| - 1].height;
    var rows, _ := Fetch(db, s, fromHeight, toHeight);
    hide FetchRows, RelevantRows, Bundle, Bundles, EndAfter, GoodAnswers, GoodLookups, EndAfterBlocks, Grew;
    NoBatch(db, s, last);
    GrewNothing(cache);
    assert blocks[..0] == [];
    for i := 0 to |blocks|
      invariant cache != null ==> cache.Valid() && Grew(old(cache.rows), cache.rows)
      invariant |answers| == i && bundles == Bundles(db, s, blocks[..i], answers)
      invariant newLast == EndAfterBlocks(db, blocks[..i], last)
      invariant GoodLookups(db, blocks[..i], answers, last)
    {
      assert blocks[i] in blocks;
      var bundle, own;
      ghost var grown := if cache == null then map[] else cache.rows;
      bundle, newLast, own := BuildBundle(db, s, rows, fromHeight, toHeight, blocks[i], newLast, cache,
                                          LookupsOf(lookups, i));
      if cache != null {
        GrewTwice(old(cache.rows), grown, cache.rows);
      }
      BatchSnoc(db, blocks, answers, last, i, own);
      BundlesSnoc(db, s, blocks, answers, i, own);
      bundles, answers := bundles + [bundle], answers + [own];
    }
    assert blocks[..|blocks|] == blocks;
  }

  lemma BundlesSnoc(db: Snapshot, s: Session, blocks: seq<BlockMeta>, answers: seq<seq<Updates>>, i: nat,
                    own: seq<Updates>)
    requires |answers| == i < |blocks|
    ensures Bundles(db, s, blocks[..i + 1], answers + [own])
         == Bundles(db, s, blocks[..i], answers) + [Bundle(db, s, blocks[i], own)]
  {
    hide Bundle;
  }

  lemma NoBatch(db: Snapshot, s: Session, last: i64)
    ensures Bundles(db, s, [], []) == []
    ensures EndAfterBlocks(db, [], last) == last && GoodLookups(db, [], [], last)
  {
  }

  lemma GrewTwice(a: Table, b: Table, c: Table)
    requires Grew(a, b) && Grew(b, c)
    ensures Grew(a, c)
  {
  }

  lemma GrewNothing(cache: MerkleCacheManager?)
    ensures cache != null ==> Grew(cache.rows, cache.rows)
  {
  }
}
