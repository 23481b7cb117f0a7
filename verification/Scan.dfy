/** The contiguity and parent-hash scan that both feeds run over a fetched batch. */
module Scan {
  import opened Prelude
  import opened IntSets
  import opened Tables
  import opened Queries

  datatype Reset = Reset(safeRestartHeight: int, reason: ResetReason)

  /** The first violation in the batch, as the reset it is reported by. */
  function FirstReset(blocks: seq<BlockMeta>, expected: int, prev: Option<string>): Option<Reset> {
    if blocks == [] then None
    else if blocks[0].height != expected then
      Some(Reset(Max(expected - 1, 0), BlockGap(expected, blocks[0].height)))
    else if prev.Some? && blocks[0].row.parentHash != prev.value then
      Some(Reset(Max(blocks[0].height - 1, 0), ParentMismatch(blocks[0].height)))
    else FirstReset(blocks[1..], expected + 1, Some(blocks[0].row.hash))
  }

  method ScanBlocks(blocks: seq<BlockMeta>, from: int, boundary: Option<string>) returns (r: Option<Reset>)
    ensures r == FirstReset(blocks, from, boundary)
  {
    var expectedHeight := from;
    var prevHash := boundary;
    for i := 0 to |blocks|
      invariant FirstReset(blocks[i..], expectedHeight, prevHash) == FirstReset(blocks, from, boundary)
    {
      var block := blocks[i];
      assert blocks[i..][0] == block && blocks[i..][1..] == blocks[i + 1..];
      if block.height != expectedHeight {
        var safeRestartHeight := Max(expectedHeight - 1, 0);
        return Some(Reset(safeRestartHeight, BlockGap(expectedHeight, block.height)));
      }
      if prevHash.Some? {
        if block.row.parentHash != prevHash.value {
          var safeRestartHeight := Max(block.height - 1, 0);
          return Some(Reset(safeRestartHeight, ParentMismatch(block.height)));
        }
      }
      prevHash := Some(block.row.hash);
      expectedHeight := expectedHeight + 1;
    }
    return None;
  }

  ghost predicate HeightOk(blocks: seq<BlockMeta>, from: int, i: nat)
    requires i < |blocks|
  {
    blocks[i].height == from + i
  }

  ghost predicate ParentOk(blocks: seq<BlockMeta>, boundary: Option<string>, i: nat)
    requires i < |blocks|
  {
    if i == 0 then boundary.Some? ==> blocks[0].row.parentHash == boundary.value
    else blocks[i].row.parentHash == blocks[i - 1].row.hash
  }

  ghost predicate LinkOk(blocks: seq<BlockMeta>, from: int, boundary: Option<string>, i: nat)
    requires i < |blocks|
  {
    HeightOk(blocks, from, i) && ParentOk(blocks, boundary, i)
  }

  /** Heights run from `from`, and each block names its predecessor, the boundary block included. */
  ghost predicate Chained(blocks: seq<BlockMeta>, from: int, boundary: Option<string>) {
    forall i :: 0 <= i < |blocks| ==> LinkOk(blocks, from, boundary, i)
  }

  lemma ChainedCons(b: BlockMeta, rest: seq<BlockMeta>, from: int, boundary: Option<string>)
    ensures Chained([b] + rest, from, boundary) <==>
      && b.height == from && (boundary.Some? ==> b.row.parentHash == boundary.value)
      && Chained(rest, from + 1, Some(b.row.hash))
  {
    var all, next, own := [b] + rest, from + 1, Some(b.row.hash);
    assert forall i :: 0 <= i < |rest| ==> all[i + 1] == rest[i];
    FirstOk(all, from, boundary);
    forall i | 0 < i < |all|
      ensures LinkOk(all, from, boundary, i) <==> LinkOk(rest, next, own, i - 1)
    {
    }
    hide LinkOk;
    if Chained(all, from, boundary) {
      forall i | 0 <= i < |rest|
        ensures LinkOk(rest, next, own, i)
      {
        assert LinkOk(all, from, boundary, i + 1);
      }
    } else {
      var i :| 0 <= i < |all| && !LinkOk(all, from, boundary, i);
      assert i > 0 ==> !LinkOk(rest, next, own, i - 1);
    }
  }

  lemma FirstOk(blocks: seq<BlockMeta>, from: int, boundary: Option<string>)
    requires blocks != []
    ensures LinkOk(blocks, from, boundary, 0) <==>
      blocks[0].height == from && (boundary.Some? ==> blocks[0].row.parentHash == boundary.value)
  {
  }

  /** The scan accepts exactly the chained batches. */
  lemma {:induction false} ScanAcceptsIff(blocks: seq<BlockMeta>, from: int, boundary: Option<string>)
    ensures FirstReset(blocks, from, boundary).None? <==> Chained(blocks, from, boundary)
  {
    if blocks == [] {
    } else {
      assert blocks == [blocks[0]] + blocks[1..];
      ChainedCons(blocks[0], blocks[1..], from, boundary);
      ScanAcceptsIff(blocks[1..], from + 1, Some(blocks[0].row.hash));
    }
  }

  /** A rejected batch is chained up to the reported block, whose height or parent is wrong. */
  lemma {:induction false} ScanReportsTheFirst(blocks: seq<BlockMeta>, from: int, boundary: Option<string>)
    returns (i: nat)
    requires FirstReset(blocks, from, boundary).Some?
    ensures i < |blocks| && Chained(blocks[..i], from, boundary)
    ensures var r := FirstReset(blocks, from, boundary).value;
            && r.safeRestartHeight == Max(from + i - 1, 0)
            && if !HeightOk(blocks, from, i) then r.reason == BlockGap(from + i, blocks[i].height)
               else !ParentOk(blocks, boundary, i) && r.reason == ParentMismatch(blocks[i].height)
  {
    if blocks[0].height != from || (boundary.Some? && blocks[0].row.parentHash != boundary.value) {
      i := 0;
    } else {
      var j := ScanReportsTheFirst(blocks[1..], from + 1, Some(blocks[0].row.hash));
      i := j + 1;
      assert blocks[..i] == [blocks[0]] + blocks[1..][..j];
      ChainedCons(blocks[0], blocks[1..][..j], from, boundary);
    }
  }

  // ---- Well-linked chains ----

  /** Blocks 0 to the head, each naming its predecessor. */
  ghost predicate Linked(db: Snapshot) {
    && (forall h :: h in db.blocks <==> 0 <= h <= ChainHead(db) && db.blocks != map[])
    && (forall h :: h in db.blocks && h > 0 && h - 1 in db.blocks ==>
          db.blocks[h].parentHash == db.blocks[h - 1].hash)
  }

  lemma BlocksAscend(db: Snapshot, lo: int, hi: int)
    ensures var bs := BlocksInRange(db, lo, hi);
            && (forall i :: 0 <= i < |bs| ==>
                  lo <= bs[i].height <= hi && bs[i].height in db.blocks && bs[i].row == db.blocks[bs[i].height])
            && (forall i, j :: 0 <= i < j < |bs| ==> bs[i].height < bs[j].height)
            && (forall h :: h in db.blocks && lo <= h <= hi ==> exists i :: 0 <= i < |bs| && bs[i].height == h)
  {
    hide SortedIds, Pick;
    var ids := SortedIds(Heights(db, lo, hi));
    var bs := BlocksInRange(db, lo, hi);
    forall i | 0 <= i < |bs|
      ensures bs[i].height == ids[i] && ids[i] in db.blocks && lo <= ids[i] <= hi && bs[i].row == db.blocks[ids[i]]
    {
      assert ids[i] in ids;
    }
    forall h | h in db.blocks && lo <= h <= hi
      ensures exists i :: 0 <= i < |bs| && bs[i].height == h
    {
      assert h in ids;
      var i :| 0 <= i < |ids| && ids[i] == h;
      assert bs[i].height == h;
    }
  }

  lemma {:induction false} AscendingRun(ids: seq<i64>, lo: int, hi: int)
    requires Ascending(ids) && forall x: i64 :: x in ids <==> lo <= x <= hi
    requires I64_MIN <= lo && hi <= I64_MAX && lo <= hi + 1
    ensures |ids| == hi - lo + 1 && forall i :: 0 <= i < |ids| ==> ids[i] == lo + i
    decreases |ids|
  {
    assert ids != [] ==> ids[0] in ids;
    if lo > hi {
    } else {
      var first: i64 := lo;
      assert first in ids;
      var rest := ids[1..];
      forall x: i64
        ensures x in rest <==> lo + 1 <= x <= hi
      {
        assert x in ids <==> x == ids[0] || x in rest;
      }
      AscendingRun(rest, lo + 1, hi);
      assert forall i :: 0 < i < |ids| ==> ids[i] == rest[i - 1];
    }
  }

  /** On a well-linked chain a fetched range has every height, once, in order. */
  lemma LinkedBatch(db: Snapshot, lo: int, hi: int)
    requires Linked(db) && 0 <= lo && lo <= hi + 1 && hi in db.blocks
    ensures var bs := BlocksInRange(db, lo, hi);
            |bs| == hi - lo + 1
            && forall i :: 0 <= i < |bs| ==>
                 bs[i].height == lo + i && bs[i].height in db.blocks && bs[i].row == db.blocks[bs[i].height]
  {
    hide SortedIds, Pick, ChainHead;
    var ids := SortedIds(Heights(db, lo, hi));
    forall x: i64
      ensures x in ids <==> lo <= x <= hi
    {
    }
    AscendingRun(ids, lo, hi);
    forall i | 0 <= i < |ids|
      ensures BlocksInRange(db, lo, hi)[i] == BlockMeta(ids[i], db.blocks[ids[i]])
    {
      assert ids[i] in ids;
    }
  }

  /** The scan accepts every range of a well-linked chain, whether or not the boundary hash is known. */
  lemma LinkedAccepted(db: Snapshot, lo: int, hi: int, boundary: Option<string>)
    requires Linked(db) && 0 <= lo && lo <= hi + 1 && hi in db.blocks
    requires boundary.Some? ==> HashAt(db, lo - 1) == boundary
    ensures FirstReset(BlocksInRange(db, lo, hi), lo, boundary).None?
  {
    var bs := BlocksInRange(db, lo, hi);
    LinkedBatch(db, lo, hi);
    forall i | 0 <= i < |bs|
      ensures LinkOk(bs, lo, boundary, i)
    {
      assert bs[i].height > 0 && bs[i].height - 1 in db.blocks ==>
        db.blocks[bs[i].height].parentHash == db.blocks[bs[i].height - 1].hash;
    }
    ScanAcceptsIff(bs, lo, boundary);
  }
}
