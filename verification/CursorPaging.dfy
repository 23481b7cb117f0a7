/** Following the polling feed by `next_cursor` alone, and exactly when that delivers the feed. */
module CursorPaging {
  import opened Prelude
  import opened Seqs
  import opened Sequence
  import opened Sorting
  import opened Tables
  import opened Queries
  import opened Contents
  import opened Assembly
  import opened FeedOrder
  import opened Scan
  import opened StreamSpec
  import opened ExactlyOnce
  import opened StreamProgress
  import opened FeedSpec
  import opened Paging
  import opened Resume

  /** What is still owed after cursor `c`, from height `from` to the ready height. */
  function Left(db: Snapshot, s: Session, from: int, c: Option<SequenceKey>): seq<OrderedFeedItem> {
    if ReadyHeight(db).None? then [] else Expected(db, s, from, ReadyHeight(db).value + 1, c)
  }

  lemma {:induction false} FilterDrops<A>(s: seq<A>, p: A -> bool, x: A)
    requires x in s && !p(x)
    ensures |Filter(s, p)| < |s|
  {
    if s[0] == x {
      FilterShortens(s[1..], p);
    } else {
      FilterDrops(s[1..], p, x);
    }
  }

  /** What is left after the key of one of the items owed is less. */
  lemma LeftShrinks(db: Snapshot, s: Session, from: int, m: int, hi: int, c: Option<SequenceKey>, x: Item)
    requires m <= hi && x in Filter(FeedOf(db, s, from, m), After(c))
    ensures from <= x.key.blockHeight < m && (c.Some? ==> Less(c.value, x.key))
    ensures |Expected(db, s, x.key.blockHeight, hi, Some(x.key))| < |Expected(db, s, from, hi, c)|
  {
    hide FeedOf, Filter;
    var k := x.key;
    FilterMember(FeedOf(db, s, from, m), After(c), x);
    FeedHeights(db, s, from, m, x);
    FeedConcat(db, s, from, m, hi);
    FilterConcat(FeedOf(db, s, from, m), FeedOf(db, s, m, hi), After(c));
    RestartIsFilter(db, s, from, hi, c, k);
    FilterDrops(Filter(FeedOf(db, s, from, hi), After(c)), After(Some(k)), x);
    ExpectedLength(db, s, k.blockHeight, hi, Some(k));
    ExpectedLength(db, s, from, hi, c);
  }

  lemma CursorMeansAccepted(db: Snapshot, s: Session, from: int, limit: int, c: Option<SequenceKey>)
    requires FeedPage(db, s, from, limit, c).nextCursor.Some?
    ensures Accepts(db, from, limit)
  {
    hide ReadyHeight, BlocksInRange, FirstReset, PageBundles;
  }

  lemma FetchedBelowReady(db: Snapshot, from: int, limit: int)
    requires Accepts(db, from, limit)
    ensures from + |Fetched(db, from, limit)| <= LastHeight(from, limit, ReadyHeight(db).value) + 1
  {
    hide ReadyHeight, BlocksInRange, FirstReset;
    var blocks, last := Fetched(db, from, limit), LastHeight(from, limit, ReadyHeight(db).value);
    AcceptedHeights(blocks, from, PageBoundary(db, from));
    BlocksAscend(db, from, last);
    assert HeightOk(blocks, from, |blocks| - 1);
  }

  /** A page with a cursor moves the client on: less is left after that cursor. */
  lemma CursorAdvances(db: Snapshot, s: Session, from: int, limit: int, c: Option<SequenceKey>, k: SequenceKey)
    requires 0 <= from && (c.Some? ==> c.value.blockHeight <= from)
    requires FeedPage(db, s, from, limit, c).nextCursor.Some?
    requires ParseCursor(FeedPage(db, s, from, limit, c).nextCursor.value) == Success(k)
    ensures StartHeight(None, Some(k)) == k.blockHeight
    ensures |Left(db, s, k.blockHeight, Some(k))| < |Left(db, s, from, c)|
  {
    hide FeedPage, ReadyHeight, Expected, FeedOf, Filter, ParseCursor, Fetched;
    CursorMeansAccepted(db, s, from, limit, c);
    NextCursorIsTheLast(db, s, from, limit, c);
    FetchedBelowReady(db, from, limit);
    var m := from + |Fetched(db, from, limit)|;
    var i := |Expected(db, s, from, m, c)| - 1;
    CutKey(db, s, from, m, c, i, k);
    LeftShrinks(db, s, from, m, ReadyHeight(db).value + 1, c, Filter(FeedOf(db, s, from, m), After(c))[i]);
  }

  /** A client that asks again from each page's next cursor until there is none. */
  function PollByCursor(db: Snapshot, s: Session, from: int, limit: int, c: Option<SequenceKey>): seq<Page>
    requires 0 <= from && (c.Some? ==> c.value.blockHeight <= from)
    decreases |Left(db, s, from, c)|
  {
    hide FeedPage, Left, ParseCursor;
    var page := FeedPage(db, s, from, limit, c);
    if page.nextCursor.None? || ParseCursor(page.nextCursor.value).Failure? then [page]
    else
      var k := ParseCursor(page.nextCursor.value).value;
      CursorAdvances(db, s, from, limit, c, k);
      [page] + PollByCursor(db, s, StartHeight(None, Some(k)), limit, Some(k))
  }

  // ---- Which chains it works on ----

  /** Block `h` owes something after cursor `c`. */
  ghost predicate Owes(db: Snapshot, s: Session, h: int, c: Option<SequenceKey>) {
    Filter(Items(db, s, h), After(c)) != []
  }

  /** Something is owed at one of the `limit` - 1 heights below `h`, not below `from`. */
  ghost predicate OwesJustBelow(db: Snapshot, s: Session, from: int, limit: int, c: Option<SequenceKey>, h: int) {
    exists g :: from <= g && h - limit < g < h && Owes(db, s, g, c)
  }

  /**
   * The first height that owes anything lies within the first page, and the next one never lies `limit`
   * or more above the one before it.
   */
  ghost predicate NoWideGap(db: Snapshot, s: Session, from: int, limit: int, c: Option<SequenceKey>)
    requires ReadyHeight(db).Some?
  {
    forall h :: from + limit <= h <= ReadyHeight(db).value && Owes(db, s, h, c) ==>
      OwesJustBelow(db, s, from, limit, c, h)
  }

  lemma {:induction false} NothingExpectedIff(db: Snapshot, s: Session, lo: int, hi: int, c: Option<SequenceKey>)
    requires lo <= hi
    ensures Expected(db, s, lo, hi, c) == [] <==> forall h :: lo <= h < hi ==> !Owes(db, s, h, c)
    decreases hi - lo
  {
    hide Expected, Owes;
    if lo == hi {
      NothingExpected(db, s, lo, c);
    } else {
      NothingExpectedIff(db, s, lo, hi - 1, c);
      ExpectedSnoc(db, s, lo, hi - 1, c);
      OwesIsNonEmpty(db, s, hi - 1, c);
    }
  }

  lemma OwesIsNonEmpty(db: Snapshot, s: Session, h: int, c: Option<SequenceKey>)
    ensures Owes(db, s, h, c) <==> Map(Render(), Filter(Items(db, s, h), After(c))) != []
  {
    hide Items, Filter;
  }

  lemma {:induction false} NothingIfNoWideGap(db: Snapshot, s: Session, from: int, limit: int, c: Option<SequenceKey>,
                                              h: int)
    requires ReadyHeight(db).Some? && NoWideGap(db, s, from, limit, c)
    requires forall g :: from <= g < from + limit && g <= ReadyHeight(db).value ==> !Owes(db, s, g, c)
    requires from <= h <= ReadyHeight(db).value
    ensures !Owes(db, s, h, c)
    decreases h - from
  {
    hide Owes, ReadyHeight;
    if h < from + limit {
    } else if OwesJustBelow(db, s, from, limit, c, h) {
      var g :| from <= g && h - limit < g < h && Owes(db, s, g, c);
      NothingIfNoWideGap(db, s, from, limit, c, g);
    }
  }

  /** A page without items: nothing more is found, so nothing may be left. */
  lemma EmptyPageIff(db: Snapshot, s: Session, from: int, limit: int, c: Option<SequenceKey>)
    requires UpTo(db, from) && limit >= 1
    requires Expected(db, s, from, LastHeight(from, limit, ReadyHeight(db).value) + 1, c) == []
    ensures Left(db, s, from, c) == [] <==> NoWideGap(db, s, from, limit, c)
  {
    hide Owes, ReadyHeight, Expected;
    var ready := ReadyHeight(db).value;
    NothingExpectedIff(db, s, from, LastHeight(from, limit, ready) + 1, c);
    NothingExpectedIff(db, s, from, ready + 1, c);
    if NoWideGap(db, s, from, limit, c) {
      forall h | from <= h < ready + 1
        ensures !Owes(db, s, h, c)
      {
        NothingIfNoWideGap(db, s, from, limit, c, h);
      }
    }
  }

  /** Above its own height a cursor changes nothing. */
  lemma OwesAbove(db: Snapshot, s: Session, h: int, c: Option<SequenceKey>)
    requires c.Some? ==> c.value.blockHeight < h
    ensures Owes(db, s, h, c) <==> Owes(db, s, h, None)
  {
    hide Items;
    NoCursor(Items(db, s, h));
    if c.Some? {
      PassesCursor(db, s, h, c.value);
    }
  }

  /** Gaps seen from the request are the gaps seen from a cursor in its page. */
  lemma GapsFromCursor(db: Snapshot, s: Session, from: int, limit: int, c: Option<SequenceKey>, k: SequenceKey)
    requires ReadyHeight(db).Some? && from <= k.blockHeight < from + limit && Owes(db, s, k.blockHeight, c)
    requires c.Some? ==> c.value.blockHeight <= from
    ensures NoWideGap(db, s, from, limit, c) <==> NoWideGap(db, s, k.blockHeight, limit, Some(k))
  {
    hide Owes, ReadyHeight;
    var at: int := k.blockHeight;
    forall h | h > at
      ensures Owes(db, s, h, Some(k)) <==> Owes(db, s, h, c)
    {
      OwesAbove(db, s, h, Some(k));
      OwesAbove(db, s, h, c);
    }
    if NoWideGap(db, s, from, limit, c) {
      forall h | at + limit <= h <= ReadyHeight(db).value && Owes(db, s, h, Some(k))
        ensures OwesJustBelow(db, s, at, limit, Some(k), h)
      {
        assert OwesJustBelow(db, s, from, limit, c, h);
        var g :| from <= g && h - limit < g < h && Owes(db, s, g, c);
        assert Owes(db, s, g, Some(k));
      }
    }
    if NoWideGap(db, s, at, limit, Some(k)) {
      forall h | from + limit <= h <= ReadyHeight(db).value && Owes(db, s, h, c)
        ensures OwesJustBelow(db, s, from, limit, c, h)
      {
        if h < at + limit {
          assert from <= at && h - limit < at < h && Owes(db, s, at, c);
        } else {
          assert OwesJustBelow(db, s, at, limit, Some(k), h);
          var g :| at <= g && h - limit < g < h && Owes(db, s, g, Some(k));
          assert Owes(db, s, g, c);
        }
      }
    }
  }

  /** Nothing of a page lies after its last item. */
  lemma NothingAfterLast(db: Snapshot, s: Session, lo: int, hi: int, c: Option<SequenceKey>, k: SequenceKey)
    requires 0 <= lo && Expected(db, s, lo, hi, c) != []
    requires var owed := Expected(db, s, lo, hi, c); ParseCursor(owed[|owed| - 1].sequence) == Success(k)
    ensures lo <= k.blockHeight < hi && (c.Some? ==> c.value.blockHeight <= k.blockHeight)
    ensures Expected(db, s, k.blockHeight, hi, Some(k)) == [] && Owes(db, s, k.blockHeight, c)
  {
    hide FeedOf, Items, Filter, ParseCursor, ToCursor;
    var i := |Expected(db, s, lo, hi, c)| - 1;
    var left := Filter(FeedOf(db, s, lo, hi), After(c));
    ExpectedLength(db, s, lo, hi, c);
    CutKey(db, s, lo, hi, c, i, k);
    FeedSorted(db, s, lo, hi, c);
    FilterMember(FeedOf(db, s, lo, hi), After(c), left[i]);
    FeedHeights(db, s, lo, hi, left[i]);
    FilterMember(Items(db, s, k.blockHeight), After(c), left[i]);
    NothingAfter(left, k);
    RestartIsFilter(db, s, lo, hi, c, k);
  }

  lemma NothingAfter(items: seq<Item>, k: SequenceKey)
    requires Sorted(items) && items != [] && items[|items| - 1].key == k
    ensures Filter(items, After(Some(k))) == []
  {
    forall x | x in items
      ensures !After(Some(k))(x)
    {
      var j :| 0 <= j < |items| && items[j] == x;
      LessTotal(k, k);
    }
    FilterNone(items, After(Some(k)));
  }

  /** The page, and then what its cursor leaves, are all that is left. */
  lemma PageThenRest(db: Snapshot, s: Session, from: int, limit: int, c: Option<SequenceKey>, k: SequenceKey)
    requires UpTo(db, from) && 0 <= from && limit >= 1 && (c.Some? ==> c.value.blockHeight <= from)
    requires var owed := Expected(db, s, from, LastHeight(from, limit, ReadyHeight(db).value) + 1, c);
             owed != [] && ParseCursor(owed[|owed| - 1].sequence) == Success(k)
    ensures var last := LastHeight(from, limit, ReadyHeight(db).value);
            && from <= k.blockHeight <= last && Owes(db, s, k.blockHeight, c)
            && Left(db, s, from, c) == Expected(db, s, from, last + 1, c) + Left(db, s, k.blockHeight, Some(k))
  {
    hide Expected, Owes, ReadyHeight, ParseCursor;
    var ready := ReadyHeight(db).value;
    var m := LastHeight(from, limit, ready) + 1;
    NothingAfterLast(db, s, from, m, c, k);
    ExpectedSplit(db, s, from, m, ready + 1, c);
    ExpectedSplit(db, s, k.blockHeight, m, ready + 1, Some(k));
  }

  lemma PollStops(db: Snapshot, s: Session, from: int, limit: int, c: Option<SequenceKey>)
    requires 0 <= from && (c.Some? ==> c.value.blockHeight <= from)
    requires FeedPage(db, s, from, limit, c).nextCursor.None?
    ensures Polled(PollByCursor(db, s, from, limit, c)) == ItemsOf(FeedPage(db, s, from, limit, c).blocks)
  {
    hide FeedPage, ItemsOf;
    assert [FeedPage(db, s, from, limit, c)][1..] == [];
  }

  lemma PollGoesOn(db: Snapshot, s: Session, from: int, limit: int, c: Option<SequenceKey>, k: SequenceKey)
    requires 0 <= from && (c.Some? ==> c.value.blockHeight <= from) && from <= k.blockHeight
    requires FeedPage(db, s, from, limit, c).nextCursor.Some?
    requires ParseCursor(FeedPage(db, s, from, limit, c).nextCursor.value) == Success(k)
    ensures Polled(PollByCursor(db, s, from, limit, c))
         == ItemsOf(FeedPage(db, s, from, limit, c).blocks) + Polled(PollByCursor(db, s, k.blockHeight, limit, Some(k)))
  {
    hide FeedPage, ItemsOf, ParseCursor, Left;
    var rest := PollByCursor(db, s, k.blockHeight, limit, Some(k));
    assert ([FeedPage(db, s, from, limit, c)] + rest)[1..] == rest;
  }

  /**
   * On a well-linked snapshot, following `next_cursor` delivers the whole feed up to the ready height if
   * and only if no stretch of blocks without items is as long as a page allows.
   */
  lemma {:induction false} CursorPollingIff(db: Snapshot, s: Session, from: int, limit: int, c: Option<SequenceKey>)
    requires Linked(db) && WellFormed(db) && UpTo(db, from) && 0 <= from && limit >= 1
    requires c.Some? ==> c.value.blockHeight <= from
    ensures Polled(PollByCursor(db, s, from, limit, c)) == Expected(db, s, from, ReadyHeight(db).value + 1, c)
       <==> NoWideGap(db, s, from, limit, c)
    decreases |Left(db, s, from, c)|
  {
    hide FeedPage, ReadyHeight, Expected, Linked, WellFormed, Fetched, Accepts, NoWideGap, PollByCursor, Polled,
         ParseCursor, Owes;
    var page := FeedPage(db, s, from, limit, c);
    var owed := Expected(db, s, from, LastHeight(from, limit, ReadyHeight(db).value) + 1, c);
    LinkedPage(db, s, from, limit, c);
    PageCarries(db, s, from, limit, c);
    NextCursorIsTheLast(db, s, from, limit, c);
    if owed == [] {
      PollStops(db, s, from, limit, c);
      EmptyPageIff(db, s, from, limit, c);
    } else {
      var k := KeyOfText(db, s, from, LastHeight(from, limit, ReadyHeight(db).value) + 1, c, |owed| - 1);
      PageThenRest(db, s, from, limit, c, k);
      PollGoesOn(db, s, from, limit, c, k);
      UpToLower(db, ReadyHeight(db).value, k.blockHeight);
      CursorAdvances(db, s, from, limit, c, k);
      CursorPollingIff(db, s, k.blockHeight, limit, Some(k));
      GapsFromCursor(db, s, from, limit, c, k);
      SamePrefix(owed, Polled(PollByCursor(db, s, k.blockHeight, limit, Some(k))), Left(db, s, k.blockHeight, Some(k)));
    }
  }

  lemma SamePrefix(a: seq<OrderedFeedItem>, b: seq<OrderedFeedItem>, c: seq<OrderedFeedItem>)
    ensures a + b == a + c <==> b == c
  {
    assert (a + b)[|a|..] == b && (a + c)[|a|..] == c;
  }

  lemma KeyOfText(db: Snapshot, s: Session, lo: int, hi: int, c: Option<SequenceKey>, i: nat) returns (k: SequenceKey)
    requires 0 <= lo && i < |Expected(db, s, lo, hi, c)|
    ensures ParseCursor(Expected(db, s, lo, hi, c)[i].sequence) == Success(k)
  {
    hide FeedOf, Filter, ParseCursor, ToCursor;
    ExpectedLength(db, s, lo, hi, c);
    k := Filter(FeedOf(db, s, lo, hi), After(c))[i].key;
    CursorRoundTrip(k);
  }

  /** With a limit of one block the cursor never leads past a block that has items. */
  lemma LimitOneStops(db: Snapshot, s: Session, h: int)
    requires Linked(db) && WellFormed(db) && UpTo(db, h) && 0 <= h && Items(db, s, h) != []
    ensures var items := Items(db, s, h);
            var k := items[|items| - 1].key;
            && FeedPage(db, s, h, 1, None).nextCursor == Some(ToCursor(k))
            && k.blockHeight == h && FeedPage(db, s, h, 1, Some(k)).nextCursor == None
  {
    hide FeedPage, ReadyHeight, Linked, WellFormed, Fetched, Accepts, Items, Filter, ToCursor;
    var items := Items(db, s, h);
    var k := items[|items| - 1].key;
    LastItem(db, s, h);
    LinkedPage(db, s, h, 1, None);
    NextCursorIsTheLast(db, s, h, 1, None);
    NextCursorIsTheLast(db, s, h, 1, Some(k));
    OneBlock(db, s, h, None);
    OneBlock(db, s, h, Some(k));
    NoCursor(items);
    NothingAfter(items, k);
  }

  lemma LastItem(db: Snapshot, s: Session, h: int)
    requires Items(db, s, h) != []
    ensures Sorted(Items(db, s, h)) && Items(db, s, h)[|Items(db, s, h)| - 1].key.blockHeight == h
  {
    hide Items, Sorted;
    ItemsStrictIff(db, s, h);
    ItemsHeight(db, s, h, Items(db, s, h)[|Items(db, s, h)| - 1]);
  }

  lemma OneBlock(db: Snapshot, s: Session, h: int, c: Option<SequenceKey>)
    ensures Expected(db, s, h, h + 1, c) == Map(Render(), Filter(Items(db, s, h), After(c)))
  {
    hide Expected, Items;
    ExpectedSnoc(db, s, h, h, c);
    NothingExpected(db, s, h, c);
  }
}
