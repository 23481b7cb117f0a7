/** Cutting a feed after any item and asking for the rest with that item's cursor. */
module Resume {
  import opened Prelude
  import opened Seqs
  import opened Sequence
  import opened Sorting
  import opened Tables
  import opened Queries
  import opened Assembly
  import opened FeedOrder
  import opened Scan
  import opened StreamSpec
  import opened ExactlyOnce
  import opened StreamProgress
  import opened FeedSpec
  import opened Paging

  lemma {:induction false} FeedConcat(db: Snapshot, s: Session, lo: int, mid: int, hi: int)
    requires lo <= mid <= hi
    ensures FeedOf(db, s, lo, hi) == FeedOf(db, s, lo, mid) + FeedOf(db, s, mid, hi)
    decreases hi - mid
  {
    hide Items;
    if mid >= hi {
    } else {
      FeedConcat(db, s, lo, mid, hi - 1);
    }
  }

  lemma {:induction false} FilterTwice<A>(s: seq<A>, p: A -> bool, q: A -> bool)
    requires forall x :: x in s && q(x) ==> p(x)
    ensures Filter(Filter(s, p), q) == Filter(s, q)
  {
    if s == [] {
    } else {
      assert s == [s[0]] + s[1..];
      FilterTwice(s[1..], p, q);
      FilterConcat(if p(s[0]) then [s[0]] else [], Filter(s[1..], p), q);
    }
  }

  lemma AfterMoves(c: Option<SequenceKey>, k: SequenceKey, x: Item)
    requires c.Some? ==> Less(c.value, k)
    requires After(Some(k))(x)
    ensures After(c)(x)
  {
  }

  lemma NothingBelow(db: Snapshot, s: Session, lo: int, k: SequenceKey)
    ensures Filter(FeedOf(db, s, lo, k.blockHeight), After(Some(k))) == []
  {
    hide FeedOf, Items;
    forall x | x in FeedOf(db, s, lo, k.blockHeight)
      ensures !After(Some(k))(x)
    {
      FeedHeights(db, s, lo, k.blockHeight, x);
    }
    FilterNone(FeedOf(db, s, lo, k.blockHeight), After(Some(k)));
  }

  /** Starting over at the cursor's own height, with the cursor, is the same as filtering the whole feed. */
  lemma RestartIsFilter(db: Snapshot, s: Session, lo: int, hi: int, c: Option<SequenceKey>, k: SequenceKey)
    requires lo <= k.blockHeight <= hi && (c.Some? ==> Less(c.value, k))
    ensures Filter(Filter(FeedOf(db, s, lo, hi), After(c)), After(Some(k)))
         == Filter(FeedOf(db, s, k.blockHeight, hi), After(Some(k)))
  {
    hide FeedOf, Items;
    var all := FeedOf(db, s, lo, hi);
    forall x | x in all && After(Some(k))(x)
      ensures After(c)(x)
    {
      AfterMoves(c, k, x);
    }
    FilterTwice(all, After(c), After(Some(k)));
    FeedConcat(db, s, lo, k.blockHeight, hi);
    FilterConcat(FeedOf(db, s, lo, k.blockHeight), FeedOf(db, s, k.blockHeight, hi), After(Some(k)));
    NothingBelow(db, s, lo, k);
  }

  /** What the server sends for an item's cursor text, up to height `hi`. */
  function Resumed(db: Snapshot, s: Session, cursor: string, hi: int): seq<OrderedFeedItem> {
    match ParseCursor(cursor)
    case Success(k) => Expected(db, s, StartHeight(None, Some(k)), hi, Some(k))
    case Failure(_) => []
  }

  lemma ExpectedLength(db: Snapshot, s: Session, lo: int, hi: int, c: Option<SequenceKey>)
    ensures |Expected(db, s, lo, hi, c)| == |Filter(FeedOf(db, s, lo, hi), After(c))|
  {
    hide FeedOf, Filter;
  }

  lemma CutItem(db: Snapshot, s: Session, lo: int, hi: int, c: Option<SequenceKey>, i: nat)
    requires 0 <= lo && i < |Filter(FeedOf(db, s, lo, hi), After(c))|
    ensures var x := Filter(FeedOf(db, s, lo, hi), After(c))[i];
            && Expected(db, s, lo, hi, c)[i] == Render()(x)
            && lo <= x.key.blockHeight < hi && (c.Some? ==> Less(c.value, x.key))
            && Resumed(db, s, ToCursor(x.key), hi)
               == Map(Render(), Filter(Filter(FeedOf(db, s, lo, hi), After(c)), After(Some(x.key))))
  {
    hide FeedOf, Items, Filter;
    var left := Filter(FeedOf(db, s, lo, hi), After(c));
    FilterMember(FeedOf(db, s, lo, hi), After(c), left[i]);
    FeedHeights(db, s, lo, hi, left[i]);
    CursorRoundTrip(left[i].key);
    RestartIsFilter(db, s, lo, hi, c, left[i].key);
  }

  ghost predicate Strict(db: Snapshot, s: Session, lo: int, hi: int) {
    forall h :: lo <= h < hi ==> NoSelfSpend(db, s, h)
  }

  lemma MapSuffix(items: seq<Item>, n: nat)
    requires n <= |items|
    ensures Map(Render(), items)[n..] == Map(Render(), items[n..])
  {
    MapConcat(Render(), items[..n], items[n..]);
    assert items == items[..n] + items[n..];
  }

  lemma RenderInjective(a: seq<Item>, b: seq<Item>)
    requires Map(Render(), a) == Map(Render(), b)
    ensures a == b
  {
    forall i | 0 <= i < |a|
      ensures a[i] == b[i]
    {
      assert Map(Render(), a)[i] == Map(Render(), b)[i];
      CursorInjective(a[i].key, b[i].key);
    }
  }

  lemma FeedSorted(db: Snapshot, s: Session, lo: int, hi: int, c: Option<SequenceKey>)
    ensures Sorted(Filter(FeedOf(db, s, lo, hi), After(c)))
  {
    hide FeedOf, NoSelfSpend, Sorted, StrictlySorted;
    FeedStrictIff(db, s, lo, hi);
    FilterKeepsOrder(FeedOf(db, s, lo, hi), After(c));
  }

  lemma CutKeys(db: Snapshot, s: Session, lo: int, hi: int, c: Option<SequenceKey>, i: nat)
    requires i + 1 < |Expected(db, s, lo, hi, c)|
    ensures var left, all := Filter(FeedOf(db, s, lo, hi), After(c)), Expected(db, s, lo, hi, c);
            |left| == |all| && (left[i].key == left[i + 1].key <==> all[i].sequence == all[i + 1].sequence)
  {
    hide FeedOf, Filter, ToCursor;
    var left := Filter(FeedOf(db, s, lo, hi), After(c));
    if ToCursor(left[i].key) == ToCursor(left[i + 1].key) {
      CursorInjective(left[i].key, left[i + 1].key);
    }
  }

  lemma RenderedSuffix(all: seq<Item>, rest: seq<Item>, n: nat)
    requires n <= |all|
    ensures Map(Render(), rest) == Map(Render(), all)[n..] <==> rest == all[n..]
  {
    MapSuffix(all, n);
    if Map(Render(), rest) == Map(Render(), all[n..]) {
      RenderInjective(rest, all[n..]);
    }
  }

  /**
   * A feed cut after item `i` resumes with exactly the items that follow if and only if the next item
   * does not carry the same cursor.
   */
  lemma ResumeAfterIff(db: Snapshot, s: Session, lo: int, hi: int, c: Option<SequenceKey>, i: nat)
    requires 0 <= lo && i < |Expected(db, s, lo, hi, c)|
    ensures var all := Expected(db, s, lo, hi, c);
            Resumed(db, s, all[i].sequence, hi) == all[i + 1..]
            <==> (i + 1 < |all| ==> all[i].sequence != all[i + 1].sequence)
  {
    hide Filter, FeedOf, Resumed, ToCursor, Sorted;
    ExpectedLength(db, s, lo, hi, c);
    var left := Filter(FeedOf(db, s, lo, hi), After(c));
    CutItem(db, s, lo, hi, c, i);
    FeedSorted(db, s, lo, hi, c);
    ResumeAtCutIff(left, i);
    RenderedSuffix(left, Filter(left, After(Some(left[i].key))), i + 1);
    if i + 1 < |left| {
      CutKeys(db, s, lo, hi, c, i);
    }
  }

  lemma StrictKeysDiffer(db: Snapshot, s: Session, lo: int, hi: int, c: Option<SequenceKey>, i: nat)
    requires Strict(db, s, lo, hi) && i + 1 < |Expected(db, s, lo, hi, c)|
    ensures Expected(db, s, lo, hi, c)[i].sequence != Expected(db, s, lo, hi, c)[i + 1].sequence
  {
    hide FeedOf, Filter, NoSelfSpend, Expected;
    CutKeys(db, s, lo, hi, c, i);
    FeedStrictIff(db, s, lo, hi);
    FilterKeepsOrder(FeedOf(db, s, lo, hi), After(c));
    var left := Filter(FeedOf(db, s, lo, hi), After(c));
    LessTotal(left[i].key, left[i + 1].key);
  }

  /** Without a utxo spent by its creator every cut can be resumed from. */
  lemma ResumeGivesTheRest(db: Snapshot, s: Session, lo: int, hi: int, c: Option<SequenceKey>, i: nat)
    requires 0 <= lo && Strict(db, s, lo, hi) && i < |Expected(db, s, lo, hi, c)|
    ensures Resumed(db, s, Expected(db, s, lo, hi, c)[i].sequence, hi) == Expected(db, s, lo, hi, c)[i + 1..]
  {
    hide Expected, Resumed, Strict;
    ResumeAfterIff(db, s, lo, hi, c, i);
    if i + 1 < |Expected(db, s, lo, hi, c)| {
      StrictKeysDiffer(db, s, lo, hi, c, i);
    }
  }

  lemma DifferentKeysAreStrict(db: Snapshot, s: Session, lo: int, hi: int)
    requires var all := Expected(db, s, lo, hi, None);
             forall i :: 0 <= i < |all| ==> (i + 1 < |all| ==> all[i].sequence != all[i + 1].sequence)
    ensures Strict(db, s, lo, hi)
  {
    hide FeedOf, Filter, NoSelfSpend, Expected, ToCursor;
    var feed := FeedOf(db, s, lo, hi);
    ExpectedLength(db, s, lo, hi, None);
    NoCursor(feed);
    forall i | 0 <= i < |feed|
      ensures NextDiffers(feed, i)
    {
      if i + 1 < |feed| {
        CutKeys(db, s, lo, hi, None, i);
      }
    }
    FeedStrictIff(db, s, lo, hi);
    StrictIffNeighboursDiffer(feed);
  }

  /**
   * A feed can be cut and resumed after every one of its items exactly when no transaction in it spends a
   * registered utxo that it creates itself.
   */
  lemma ResumeEverywhereIff(db: Snapshot, s: Session, lo: int, hi: int)
    requires 0 <= lo
    ensures (forall i :: 0 <= i < |Expected(db, s, lo, hi, None)| ==>
               Resumed(db, s, Expected(db, s, lo, hi, None)[i].sequence, hi) == Expected(db, s, lo, hi, None)[i + 1..])
       <==> Strict(db, s, lo, hi)
  {
    hide Expected, Resumed, Strict;
    var all := Expected(db, s, lo, hi, None);
    if Strict(db, s, lo, hi) {
      forall i | 0 <= i < |all|
        ensures Resumed(db, s, all[i].sequence, hi) == all[i + 1..]
      {
        ResumeGivesTheRest(db, s, lo, hi, None, i);
      }
    }
    if forall i :: 0 <= i < |all| ==> Resumed(db, s, all[i].sequence, hi) == all[i + 1..] {
      forall i | 0 <= i < |all|
        ensures i + 1 < |all| ==> all[i].sequence != all[i + 1].sequence
      {
        ResumeAfterIff(db, s, lo, hi, None, i);
      }
      DifferentKeysAreStrict(db, s, lo, hi);
    }
  }

  // ---- Resuming later ----

  lemma CutLiesBelow(db: Snapshot, s: Session, lo: int, hi: int, c: Option<SequenceKey>, i: nat, k: SequenceKey)
    requires 0 <= lo && i < |Expected(db, s, lo, hi, c)|
    requires ParseCursor(Expected(db, s, lo, hi, c)[i].sequence) == Success(k)
    ensures lo <= k.blockHeight < hi && (c.Some? ==> c.value.blockHeight <= k.blockHeight)
    ensures i < |Expected(db, s, lo, k.blockHeight + 1, c)|
    ensures Expected(db, s, lo, hi, c) == Expected(db, s, lo, k.blockHeight + 1, c)
                                          + Expected(db, s, k.blockHeight + 1, hi, None)
  {
    hide Expected, FeedOf, Items, Filter, ParseCursor;
    ExpectedLength(db, s, lo, hi, c);
    ExpectedLength(db, s, lo, k.blockHeight + 1, c);
    CutKey(db, s, lo, hi, c, i, k);
    LiesBelow(db, s, lo, hi, c, i);
    ExpectedSplit(db, s, lo, k.blockHeight + 1, hi, c);
  }

  lemma CutKey(db: Snapshot, s: Session, lo: int, hi: int, c: Option<SequenceKey>, i: nat, k: SequenceKey)
    requires 0 <= lo && i < |Expected(db, s, lo, hi, c)|
    requires ParseCursor(Expected(db, s, lo, hi, c)[i].sequence) == Success(k)
    ensures i < |Filter(FeedOf(db, s, lo, hi), After(c))| && Filter(FeedOf(db, s, lo, hi), After(c))[i].key == k
    ensures lo <= k.blockHeight < hi && (c.Some? ==> c.value.blockHeight <= k.blockHeight)
  {
    hide FeedOf, Items, Filter, Resumed, ParseCursor, ToCursor;
    ExpectedLength(db, s, lo, hi, c);
    CutItem(db, s, lo, hi, c, i);
    CursorRoundTrip(Filter(FeedOf(db, s, lo, hi), After(c))[i].key);
  }

  lemma LiesBelow(db: Snapshot, s: Session, lo: int, hi: int, c: Option<SequenceKey>, i: nat)
    requires i < |Filter(FeedOf(db, s, lo, hi), After(c))|
    requires var x := Filter(FeedOf(db, s, lo, hi), After(c))[i]; lo <= x.key.blockHeight < hi
    ensures var x := Filter(FeedOf(db, s, lo, hi), After(c))[i];
            i < |Filter(FeedOf(db, s, lo, x.key.blockHeight + 1), After(c))|
  {
    hide FeedOf, Items, Filter;
    var left := Filter(FeedOf(db, s, lo, hi), After(c));
    var m := left[i].key.blockHeight + 1;
    FeedConcat(db, s, lo, m, hi);
    FilterConcat(FeedOf(db, s, lo, m), FeedOf(db, s, m, hi), After(c));
    var below, above := Filter(FeedOf(db, s, lo, m), After(c)), Filter(FeedOf(db, s, m, hi), After(c));
    if i >= |below| {
      assert left[i] == above[i - |below|];
      FilterMember(FeedOf(db, s, m, hi), After(c), left[i]);
      FeedHeights(db, s, m, hi, left[i]);
    }
  }

  /** What was kept up to item `i`, and what its cursor brings, make the feed of the heights then reached. */
  lemma Splice(db: Snapshot, s: Session, lo: int, seen: int, hi: int, c: Option<SequenceKey>, i: nat, k: SequenceKey)
    requires 0 <= lo && i < |Expected(db, s, lo, seen, c)|
    requires ParseCursor(Expected(db, s, lo, seen, c)[i].sequence) == Success(k)
    requires k.blockHeight < hi && Strict(db, s, lo, hi)
    ensures Expected(db, s, lo, seen, c)[..i + 1] + Expected(db, s, k.blockHeight, hi, Some(k))
         == Expected(db, s, lo, hi, c)
  {
    hide Expected, Strict, NoSelfSpend, ParseCursor;
    var m := k.blockHeight + 1;
    CutLiesBelow(db, s, lo, seen, c, i, k);
    var own := Expected(db, s, lo, m, c);
    StrictBelow(db, s, lo, m, hi);
    ResumeGivesTheRest(db, s, lo, m, c, i);
    assert own[i] == Expected(db, s, lo, seen, c)[i];
    assert Resumed(db, s, own[i].sequence, m) == Expected(db, s, k.blockHeight, m, Some(k));
    ExpectedSplit(db, s, k.blockHeight, m, hi, Some(k));
    ExpectedSplit(db, s, lo, m, hi, c);
  }

  lemma StrictBelow(db: Snapshot, s: Session, lo: int, m: int, hi: int)
    requires Strict(db, s, lo, hi) && m <= hi
    ensures Strict(db, s, lo, m)
  {
  }

  /**
   * A stream cut after any delivered item and restarted from that item's cursor, after any changes to
   * the tables and in any interleaving: the items kept followed by the items sent again are exactly
   * what one uninterrupted stream has sent on reaching that height.
   */
  lemma ResumedStreamSplices(s: Session, db: Snapshot, fromHeight: Option<i64>, c: Option<SequenceKey>,
                             steps: seq<Step>, i: nat, k: SequenceKey, db2: Snapshot, steps2: seq<Step>)
    requires WellFormed(db) && LegalRun(s, World(db, Start(fromHeight, c)), steps)
    requires var w := Run(s, World(db, Start(fromHeight, c)), steps);
             && i < |Content(w.stream.sent)| && ParseCursor(Content(w.stream.sent)[i].sequence) == Success(k)
             && Later(w.db, db2)
    requires WellFormed(db2) && LegalRun(s, World(db2, Start(None, Some(k))), steps2)
    requires var w2 := Run(s, World(db2, Start(None, Some(k))), steps2);
             w2.stream.height > k.blockHeight && Strict(w2.db, s, StartHeight(fromHeight, c), w2.stream.height)
    ensures var w := Run(s, World(db, Start(fromHeight, c)), steps);
            var w2 := Run(s, World(db2, Start(None, Some(k))), steps2);
            Content(w.stream.sent)[..i + 1] + Content(w2.stream.sent)
            == Expected(w2.db, s, StartHeight(fromHeight, c), w2.stream.height, c)
  {
    hide Run, LegalRun, Content, Expected, Later, WellFormed, Strict, Start;
    var w, w2 := Run(s, World(db, Start(fromHeight, c)), steps), Run(s, World(db2, Start(None, Some(k))), steps2);
    var start := StartHeight(fromHeight, c);
    StartKeeps(s, db2, None, Some(k));
    RunKeeps(s, World(db2, Start(None, Some(k))), steps2, StartHeight(None, Some(k)), Some(k));
    LaterTransitive(w.db, db2, w2.db);
    DeliveredExactlyOnce(s, db, fromHeight, c, steps, w2.db);
    LaterReflexive(w2.db);
    DeliveredExactlyOnce(s, db2, None, Some(k), steps2, w2.db);
    CutLiesBelow(w2.db, s, start, w.stream.height, c, i, k);
    Splice(w2.db, s, start, w.stream.height, w2.stream.height, c, i, k);
  }

  /** The same for polling: cut anywhere, resume on any later well-linked snapshot, with any page limits. */
  lemma ResumedPollSplices(s: Session, db: Snapshot, db2: Snapshot, from: int, c: Option<SequenceKey>,
                           limit: int, limit2: int, i: nat, k: SequenceKey)
    requires Linked(db) && WellFormed(db) && UpTo(db, from) && 0 <= from && limit >= 1
    requires Linked(db2) && WellFormed(db2) && Later(db, db2) && limit2 >= 1
    requires c.Some? ==> c.value.blockHeight <= from
    requires i < |Polled(Poll(db, s, from, limit, c))|
    requires ParseCursor(Polled(Poll(db, s, from, limit, c))[i].sequence) == Success(k)
    requires ReadyHeight(db2).Some? ==> Strict(db2, s, from, ReadyHeight(db2).value + 1)
    ensures Polled(Poll(db, s, from, limit, c))[..i + 1] + Polled(Poll(db2, s, k.blockHeight, limit2, Some(k)))
         == Polled(Poll(db2, s, from, limit2, c))
  {
    hide Linked, WellFormed, ReadyHeight, Later, Poll, Polled, Expected, Strict;
    var ready := ReadyHeight(db).value;
    PollingIsTheFeed(db, s, from, limit, c);
    CutLiesBelow(db, s, from, ready + 1, c, i, k);
    ReadyHeightNeverFalls(db, db2);
    LaterNotEmpty(db, db2);
    FeedKeeps(db, db2, s, from, ready + 1, c);
    PollingIsTheFeed(db2, s, from, limit2, c);
    PollingIsTheFeed(db2, s, k.blockHeight, limit2, Some(k));
    Splice(db2, s, from, ready + 1, ReadyHeight(db2).value + 1, c, i, k);
  }
}
