# Sidecar feed, verified

A Dafny model of the sidecar's feed: the live stream (`run_stream` and `build_block_bundles_tx`), the polling
endpoint (`get_feed`), the collapsed-Merkle cache with its upstream fallback, and the pieces they stand on (cursors,
the wallet-ready height, the block scan, the snapshot queries, the reconnect backoff, the event-gap check, the value
decoder). `dafny verify dfyconfig.toml` checks the whole project.

## How it is built

- **Tables and time** (`Tables.dfy`). A `Snapshot` is one repeatable-read view: maps from primary keys to rows, the
  wallet's relevant transactions and its `last_indexed_transaction_id`. Two processes change it: the chain indexer
  appends a block with everything in it, the wallet indexer moves its mark and records relevance on the way
  (`Action`, `Legal`, `Apply`). `Later` is what any number of such steps can do, and no more.
- **Queries** (`Queries.dfy`, `Decode.dfy`, `RangeRows.dfy`). Each SQL query is a function of a snapshot and a range of
  heights. `Items(db, s, h)` is what block `h` owes a session, in key order; `FeedOf` is the feed of a range of heights.
- **The stream** (`StreamSpec.dfy`, `Streaming.dfy`, `BundleBuilder.dfy`). `Iterate` is one loop iteration as a function
  of the loop's variables, a snapshot and what the iteration meets (closed channel, failing sends, Merkle answers). The
  class `Stream` does the work imperatively, and its `Step` is proved to be `Iterate`. The theorems about runs
  (`ExactlyOnce`, `StreamProgress`, `ForkDetection`, `TreeRuns`, `Replay`) are about `Iterate` over any interleaving.
- **Polling** (`FeedSpec.dfy`, `Feed.dfy`, `Paging.dfy`, `CursorPaging.dfy`). `FeedPage` is one page and `GetFeed` the
  handler proved equal to it; `Poll` is a client that follows `next_height`, `PollByCursor` one that follows
  `next_cursor`.
- **The Merkle cache** (`MerkleCache.dfy`). A class over a write-once table; other tasks may insert between any two
  queries of a read.
- **Laws over the tables** (`RowLaws.dfy`, `BundleLaws.dfy`, `ChainLaws.dfy`, `Requests.dfy`). What each query, sort,
  scan and request does, stated on stored rows, kinds of items and ids, without the functions that compute it.
- **Counterexamples** (`Counterexamples.dfy`). Concrete tables, chains and runs at which tempting claims fail.

The specification-level state `StreamState` carries two histories that the code does not store: the blocks the scan
has accepted, and the gaps whose lookup found nothing.

## Model

| member | source | states |
|---|---|---|
| Sequence.CursorRoundTrip | sidecar/src/sequence.rs:14-48 | parsing a printed key gives the key back, for every i64 quadruple, the minimum value included |
| Sequence.CursorInjective | sidecar/src/sequence.rs:14-19 | two keys never share a cursor text |
| Sequence.LessIsLexicographic | sidecar/src/sequence.rs:4-10 | keys are ordered by the first field in which they differ: height, transaction, phase, ordinal |
| Sequence.ParseCursorIff | sidecar/src/sequence.rs:22-48 | a text is read as a key if and only if it is four signed i64 numerals with colons between them, in the order height, transaction, phase, ordinal |
| Sequence.CursorErrors | sidecar/src/sequence.rs:24-40 | a refused text is refused for the number of its colons, else for its first part that is no i64 |
| Sequence.PrintSamples | sidecar/src/sequence.rs:14-19 | printed integers have their usual digits and sign |
| BundleLaws.BundleItemPlaced | sidecar/src/routes/subscribe.rs:703-973 | every item of a bundle has the key of its kind: transaction metadata phase 0 ordinal 0, Merkle updates phase 0 below 0, relevant transactions phase 0 ordinal 1, events phase 1 by event id, utxos phase 2 by utxo id |
| BundleLaws.BundleOrder | sidecar/src/routes/subscribe.rs:979-980 | in a bundle transactions ascend, and within one come its Merkle updates, its metadata, the relevant transaction, its events by ascending event id, and its utxos by ascending utxo id |
| BundleLaws.ItemsAreABundle | sidecar/src/routes/feed.rs:579-580 | the polling feed's items are in the same order |
| Sorting.SortSorts | sidecar/src/routes/subscribe.rs:979-980 | the sort is a permutation in key order |
| Sorting.StableSortUnique | sidecar/src/routes/subscribe.rs:979-980 | a sorted sequence is the result of the stable sort exactly when it keeps the rows of every key in their order |
| Sorting.ResumeAtCutIff | sidecar/src/routes/feed.rs:591-599 | filtering by "after the key of item i" gives exactly the items behind i if and only if item i + 1 has another key |
| Sorting.ResumeAtEveryCutIffStrict | sidecar/src/routes/feed.rs:591-599 | filtering by "after the key of item i" gives exactly the items behind i, for every i, if and only if no two items share a key |
| Tables.AppendingIs | sidecar/src/db.rs:328-394 | an append stores the block, its transactions, events and utxos and marks the utxos spent, and changes nothing else |
| Tables.IndexingIs | sidecar/src/db.rs:328-394 | indexing moves the wallet's mark and adds the relevance found, and changes nothing else |
| Tables.ApplyIsLater | sidecar/src/db.rs:328-394 | every step of either indexer only grows the tables in the ways `Later` allows |
| Tables.ReadyHeightIsGreatest | sidecar/src/db.rs:340-394 | the ready height is the greatest height, at most the head, at or below which every transaction is indexed; absent if and only if block 0 has an unindexed one; on an empty chain it is the head, 0 |
| Tables.ReadyHeightIs | sidecar/src/db.rs:340-394 | the same in terms of the tables: every transaction up to the ready height is at or below the wallet's mark, a wallet without one counting as 0, and it is the head or right below a block with a transaction above the mark |
| Tables.ReadyHeightNeverFalls | sidecar/src/db.rs:340-429 | on a non-empty chain the ready height never decreases under appends and indexing |
| Queries.OrderedMembers | sidecar/src/db.rs:605-646 | a query returns each selected row once, in key order, and nothing else |
| Queries.OrderedAtHeight | sidecar/src/routes/subscribe.rs:688-973 | a range query filtered down to one height is the query of that height |
| RangeRows.CollectIds | sidecar/src/routes/subscribe.rs:652-662 | the loop adds exactly the transaction ids of the rows |
| RangeRows.RowsNameTheWalletTxs | sidecar/src/routes/subscribe.rs:652-662 | the ids named by the relevant, dust and utxo rows of a range are exactly the wallet's transactions in it |
| RangeRows.GroupZswap | sidecar/src/routes/subscribe.rs:590-599 | the loop groups the zswap events into each transaction's own, in order of event id |
| RangeRows.Fetch | sidecar/src/routes/subscribe.rs:583-683 | fetching row by row and id by id gives the rows the specification names, and groups the zswap events each relevant row carries |
| RangeRows.PushAt | sidecar/src/routes/subscribe.rs:898-973 | one inner loop pushes the rows of one height, as items, in row order |
| Contents.ItemsAreTheRows | sidecar/src/routes/feed.rs:430-590 | an item is in a block's bundle if and only if it is the item of a metadata, relevant, zswap-input, dust, create or spend row of that block |
| Contents.EachRowOnce | sidecar/src/routes/feed.rs:430-590 | an item occurs in a block exactly as often as there are rows, over all its queries, whose item it is: no row is lost or doubled |
| Contents.ItemsCount | sidecar/src/routes/feed.rs:430-590 | a block has as many items as its queries have rows |
| RowLaws.DustItemIff | sidecar/src/db.rs:1245-1343 | a dust item is in a block if and only if it is a stored dust event of the block that is asked for in full, carries the session's key anywhere in its payload, or is a dust spend of a session with a key |
| RowLaws.ZswapItemIff | sidecar/src/db.rs:1051-1090 | a zswap item is in a block if and only if nullifiers are asked for and it is a stored zswap input of the block |
| RowLaws.UtxoItemIff | sidecar/src/db.rs:1714-1915 | a utxo item is in a block if and only if it is the creation or the spend, by a transaction of the block, of a stored utxo of a registered address, with that utxo's fields and that transaction's paid fees |
| RowLaws.RelevantItemIff | sidecar/src/db.rs:605-646 | a relevant-transaction item is in a block if and only if the wallet indexer has marked a transaction of the block, with its hash, zswap events, contract actions and paid fees |
| RowLaws.ZswapPayloadsOf | sidecar/src/db.rs:975-1005 | the zswap events a relevant transaction carries are the payloads of all its zswap events by ascending event id |
| RowLaws.MetaItemIff | sidecar/src/db.rs:794-905 | a metadata item is in a block if and only if metadata is asked for and it describes a transaction of the block that is relevant or has a dust or utxo event of the session, each field from the column of its name |
| RowLaws.FeesArePrinted | sidecar/src/routes/feed.rs:131-145 | an amount of one to sixteen big-endian bytes is printed in decimal, an empty column as 0, an absent one as 0 or not at all |
| RowLaws.ValueSamples | sidecar/src/routes/feed.rs:120-129 | the most significant byte comes first, and bytes behind the sixteenth are not read |
| FeedOrder.BundleStrictIff | sidecar/src/routes/subscribe.rs:688-997 | with any Merkle updates injected, the keys of a bundle increase strictly if and only if no registered utxo of the block is spent by its creator |
| FeedOrder.FeedStrictIff | sidecar/src/routes/feed.rs:430-609 | a feed of any heights is in key order, and strictly so if and only if none of its blocks has such a utxo |
| Assembly.BundleWithoutMerkle | sidecar/src/routes/subscribe.rs:742-901 | without its Merkle updates a bundle is what the block owes, whatever the lookups answered |
| Stability.ItemsStable | sidecar/src/db.rs:605-646 | appends, later spends and further indexing never change what a stored and fully indexed block owes |
| Decode.DecodeU128Value | sidecar/src/routes/feed.rs:120-129 | the padded copy is the big-endian value of the first sixteen bytes and stays below 256^16 |
| Decode.BigEndianLeadingZeros | sidecar/src/routes/feed.rs:120-129 | leading zero bytes do not change a value |
| Decode.DecodeInvertsEncode | sidecar/src/routes/feed.rs:120-129 | decoding inverts the big-endian encoding of every u128 |
| Scan.ScanBlocks | sidecar/src/routes/subscribe.rs:401-467 | the loop reports the first violation, as the reset it is sent with |
| Scan.ScanAcceptsIff | sidecar/src/routes/subscribe.rs:401-467 | a batch is accepted if and only if heights run from the expected one and every parent hash matches, the boundary hash included |
| Scan.ScanReportsTheFirst | sidecar/src/routes/feed.rs:238-329 | a rejected batch is sound up to the reported block, with restart height max(0, expected - 1) |
| Scan.LinkedAccepted | sidecar/src/routes/feed.rs:238-329 | every range of a gapless well-linked chain is accepted |
| ChainLaws.ScanPassesIff | sidecar/src/routes/subscribe.rs:401-467 | over any stored chain a range passes the scan if and only if its stored blocks run on from its first height, each naming the one below, and the first names the boundary hash |
| ChainLaws.IterationAcceptsIff | sidecar/src/routes/subscribe.rs:386-467 | over any stored chain an iteration accepts its next up to fifty heights if and only if their blocks run on and the first names the hash tracked or, without one, the hash of the block stored below |
| ChainLaws.IterationRefuses | sidecar/src/routes/subscribe.rs:411-467 | otherwise it sends one reset that names the first height missing or not naming its predecessor, with the height below it, and ends |
| ChainLaws.FirstLinkDecides | sidecar/src/routes/subscribe.rs:404-467 | a fresh stream whose first block does not name the block stored below it sends exactly that reset and ends |
| ChainLaws.EndedStays | sidecar/src/routes/subscribe.rs:315-320 | a stream that has ended does nothing more |
| ChainLaws.EndsQuietly | sidecar/src/routes/subscribe.rs:315-330 | a closed channel or a missing wallet ends the stream, and nothing is sent |
| ChainLaws.WaitsWithHeartbeats | sidecar/src/routes/subscribe.rs:334-384 | a waiting stream sends, when due, a heartbeat with the highest stored height, the ready height and its own, and one that cannot be sent ends it |
| ChainLaws.WaitsForBlocks | sidecar/src/routes/subscribe.rs:386-399 | with nothing stored in the next fifty heights an iteration changes nothing |
| MerkleCache.CoverListsTheRange | sidecar/src/merkle_cache.rs:667-703 | an exact cover is a list of updates whose indices, in order, are exactly from, ..., to - 1 |
| MerkleCache.CoversRange | sidecar/src/merkle_cache.rs:671-703 | for from < to the check holds if and only if the list is an exact cover (of indices that wrap, when an update ends at the largest i64); for from >= to it always holds |
| MerkleCache.GreedyCompleteAndMinimal | sidecar/src/merkle_cache.rs:613-665 | when no two cached updates cross and some cached updates cover the range, the greedy read returns an exact cover, and none uses fewer updates |
| MerkleCache.GreedyMissesACover | sidecar/src/merkle_cache.rs:613-665 | with [0,4], [0,7] and [5,9] cached the range [0,10) can be covered but the greedy read does not cover it |
| MerkleCache.GreedyCompleteIff | sidecar/src/merkle_cache.rs:613-665 | on a cache the greedy read finds every cover there is if and only if wherever some update can start a cover the longest fitting one can too |
| MerkleCache.StoreIsWriteOnce | sidecar/src/merkle_cache.rs:566-607 | storing keeps every cached row, adds only the stored updates, and adds all of them when all decode |
| MerkleCache.StoringStopsAtBadText | sidecar/src/merkle_cache.rs:713-755 | what is in front of an update that does not decode is stored, nothing behind it |
| MerkleCache.MerkleCacheManager.CacheUpdate | sidecar/src/merkle_cache.rs:566-607 | inserts unless the key is present, and raises the highest index to at least the update's end |
| MerkleCache.MerkleCacheManager.StoreUpdates | sidecar/src/merkle_cache.rs:713-755 | stores updates up to the first that does not decode |
| MerkleCache.MerkleCacheManager.GetCachedUpdates | sidecar/src/merkle_cache.rs:613-665 | even if other tasks insert between its queries it ends, and returns updates of the final table, consecutive from `from` and ending at or before `to`; with no inserts it is the greedy read |
| MerkleCache.RelevantDecides | sidecar/src/graphql_ws.rs:315-362 | after any pings, progress and unknown frames, the first relevant transaction decides: its tree is the answer if and only if it starts at `to` and the tree runs from `from` to `to` - 1; any other is an empty answer |
| MerkleCache.OthersDecide | sidecar/src/graphql_ws.rs:290-365 | an error of the server or the transport fails the fetch; an end, a close or a timeout is an empty answer |
| MerkleCache.FetchMerkleUpdates | sidecar/src/graphql_ws.rs:210-365 | the loop gives the answer of the first message that decides, so an offered update that fills the range is returned, and any update returned covers it exactly |
| MerkleCache.ResolveGap | sidecar/src/routes/subscribe.rs:761-880 | the cache first; on a miss the answer is what the upstream's first decisive message gives, and it is stored; an update the upstream offers for the gap fills it unless the cache does; what is injected is nothing or an exact cover of the gap |
| BundleBuilder.PushRow | sidecar/src/routes/subscribe.rs:742-901 | a row is preceded by the updates for the gap in front of it, with ordinals -n to -1, and moves the position to its end index |
| BundleBuilder.PushRelevant | sidecar/src/routes/subscribe.rs:742-901 | the loop over a block's relevant rows pushes what the specification injects, and all its answers are nothing or exact covers |
| BundleBuilder.BuildBlockBundles | sidecar/src/routes/subscribe.rs:560-1000 | the bundles and the new Merkle position are those of the specification for the answers its lookups gave |
| Streaming.RetainAfter | sidecar/src/routes/subscribe.rs:498-504 | the retain filter keeps the items whose parsed text is after the cursor, and those that do not parse |
| Streaming.Stream.constructor | sidecar/src/routes/subscribe.rs:280-313 | a new stream starts at the cursor's height, else the requested one, never below 0, with a fresh Merkle position |
| Streaming.Stream.SendAll | sidecar/src/routes/subscribe.rs:494-517 | bundles without items are passed over, the first failed send ends the stream before its height is passed |
| Streaming.Stream.Step | sidecar/src/routes/subscribe.rs:315-526 | one iteration of the loop is exactly the specified step, for answers that are nothing or exact covers; a client's height overflows no i64 addition |
| Requests.StartsWhereAsked | sidecar/src/routes/subscribe.rs:217-220 | a stream or page starts at the cursor's height, else at the height asked for, else at 0, never below 0 |
| Requests.StreamBeginsAtHeight | sidecar/src/routes/subscribe.rs:217-220 | a stream asked to begin at height f delivers the feed from max(f, 0) on, over every run |
| Requests.CursorOverridesHeight | sidecar/src/routes/subscribe.rs:217-220 | with a cursor the height asked for makes no difference |
| Requests.PageBeginsAtHeight | sidecar/src/routes/feed.rs:165-168 | an accepted page begins with all the items of the block it was asked for, when that block owes any |
| ExactlyOnce.RetainIsKeyFilter | sidecar/src/routes/subscribe.rs:498-504 | on rendered items the text filter is the filter by key: no text fails to parse |
| ExactlyOnce.IterateKeeps | sidecar/src/routes/subscribe.rs:315-526 | every iteration keeps: all heights passed are final and exactly their items after the cursor have been delivered |
| ExactlyOnce.LaterKeeps | sidecar/src/db.rs:340-394 | so does anything the two indexers do |
| ExactlyOnce.DeliveredExactlyOnce | sidecar/src/routes/subscribe.rs:315-526 | over every interleaving of appends, indexer steps and iterations, the non-Merkle items sent are exactly the feed of the heights passed after the start cursor, as read from any later database |
| StreamProgress.NothingAboveReady | sidecar/src/routes/subscribe.rs:339-388 | at no point of any run has a block been sent that is above the ready height of that moment |
| StreamProgress.SentBlocksAreStored | sidecar/src/routes/subscribe.rs:494-517 | no run sends a block event without items, or with another block than the one stored at its height |
| StreamProgress.IterateLinked | sidecar/src/routes/subscribe.rs:386-522 | on a well-linked chain an iteration never refuses, and with a live client it passes a full batch |
| StreamProgress.NoResetOnLinkedChain | sidecar/src/routes/subscribe.rs:401-467 | while the chain stays gapless and well linked no run ever sends a reset |
| ForkDetection.ForksAreDetected | sidecar/src/routes/subscribe.rs:401-522 | whatever well-linked chains earlier iterations read, a batch is accepted if and only if every block accepted so far is still in the chain; otherwise nothing is added, the reset is sent and the stream ends |
| ForkDetection.RestartHeightReach | sidecar/src/routes/subscribe.rs:440-460 | in any run that is reset, the block at the advertised restart height has itself been replaced; what was accepted below it survives if and only if the block one further down does |
| Counterexamples.RestartHeightMissesTheFork | sidecar/src/routes/subscribe.rs:440-460 | two chains and a run over them in which the block below the restart height has been replaced too |
| MerkleTiling.TilesOnce | sidecar/src/routes/subscribe.rs:742-901 | a scan that never goes back meets each index below its position once, in a span or in a hole, and no other index |
| MerkleTiling.BundleTree | sidecar/src/routes/subscribe.rs:979-980 | in a sorted bundle the updates and relevant transactions are in the order pushed, each update before its transaction |
| MerkleTiling.BundleTiles | sidecar/src/routes/subscribe.rs:742-901 | one bundle continues the tiling, and its holes are exactly its unanswered gaps |
| TreeRuns.SendTiles | sidecar/src/routes/subscribe.rs:494-517 | so does a batch, wherever a failed send cuts it |
| TreeRuns.TreeIsTiled | sidecar/src/routes/subscribe.rs:742-901 | over every run the delivered updates and relevant transactions, starting where the items held back by the start cursor end, tile the tree up to the stream's position without overlap, but for the gaps whose lookup found nothing; only a send that fails inside a batch leaves the front of that tiling |
| Feed.BuildPage | sidecar/src/routes/feed.rs:427-609 | the page's bundles are those of the specification |
| Feed.GetFeed | sidecar/src/routes/feed.rs:148-642 | one request gives the specified page for its clamped height, limit and cursor, or the error for a bad cursor or a missing wallet; a client's height overflows no i64 addition |
| FeedSpec.Limit | sidecar/src/routes/feed.rs:169-173 | the limit asked for, or fifty, capped by the configured ceiling and never below one block |
| FeedSpec.NextIsAhead | sidecar/src/routes/feed.rs:611-616 | a next height lies above the requested one and not above the ready height, so following it ends |
| ChainLaws.EmptyPage | sidecar/src/routes/feed.rs:213-236 | a page beyond the ready height, or over heights with nothing stored, is empty and leads nowhere |
| ChainLaws.PageAcceptsIff | sidecar/src/routes/feed.rs:238-329 | over any stored chain a page is accepted if and only if its blocks run on and the first names the block stored below |
| ChainLaws.PageRefuses | sidecar/src/routes/feed.rs:252-325 | otherwise it holds one control item that names the break and the height below it, in the bundle of its lowest stored block and with a cursor before that block's items, and no next height or cursor |
| ChainLaws.AcceptedPageGoesOn | sidecar/src/routes/feed.rs:611-616 | an accepted page sends the client on to the height right above it, unless that is above the ready height |
| Paging.PageCarries | sidecar/src/routes/feed.rs:427-609 | an accepted page carries exactly the feed of the blocks it read, after the cursor |
| Paging.NoPageAboveReady | sidecar/src/routes/feed.rs:215-229 | no page holds a block above the ready height, or an empty bundle |
| Paging.TailGapIff | sidecar/src/routes/feed.rs:611-616 | an accepted page has read every height up to its last if and only if that last height is stored, yet its next height lies above it either way |
| Counterexamples.PageSkipsAMissingBlock | sidecar/src/routes/feed.rs:611-616 | a chain without block 1 on which the first page of two blocks is accepted and sends the client on to height 2 |
| Paging.NextCursorIsTheLast | sidecar/src/routes/feed.rs:618-621 | the next cursor is the last item's, and missing if and only if the blocks read owe nothing, with more pages to come or not |
| CursorPaging.CursorPollingIff | sidecar/src/routes/feed.rs:618-621 | on a well-linked snapshot, following next cursors delivers the whole feed if and only if the first height that owes anything lies in the first page and no two such heights in a row are a page limit or more apart |
| CursorPaging.LimitOneStops | sidecar/src/routes/feed.rs:618-621 | with a limit of one block the cursor never leads past a block that has items |
| Counterexamples.CursorPollingMissesABlock | sidecar/src/routes/feed.rs:618-621 | two blocks whose items following next cursors with limit one does not all deliver |
| Paging.PollingIsTheFeed | sidecar/src/routes/feed.rs:163-628 | on a well-linked snapshot, following next heights takes ceil(blocks / limit) pages, and together they are the feed of all heights up to the ready height |
| Paging.PollingAGrowingChain | sidecar/src/routes/feed.rs:163-628 | while the chain grows, each request reading a later snapshot with a limit of its own, the pages are the feed of the heights passed, as read from any later database |
| Agreement.StreamCatchesUp | sidecar/src/routes/subscribe.rs:386-522 | a live stream on a fixed well-linked snapshot passes fifty blocks an iteration up to the ready height, then waits |
| Agreement.StreamingIsPolling | sidecar/src/routes/feed.rs:228-628 | streaming to the ready height and polling to the last page deliver the same items, for every page limit |
| Resume.ResumeAfterIff | sidecar/src/routes/subscribe.rs:496-517 | the cursor of a delivered item brings exactly the items behind it if and only if the next item does not carry the same cursor |
| Resume.ResumeGivesTheRest | sidecar/src/routes/subscribe.rs:496-517 | so it does after every item when no block has a registered utxo spent by its creator |
| Resume.ResumeEverywhereIff | sidecar/src/routes/feed.rs:591-599 | this holds after every item of a feed if and only if none of its blocks has a registered utxo spent by its creator |
| Counterexamples.ResumeLosesACreate | sidecar/src/db.rs:1906-1912 | a feed with a utxo spent by its creator, and the cut after which the cursor no longer brings its creation |
| Resume.ResumedStreamSplices | sidecar/src/routes/subscribe.rs:496-517 | a stream cut after any item and resumed from its cursor, in any interleaving and after any growth, completes the items kept to what an uninterrupted stream has sent |
| Resume.ResumedPollSplices | sidecar/src/routes/feed.rs:591-599 | the same for polling, with any page limits before and after |
| Replay.ReplayGivesTheLiveUtxos | sidecar/src/db.rs:1714-1915 | unless a transaction spends a wallet utxo it creates, replaying the feed from block 0 ends with exactly the registered owners' live utxos, removes no absent utxo, and the values held are creates minus spends |
| Replay.SelfSpendCutLosesCreate | sidecar/src/db.rs:1906-1912 | for every such utxo: the spend is sent first, and cutting after it loses the creation |
| Replay.ReplayExactIff | sidecar/src/db.rs:1714-1915 | replay is exact and removes no absent utxo if and only if there is no such transaction |
| Counterexamples.ReplayKeepsASpentUtxo | sidecar/src/db.rs:1906-1912 | a feed whose replay leaves a spent utxo live |
| Replay.StreamReplay | sidecar/src/routes/feed.rs:544-580 | the same if and only if for what a stream has sent, at any point of any run |
| Backoff.SubscriptionLoop | sidecar/src/merkle_cache.rs:210-271 | after k consecutive errors the next error sleep is min(2^k, 60), after k consecutive empty runs the next idle sleep is min(5 * 2^k, 60), and a turn that sees the shutdown flag at its top starts nothing |
| Backoff.SleepsAre | sidecar/src/merkle_cache.rs:212-268 | consecutive errors sleep 1, 2, 4, 8, 16, 32 and then always 60 seconds, consecutive empty runs 5, 10, 20, 40 and then always 60, a run that cached anything 1 |
| Backoff.LivesThroughIff | sidecar/src/merkle_cache.rs:222-262 | the loop goes on past a turn if and only if no flag was seen and the run did not end by shutdown |
| Backoff.OnlyOneDelayIsRaised | sidecar/src/merkle_cache.rs:210-271 | at most one of the two delays is ever above its base |
| Backoff.NoTightLoop | sidecar/src/merkle_cache.rs:210-271 | n turns that go on sleep at least n seconds in all, and at most 60 n |
| EventGaps.GroupByTx | sidecar/src/routes/subscribe.rs:1019-1031 | the groups are the positive event ids of each transaction, in item order, and no group is empty |
| EventGaps.CountedIff | sidecar/src/routes/subscribe.rs:1019-1031 | an id is counted for a transaction if and only if it is positive and a zswap input or dust event of the transaction has it |
| EventGaps.ValidateEventOrdering | sidecar/src/routes/subscribe.rs:1016-1056 | the anomalies counted are the breaks in each transaction's sorted ids, in whatever order the groups are visited |
| BundleEvents.BundleAnomalies | sidecar/src/routes/subscribe.rs:1016-1056 | on a bundle they are the maximal runs of ids less the transactions that have any, so none is recorded if and only if each transaction's ids form one interval |

## Where the code does less than its documentation suggests

Each of these is proved, with an input at which the claim fails and the exact condition under which it holds.

- `get_cached_updates` calls its result a covering chain, but a longer update can lead it into a dead end
  (`MerkleCache.GreedyMissesACover`). `GreedyCompleteIff` says on which caches it never does, and
  `GreedyCompleteAndMinimal` that non-crossing caches are among them.
- Cursors are documented as resumable after any item. An item created and spent by one transaction gives two items with
  one key, the spend first, and cutting between them loses the create (`Counterexamples.ResumeLosesACreate`).
  `Resume.ResumeAfterIff` decides each cut, `Resume.ResumeEverywhereIff` all of them at once.
- The same utxo stays live for ever in a wallet that replays its feed (`Counterexamples.ReplayKeepsASpentUtxo`,
  `Replay.ReplayExactIff`).
- `get_feed` does not notice a gap behind the last block it read (`Counterexamples.PageSkipsAMissingBlock`,
  `Paging.TailGapIff`), so the paging theorems assume gapless snapshots. `run_stream` asks again from the height it
  reached and needs no such assumption.
- Following `next_cursor` can stop early, with a limit of one block at the first block that has items
  (`Counterexamples.CursorPollingMissesABlock`, `CursorPaging.LimitOneStops`). `CursorPaging.CursorPollingIff` says
  exactly when it delivers the whole feed; following `next_height` always does.
- The restart height of a reset is the height of a block that has been replaced, and blocks below it may have been too
  (`Counterexamples.RestartHeightMissesTheFork`, `ForkDetection.RestartHeightReach`).

Where a comment and the code differ without a property at stake the model follows the code: the comment above
`get_relevant_transactions_tx` promises regular transactions only, but its left join returns every relevant one.

## Assumptions

- A block and everything its transactions bring become visible together, above every stored block; transaction ids and
  the other primary keys are unique; a utxo row changes only once, when a new transaction spends it. `ForkDetection`
  drops all of this: there each iteration may read an unrelated well-linked chain.
- Blocks are keyed by height. In `ForkDetection` a block's hash determines the block.
- No utxo is spent before it is created; spending by the creating transaction itself is allowed, and what it breaks is
  stated above. The tiling theorem needs index ranges that increase in chain order.
- The handlers compare a client's height with the ready height before they add to it. `Stream.Step` and `GetFeed` ask
  only that the additions then made fit an i64 (`Streaming.AdditionsFit`).
- A vector holds at most isize::MAX elements.

## Left out

- HTTP, SSE, WebSocket and NATS transport, JSON and hex encoding, metrics, logging, configuration and timeouts: plumbing
  without a hard property. A failed send is an end of the stream at that point; heartbeat timing is a flag.
- PostgreSQL: the queries are functions of a snapshot value, and a database error is not modelled. The feed reads
  events and transactions by joins that the model's maps contain directly.
- Session bootstrap and profile updates: the profile and the request flags are fixed while a feed is read.
- The reconnecting subscription's own message loop (`run_subscription`): only how it ended enters the backoff loop.
- The watermarks of a page, and the error event of a subscription with a malformed cursor: fields and a message without
  a property of their own (heartbeats and `ParseCursor` are modelled).
- `KeepaliveManager`, `SnapshotClient` and `MerkleUpdateCache`: small maps with easy invariants.
- The library sort: `StableSort` is its specification as a function, used where the source sorts in place.
- Contract actions, identifiers and raw bytes are data attached to a transaction; their own queries are not modelled.
- Resume and agreement leave Merkle updates aside, because a restarted stream starts its tree position afresh and the
  polling feed sends none.
- RangeRows.Fetch: does not model the order in which the metadata query returns rows, which the sort of each bundle
  makes immaterial, nor the grouping of contract actions, which are stored with their transaction.
- MerkleCache.CoversRange: describes a release build, where `end_index + 1` wraps at the largest i64; a debug build
  stops there.
- Streaming.Stream.Step: requires that a height not above the ready height leaves room for one more batch below the
  largest i64, where the code's addition would overflow; Feed.GetFeed likewise for one more page.
