# order_flow: local order book and price bucketing, in Dafny

This project models the two computational parts of `order_flow`.

**Reconciling the local order book** (`order_book.py`). `process_order_book`
keeps a map from price to quantity for bids and for asks, plus a
`lastUpdateId`, and advances it with the diff events of a Binance USD-M
futures depth stream:

- The book is seeded once from a REST snapshot, on the first call only.
- An event with `u < lastUpdateId` is dropped.
- An event with `U <= lastUpdateId <= u`, or otherwise one with
  `pu == lastUpdateId`, is applied. Every bid change and then every ask
  change goes through `update_local_order_book`: quantity 0 deletes the
  level, anything else stores it. Then `lastUpdateId` becomes `u`.
- Every other event is ignored.

In `local_book.dfy` the module-level storage becomes the class
`LocalBook`, whose methods update its `bids`, `asks` and `lastUpdateId`
fields in place. `ProcessOrderBook` is proved against `Step`, a function on
whole-book values (`BookState`). The lemmas about `Step`, `Run` and
`ApplyLevels` state the reconciliation rules.

**Bucketing** comes in two forms:

- `aggregate_order_book` (`order_book.py`), in `aggregate.dfy`. It sums one
  side's quantities into buckets `floor(price / interval) * interval`
  without touching the stored book. `AggregateSide` keeps the source's
  accumulation loop and is proved to produce exactly one key per bucket
  met, holding that bucket's sum, with the side's total preserved.
- `OrderBook.map_orderbook` (`scripts/orderbook.py`), in `bucket_map.dfy`.
  It groups a fetched book into buckets 20 price units wide. Each bucket becomes an
  `{amount, difference}` entry that is stored under the bucket's highest
  ask price or lowest bid price. Those entries live in the object's `asks`
  and `bids` fields, which persist from call to call. `Group` and
  `Accumulate` keep the source's loops. They are proved against `Grouping`
  (one list per bucket, in arrival order) and against `Merge` (the stored
  entries overwritten by the new ones). The lemmas then state what one call
  records for every fetched level, and that no key is ever removed.

Prices and quantities are integers. A price is a whole number of ticks of
0.1 price units (`Levels.TicksPerUnit` is 10, the price step of the BTCUSDT
futures book), and a quantity a whole number of lot steps. The source's
widths are in price units, so they are scaled: a `map_orderbook` bucket is
`BucketMapping.Width` = 20 units = 200 ticks, and the default
`aggregate_order_book` interval is `Aggregation.DefaultInterval` = 10 units
= 100 ticks. Asks at 65001.0 and 65010.5 (650010 and 650105 ticks) thus
share the bucket 65000.0, as in the source (`SharedBucketExample`). Shared types (`Level`, `Side`, `Option`) are in
`levels.dfy` and `wrappers.dfy`.

Behaviour of the code worth knowing:

- The stale test is `u < lastUpdateId`, the rule stated in the comment at
  order_book.py:44. An event with
  `u == lastUpdateId` is therefore not stale, and it is applied again when
  it brackets the id. `ReplayOfAppliedEventHarmless` shows that this replay
  changes nothing.
- The bracket test `U <= lastUpdateId <= u` is, by the comment at
  order_book.py:48, meant for the first processed event. The code applies it to every event,
  and an event that fails it is still applied when its `pu` matches.
- The first event is tested against the snapshot's id, because seeding
  happens before the tests in the same call (`StepOnSeeded`).
- An event that fails every test is dropped silently. Nothing restarts the
  book from a new snapshot (`GapEventIgnored`).
- Snapshot levels are stored by plain assignment. A level of quantity 0 in
  the snapshot is therefore kept as the entry `price -> 0`.
- `aggregate_order_book` returns unordered maps and keeps buckets whose sum
  is zero. Both sides use the same floor rule.
- `map_orderbook` does not key an entry by its bucket. It keys it by the
  highest ask price or the lowest bid price found in the bucket, so the key
  of a bucket can differ from one call to the next.

## Model

| member | source | states |
|---|---|---|
| `Levels.LastIndexOf` | order_book.py:50-53 | index of the last change for a price, or -1 when the list has none; this is the change that decides in list-order application |
| `LocalOrderBook.ApplyLevel` | order_book.py:28-33 | quantity 0 removes the price, and an absent price leaves the side unchanged; a nonzero quantity becomes `side[price]`; every other price keeps its membership and quantity |
| `LocalOrderBook.ApplyLevels` | order_book.py:50-53 | the list-order fold of the level updates: only prices the side or the list mention can appear, and a change list never creates a level of quantity 0 |
| `LocalOrderBook.ApplyLevelsAt` | order_book.py:50-53 | after a list of changes, a price with no change keeps what it had; otherwise its last change decides: removed if 0, else that quantity |
| `LocalOrderBook.ApplyLevelsTwice` | order_book.py:50-53 | applying the same change lists again leaves the side as it is |
| `LocalOrderBook.Load` | order_book.py:39-42 | the snapshot levels stored by plain assignment, in list order; afterwards exactly the prices of the side and of the snapshot are present |
| `LocalOrderBook.LoadAt` | order_book.py:39-42 | seeding stores each snapshot price with the quantity of its last entry, zero included, and leaves unmentioned prices alone |
| `LocalOrderBook.Seeded` | order_book.py:36-42 | a seeded book is returned as it is; an unseeded one takes the snapshot's id and holds exactly its own prices and the snapshot's on each side |
| `LocalOrderBook.ApplyEvent` | order_book.py:49-54 | both change lists applied, only prices they mention added, and `lastUpdateId` set to `u` |
| `LocalOrderBook.Step` | order_book.py:35-60 | one call: seed if unseeded, then test stale, bracket and `pu` in that order against the seeded id; the result is always seeded and is either the seeded book or the seeded book with the whole event applied |
| `LocalOrderBook.SeedOnlyWhenUnseeded` | order_book.py:36-42 | a seeded book is not reloaded; an unseeded one takes the snapshot's id and every snapshot level |
| `LocalOrderBook.NeverReseeds` | order_book.py:36-42 | once `lastUpdateId` is set, a call's outcome does not depend on the snapshot at all |
| `LocalOrderBook.StepSeeds` | order_book.py:36-38 | after any call the book has a `lastUpdateId` |
| `LocalOrderBook.StepOnSeeded` | order_book.py:36-49 | a call judges its event against the book as seeded in that same call, so the first event is tested against the snapshot's id |
| `LocalOrderBook.StaleEventIgnored` | order_book.py:45-46 | an event with `u < lastUpdateId` leaves bids, asks and `lastUpdateId` unchanged |
| `LocalOrderBook.BracketingEventApplied` | order_book.py:49-54 | an event with `U <= lastUpdateId <= u` has all its bid and ask changes applied in list order, and `lastUpdateId` becomes `u` |
| `LocalOrderBook.FollowingEventApplied` | order_book.py:55-60 | a non-stale event with `pu == lastUpdateId` is applied the same way, whether or not it brackets |
| `LocalOrderBook.GapEventIgnored` | order_book.py:45-60 | a non-stale, non-bracketing event with `pu != lastUpdateId` leaves the book and its id unchanged; nothing else happens |
| `LocalOrderBook.GapExample` | order_book.py:45-60 | a book at id 100 drops an event for 105..110 whose `pu` is not 100, keeping its levels and id |
| `LocalOrderBook.StepMonotone` | order_book.py:45-60 | one call never lowers `lastUpdateId` |
| `LocalOrderBook.RunMonotone` | order_book.py:45-60 | over any sequence of events, `lastUpdateId` stays set and never drops below its starting value |
| `LocalOrderBook.ReplayOfAppliedEventHarmless` | order_book.py:45-60 | receiving the event just applied a second time leaves the book as it is, although the stale test lets it through |
| `LocalOrderBook.LocalBook.constructor` | order_book.py:12-15 | a new book is empty and unseeded |
| `LocalOrderBook.LocalBook.UpdateLocalOrderBook` | order_book.py:28-33 | the named side changes as `ApplyLevel` says; the other side and `lastUpdateId` are unchanged |
| `LocalOrderBook.LocalBook.ApplyChanges` | order_book.py:50-53 | the loop over one change list leaves the side equal to the list-order fold of its changes; nothing else changes |
| `LocalOrderBook.LocalBook.LoadSnapshot` | order_book.py:37-42 | the seeding loops load every snapshot level into its side and set `lastUpdateId` to the snapshot's id |
| `LocalOrderBook.LocalBook.ProcessOrderBook` | order_book.py:25-60 | the new book is exactly `Step` of the old one: seed if unseeded, then drop if stale, apply if bracketing or following, else drop |
| `Aggregation.GroupedPrice` | order_book.py:71 | a price's bucket is the multiple of `interval` at or just below it |
| `Aggregation.SumOverRemove` | order_book.py:66-84 | a bucket's or a side's sum can take any of its prices out first; the sums are independent of dict order |
| `Aggregation.AggregateSide` | order_book.py:70-82 | output keys are exactly the buckets of the input prices; each holds the summed quantity of the prices in it; total quantity is preserved |
| `Aggregation.AggregateOrderBook` | order_book.py:66-84 | both sides bucketed by the same rule, each with the properties of `AggregateSide`, with an interval of 10 unless one is given; the input maps are values and are not changed |
| `Aggregation.SingleBucketExample` | order_book.py:66-84 | with the default interval of 10 units, bids 101.0: 2, 104.0: 3, 109.0: 1 form the single bucket 100.0 holding 6 |
| `BucketMapping.AskBucket` | scripts/orderbook.py:17-18 | the ask bucket `b` of a price is a multiple of 20 price units with `b <= price < b + 20` units |
| `BucketMapping.BidBucket` | scripts/orderbook.py:20-21 | the bid bucket satisfies the same two facts |
| `BucketMapping.BucketsAgree` | scripts/orderbook.py:17-21 | those facts fix the bucket, so the ask and bid bucket functions agree on every price |
| `BucketMapping.SharedBucketExample` | scripts/orderbook.py:17-18 | asks at 65001.0 and 65010.5 fall into the same bucket 65000.0 |
| `BucketMapping.InBucketSnoc` | scripts/orderbook.py:27-40 | one more fetched level is appended at the end of its own bucket's list and of no other |
| `BucketMapping.InBucketMembers` | scripts/orderbook.py:27-40 | a level is in bucket `b`'s list exactly when it was fetched and its bucket is `b` |
| `BucketMapping.GroupingSnoc` | scripts/orderbook.py:28-32 | appending a level appends it to its bucket's list, creating the list when the bucket is new |
| `BucketMapping.Grouping` | scripts/orderbook.py:23-40 | `ask_buckets` / `bid_buckets` after the grouping loop: one list per bucket met, holding that bucket's levels in arrival order; every fetched level's bucket has a list |
| `BucketMapping.Group` | scripts/orderbook.py:27-40 | the grouping loop builds one list per bucket met, holding that bucket's levels in arrival order |
| `BucketMapping.GroupingWellFormed` | scripts/orderbook.py:27-40 | every bucket list is non-empty and holds only levels of its own bucket |
| `BucketMapping.GroupingPlacesEveryEntry` | scripts/orderbook.py:27-40 | every level lands in its own bucket's list, and every listed level is a fetched level of that bucket, so each level is in exactly one list |
| `BucketMapping.MaxPrice` | scripts/orderbook.py:44 | the result is the price of some level in the list and no level's price exceeds it |
| `BucketMapping.MinPrice` | scripts/orderbook.py:59 | the result is the price of some level in the list and no level's price is below it |
| `BucketMapping.KeyOf` | scripts/orderbook.py:44-59 | a bucket's key is the price of one of its levels, no lower than any on the ask side and no higher than any on the bid side |
| `BucketMapping.SumQty` | scripts/orderbook.py:45-60 | a bucket's total quantity, never negative when no quantity is |
| `BucketMapping.NewEntry` | scripts/orderbook.py:46-70 | the entry written for a bucket: `amount` is its total; `difference` brings the amount previously stored under the key to the new one, or is 0 for a new key |
| `BucketMapping.KeyInBucket` | scripts/orderbook.py:43-70 | a bucket's key lies in that bucket, so two buckets never write the same key in one call |
| `BucketMapping.Accumulate` | scripts/orderbook.py:43-70 | the processing loop, in whatever order it visits the buckets, leaves the stored entries equal to the old ones overwritten by one new entry per bucket |
| `BucketMapping.Merge` | scripts/orderbook.py:42-70 | `self.asks` / `self.bids` after a processing loop: the old entries overwritten by one `NewEntry` per bucket key, no stored key removed |
| `BucketMapping.MergeAt` | scripts/orderbook.py:46-55 | after a call, each bucket's key holds the entry for that bucket's total, with the difference taken against the entry stored before the call |
| `BucketMapping.MergeKeepsOldKeys` | scripts/orderbook.py:43-70 | no stored key is ever removed, and a key this call does not write keeps its old entry |
| `BucketMapping.EntryRecorded` | scripts/orderbook.py:27-70 | on either side, a fetched level's bucket has a list holding all the bucket's levels, and the bucket's entry is written under its key, which lies in the bucket |
| `BucketMapping.AskEntryRecorded` | scripts/orderbook.py:43-55 | an ask level's bucket is stored under the bucket's highest ask price, with `amount` equal to the bucket's summed quantity; `difference` is the new minus the previous amount at that price, or 0 for a new price |
| `BucketMapping.BidEntryRecorded` | scripts/orderbook.py:58-70 | the same for a bid level, with the entry stored under the bucket's lowest bid price |
| `BucketMapping.OrderBook.constructor` | scripts/orderbook.py:7-11 | a new object has no stored asks or bids and keeps its symbol |
| `BucketMapping.OrderBook.MapOrderbook` | scripts/orderbook.py:13-70 | the new `asks` and `bids` are the old ones merged with the grouping of the fetched asks and bids |

## Left out

- Network and file I/O: the websocket loop `fetch_order_book`, `get_order_book_snapshot`, `main`, and the exchange client's `fetch_order_book`. The snapshot is an argument of `ProcessOrderBook`, which reads it only while the book is unseeded, and the fetched book is an argument of `MapOrderbook`.
- `historical_ob.py`, which only writes raw stream messages to files.
- Presentation: `create_order_book_table` (rich tables), `log_orderbook` and the logging calls, and `app/dashboard.py`.
- `scripts/imbalance.py`: pandas filtering over floating-point prices.
- Floating point: `float(...)` conversion and float sums. Prices and quantities are exact integers, so a level cancels exactly at 0. The `int(...)` around the bucket price keeps its value for the default interval of 10 units, a whole number of units.
- Malformed messages: a snapshot or event that lacks a field (a Python `KeyError`) is not modelled. Events and snapshots always carry every field.
- `Aggregation.AggregateSide`: its precondition excludes an `interval` that is zero or negative. The only caller (order_book.py:93) passes no interval and so gets the default 10, which `AggregateOrderBook` also uses as its default.
- `BucketMapping.Accumulate`: it returns the updated map, and `MapOrderbook` assigns it to the field. The source updates `self.asks` and `self.bids` item by item. Nothing else can observe the difference, since no one else holds those maps.
- Prices finer than the tick of 0.1 units: with `TicksPerUnit` = 10, such prices cannot be written. Another tick size takes a different `TicksPerUnit`.
- Dict iteration order: the processing loops visit the buckets in an arbitrary order. Each bucket writes its own key, so the result does not depend on that order.
- Concurrency: the source's asyncio task is the only writer of the book, so no interleaving is modelled.
