/**
 `OrderBook.map_orderbook`: a fetched book is cut into buckets 20 price
 units wide, and each bucket is recorded under its highest ask price (ask
 side) or its lowest bid price (bid side) with its total quantity and the
 change of that total since the entry last stored under the same price.
 The stored entries persist from call to call. The fetched book, which the
 source obtains from the exchange client, is a parameter here.
 */
module BucketMapping {
  import opened Levels

  /** The bucket width of the source: 20 price units. */
  const Width := 20 * TicksPerUnit

  /** `get_ask_bucket`: the multiple of 20 price units at or just below `price`. */
  function AskBucket(price: int): (b: int)
    ensures b <= price < b + Width
    ensures b % Width == 0
  {
    (price / Width) * Width
  }

  /** `get_bid_bucket`: the same rule as on the ask side. */
  function BidBucket(price: int): (b: int)
    ensures b <= price < b + Width
    ensures b % Width == 0
  {
    (price / Width) * Width
  }

  /** Both bucket functions return the one multiple of `Width` less than `Width` below the price. */
  lemma BucketsAgree(price: int, b: int)
    requires b % Width == 0 && b <= price < b + Width
    ensures AskBucket(price) == b && BidBucket(price) == b
  {
  }

  /** Asks at 65001.0 and 65010.5 share the bucket 65000.0. */
  lemma SharedBucketExample()
    ensures AskBucket(650010) == 650000 && AskBucket(650105) == 650000
  {
    BucketsAgree(650010, 650000);
    BucketsAgree(650105, 650000);
  }

  /** The bucket of `price` on `side`. */
  function BucketOf(side: Side, price: int): int
  {
    if side == Asks then AskBucket(price) else BidBucket(price)
  }

  // ---------------------------------------------------------------------
  // Grouping

  /** The entries of `ls` that fall into bucket `b`, in arrival order. */
  function InBucket(ls: seq<Level>, side: Side, b: int): seq<Level>
  {
    if ls == [] then []
    else (if BucketOf(side, ls[0].price) == b then [ls[0]] else []) + InBucket(ls[1..], side, b)
  }

  /** The buckets that some entry of `ls` falls into. */
  function BucketsOf(ls: seq<Level>, side: Side): set<int>
  {
    set i | 0 <= i < |ls| :: BucketOf(side, ls[i].price)
  }

  /**
   `ask_buckets` / `bid_buckets` as they stand after the grouping loop:
   one list per bucket met, never empty, holding only entries of that
   bucket. Every fetched entry's bucket has a list.
   */
  function Grouping(ls: seq<Level>, side: Side): (r: map<int, seq<Level>>)
    ensures forall i :: 0 <= i < |ls| ==> BucketOf(side, ls[i].price) in r
  {
    map b | b in BucketsOf(ls, side) :: InBucket(ls, side, b)
  }

  /** The bucket lists are never empty and hold only entries of their own bucket. */
  lemma GroupingWellFormed(ls: seq<Level>, side: Side)
    ensures WellFormed(Grouping(ls, side), side) && NonEmpty(Grouping(ls, side))
  {
    var g: map<int, seq<Level>> := Grouping(ls, side);
    InBucketMembers(ls, side);
    forall b: int, i: int | b in g && 0 <= i < |g[b]| ensures BucketOf(side, g[b][i].price) == b {
      assert g[b][i] in g[b];
    }
    forall b | b in g ensures g[b] != [] {
      var i :| 0 <= i < |ls| && BucketOf(side, ls[i].price) == b;
      assert ls[i] in g[b];
    }
  }

  /** Appending an entry appends it to the list of its own bucket and leaves every other list as it was. */
  lemma {:induction false} InBucketSnoc(ls: seq<Level>, l: Level, side: Side, b: int)
    ensures InBucket(ls + [l], side, b) == InBucket(ls, side, b) + (if BucketOf(side, l.price) == b then [l] else [])
  {
    if ls != [] {
      assert (ls + [l])[1..] == ls[1..] + [l];
      InBucketSnoc(ls[1..], l, side, b);
    }
  }

  /** An entry is in the list of bucket `b` exactly when it is an entry of `ls` whose bucket is `b`. */
  lemma {:induction false} InBucketMembers(ls: seq<Level>, side: Side)
    ensures forall b, x :: x in InBucket(ls, side, b) <==> x in ls && BucketOf(side, x.price) == b
  {
    if ls != [] {
      InBucketMembers(ls[1..], side);
      assert ls == [ls[0]] + ls[1..];
    }
  }

  /** Appending one entry to the fetched list appends it to its bucket's list, creating the list if needed. */
  lemma GroupingSnoc(ls: seq<Level>, l: Level, side: Side)
    ensures var g := Grouping(ls, side); var b := BucketOf(side, l.price);
      Grouping(ls + [l], side) == if b in g then g[b := g[b] + [l]] else g[b := [l]]
  {
    var g := Grouping(ls, side);
    var b := BucketOf(side, l.price);
    var ls' := ls + [l];
    var g' := Grouping(ls', side);
    var e := if b in g then g[b := g[b] + [l]] else g[b := [l]];
    BucketsOfSnoc(ls, l, side);
    assert g'.Keys == e.Keys;
    if b !in g {
      InBucketEmpty(ls, side, b);
    }
    forall c | c in g' ensures g'[c] == e[c] {
      InBucketSnoc(ls, l, side, c);
    }
  }

  /** Appending an entry adds its bucket to the buckets met. */
  lemma BucketsOfSnoc(ls: seq<Level>, l: Level, side: Side)
    ensures BucketsOf(ls + [l], side) == BucketsOf(ls, side) + {BucketOf(side, l.price)}
  {
    var ls' := ls + [l];
    forall c | c in BucketsOf(ls', side) ensures c in BucketsOf(ls, side) + {BucketOf(side, l.price)} {
      var i :| 0 <= i < |ls'| && BucketOf(side, ls'[i].price) == c;
      if i < |ls| {
        assert ls'[i] == ls[i];
      }
    }
    forall c | c in BucketsOf(ls, side) ensures c in BucketsOf(ls', side) {
      var i :| 0 <= i < |ls| && BucketOf(side, ls[i].price) == c;
      assert ls'[i] == ls[i];
    }
    assert ls'[|ls|] == l;
  }

  /** A bucket that no entry falls into has an empty list. */
  lemma InBucketEmpty(ls: seq<Level>, side: Side, b: int)
    requires b !in BucketsOf(ls, side)
    ensures InBucket(ls, side, b) == []
  {
    InBucketMembers(ls, side);
  }

  /**
   The two grouping loops of `map_orderbook`: each entry is appended to
   the list of its bucket, the list created on first use.
   */
  method Group(ls: seq<Level>, side: Side) returns (buckets: map<int, seq<Level>>)
    ensures buckets == Grouping(ls, side)
  {
    buckets := map[];
    for i := 0 to |ls|
      invariant buckets == Grouping(ls[..i], side)
    {
      GroupingSnoc(ls[..i], ls[i], side);
      assert ls[..i + 1] == ls[..i] + [ls[i]];
      var bucket := BucketOf(side, ls[i].price);
      if bucket in buckets {
        buckets := buckets[bucket := buckets[bucket] + [ls[i]]];
      } else {
        buckets := buckets[bucket := [ls[i]]];
      }
    }
    assert ls[..|ls|] == ls;
  }

  /**
   Every entry lands in the list of its own bucket, and each list holds
   only entries of that bucket, so an entry is in exactly one list.
   */
  lemma GroupingPlacesEveryEntry(ls: seq<Level>, side: Side)
    ensures forall i :: 0 <= i < |ls| ==>
      BucketOf(side, ls[i].price) in Grouping(ls, side) && ls[i] in Grouping(ls, side)[BucketOf(side, ls[i].price)]
    ensures forall b, x :: b in Grouping(ls, side) && x in Grouping(ls, side)[b] ==>
      x in ls && BucketOf(side, x.price) == b
  {
    InBucketMembers(ls, side);
  }

  // ---------------------------------------------------------------------
  // Per-bucket summary

  /** One stored entry: the bucket's total quantity and its change since the previous call. */
  datatype Entry = Entry(amount: int, difference: int)

  /** The highest price among the levels of `ls`. */
  function MaxPrice(ls: seq<Level>): (r: int)
    requires ls != []
    ensures exists i :: 0 <= i < |ls| && ls[i].price == r
    ensures forall i :: 0 <= i < |ls| ==> ls[i].price <= r
  {
    if |ls| == 1 then ls[0].price
    else
      var rest := MaxPrice(ls[1..]);
      if ls[0].price > rest then ls[0].price else rest
  }

  /** The lowest price among the levels of `ls`. */
  function MinPrice(ls: seq<Level>): (r: int)
    requires ls != []
    ensures exists i :: 0 <= i < |ls| && ls[i].price == r
    ensures forall i :: 0 <= i < |ls| ==> r <= ls[i].price
  {
    if |ls| == 1 then ls[0].price
    else
      var rest := MinPrice(ls[1..]);
      if ls[0].price < rest then ls[0].price else rest
  }

  /** The total quantity of the levels of `ls`; no negative quantities, no negative total. */
  function SumQty(ls: seq<Level>): (r: int)
    ensures (forall i :: 0 <= i < |ls| ==> ls[i].qty >= 0) ==> r >= 0
  {
    if ls == [] then 0 else ls[0].qty + SumQty(ls[1..])
  }

  /** The price a bucket is stored under: highest on the ask side, lowest on the bid side. */
  function KeyOf(side: Side, group: seq<Level>): (k: int)
    requires group != []
    ensures exists i :: 0 <= i < |group| && group[i].price == k
    ensures side == Asks ==> forall i :: 0 <= i < |group| ==> group[i].price <= k
    ensures side == Bids ==> forall i :: 0 <= i < |group| ==> k <= group[i].price
  {
    if side == Asks then MaxPrice(group) else MinPrice(group)
  }

  /**
   The entry written for a bucket whose key is `key`, given the entries
   stored so far: the bucket's total, and a difference that brings the
   previous amount at that key to the new one (0 for a new key).
   */
  function NewEntry(stored: map<int, Entry>, key: int, group: seq<Level>): (r: Entry)
    ensures r.amount == SumQty(group)
    ensures key in stored ==> stored[key].amount + r.difference == r.amount
    ensures key !in stored ==> r.difference == 0
  {
    var total := SumQty(group);
    if key in stored then Entry(total, total - stored[key].amount) else Entry(total, 0)
  }

  /** Bucket lists as the grouping loops leave them: non-empty, each entry in its own bucket. */
  ghost predicate WellFormed(groups: map<int, seq<Level>>, side: Side)
  {
    forall b, i :: b in groups && 0 <= i < |groups[b]| ==> BucketOf(side, groups[b][i].price) == b
  }

  ghost predicate NonEmpty(groups: map<int, seq<Level>>)
  {
    forall b :: b in groups ==> groups[b] != []
  }

  /** A bucket's key lies in that bucket. */
  lemma KeyInBucket(groups: map<int, seq<Level>>, side: Side, b: int)
    requires WellFormed(groups, side) && NonEmpty(groups) && b in groups
    ensures BucketOf(side, KeyOf(side, groups[b])) == b
  {
  }

  /** The keys the processing loop writes for the buckets `bs`, each inside its own bucket. */
  function KeySet(groups: map<int, seq<Level>>, side: Side, bs: set<int>): (ks: set<int>)
    requires WellFormed(groups, side) && NonEmpty(groups) && bs <= groups.Keys
    ensures forall k :: k in ks ==> BucketOf(side, k) in bs
  {
    KeySetInBuckets(groups, side, bs);
    set c | c in bs :: KeyOf(side, groups[c])
  }

  /** Each bucket's key lies in that bucket. */
  lemma KeySetInBuckets(groups: map<int, seq<Level>>, side: Side, bs: set<int>)
    requires WellFormed(groups, side) && NonEmpty(groups) && bs <= groups.Keys
    ensures forall c :: c in bs ==> BucketOf(side, KeyOf(side, groups[c])) == c
  {
    forall c | c in bs ensures BucketOf(side, KeyOf(side, groups[c])) == c {
      KeyInBucket(groups, side, c);
    }
  }

  /** The entries the processing loop writes for the buckets `bs`, keyed by price. */
  function Updates(stored: map<int, Entry>, groups: map<int, seq<Level>>, side: Side, bs: set<int>): map<int, Entry>
    requires WellFormed(groups, side) && NonEmpty(groups) && bs <= groups.Keys
  {
    map k | k in KeySet(groups, side, bs) :: NewEntry(stored, k, groups[BucketOf(side, k)])
  }

  /** The stored entries after the buckets `bs` of `groups` have been written over `stored`. */
  function MergeOver(stored: map<int, Entry>, groups: map<int, seq<Level>>, side: Side, bs: set<int>): map<int, Entry>
    requires WellFormed(groups, side) && NonEmpty(groups) && bs <= groups.Keys
  {
    stored + Updates(stored, groups, side, bs)
  }

  /** `self.asks` / `self.bids` after one processing loop over all buckets. */
  function Merge(stored: map<int, Entry>, groups: map<int, seq<Level>>, side: Side): (r: map<int, Entry>)
    requires WellFormed(groups, side) && NonEmpty(groups)
    ensures stored.Keys <= r.Keys
  {
    MergeOver(stored, groups, side, groups.Keys)
  }

  /** The update map for one more bucket gains that bucket's key, new to it, and nothing else. */
  lemma UpdatesStep(stored: map<int, Entry>, groups: map<int, seq<Level>>, side: Side, bs: set<int>, b: int)
    requires WellFormed(groups, side) && NonEmpty(groups) && bs <= groups.Keys && b in groups && b !in bs
    ensures var k := KeyOf(side, groups[b]); var u0 := Updates(stored, groups, side, bs);
      && k !in u0
      && Updates(stored, groups, side, bs + {b}) == u0[k := NewEntry(stored, k, groups[b])]
  {
    var k := KeyOf(side, groups[b]);
    KeyInBucket(groups, side, b);
    assert KeySet(groups, side, bs + {b}) == KeySet(groups, side, bs) + {k};
  }

  /** Writing one more bucket changes only that bucket's key. */
  lemma MergeOverStep(stored: map<int, Entry>, groups: map<int, seq<Level>>, side: Side, bs: set<int>, b: int)
    requires WellFormed(groups, side) && NonEmpty(groups) && bs <= groups.Keys && b in groups && b !in bs
    ensures var k := KeyOf(side, groups[b]); var cur := MergeOver(stored, groups, side, bs);
      && (k in cur <==> k in stored)
      && (k in cur ==> cur[k] == stored[k])
      && MergeOver(stored, groups, side, bs + {b}) == cur[k := NewEntry(stored, k, groups[b])]
  {
    var k := KeyOf(side, groups[b]);
    UpdatesStep(stored, groups, side, bs, b);
    UnionUpdate(stored, Updates(stored, groups, side, bs), k, NewEntry(stored, k, groups[b]));
  }

  /** One iteration of the processing loop, reading the entry under the key from the map built so far. */
  lemma AccumulateStep(stored: map<int, Entry>, groups: map<int, seq<Level>>, side: Side, bs: set<int>, b: int,
                       r: map<int, Entry>)
    requires WellFormed(groups, side) && NonEmpty(groups) && bs <= groups.Keys && b in groups && b !in bs
    requires r == MergeOver(stored, groups, side, bs)
    ensures var k := KeyOf(side, groups[b]);
      MergeOver(stored, groups, side, bs + {b}) == r[k := NewEntry(r, k, groups[b])]
  {
    var k := KeyOf(side, groups[b]);
    MergeOverStep(stored, groups, side, bs, b);
    assert NewEntry(r, k, groups[b]) == NewEntry(stored, k, groups[b]);
  }

  /** Overwriting one key commutes with the map union. */
  lemma UnionUpdate(a: map<int, Entry>, b: map<int, Entry>, k: int, v: Entry)
    ensures a + b[k := v] == (a + b)[k := v]
  {
  }

  /**
   One processing loop of `map_orderbook`: for each bucket, write its
   total under its key, with the difference to the amount stored there
   before (or 0 for a new key).
   */
  method Accumulate(stored: map<int, Entry>, groups: map<int, seq<Level>>, side: Side) returns (r: map<int, Entry>)
    requires WellFormed(groups, side) && NonEmpty(groups)
    ensures r == Merge(stored, groups, side)
  {
    r := stored;
    var todo := groups.Keys;
    ghost var done: set<int> := {};
    assert MergeOver(stored, groups, side, done) == stored;
    while exists b :: b in todo
      invariant todo <= groups.Keys && done == groups.Keys - todo
      invariant r == MergeOver(stored, groups, side, done)
      decreases todo
    {
      var bucket :| bucket in todo;
      var levels := groups[bucket];
      var key := KeyOf(side, levels);
      var total := SumQty(levels);
      ghost var prev := r;
      ghost var entry := NewEntry(prev, key, levels);
      if key in r {
        assert entry == Entry(total, total - r[key].amount);
        r := r[key := Entry(total, total - r[key].amount)];
      } else {
        assert entry == Entry(total, 0);
        r := r[key := Entry(total, 0)];
      }
      assert r == prev[key := entry];
      assert r == MergeOver(stored, groups, side, done + {bucket}) by {
        AccumulateStep(stored, groups, side, done, bucket, prev);
      }
      todo := todo - {bucket};
      done := done + {bucket};
    }
    assert done == groups.Keys;
  }

  // ---------------------------------------------------------------------
  // What one call records

  /** Each bucket's entry is written under its key, and every stored key survives. */
  lemma MergeAt(stored: map<int, Entry>, groups: map<int, seq<Level>>, side: Side, b: int)
    requires WellFormed(groups, side) && NonEmpty(groups) && b in groups
    ensures var k := KeyOf(side, groups[b]); var r := Merge(stored, groups, side);
      k in r && r[k] == NewEntry(stored, k, groups[b])
  {
    KeyInBucket(groups, side, b);
  }

  /**
   Nothing is ever removed: every stored key survives, and a key this
   call does not write keeps its old entry.
   */
  lemma MergeKeepsOldKeys(stored: map<int, Entry>, groups: map<int, seq<Level>>, side: Side, k: int)
    requires WellFormed(groups, side) && NonEmpty(groups) && k in stored
    ensures var r := Merge(stored, groups, side);
      && k in r
      && ((forall b :: b in groups ==> KeyOf(side, groups[b]) != k) ==> r[k] == stored[k])
  {
  }

  /** Either side: a fetched entry's bucket is written under that bucket's key, and holds all its entries. */
  lemma EntryRecorded(stored: map<int, Entry>, ls: seq<Level>, side: Side, i: int)
    requires 0 <= i < |ls|
    ensures WellFormed(Grouping(ls, side), side) && NonEmpty(Grouping(ls, side))
    ensures var groups := Grouping(ls, side); var b := BucketOf(side, ls[i].price);
      && b in groups
      && groups[b] == InBucket(ls, side, b)
      && ls[i] in groups[b]
      && (forall j :: 0 <= j < |ls| && BucketOf(side, ls[j].price) == b ==> ls[j] in groups[b])
      && var k := KeyOf(side, groups[b]);
      && BucketOf(side, k) == b
      && k in Merge(stored, groups, side)
      && Merge(stored, groups, side)[k] == NewEntry(stored, k, groups[b])
  {
    GroupingWellFormed(ls, side);
    InBucketMembers(ls, side);
    var groups := Grouping(ls, side);
    var b := BucketOf(side, ls[i].price);
    KeyInBucket(groups, side, b);
    MergeAt(stored, groups, side, b);
  }

  /** An entry that lies in a list is bounded by the list's highest price. */
  lemma BelowMax(g: seq<Level>, x: Level)
    requires x in g
    ensures x.price <= MaxPrice(g)
  {
    var n :| 0 <= n < |g| && g[n] == x;
  }

  /** An entry that lies in a list is bounded by the list's lowest price. */
  lemma AboveMin(g: seq<Level>, x: Level)
    requires x in g
    ensures MinPrice(g) <= x.price
  {
    var n :| 0 <= n < |g| && g[n] == x;
  }

  /**
   For an ask entry: its bucket is recorded under the highest ask price
   of that bucket, with the bucket's total quantity as `amount` and, as
   `difference`, the change against the amount previously stored under
   that price, or 0 when the price is a new key.
   */
  lemma AskEntryRecorded(stored: map<int, Entry>, ls: seq<Level>, i: int)
    requires 0 <= i < |ls|
    ensures WellFormed(Grouping(ls, Asks), Asks) && NonEmpty(Grouping(ls, Asks))
    ensures var groups := Grouping(ls, Asks); var b := AskBucket(ls[i].price);
      && b in groups
      && var k := MaxPrice(groups[b]);
      && var r := Merge(stored, groups, Asks);
      && ls[i].price <= k < b + Width
      && AskBucket(k) == b
      && (forall j :: 0 <= j < |ls| && AskBucket(ls[j].price) == b ==> ls[j].price <= k)
      && k in r
      && r[k].amount == SumQty(InBucket(ls, Asks, b))
      && r[k].difference == (if k in stored then r[k].amount - stored[k].amount else 0)
  {
    EntryRecorded(stored, ls, Asks, i);
    var groups := Grouping(ls, Asks);
    var b := AskBucket(ls[i].price);
    var g := groups[b];
    var k := MaxPrice(g);
    assert KeyOf(Asks, g) == k;
    BelowMax(g, ls[i]);
    forall j | 0 <= j < |ls| && AskBucket(ls[j].price) == b ensures ls[j].price <= k {
      BelowMax(g, ls[j]);
    }
  }

  /** The same for a bid entry, recorded under the lowest bid price of its bucket. */
  lemma BidEntryRecorded(stored: map<int, Entry>, ls: seq<Level>, i: int)
    requires 0 <= i < |ls|
    ensures WellFormed(Grouping(ls, Bids), Bids) && NonEmpty(Grouping(ls, Bids))
    ensures var groups := Grouping(ls, Bids); var b := BidBucket(ls[i].price);
      && b in groups
      && var k := MinPrice(groups[b]);
      && var r := Merge(stored, groups, Bids);
      && b <= k <= ls[i].price
      && BidBucket(k) == b
      && (forall j :: 0 <= j < |ls| && BidBucket(ls[j].price) == b ==> k <= ls[j].price)
      && k in r
      && r[k].amount == SumQty(InBucket(ls, Bids, b))
      && r[k].difference == (if k in stored then r[k].amount - stored[k].amount else 0)
  {
    EntryRecorded(stored, ls, Bids, i);
    var groups := Grouping(ls, Bids);
    var b := BidBucket(ls[i].price);
    var g := groups[b];
    var k := MinPrice(g);
    assert KeyOf(Bids, g) == k;
    AboveMin(g, ls[i]);
    forall j | 0 <= j < |ls| && BidBucket(ls[j].price) == b ensures k <= ls[j].price {
      AboveMin(g, ls[j]);
    }
  }

  // ---------------------------------------------------------------------
  // The object

  /** A fetched book: the `bids` and `asks` lists of `fetch_order_book`. */
  datatype FetchedBook = FetchedBook(bids: seq<Level>, asks: seq<Level>)

  /** The `OrderBook` class of `scripts/orderbook.py`, without its exchange client. */
  class OrderBook {
    var asks: map<int, Entry>
    var bids: map<int, Entry>
    const symbol: string

    constructor (symbol: string)
      ensures asks == map[] && bids == map[] && this.symbol == symbol
    {
      asks := map[];
      bids := map[];
      this.symbol := symbol;
    }

    /** `map_orderbook` on the book `data` that the source fetches itself. */
    method MapOrderbook(data: FetchedBook)
      modifies this
      ensures WellFormed(Grouping(data.asks, Asks), Asks) && NonEmpty(Grouping(data.asks, Asks))
      ensures asks == Merge(old(asks), Grouping(data.asks, Asks), Asks)
      ensures WellFormed(Grouping(data.bids, Bids), Bids) && NonEmpty(Grouping(data.bids, Bids))
      ensures bids == Merge(old(bids), Grouping(data.bids, Bids), Bids)
    {
      var askBuckets := Group(data.asks, Asks);
      var bidBuckets := Group(data.bids, Bids);
      GroupingWellFormed(data.asks, Asks);
      GroupingWellFormed(data.bids, Bids);
      asks := Accumulate(asks, askBuckets, Asks);
      assert asks == Merge(old(asks), Grouping(data.asks, Asks), Asks);
      bids := Accumulate(bids, bidBuckets, Bids);
      assert bids == Merge(old(bids), Grouping(data.bids, Bids), Bids);
    }
  }

}
