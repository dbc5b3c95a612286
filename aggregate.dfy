/**
 `aggregate_order_book`: one side of the stored book regrouped into
 price buckets `interval` wide. Every level goes to the bucket
 `floor(price / interval) * interval` and each bucket holds the summed
 quantity of its levels. The stored book is read, never written.
 */
module Aggregation {
  import opened Levels

  /** The bucket of `price`; Python's `//` floors, as Dafny's `/` does for a positive divisor. */
  function GroupedPrice(price: int, interval: int): (g: int)
    requires interval > 0
    ensures g <= price < g + interval
    ensures exists k :: g == k * interval
  {
    price / interval * interval
  }

  /** The sum of `m[p]` over the prices `p` of `s`. */
  ghost function SumOver(m: map<int, int>, s: set<int>): int
    requires s <= m.Keys
    decreases s
  {
    if exists p :: p in s then
      var p :| p in s;
      m[p] + SumOver(m, s - {p})
    else
      0
  }

  /** Any price of `s` can be taken out of the sum first. */
  lemma {:induction false} SumOverRemove(m: map<int, int>, s: set<int>, p: int)
    requires s <= m.Keys && p in s
    ensures SumOver(m, s) == m[p] + SumOver(m, s - {p})
    decreases s
  {
    var q :| q in s && SumOver(m, s) == m[q] + SumOver(m, s - {q});
    if q != p {
      SumOverRemove(m, s - {q}, p);
      SumOverRemove(m, s - {p}, q);
      assert s - {q} - {p} == s - {p} - {q};
    }
  }

  /** Two maps that agree on `s` have the same sum over `s`. */
  lemma {:induction false} SumOverAgree(m1: map<int, int>, m2: map<int, int>, s: set<int>)
    requires s <= m1.Keys && s <= m2.Keys
    requires forall p :: p in s ==> m1[p] == m2[p]
    ensures SumOver(m1, s) == SumOver(m2, s)
    decreases s
  {
    if exists p :: p in s {
      var p :| p in s;
      SumOverRemove(m1, s, p);
      SumOverRemove(m2, s, p);
      SumOverAgree(m1, m2, s - {p});
    }
  }

  /** The prices of `s` that fall into bucket `g`. */
  ghost function PricesIn(s: set<int>, g: int, interval: int): set<int>
    requires interval > 0
  {
    set p | p in s && GroupedPrice(p, interval) == g
  }

  /** The buckets that the prices of `s` fall into. */
  ghost function BucketsOf(s: set<int>, interval: int): set<int>
    requires interval > 0
  {
    set p | p in s :: GroupedPrice(p, interval)
  }

  /**
   The loop invariant of `AggregateSide` once the prices of `done` have
   been added: one key per bucket met so far, each holding the sum of its
   prices' quantities, and the total quantity of `done` preserved.
   */
  ghost predicate Aggregates(side: map<int, int>, done: set<int>, agg: map<int, int>, interval: int)
    requires interval > 0 && done <= side.Keys
  {
    && agg.Keys == BucketsOf(done, interval)
    && (forall g :: g in agg ==> agg[g] == SumOver(side, PricesIn(done, g, interval)))
    && SumOver(agg, agg.Keys) == SumOver(side, done)
  }

  /** A bucket map with `quantity` added to bucket `g`, the bucket created on first use. */
  function AddTo(agg: map<int, int>, g: int, quantity: int): (r: map<int, int>)
    ensures r.Keys == agg.Keys + {g}
    ensures r[g] == (if g in agg then agg[g] else 0) + quantity
    ensures forall h :: h in agg && h != g ==> r[h] == agg[h]
  {
    if g in agg then agg[g := agg[g] + quantity] else agg[g := quantity]
  }

  /** Adding one bucket's quantity adds it to the total. */
  lemma {:induction false} AddToTotal(agg: map<int, int>, g: int, quantity: int)
    ensures SumOver(AddTo(agg, g, quantity), agg.Keys + {g}) == SumOver(agg, agg.Keys) + quantity
  {
    var r := AddTo(agg, g, quantity);
    var keys := agg.Keys + {g};
    SumOverRemove(r, keys, g);
    assert keys - {g} == agg.Keys - {g};
    SumOverAgree(agg, r, agg.Keys - {g});
    if g in agg {
      SumOverRemove(agg, agg.Keys, g);
    } else {
      assert agg.Keys - {g} == agg.Keys;
    }
  }

  /**
   Adding `price` to the prices seen so far adds it to its own bucket's
   sum and to no other bucket.
   */
  lemma AddToBucket(side: map<int, int>, done: set<int>, price: int, interval: int)
    requires interval > 0 && done <= side.Keys && price in side && price !in done
    ensures BucketsOf(done + {price}, interval) == BucketsOf(done, interval) + {GroupedPrice(price, interval)}
    ensures var g := GroupedPrice(price, interval);
      SumOver(side, PricesIn(done + {price}, g, interval))
        == side[price] + SumOver(side, PricesIn(done, g, interval))
    ensures forall g :: g != GroupedPrice(price, interval) ==>
      PricesIn(done + {price}, g, interval) == PricesIn(done, g, interval)
  {
    var g := GroupedPrice(price, interval);
    assert PricesIn(done + {price}, g, interval) - {price} == PricesIn(done, g, interval);
    SumOverRemove(side, PricesIn(done + {price}, g, interval), price);
  }

  /** One iteration of the loop keeps its invariant. */
  lemma AggregateStep(side: map<int, int>, done: set<int>, agg: map<int, int>, price: int, interval: int)
    requires interval > 0 && done <= side.Keys && price in side && price !in done
    requires Aggregates(side, done, agg, interval)
    ensures Aggregates(side, done + {price}, AddTo(agg, GroupedPrice(price, interval), side[price]), interval)
  {
    var g := GroupedPrice(price, interval);
    var r := AddTo(agg, g, side[price]);
    AddToBucket(side, done, price, interval);
    AddToTotal(agg, g, side[price]);
    SumOverRemove(side, done + {price}, price);
    assert done + {price} - {price} == done;
    if g !in agg {
      assert PricesIn(done, g, interval) == {};
    }
  }

  /**
   One of the two loops of `aggregate_order_book`: for each `price,
   quantity` of `side`, add the quantity to its bucket, creating the
   bucket on first use. The result has one key per bucket that some price
   falls into, each bucket's value is the sum of the quantities of its
   prices, and the side's total quantity is preserved.
   */
  method AggregateSide(side: map<int, int>, interval: int) returns (agg: map<int, int>)
    requires interval > 0
    ensures agg.Keys == BucketsOf(side.Keys, interval)
    ensures forall g :: g in agg ==> agg[g] == SumOver(side, PricesIn(side.Keys, g, interval))
    ensures SumOver(agg, agg.Keys) == SumOver(side, side.Keys)
  {
    agg := map[];
    var todo := side.Keys;
    ghost var done: set<int> := {};
    while exists p :: p in todo
      invariant todo <= side.Keys && done == side.Keys - todo
      invariant Aggregates(side, done, agg, interval)
      decreases todo
    {
      var price :| price in todo;
      var grouped := GroupedPrice(price, interval);
      AggregateStep(side, done, agg, price, interval);
      if grouped in agg {
        agg := agg[grouped := agg[grouped] + side[price]];
      } else {
        agg := agg[grouped := side[price]];
      }
      todo := todo - {price};
      done := done + {price};
    }
    assert done == side.Keys;
  }

  /** `aggregate_order_book(storage, interval)`: both sides bucketed alike. */
  method AggregateOrderBook(bids: map<int, int>, asks: map<int, int>, interval: int := DefaultInterval)
    returns (aggBids: map<int, int>, aggAsks: map<int, int>)
    requires interval > 0
    ensures aggBids.Keys == BucketsOf(bids.Keys, interval)
    ensures aggAsks.Keys == BucketsOf(asks.Keys, interval)
    ensures forall g :: g in aggBids ==> aggBids[g] == SumOver(bids, PricesIn(bids.Keys, g, interval))
    ensures forall g :: g in aggAsks ==> aggAsks[g] == SumOver(asks, PricesIn(asks.Keys, g, interval))
    ensures SumOver(aggBids, aggBids.Keys) == SumOver(bids, bids.Keys)
    ensures SumOver(aggAsks, aggAsks.Keys) == SumOver(asks, asks.Keys)
  {
    aggBids := AggregateSide(bids, interval);
    aggAsks := AggregateSide(asks, interval);
  }

  /**
   With the default interval of 10 price units, bids at 101.0, 104.0 and
   109.0 with quantities 2, 3 and 1 all fall into the bucket 100.0, which
   holds 6.
   */
  lemma SingleBucketExample()
    ensures var side := map[1010 := 2, 1040 := 3, 1090 := 1];
      && BucketsOf(side.Keys, DefaultInterval) == {1000}
      && SumOver(side, PricesIn(side.Keys, 1000, DefaultInterval)) == 6
  {
    var side := map[1010 := 2, 1040 := 3, 1090 := 1];
    assert GroupedPrice(1010, 100) == 1000 && GroupedPrice(1040, 100) == 1000 && GroupedPrice(1090, 100) == 1000;
    assert side.Keys == {1010, 1040, 1090};
    assert PricesIn(side.Keys, 1000, 100) == {1010, 1040, 1090};
    SumOverRemove(side, {1010, 1040, 1090}, 1010);
    assert {1010, 1040, 1090} - {1010} == {1040, 1090};
    SumOverRemove(side, {1040, 1090}, 1040);
    assert {1040, 1090} - {1040} == {1090};
    SumOverRemove(side, {1090}, 1090);
    assert {1090} - {1090} == {};
  }

  /** The interval `aggregate_order_book` uses when its caller gives none: 10 price units. */
  const DefaultInterval := 10 * TicksPerUnit

}
