/**
 Price levels as both order-book components see them. Prices and
 quantities are integers: a price is a whole number of ticks of
 1 / `TicksPerUnit` price units, and a quantity a whole number of lot
 steps, so that equality and zero tests are exact.
 */
module Levels {

  /** Ticks per price unit: a tick of 0.1, the price step of the BTCUSDT futures book. */
  const TicksPerUnit := 10

  /** One `[price, quantity]` entry of a snapshot, a diff event or a fetched book. */
  datatype Level = Level(price: int, qty: int)

  /** Which side of the book a level belongs to. */
  datatype Side = Bids | Asks

  /** The prices that the entries of `ls` mention. */
  function PricesOf(ls: seq<Level>): set<int>
  {
    set i | 0 <= i < |ls| :: ls[i].price
  }

  /** Dropping the last entry drops its price, unless an earlier entry mentions it too. */
  lemma PricesOfSnoc(ls: seq<Level>)
    requires ls != []
    ensures PricesOf(ls) == PricesOf(ls[..|ls| - 1]) + {ls[|ls| - 1].price}
  {
    var init := ls[..|ls| - 1];
    forall p | p in PricesOf(ls) ensures p in PricesOf(init) + {ls[|ls| - 1].price} {
      var i :| 0 <= i < |ls| && ls[i].price == p;
      if i < |ls| - 1 {
        assert init[i] == ls[i];
      }
    }
    forall p | p in PricesOf(init) ensures p in PricesOf(ls) {
      var i :| 0 <= i < |init| && init[i].price == p;
      assert ls[i] == init[i];
    }
  }

  /**
   The index of the last entry in `ls` whose price is `p`, or -1 when no
   entry has that price.
   */
  function LastIndexOf(ls: seq<Level>, p: int): (j: int)
    ensures -1 <= j < |ls|
    ensures j == -1 ==> forall k :: 0 <= k < |ls| ==> ls[k].price != p
    ensures j >= 0 ==> ls[j].price == p && forall k :: j < k < |ls| ==> ls[k].price != p
  {
    if ls == [] then -1
    else if ls[|ls| - 1].price == p then |ls| - 1
    else LastIndexOf(ls[..|ls| - 1], p)
  }

}
