/**
 The local order book kept by `process_order_book`: a price-to-quantity
 map per side and the id of the last update folded into it. The book is
 seeded once from a REST snapshot and then advanced by the diff events of
 the depth stream, following the update-id rules of the Binance USD-M
 futures procedure for managing a local order book. The snapshot, which
 the source fetches over HTTP, is a parameter here.
 */
module LocalOrderBook {
  import opened Wrappers
  import opened Levels

  /**
   One message of the depth stream: `U` is `firstUpdateId`, `u` is
   `finalUpdateId`, `pu` is `prevFinalUpdateId`, `b` and `a` are the bid
   and ask changes in the order they were sent.
   */
  datatype DiffEvent = DiffEvent(
    firstUpdateId: int,
    finalUpdateId: int,
    prevFinalUpdateId: int,
    bids: seq<Level>,
    asks: seq<Level>)

  /** The REST depth snapshot: its `lastUpdateId` and its levels. */
  datatype Snapshot = Snapshot(lastUpdateId: int, bids: seq<Level>, asks: seq<Level>)

  /** The whole stored book, as a value; `lastUpdateId` is `None` until seeded. */
  datatype BookState = BookState(bids: map<int, int>, asks: map<int, int>, lastUpdateId: Option<int>)

  /** The empty, unseeded book the program starts with. */
  const Empty := BookState(map[], map[], None)

  // ---------------------------------------------------------------------
  // Specification of one level update and of a list of them

  /** The effect of `update_local_order_book` on one side. */
  function ApplyLevel(m: map<int, int>, price: int, qty: int): (r: map<int, int>)
    ensures qty == 0 ==> price !in r
    ensures qty == 0 && price !in m ==> r == m
    ensures qty != 0 ==> price in r && r[price] == qty
    ensures forall p :: p != price ==> (p in r <==> p in m)
    ensures forall p :: p in r && p != price ==> r[p] == m[p]
  {
    if qty == 0 then
      if price in m then m - {price} else m
    else
      m[price := qty]
  }

  /**
   The level updates of `ls` applied to `m` one after the other, in list
   order. Only prices the list mentions can appear, and a change list
   never creates a level of quantity 0.
   */
  function ApplyLevels(m: map<int, int>, ls: seq<Level>): (r: map<int, int>)
    ensures r.Keys <= m.Keys + PricesOf(ls)
    ensures forall p :: p in r && r[p] == 0 ==> p in m && m[p] == 0
  {
    if ls == [] then m
    else
      var last := ls[|ls| - 1];
      PricesOfSnoc(ls);
      ApplyLevel(ApplyLevels(m, ls[..|ls| - 1]), last.price, last.qty)
  }

  /**
   What a list of changes does to one price: the last entry for that
   price decides (quantity 0 removes it, anything else is stored), and a
   price with no entry keeps what it had.
   */
  lemma {:induction false} ApplyLevelsAt(m: map<int, int>, ls: seq<Level>, p: int)
    ensures var r := ApplyLevels(m, ls); var j := LastIndexOf(ls, p);
      && (j == -1 ==> (p in r <==> p in m) && (p in m ==> r[p] == m[p]))
      && (j >= 0 ==> (p in r <==> ls[j].qty != 0) && (p in r ==> r[p] == ls[j].qty))
  {
    if ls != [] {
      ApplyLevelsAt(m, ls[..|ls| - 1], p);
    }
  }

  /** Applying the same list of changes twice is the same as applying it once. */
  lemma ApplyLevelsTwice(m: map<int, int>, ls: seq<Level>)
    ensures ApplyLevels(ApplyLevels(m, ls), ls) == ApplyLevels(m, ls)
  {
    var once := ApplyLevels(m, ls);
    var twice := ApplyLevels(once, ls);
    forall p
      ensures p in twice <==> p in once
      ensures p in twice ==> twice[p] == once[p]
    {
      ApplyLevelsAt(m, ls, p);
      ApplyLevelsAt(once, ls, p);
    }
  }

  /**
   The snapshot levels of `ls` stored into `m` by plain assignment, in
   list order: afterwards exactly the prices of `m` and of `ls` are present.
   */
  function Load(m: map<int, int>, ls: seq<Level>): (r: map<int, int>)
    ensures r.Keys == m.Keys + PricesOf(ls)
  {
    if ls == [] then m
    else
      var last := ls[|ls| - 1];
      PricesOfSnoc(ls);
      Load(m, ls[..|ls| - 1])[last.price := last.qty]
  }

  /**
   Seeding stores every snapshot level, the last entry winning for a
   repeated price, and leaves prices the snapshot does not mention alone.
   */
  lemma {:induction false} LoadAt(m: map<int, int>, ls: seq<Level>, p: int)
    ensures var r := Load(m, ls); var j := LastIndexOf(ls, p);
      && (j == -1 ==> (p in r <==> p in m) && (p in m ==> r[p] == m[p]))
      && (j >= 0 ==> p in r && r[p] == ls[j].qty)
  {
    if ls != [] {
      LoadAt(m, ls[..|ls| - 1], p);
    }
  }

  // ---------------------------------------------------------------------
  // Specification of one call of process_order_book

  /** The book after the one-time seeding: only an unseeded book is loaded. */
  function Seeded(s: BookState, snap: Snapshot): (r: BookState)
    ensures s.lastUpdateId.Some? ==> r == s
    ensures s.lastUpdateId.None? ==> r.lastUpdateId == Some(snap.lastUpdateId)
    ensures s.lastUpdateId.None? ==>
      r.bids.Keys == s.bids.Keys + PricesOf(snap.bids) && r.asks.Keys == s.asks.Keys + PricesOf(snap.asks)
  {
    if s.lastUpdateId.None? then
      BookState(Load(s.bids, snap.bids), Load(s.asks, snap.asks), Some(snap.lastUpdateId))
    else
      s
  }

  /** All bid changes and all ask changes of `e` applied, then `lastUpdateId := u`. */
  function ApplyEvent(s: BookState, e: DiffEvent): (r: BookState)
    ensures r.lastUpdateId == Some(e.finalUpdateId)
    ensures r.bids.Keys <= s.bids.Keys + PricesOf(e.bids) && r.asks.Keys <= s.asks.Keys + PricesOf(e.asks)
  {
    BookState(ApplyLevels(s.bids, e.bids), ApplyLevels(s.asks, e.asks), Some(e.finalUpdateId))
  }

  /** The event ends before the id the book is at. */
  predicate IsStale(last: int, e: DiffEvent)
  {
    e.finalUpdateId < last
  }

  /** The event's id range contains the id the book is at. */
  predicate Brackets(last: int, e: DiffEvent)
  {
    e.firstUpdateId <= last && e.finalUpdateId >= last
  }

  /** The event names the id the book is at as its predecessor's final id. */
  predicate Follows(last: int, e: DiffEvent)
  {
    e.prevFinalUpdateId == last
  }

  /**
   One call of `process_order_book` on the stored book `s`: the three
   tests, in the source's order, against the book once seeded. The event
   is either dropped or applied whole.
   */
  function Step(s: BookState, e: DiffEvent, snap: Snapshot): (r: BookState)
    ensures r.lastUpdateId.Some?
    ensures r == Seeded(s, snap) || r == ApplyEvent(Seeded(s, snap), e)
  {
    var t := Seeded(s, snap);
    var last := t.lastUpdateId.value;
    if IsStale(last, e) then t
    else if Brackets(last, e) then ApplyEvent(t, e)
    else if Follows(last, e) then ApplyEvent(t, e)
    else t
  }

  /** A sequence of calls, one per received event. */
  function Run(s: BookState, es: seq<DiffEvent>, snap: Snapshot): BookState
    decreases |es|
  {
    if es == [] then s else Run(Step(s, es[0], snap), es[1..], snap)
  }

  // ---------------------------------------------------------------------
  // Properties of the reconciliation rules

  /** The snapshot is loaded, and its id adopted, exactly when the book is unseeded. */
  lemma SeedOnlyWhenUnseeded(s: BookState, snap: Snapshot, p: int)
    ensures s.lastUpdateId.Some? ==> Seeded(s, snap) == s
    ensures s.lastUpdateId.None? ==>
      && Seeded(s, snap).lastUpdateId == Some(snap.lastUpdateId)
      && (LastIndexOf(snap.bids, p) >= 0 ==>
            p in Seeded(s, snap).bids && Seeded(s, snap).bids[p] == snap.bids[LastIndexOf(snap.bids, p)].qty)
      && (LastIndexOf(snap.asks, p) >= 0 ==>
            p in Seeded(s, snap).asks && Seeded(s, snap).asks[p] == snap.asks[LastIndexOf(snap.asks, p)].qty)
  {
    LoadAt(s.bids, snap.bids, p);
    LoadAt(s.asks, snap.asks, p);
  }

  /** Once seeded, the snapshot handed in plays no part: the book is never reseeded. */
  lemma NeverReseeds(s: BookState, e: DiffEvent, snap1: Snapshot, snap2: Snapshot)
    requires s.lastUpdateId.Some?
    ensures Step(s, e, snap1) == Step(s, e, snap2)
  {
  }

  /** Every call leaves the book seeded. */
  lemma StepSeeds(s: BookState, e: DiffEvent, snap: Snapshot)
    ensures Step(s, e, snap).lastUpdateId.Some?
  {
  }

  /**
   A call first seeds the book and then tests the event against the
   seeded id, so on the first call the event is judged against the
   snapshot's `lastUpdateId` and the lemmas below apply to it.
   */
  lemma StepOnSeeded(s: BookState, e: DiffEvent, snap: Snapshot)
    ensures Seeded(s, snap).lastUpdateId.Some?
    ensures Step(s, e, snap) == Step(Seeded(s, snap), e, snap)
  {
  }

  /** An event with `u < lastUpdateId` changes nothing in a seeded book. */
  lemma StaleEventIgnored(s: BookState, e: DiffEvent, snap: Snapshot)
    requires s.lastUpdateId.Some? && e.finalUpdateId < s.lastUpdateId.value
    ensures Step(s, e, snap) == s
  {
  }

  /** An event with `U <= lastUpdateId <= u` is applied and `lastUpdateId` becomes `u`. */
  lemma BracketingEventApplied(s: BookState, e: DiffEvent, snap: Snapshot)
    requires s.lastUpdateId.Some?
    requires e.firstUpdateId <= s.lastUpdateId.value <= e.finalUpdateId
    ensures Step(s, e, snap) == ApplyEvent(s, e)
    ensures Step(s, e, snap).lastUpdateId == Some(e.finalUpdateId)
  {
  }

  /** A fresh, non-bracketing event whose `pu` is `lastUpdateId` is applied the same way. */
  lemma FollowingEventApplied(s: BookState, e: DiffEvent, snap: Snapshot)
    requires s.lastUpdateId.Some?
    requires e.finalUpdateId >= s.lastUpdateId.value
    requires e.prevFinalUpdateId == s.lastUpdateId.value
    ensures Step(s, e, snap) == ApplyEvent(s, e)
  {
  }

  /** Any other event (a gap) is dropped without a trace: no resync is started. */
  lemma GapEventIgnored(s: BookState, e: DiffEvent, snap: Snapshot)
    requires s.lastUpdateId.Some?
    requires e.finalUpdateId >= s.lastUpdateId.value
    requires !(e.firstUpdateId <= s.lastUpdateId.value)
    requires e.prevFinalUpdateId != s.lastUpdateId.value
    ensures Step(s, e, snap) == s
  {
  }

  /**
   A book seeded at id 100 receiving an event for ids 105 to 110 whose
   `pu` is not 100 keeps its levels and its id: the event is dropped.
   */
  lemma GapExample(bids: map<int, int>, asks: map<int, int>, pu: int, changes: seq<Level>, snap: Snapshot)
    requires pu != 100
    ensures var s := BookState(bids, asks, Some(100));
      Step(s, DiffEvent(105, 110, pu, changes, changes), snap) == s
  {
    GapEventIgnored(BookState(bids, asks, Some(100)), DiffEvent(105, 110, pu, changes, changes), snap);
  }

  /** `lastUpdateId` never moves backwards. */
  lemma StepMonotone(s: BookState, e: DiffEvent, snap: Snapshot)
    requires s.lastUpdateId.Some?
    ensures Step(s, e, snap).lastUpdateId.value >= s.lastUpdateId.value
  {
  }

  /** Over any sequence of calls the book stays seeded and `lastUpdateId` never moves backwards. */
  lemma {:induction false} RunMonotone(s: BookState, es: seq<DiffEvent>, snap: Snapshot)
    requires s.lastUpdateId.Some?
    ensures Run(s, es, snap).lastUpdateId.Some?
    ensures Run(s, es, snap).lastUpdateId.value >= s.lastUpdateId.value
    decreases |es|
  {
    if es != [] {
      StepMonotone(s, es[0], snap);
      RunMonotone(Step(s, es[0], snap), es[1..], snap);
    }
  }

  /**
   Receiving again the event that was just applied leaves the book as it
   is: `u == lastUpdateId` is not stale, so the event may be applied a
   second time, but level updates overwrite and so repeat harmlessly.
   */
  lemma ReplayOfAppliedEventHarmless(s: BookState, e: DiffEvent, snap: Snapshot)
    requires s.lastUpdateId.Some?
    ensures var r := ApplyEvent(s, e); Step(r, e, snap) == r
  {
    ApplyLevelsTwice(s.bids, e.bids);
    ApplyLevelsTwice(s.asks, e.asks);
  }

  // ---------------------------------------------------------------------
  // The stored book, updated in place

  /** The storage of `order_book.py`, owned by one instance instead of a global. */
  class LocalBook {
    var bids: map<int, int>
    var asks: map<int, int>
    var lastUpdateId: Option<int>

    function State(): BookState
      reads this
    {
      BookState(bids, asks, lastUpdateId)
    }

    constructor ()
      ensures State() == Empty
    {
      bids := map[];
      asks := map[];
      lastUpdateId := None;
    }

    /** `update_local_order_book`: quantity 0 deletes the level, anything else stores it. */
    method UpdateLocalOrderBook(side: Side, price: int, qty: int)
      modifies this
      ensures side == Bids ==> bids == ApplyLevel(old(bids), price, qty) && asks == old(asks)
      ensures side == Asks ==> asks == ApplyLevel(old(asks), price, qty) && bids == old(bids)
      ensures lastUpdateId == old(lastUpdateId)
    {
      if side == Bids {
        if qty == 0 {
          if price in bids {
            bids := bids - {price};
          }
        } else {
          bids := bids[price := qty];
        }
      } else {
        if qty == 0 {
          if price in asks {
            asks := asks - {price};
          }
        } else {
          asks := asks[price := qty];
        }
      }
    }

    /** The `for` loop over one change list of an event. */
    method ApplyChanges(side: Side, ls: seq<Level>)
      modifies this
      ensures side == Bids ==> bids == ApplyLevels(old(bids), ls) && asks == old(asks)
      ensures side == Asks ==> asks == ApplyLevels(old(asks), ls) && bids == old(bids)
      ensures lastUpdateId == old(lastUpdateId)
    {
      for i := 0 to |ls|
        invariant side == Bids ==> bids == ApplyLevels(old(bids), ls[..i]) && asks == old(asks)
        invariant side == Asks ==> asks == ApplyLevels(old(asks), ls[..i]) && bids == old(bids)
        invariant lastUpdateId == old(lastUpdateId)
      {
        assert ls[..i + 1][..i] == ls[..i];
        UpdateLocalOrderBook(side, ls[i].price, ls[i].qty);
      }
      assert ls[..|ls|] == ls;
    }

    /** The seeding loops: every snapshot level is stored as it is. */
    method LoadSnapshot(snap: Snapshot)
      modifies this
      ensures bids == Load(old(bids), snap.bids)
      ensures asks == Load(old(asks), snap.asks)
      ensures lastUpdateId == Some(snap.lastUpdateId)
    {
      lastUpdateId := Some(snap.lastUpdateId);
      for i := 0 to |snap.bids|
        invariant bids == Load(old(bids), snap.bids[..i]) && asks == old(asks)
        invariant lastUpdateId == Some(snap.lastUpdateId)
      {
        assert snap.bids[..i + 1][..i] == snap.bids[..i];
        bids := bids[snap.bids[i].price := snap.bids[i].qty];
      }
      assert snap.bids[..|snap.bids|] == snap.bids;
      for i := 0 to |snap.asks|
        invariant bids == Load(old(bids), snap.bids)
        invariant asks == Load(old(asks), snap.asks[..i])
        invariant lastUpdateId == Some(snap.lastUpdateId)
      {
        assert snap.asks[..i + 1][..i] == snap.asks[..i];
        asks := asks[snap.asks[i].price := snap.asks[i].qty];
      }
      assert snap.asks[..|snap.asks|] == snap.asks;
    }

    /**
     `process_order_book`: seed from `snap` if unseeded, drop a stale event,
     apply a bracketing event or one whose `pu` is `lastUpdateId`, and
     ignore anything else.
     */
    method ProcessOrderBook(e: DiffEvent, snap: Snapshot)
      modifies this
      ensures State() == Step(old(State()), e, snap)
    {
      if lastUpdateId.None? {
        LoadSnapshot(snap);
      }
      var last := lastUpdateId.value;
      if e.finalUpdateId < last {
        return;
      }
      if e.firstUpdateId <= last && e.finalUpdateId >= last {
        ApplyChanges(Bids, e.bids);
        ApplyChanges(Asks, e.asks);
        lastUpdateId := Some(e.finalUpdateId);
      } else if e.prevFinalUpdateId == last {
        ApplyChanges(Bids, e.bids);
        ApplyChanges(Asks, e.asks);
        lastUpdateId := Some(e.finalUpdateId);
      }
    }
  }

}
