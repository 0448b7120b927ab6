/** What readers find of DEX orders, deposits and withdrawals, in the own fields of the chain's batches and events. */
module DexBlobs {
  import opened Encoding
  import opened Tables
  import opened ChangeDetection
  import opened Chain
  import opened Dex

  /** A regular life, by where the id is listed at each height and by when its event comes. */
  ghost predicate LivesAs(next: nat -> bool, current: nat -> bool, completes: nat -> bool, life: Life) {
    && (forall h: nat :: next(h) <==> life(h) == Next)
    && (forall h: nat :: current(h) <==> life(h) == Current)
    && (forall h: nat | h > 0 :: life(h - 1) == Absent ==> life(h) != Gone)
    && (forall h: nat | h > 0 :: life(h - 1) == Next ==> life(h) == Next || life(h) == Current)
    && (forall h: nat | h > 0 :: life(h - 1) == Current ==> life(h) == Current || life(h) == Gone)
    && (forall h: nat | h > 0 :: life(h - 1) == Gone ==> life(h) == Gone)
    && (forall h: nat | h > 0 :: completes(h) <==> life(h) == Gone && life(h - 1) == Current)
  }

  lemma LivesInView<T, X>(view: View<T, X>, id: string, next: nat -> bool, current: nat -> bool, completes: nat -> bool, life: Life)
    requires forall h: nat :: Listed(view(h).next, id) <==> next(h)
    requires forall h: nat :: Listed(view(h).current, id) <==> current(h)
    requires forall h: nat :: id in view(h).events <==> completes(h)
    ensures LivesAs(next, current, completes, life) <==> Lives(view, id, life)
  {
    forall h: nat | h > 0
      ensures Rank(life(h - 1)) <= Rank(life(h)) && (life(h) == Gone ==> life(h - 1) == Current || life(h - 1) == Gone) <==>
              (life(h - 1) == Absent ==> life(h) != Gone) && (life(h - 1) == Next ==> life(h) == Next || life(h) == Current) &&
              (life(h - 1) == Current ==> life(h) == Current || life(h) == Gone) && (life(h - 1) == Gone ==> life(h) == Gone)
    {
    }
  }

  lemma {:induction false} EventListed<X>(read: Event -> Option<(string, X)>, events: seq<Event>, id: string)
    ensures id in EventMap(read, events) <==> exists e :: e in events && read(e).Some? && read(e).value.0 == id
  {
    if events != [] {
      var n := |events| - 1;
      EventListed(read, events[..n], id);
      assert forall e :: e in events <==> e in events[..n] || e == events[n];
    }
  }

  lemma LastEvent<X>(read: Event -> Option<(string, X)>, events: seq<Event>, id: string) returns (i: nat)
    requires id in EventMap(read, events)
    ensures IsLastEvent(read, events, id, EventMap(read, events)[id], i)
  {
    LastEventWins(read, events, id, EventMap(read, events)[id]);
    i :| IsLastEvent(read, events, id, EventMap(read, events)[id], i);
  }

  lemma ItemsListed<A, T>(batches: seq<DexBatch>, list: DexBatch -> seq<A>, item: DexBatch -> (A -> Item<T>), id: string)
    ensures Listed(ItemsOf(batches, list, item), id) <==> exists b, a :: b in batches && a in list(b) && item(b)(a).id == id
  {
    if i :| i in ItemsOf(batches, list, item) && i.id == id {
      var b, a := ItemFrom(batches, list, item, i);
    }
    if b, a :| b in batches && a in list(b) && item(b)(a).id == id {
      ItemOf(batches, list, item, b, a);
    }
  }

  /** An id has a row only once it is there. */
  lemma RowMeansAlive<T, X>(view: View<T, X>, id: string, life: Life, log: seq<Delivery>, h: nat)
    requires DistinctView(view) && Lives(view, id, life) && IndexedThrough(log, h)
    ensures var r := AsOf(Replay(DexFeed(view), log), id, h);
            && (r.Some? ==> life(h) != Absent)
            && (life(0) == Absent ==> (r.Some? <==> life(h) != Absent))
  {
    LifecycleAsOf(view, id, life, log, h);
    if life(0) == Absent {
      BornSeen(view, id, life, log, h);
    }
  }

  /** The newest row of an id as of h shows the members with that id of the next batches pending, and of the current ones locked. */
  lemma SittingAsOf<A, T, X>(view: View<T, X>, id: string, life: Life, log: seq<Delivery>, h: nat, next: seq<DexBatch>,
                             current: seq<DexBatch>, list: DexBatch -> seq<A>, item: DexBatch -> (A -> Item<T>))
    requires DistinctView(view) && Lives(view, id, life) && IndexedThrough(log, h)
    requires view(h).next == ItemsOf(next, list, item) && view(h).current == ItemsOf(current, list, item)
    ensures var r := AsOf(Replay(DexFeed(view), log), id, h);
            r.Some? ==>
              && (forall b, a :: b in next && a in list(b) && item(b)(a).id == id ==> ShowsItem(item(b)(a), Pending, r.value))
              && (forall b, a :: b in current && a in list(b) && item(b)(a).id == id ==> ShowsItem(item(b)(a), Locked, r.value))
  {
    var r := AsOf(Replay(DexFeed(view), log), id, h);
    if r.Some? {
      forall b, a | b in next && a in list(b) && item(b)(a).id == id ensures ShowsItem(item(b)(a), Pending, r.value) {
        ItemOf(next, list, item, b, a);
        PendingAsOf(view, item(b)(a), life, log, h);
      }
      forall b, a | b in current && a in list(b) && item(b)(a).id == id ensures ShowsItem(item(b)(a), Locked, r.value) {
        ItemOf(current, list, item, b, a);
        LockedAsOf(view, item(b)(a), life, log, h);
      }
    }
  }

  /** Where in time an id that is gone had left, at m. */
  ghost predicate LeftAt(life: Life, m: nat, h: nat) {
    0 < m <= h && life(m) == Gone && life(m - 1) == Current
  }

  // ---------------------------------------------------------------- orders

  ghost predicate OrderIn(batches: seq<DexBatch>, id: string) {
    exists b, o :: b in batches && o in b.orders && Hex(o.orderId) == id
  }

  /** The event speaks of the id; one without an id speaks of nothing. */
  predicate IsSwap(e: Event, id: string) {
    e.eventType == DexSwap && e.msg.SwapMessage? && id != "" && Hex(e.msg.orderId) == id
  }

  ghost predicate SwapIn(events: seq<Event>, id: string) {
    exists e :: e in events && IsSwap(e, id)
  }

  predicate SwapTells(e: Event, x: SwapOutcome)
    requires e.msg.SwapMessage?
  {
    x.success == e.msg.success && x.soldAmount == e.msg.soldAmount && x.boughtAmount == e.msg.boughtAmount && x.localOrigin == e.msg.localOrigin
  }

  /** The result is that of the last event for the id: its success, what was sold and bought, and where it came from. */
  ghost predicate SwapSays(events: seq<Event>, id: string, outcome: Option<SwapOutcome>) {
    exists i: nat :: i < |events| && IsSwap(events[i], id) && (forall j :: i < j < |events| ==> !IsSwap(events[j], id)) &&
                     outcome.Some? && SwapTells(events[i], outcome.value)
  }

  /** The id of an order lives regularly: first in the next batches, then in the current ones, then gone with its event. */
  ghost predicate OrderLives(chain: Chain, id: string, life: Life) {
    LivesAs((h: nat) => OrderIn(chain(h).nextDexBatches, id), (h: nat) => OrderIn(chain(h).dexBatches, id),
            (h: nat) => SwapIn(chain(h).events, id), life)
  }

  predicate HasOrder(o: LimitOrder, r: DexRow<OrderTerms, SwapOutcome>) {
    r.address == Hex(o.address) && r.terms.amountForSale == o.amountForSale && r.terms.requestedAmount == o.requestedAmount
  }

  /** The row shows an order that sits in one of the next batches pending, and in one of the current batches locked. */
  ghost predicate OrderSits(next: seq<DexBatch>, current: seq<DexBatch>, id: string, r: DexRow<OrderTerms, SwapOutcome>) {
    && (forall b, o :: b in next && o in b.orders && Hex(o.orderId) == id ==> HasOrder(o, r) && r.state == Pending && r.outcome == None)
    && (forall b, o :: b in current && o in b.orders && Hex(o.orderId) == id ==> HasOrder(o, r) && r.state == Locked && r.outcome == None)
  }

  /** What a reader finds of an order with a regular life, in the fields of the chain's batches and events. */
  ghost predicate OrderShown(chain: Chain, id: string, life: Life, log: seq<Delivery>, h: nat, r: DexRow<OrderTerms, SwapOutcome>) {
    && life(h) != Absent
    && OrderSits(chain(h).nextDexBatches, chain(h).dexBatches, id, r)
    && (life(h) == Gone ==> exists m: nat :: LeftAt(life, m, h) && OrderLeft(chain, id, m, CompletionSeen(life, log, h), r))
  }

  /** One of the batches holds an order with that id and the row's columns. */
  ghost predicate OrderFrom(batches: seq<DexBatch>, id: string, r: DexRow<OrderTerms, SwapOutcome>) {
    exists b, o :: b in batches && o in b.orders && Hex(o.orderId) == id && HasOrder(o, r)
  }

  /** An order that left at m: complete with its result if that was seen, locked for good otherwise. */
  ghost predicate OrderLeft(chain: Chain, id: string, m: nat, seen: bool, r: DexRow<OrderTerms, SwapOutcome>)
    requires m > 0
  {
    && OrderFrom(chain(m - 1).dexBatches, id, r)
    && if seen then r.state == Complete && SwapSays(chain(m).events, id, r.outcome) else r.state == Locked && r.outcome == None
  }

  lemma OrdersListed(batches: seq<DexBatch>, id: string)
    ensures Listed(OrdersOf(batches), id) <==> OrderIn(batches, id)
  {
    ItemsListed(batches, OrdersIn, OrderItem, id);
    forall b, o | b in batches ensures o in OrdersIn(b) <==> o in b.orders {
    }
  }

  lemma SwapEventsListed(events: seq<Event>, id: string)
    ensures id in SwapEvents(events) <==> SwapIn(events, id)
    ensures id in SwapEvents(events) ==> SwapSays(events, id, Some(SwapEvents(events)[id]))
  {
    EventListed(ReadSwap, events, id);
    if id in SwapEvents(events) {
      var i := LastEvent(ReadSwap, events, id);
      assert IsSwap(events[i], id) && SwapTells(events[i], SwapEvents(events)[id]);
      forall j | i < j < |events| ensures !IsSwap(events[j], id) {
      }
    }
  }

  lemma OrderLivesInView(chain: Chain, id: string, life: Life)
    ensures OrderLives(chain, id, life) <==> Lives(OrderView(chain), id, life)
  {
    forall h: nat
      ensures Listed(OrderView(chain)(h).next, id) <==> OrderIn(chain(h).nextDexBatches, id)
      ensures Listed(OrderView(chain)(h).current, id) <==> OrderIn(chain(h).dexBatches, id)
      ensures id in OrderView(chain)(h).events <==> SwapIn(chain(h).events, id)
    {
      OrdersListed(chain(h).nextDexBatches, id);
      OrdersListed(chain(h).dexBatches, id);
      SwapEventsListed(chain(h).events, id);
    }
    LivesInView(OrderView(chain), id, (h: nat) => OrderIn(chain(h).nextDexBatches, id), (h: nat) => OrderIn(chain(h).dexBatches, id),
                (h: nat) => SwapIn(chain(h).events, id), life);
  }

  lemma OrderFromItem(batches: seq<DexBatch>, i: Item<OrderTerms>, r: DexRow<OrderTerms, SwapOutcome>)
    requires i in OrdersOf(batches) && r.address == i.address && r.terms == i.terms
    ensures OrderFrom(batches, i.id, r)
  {
    var b, o := ItemFrom(batches, OrdersIn, OrderItem, i);
    assert HasOrder(o, r);
  }

  lemma OrderLeftFrom(chain: Chain, id: string, m: nat, seen: bool, i: Item<OrderTerms>, r: DexRow<OrderTerms, SwapOutcome>)
    requires m > 0 && i in OrdersOf(chain(m - 1).dexBatches) && i.id == id && ShowsLeft(OrderView(chain), i, m, seen, r)
    ensures OrderLeft(chain, id, m, seen, r)
  {
    OrderFromItem(chain(m - 1).dexBatches, i, r);
    SwapEventsListed(chain(m).events, id);
  }

  lemma OrderSitsFrom(next: seq<DexBatch>, current: seq<DexBatch>, id: string, r: DexRow<OrderTerms, SwapOutcome>)
    requires forall b, o :: b in next && o in OrdersIn(b) && OrderItem(b)(o).id == id ==> ShowsItem(OrderItem(b)(o), Pending, r)
    requires forall b, o :: b in current && o in OrdersIn(b) && OrderItem(b)(o).id == id ==> ShowsItem(OrderItem(b)(o), Locked, r)
    ensures OrderSits(next, current, id, r)
  {
    forall b, o | b in next && o in b.orders && Hex(o.orderId) == id ensures HasOrder(o, r) && r.state == Pending && r.outcome == None {
      assert o in OrdersIn(b) && ShowsItem(OrderItem(b)(o), Pending, r);
    }
    forall b, o | b in current && o in b.orders && Hex(o.orderId) == id ensures HasOrder(o, r) && r.state == Locked && r.outcome == None {
      assert o in OrdersIn(b) && ShowsItem(OrderItem(b)(o), Locked, r);
    }
  }

  lemma OrderAsOfView(chain: Chain, log: seq<Delivery>, h: nat, id: string, life: Life)
    requires DistinctView(OrderView(chain)) && Lives(OrderView(chain), id, life) && IndexedThrough(log, h)
    ensures var r := AsOf(Replay(DexFeed(OrderView(chain)), log), id, h); r.Some? ==> OrderShown(chain, id, life, log, h, r.value)
  {
    var r := AsOf(Replay(DexFeed(OrderView(chain)), log), id, h);
    RowMeansAlive(OrderView(chain), id, life, log, h);
    if r.Some? {
      SittingAsOf(OrderView(chain), id, life, log, h, chain(h).nextDexBatches, chain(h).dexBatches, OrdersIn, OrderItem);
      OrderSitsFrom(chain(h).nextDexBatches, chain(h).dexBatches, id, r.value);
      if life(h) == Gone {
        var i, m := GoneAsOf(OrderView(chain), id, life, log, h);
        OrderLeftFrom(chain, id, m, CompletionSeen(life, log, h), i, r.value);
        assert LeftAt(life, m, h);
      }
    }
  }

  /**
   The newest row of an order as of h: pending while it sits in a next batch, locked in a current one, with its own terms
   there, and what became of it once it is gone. It has one from the first on if it is not older than height 1.
   */
  lemma OrderAsOf(chain: Chain, log: seq<Delivery>, h: nat, id: string, life: Life)
    requires DistinctView(OrderView(chain)) && OrderLives(chain, id, life) && IndexedThrough(log, h)
    ensures var r := AsOf(Replay(DexFeed(OrderView(chain)), log), id, h);
            && (r.Some? ==> OrderShown(chain, id, life, log, h, r.value))
            && (life(0) == Absent ==> (r.Some? <==> life(h) != Absent))
  {
    OrderLivesInView(chain, id, life);
    OrderAsOfView(chain, log, h, id, life);
    RowMeansAlive(OrderView(chain), id, life, log, h);
  }

  /** The batches before hold an order with that id, from the same address and with the same terms. */
  ghost predicate OrderStays(was: seq<DexBatch>, o: LimitOrder) {
    exists b, p :: b in was && p in b.orders && p.orderId == o.orderId && p.address == o.address &&
                   p.amountForSale == o.amountForSale && p.requestedAmount == o.requestedAmount
  }

  lemma OrderStaysMeans(was: seq<DexBatch>, b: DexBatch, o: LimitOrder)
    ensures ItemStays(OrdersOf(was), OrderItem(b)(o)) <==> OrderStays(was, o)
  {
    var i := OrderItem(b)(o);
    if q :| q in OrdersOf(was) && q.id == i.id && q.terms == i.terms && q.address == i.address {
      var c, p := ItemFrom(was, OrdersIn, OrderItem, q);
      HexInjective(p.orderId, o.orderId);
      HexInjective(p.address, o.address);
    }
    if c, p :| c in was && p in c.orders && p.orderId == o.orderId && p.address == o.address &&
               p.amountForSale == o.amountForSale && p.requestedAmount == o.requestedAmount
    {
      ItemOf(was, OrdersIn, OrderItem, c, p);
      assert OrderItem(c)(p).id == i.id && OrderItem(c)(p).terms == i.terms && OrderItem(c)(p).address == i.address;
    }
  }

  /**
   When a block leaves a row for an order, and its columns: pending for one that is new in the next batches or changed there,
   locked for one in the current batches, and complete for one that leaves with a block that came with the state before it.
   */
  lemma OrderRowAt(chain: Chain, log: seq<Delivery>, m: nat, b: DexBatch, o: LimitOrder, life: Life)
    requires DistinctView(OrderView(chain)) && OrderLives(chain, Hex(o.orderId), life) && o in b.orders
    ensures b in chain(m).nextDexBatches ==>
              var t, k := Replay(DexFeed(OrderView(chain)), log), (Hex(o.orderId), m);
              && (k in t <==> WrittenAt(log, m, m == 0 || !OrderStays(chain(m - 1).nextDexBatches, o)))
              && (k in t ==> t[k] == DexRow(b.committee % 0x1_0000, Hex(o.address), OrderTerms(o.amountForSale, o.requestedAmount),
                                      Pending, None, 0))
    ensures b in chain(m).dexBatches ==>
              var t, k := Replay(DexFeed(OrderView(chain)), log), (Hex(o.orderId), m);
              && (k in t <==> WrittenAt(log, m, m == 0 || !OrderStays(chain(m - 1).dexBatches, o)))
              && (k in t ==> t[k] == DexRow(b.committee % 0x1_0000, Hex(o.address), OrderTerms(o.amountForSale, o.requestedAmount),
                                      Locked, None, b.lockedHeight))
    ensures m > 0 && life(m) == Gone && b in chain(m - 1).dexBatches ==>
              var t, k := Replay(DexFeed(OrderView(chain)), log), (Hex(o.orderId), m);
              && (k in t <==> Delivery(m, true) in log)
              && (k in t ==> SwapSays(chain(m).events, Hex(o.orderId), t[k].outcome) &&
                             t[k] == DexRow(b.committee % 0x1_0000, Hex(o.address), OrderTerms(o.amountForSale, o.requestedAmount),
                                      Complete, t[k].outcome, b.lockedHeight))
  {
    OrderLivesInView(chain, Hex(o.orderId), life);
    if m > 0 {
      OrderStaysMeans(chain(m - 1).nextDexBatches, b, o);
      OrderStaysMeans(chain(m - 1).dexBatches, b, o);
    }
    if b in chain(m).nextDexBatches {
      ItemOf(chain(m).nextDexBatches, OrdersIn, OrderItem, b, o);
      PendingRowAt(OrderView(chain), OrderItem(b)(o), life, log, m);
    }
    if b in chain(m).dexBatches {
      ItemOf(chain(m).dexBatches, OrdersIn, OrderItem, b, o);
      LockedRowAt(OrderView(chain), OrderItem(b)(o), life, log, m);
    }
    if m > 0 && life(m) == Gone && b in chain(m - 1).dexBatches {
      ItemOf(chain(m - 1).dexBatches, OrdersIn, OrderItem, b, o);
      CompletionRowAt(OrderView(chain), OrderItem(b)(o), life, log, m);
      SwapEventsListed(chain(m).events, Hex(o.orderId));
    }
  }

  // ---------------------------------------------------------------- deposits

  ghost predicate DepositIn(batches: seq<DexBatch>, id: string) {
    exists b, o :: b in batches && o in b.deposits && Hex(o.orderId) == id
  }

  /** The event speaks of the id; one without an id speaks of nothing. */
  predicate IsDepositEvent(e: Event, id: string) {
    e.eventType == DexDeposit && e.msg.DepositMessage? && id != "" && Hex(e.msg.orderId) == id
  }

  ghost predicate DepositEventIn(events: seq<Event>, id: string) {
    exists e :: e in events && IsDepositEvent(e, id)
  }

  predicate DepositTells(e: Event, x: DepositOutcome)
    requires e.msg.DepositMessage?
  {
    x.localOrigin == e.msg.localOrigin && x.pointsReceived == e.msg.points
  }

  /** The result is that of the last event for the id: where it came from and the points received. */
  ghost predicate DepositSays(events: seq<Event>, id: string, outcome: Option<DepositOutcome>) {
    exists i: nat :: i < |events| && IsDepositEvent(events[i], id) && (forall j :: i < j < |events| ==> !IsDepositEvent(events[j], id)) &&
                     outcome.Some? && DepositTells(events[i], outcome.value)
  }

  /** The id of a deposit lives regularly: first in the next batches, then in the current ones, then gone with its event. */
  ghost predicate DepositLives(chain: Chain, id: string, life: Life) {
    LivesAs((h: nat) => DepositIn(chain(h).nextDexBatches, id), (h: nat) => DepositIn(chain(h).dexBatches, id),
            (h: nat) => DepositEventIn(chain(h).events, id), life)
  }

  predicate HasDeposit(o: Deposit, r: DexRow<U64, DepositOutcome>) {
    r.address == Hex(o.address) && r.terms == o.amount
  }

  /** The row shows a deposit that sits in one of the next batches pending, and in one of the current batches locked. */
  ghost predicate DepositSits(next: seq<DexBatch>, current: seq<DexBatch>, id: string, r: DexRow<U64, DepositOutcome>) {
    && (forall b, o :: b in next && o in b.deposits && Hex(o.orderId) == id ==> HasDeposit(o, r) && r.state == Pending && r.outcome == None)
    && (forall b, o :: b in current && o in b.deposits && Hex(o.orderId) == id ==> HasDeposit(o, r) && r.state == Locked && r.outcome == None)
  }

  /** What a reader finds of a deposit with a regular life, in the fields of the chain's batches and events. */
  ghost predicate DepositShown(chain: Chain, id: string, life: Life, log: seq<Delivery>, h: nat, r: DexRow<U64, DepositOutcome>) {
    && life(h) != Absent
    && DepositSits(chain(h).nextDexBatches, chain(h).dexBatches, id, r)
    && (life(h) == Gone ==> exists m: nat :: LeftAt(life, m, h) && DepositLeft(chain, id, m, CompletionSeen(life, log, h), r))
  }

  /** One of the batches holds a deposit with that id and the row's columns. */
  ghost predicate DepositFrom(batches: seq<DexBatch>, id: string, r: DexRow<U64, DepositOutcome>) {
    exists b, o :: b in batches && o in b.deposits && Hex(o.orderId) == id && HasDeposit(o, r)
  }

  /** A deposit that left at m: complete with its result if that was seen, locked for good otherwise. */
  ghost predicate DepositLeft(chain: Chain, id: string, m: nat, seen: bool, r: DexRow<U64, DepositOutcome>)
    requires m > 0
  {
    && DepositFrom(chain(m - 1).dexBatches, id, r)
    && if seen then r.state == Complete && DepositSays(chain(m).events, id, r.outcome) else r.state == Locked && r.outcome == None
  }

  lemma DepositsListed(batches: seq<DexBatch>, id: string)
    ensures Listed(DepositsOf(batches), id) <==> DepositIn(batches, id)
  {
    ItemsListed(batches, DepositsIn, DepositItem, id);
    forall b, o | b in batches ensures o in DepositsIn(b) <==> o in b.deposits {
    }
  }

  lemma DepositEventsListed(events: seq<Event>, id: string)
    ensures id in DepositEvents(events) <==> DepositEventIn(events, id)
    ensures id in DepositEvents(events) ==> DepositSays(events, id, Some(DepositEvents(events)[id]))
  {
    EventListed(ReadDeposit, events, id);
    if id in DepositEvents(events) {
      var i := LastEvent(ReadDeposit, events, id);
      assert IsDepositEvent(events[i], id) && DepositTells(events[i], DepositEvents(events)[id]);
      forall j | i < j < |events| ensures !IsDepositEvent(events[j], id) {
      }
    }
  }

  lemma DepositLivesInView(chain: Chain, id: string, life: Life)
    ensures DepositLives(chain, id, life) <==> Lives(DepositView(chain), id, life)
  {
    forall h: nat
      ensures Listed(DepositView(chain)(h).next, id) <==> DepositIn(chain(h).nextDexBatches, id)
      ensures Listed(DepositView(chain)(h).current, id) <==> DepositIn(chain(h).dexBatches, id)
      ensures id in DepositView(chain)(h).events <==> DepositEventIn(chain(h).events, id)
    {
      DepositsListed(chain(h).nextDexBatches, id);
      DepositsListed(chain(h).dexBatches, id);
      DepositEventsListed(chain(h).events, id);
    }
    LivesInView(DepositView(chain), id, (h: nat) => DepositIn(chain(h).nextDexBatches, id), (h: nat) => DepositIn(chain(h).dexBatches, id),
                (h: nat) => DepositEventIn(chain(h).events, id), life);
  }

  lemma DepositFromItem(batches: seq<DexBatch>, i: Item<U64>, r: DexRow<U64, DepositOutcome>)
    requires i in DepositsOf(batches) && r.address == i.address && r.terms == i.terms
    ensures DepositFrom(batches, i.id, r)
  {
    var b, o := ItemFrom(batches, DepositsIn, DepositItem, i);
    assert HasDeposit(o, r);
  }

  lemma DepositLeftFrom(chain: Chain, id: string, m: nat, seen: bool, i: Item<U64>, r: DexRow<U64, DepositOutcome>)
    requires m > 0 && i in DepositsOf(chain(m - 1).dexBatches) && i.id == id && ShowsLeft(DepositView(chain), i, m, seen, r)
    ensures DepositLeft(chain, id, m, seen, r)
  {
    DepositFromItem(chain(m - 1).dexBatches, i, r);
    DepositEventsListed(chain(m).events, id);
  }

  lemma DepositSitsFrom(next: seq<DexBatch>, current: seq<DexBatch>, id: string, r: DexRow<U64, DepositOutcome>)
    requires forall b, o :: b in next && o in DepositsIn(b) && DepositItem(b)(o).id == id ==> ShowsItem(DepositItem(b)(o), Pending, r)
    requires forall b, o :: b in current && o in DepositsIn(b) && DepositItem(b)(o).id == id ==> ShowsItem(DepositItem(b)(o), Locked, r)
    ensures DepositSits(next, current, id, r)
  {
    forall b, o | b in next && o in b.deposits && Hex(o.orderId) == id ensures HasDeposit(o, r) && r.state == Pending && r.outcome == None {
      assert o in DepositsIn(b) && ShowsItem(DepositItem(b)(o), Pending, r);
    }
    forall b, o | b in current && o in b.deposits && Hex(o.orderId) == id ensures HasDeposit(o, r) && r.state == Locked && r.outcome == None {
      assert o in DepositsIn(b) && ShowsItem(DepositItem(b)(o), Locked, r);
    }
  }

  lemma DepositAsOfView(chain: Chain, log: seq<Delivery>, h: nat, id: string, life: Life)
    requires DistinctView(DepositView(chain)) && Lives(DepositView(chain), id, life) && IndexedThrough(log, h)
    ensures var r := AsOf(Replay(DexFeed(DepositView(chain)), log), id, h); r.Some? ==> DepositShown(chain, id, life, log, h, r.value)
  {
    var r := AsOf(Replay(DexFeed(DepositView(chain)), log), id, h);
    RowMeansAlive(DepositView(chain), id, life, log, h);
    if r.Some? {
      SittingAsOf(DepositView(chain), id, life, log, h, chain(h).nextDexBatches, chain(h).dexBatches, DepositsIn, DepositItem);
      DepositSitsFrom(chain(h).nextDexBatches, chain(h).dexBatches, id, r.value);
      if life(h) == Gone {
        var i, m := GoneAsOf(DepositView(chain), id, life, log, h);
        DepositLeftFrom(chain, id, m, CompletionSeen(life, log, h), i, r.value);
        assert LeftAt(life, m, h);
      }
    }
  }

  /**
   The newest row of a deposit as of h: pending while it sits in a next batch, locked in a current one, with its own terms
   there, and what became of it once it is gone. It has one from the first on if it is not older than height 1.
   */
  lemma DepositAsOf(chain: Chain, log: seq<Delivery>, h: nat, id: string, life: Life)
    requires DistinctView(DepositView(chain)) && DepositLives(chain, id, life) && IndexedThrough(log, h)
    ensures var r := AsOf(Replay(DexFeed(DepositView(chain)), log), id, h);
            && (r.Some? ==> DepositShown(chain, id, life, log, h, r.value))
            && (life(0) == Absent ==> (r.Some? <==> life(h) != Absent))
  {
    DepositLivesInView(chain, id, life);
    DepositAsOfView(chain, log, h, id, life);
    RowMeansAlive(DepositView(chain), id, life, log, h);
  }

  /** The batches before hold a deposit with that id, from the same address and with the same terms. */
  ghost predicate DepositStays(was: seq<DexBatch>, o: Deposit) {
    exists b, p :: b in was && p in b.deposits && p.orderId == o.orderId && p.address == o.address && p.amount == o.amount
  }

  lemma DepositStaysMeans(was: seq<DexBatch>, b: DexBatch, o: Deposit)
    ensures ItemStays(DepositsOf(was), DepositItem(b)(o)) <==> DepositStays(was, o)
  {
    var i := DepositItem(b)(o);
    if q :| q in DepositsOf(was) && q.id == i.id && q.terms == i.terms && q.address == i.address {
      var c, p := ItemFrom(was, DepositsIn, DepositItem, q);
      HexInjective(p.orderId, o.orderId);
      HexInjective(p.address, o.address);
    }
    if c, p :| c in was && p in c.deposits && p.orderId == o.orderId && p.address == o.address && p.amount == o.amount {
      ItemOf(was, DepositsIn, DepositItem, c, p);
      assert DepositItem(c)(p).id == i.id && DepositItem(c)(p).terms == i.terms && DepositItem(c)(p).address == i.address;
    }
  }

  /**
   When a block leaves a row for a deposit, and its columns: pending for one that is new in the next batches or changed there,
   locked for one in the current batches, and complete for one that leaves with a block that came with the state before it.
   */
  lemma DepositRowAt(chain: Chain, log: seq<Delivery>, m: nat, b: DexBatch, o: Deposit, life: Life)
    requires DistinctView(DepositView(chain)) && DepositLives(chain, Hex(o.orderId), life) && o in b.deposits
    ensures b in chain(m).nextDexBatches ==>
              var t, k := Replay(DexFeed(DepositView(chain)), log), (Hex(o.orderId), m);
              && (k in t <==> WrittenAt(log, m, m == 0 || !DepositStays(chain(m - 1).nextDexBatches, o)))
              && (k in t ==> t[k] == DexRow(b.committee % 0x1_0000, Hex(o.address), o.amount, Pending, None, 0))
    ensures b in chain(m).dexBatches ==>
              var t, k := Replay(DexFeed(DepositView(chain)), log), (Hex(o.orderId), m);
              && (k in t <==> WrittenAt(log, m, m == 0 || !DepositStays(chain(m - 1).dexBatches, o)))
              && (k in t ==> t[k] == DexRow(b.committee % 0x1_0000, Hex(o.address), o.amount, Locked, None, b.lockedHeight))
    ensures m > 0 && life(m) == Gone && b in chain(m - 1).dexBatches ==>
              var t, k := Replay(DexFeed(DepositView(chain)), log), (Hex(o.orderId), m);
              && (k in t <==> Delivery(m, true) in log)
              && (k in t ==> DepositSays(chain(m).events, Hex(o.orderId), t[k].outcome) &&
                             t[k] == DexRow(b.committee % 0x1_0000, Hex(o.address), o.amount, Complete, t[k].outcome, b.lockedHeight))
  {
    DepositLivesInView(chain, Hex(o.orderId), life);
    if m > 0 {
      DepositStaysMeans(chain(m - 1).nextDexBatches, b, o);
      DepositStaysMeans(chain(m - 1).dexBatches, b, o);
    }
    if b in chain(m).nextDexBatches {
      ItemOf(chain(m).nextDexBatches, DepositsIn, DepositItem, b, o);
      PendingRowAt(DepositView(chain), DepositItem(b)(o), life, log, m);
    }
    if b in chain(m).dexBatches {
      ItemOf(chain(m).dexBatches, DepositsIn, DepositItem, b, o);
      LockedRowAt(DepositView(chain), DepositItem(b)(o), life, log, m);
    }
    if m > 0 && life(m) == Gone && b in chain(m - 1).dexBatches {
      ItemOf(chain(m - 1).dexBatches, DepositsIn, DepositItem, b, o);
      CompletionRowAt(DepositView(chain), DepositItem(b)(o), life, log, m);
      DepositEventsListed(chain(m).events, Hex(o.orderId));
    }
  }

  // ---------------------------------------------------------------- withdrawals

  ghost predicate WithdrawalIn(batches: seq<DexBatch>, id: string) {
    exists b, o :: b in batches && o in b.withdrawals && Hex(o.orderId) == id
  }

  /** The event speaks of the id; one without an id speaks of nothing. */
  predicate IsWithdrawalEvent(e: Event, id: string) {
    e.eventType == DexWithdraw && e.msg.WithdrawMessage? && id != "" && Hex(e.msg.orderId) == id
  }

  ghost predicate WithdrawalEventIn(events: seq<Event>, id: string) {
    exists e :: e in events && IsWithdrawalEvent(e, id)
  }

  predicate WithdrawalTells(e: Event, x: WithdrawalOutcome)
    requires e.msg.WithdrawMessage?
  {
    x.localAmount == e.msg.localAmount && x.remoteAmount == e.msg.remoteAmount && x.pointsBurned == e.msg.pointsBurned
  }

  /** The result is that of the last event for the id: the amounts paid out and the points burned. */
  ghost predicate WithdrawalSays(events: seq<Event>, id: string, outcome: Option<WithdrawalOutcome>) {
    exists i: nat :: i < |events| && IsWithdrawalEvent(events[i], id) && (forall j :: i < j < |events| ==> !IsWithdrawalEvent(events[j], id)) &&
                     outcome.Some? && WithdrawalTells(events[i], outcome.value)
  }

  /** The id of a withdrawal lives regularly: first in the next batches, then in the current ones, then gone with its event. */
  ghost predicate WithdrawalLives(chain: Chain, id: string, life: Life) {
    LivesAs((h: nat) => WithdrawalIn(chain(h).nextDexBatches, id), (h: nat) => WithdrawalIn(chain(h).dexBatches, id),
            (h: nat) => WithdrawalEventIn(chain(h).events, id), life)
  }

  predicate HasWithdrawal(o: Withdrawal, r: DexRow<U64, WithdrawalOutcome>) {
    r.address == Hex(o.address) && r.terms == o.percent
  }

  /** The row shows a withdrawal that sits in one of the next batches pending, and in one of the current batches locked. */
  ghost predicate WithdrawalSits(next: seq<DexBatch>, current: seq<DexBatch>, id: string, r: DexRow<U64, WithdrawalOutcome>) {
    && (forall b, o :: b in next && o in b.withdrawals && Hex(o.orderId) == id ==> HasWithdrawal(o, r) && r.state == Pending && r.outcome == None)
    && (forall b, o :: b in current && o in b.withdrawals && Hex(o.orderId) == id ==> HasWithdrawal(o, r) && r.state == Locked && r.outcome == None)
  }

  /** What a reader finds of a withdrawal with a regular life, in the fields of the chain's batches and events. */
  ghost predicate WithdrawalShown(chain: Chain, id: string, life: Life, log: seq<Delivery>, h: nat, r: DexRow<U64, WithdrawalOutcome>) {
    && life(h) != Absent
    && WithdrawalSits(chain(h).nextDexBatches, chain(h).dexBatches, id, r)
    && (life(h) == Gone ==> exists m: nat :: LeftAt(life, m, h) && WithdrawalLeft(chain, id, m, CompletionSeen(life, log, h), r))
  }

  /** One of the batches holds a withdrawal with that id and the row's columns. */
  ghost predicate WithdrawalFrom(batches: seq<DexBatch>, id: string, r: DexRow<U64, WithdrawalOutcome>) {
    exists b, o :: b in batches && o in b.withdrawals && Hex(o.orderId) == id && HasWithdrawal(o, r)
  }

  /** A withdrawal that left at m: complete with its result if that was seen, locked for good otherwise. */
  ghost predicate WithdrawalLeft(chain: Chain, id: string, m: nat, seen: bool, r: DexRow<U64, WithdrawalOutcome>)
    requires m > 0
  {
    && WithdrawalFrom(chain(m - 1).dexBatches, id, r)
    && if seen then r.state == Complete && WithdrawalSays(chain(m).events, id, r.outcome) else r.state == Locked && r.outcome == None
  }

  lemma WithdrawalsListed(batches: seq<DexBatch>, id: string)
    ensures Listed(WithdrawalsOf(batches), id) <==> WithdrawalIn(batches, id)
  {
    ItemsListed(batches, WithdrawalsIn, WithdrawalItem, id);
    forall b, o | b in batches ensures o in WithdrawalsIn(b) <==> o in b.withdrawals {
    }
  }

  lemma WithdrawalEventsListed(events: seq<Event>, id: string)
    ensures id in WithdrawalEvents(events) <==> WithdrawalEventIn(events, id)
    ensures id in WithdrawalEvents(events) ==> WithdrawalSays(events, id, Some(WithdrawalEvents(events)[id]))
  {
    EventListed(ReadWithdrawal, events, id);
    if id in WithdrawalEvents(events) {
      var i := LastEvent(ReadWithdrawal, events, id);
      assert IsWithdrawalEvent(events[i], id) && WithdrawalTells(events[i], WithdrawalEvents(events)[id]);
      forall j | i < j < |events| ensures !IsWithdrawalEvent(events[j], id) {
      }
    }
  }

  lemma WithdrawalLivesInView(chain: Chain, id: string, life: Life)
    ensures WithdrawalLives(chain, id, life) <==> Lives(WithdrawalView(chain), id, life)
  {
    forall h: nat
      ensures Listed(WithdrawalView(chain)(h).next, id) <==> WithdrawalIn(chain(h).nextDexBatches, id)
      ensures Listed(WithdrawalView(chain)(h).current, id) <==> WithdrawalIn(chain(h).dexBatches, id)
      ensures id in WithdrawalView(chain)(h).events <==> WithdrawalEventIn(chain(h).events, id)
    {
      WithdrawalsListed(chain(h).nextDexBatches, id);
      WithdrawalsListed(chain(h).dexBatches, id);
      WithdrawalEventsListed(chain(h).events, id);
    }
    LivesInView(WithdrawalView(chain), id, (h: nat) => WithdrawalIn(chain(h).nextDexBatches, id), (h: nat) => WithdrawalIn(chain(h).dexBatches, id),
                (h: nat) => WithdrawalEventIn(chain(h).events, id), life);
  }

  lemma WithdrawalFromItem(batches: seq<DexBatch>, i: Item<U64>, r: DexRow<U64, WithdrawalOutcome>)
    requires i in WithdrawalsOf(batches) && r.address == i.address && r.terms == i.terms
    ensures WithdrawalFrom(batches, i.id, r)
  {
    var b, o := ItemFrom(batches, WithdrawalsIn, WithdrawalItem, i);
    assert HasWithdrawal(o, r);
  }

  lemma WithdrawalLeftFrom(chain: Chain, id: string, m: nat, seen: bool, i: Item<U64>, r: DexRow<U64, WithdrawalOutcome>)
    requires m > 0 && i in WithdrawalsOf(chain(m - 1).dexBatches) && i.id == id && ShowsLeft(WithdrawalView(chain), i, m, seen, r)
    ensures WithdrawalLeft(chain, id, m, seen, r)
  {
    WithdrawalFromItem(chain(m - 1).dexBatches, i, r);
    WithdrawalEventsListed(chain(m).events, id);
  }

  lemma WithdrawalSitsFrom(next: seq<DexBatch>, current: seq<DexBatch>, id: string, r: DexRow<U64, WithdrawalOutcome>)
    requires forall b, o :: b in next && o in WithdrawalsIn(b) && WithdrawalItem(b)(o).id == id ==> ShowsItem(WithdrawalItem(b)(o), Pending, r)
    requires forall b, o :: b in current && o in WithdrawalsIn(b) && WithdrawalItem(b)(o).id == id ==> ShowsItem(WithdrawalItem(b)(o), Locked, r)
    ensures WithdrawalSits(next, current, id, r)
  {
    forall b, o | b in next && o in b.withdrawals && Hex(o.orderId) == id ensures HasWithdrawal(o, r) && r.state == Pending && r.outcome == None {
      assert o in WithdrawalsIn(b) && ShowsItem(WithdrawalItem(b)(o), Pending, r);
    }
    forall b, o | b in current && o in b.withdrawals && Hex(o.orderId) == id ensures HasWithdrawal(o, r) && r.state == Locked && r.outcome == None {
      assert o in WithdrawalsIn(b) && ShowsItem(WithdrawalItem(b)(o), Locked, r);
    }
  }

  lemma WithdrawalAsOfView(chain: Chain, log: seq<Delivery>, h: nat, id: string, life: Life)
    requires DistinctView(WithdrawalView(chain)) && Lives(WithdrawalView(chain), id, life) && IndexedThrough(log, h)
    ensures var r := AsOf(Replay(DexFeed(WithdrawalView(chain)), log), id, h); r.Some? ==> WithdrawalShown(chain, id, life, log, h, r.value)
  {
    var r := AsOf(Replay(DexFeed(WithdrawalView(chain)), log), id, h);
    RowMeansAlive(WithdrawalView(chain), id, life, log, h);
    if r.Some? {
      SittingAsOf(WithdrawalView(chain), id, life, log, h, chain(h).nextDexBatches, chain(h).dexBatches, WithdrawalsIn, WithdrawalItem);
      WithdrawalSitsFrom(chain(h).nextDexBatches, chain(h).dexBatches, id, r.value);
      if life(h) == Gone {
        var i, m := GoneAsOf(WithdrawalView(chain), id, life, log, h);
        WithdrawalLeftFrom(chain, id, m, CompletionSeen(life, log, h), i, r.value);
        assert LeftAt(life, m, h);
      }
    }
  }

  /**
   The newest row of a withdrawal as of h: pending while it sits in a next batch, locked in a current one, with its own terms
   there, and what became of it once it is gone. It has one from the first on if it is not older than height 1.
   */
  lemma WithdrawalAsOf(chain: Chain, log: seq<Delivery>, h: nat, id: string, life: Life)
    requires DistinctView(WithdrawalView(chain)) && WithdrawalLives(chain, id, life) && IndexedThrough(log, h)
    ensures var r := AsOf(Replay(DexFeed(WithdrawalView(chain)), log), id, h);
            && (r.Some? ==> WithdrawalShown(chain, id, life, log, h, r.value))
            && (life(0) == Absent ==> (r.Some? <==> life(h) != Absent))
  {
    WithdrawalLivesInView(chain, id, life);
    WithdrawalAsOfView(chain, log, h, id, life);
    RowMeansAlive(WithdrawalView(chain), id, life, log, h);
  }

  /** The batches before hold a withdrawal with that id, from the same address and with the same terms. */
  ghost predicate WithdrawalStays(was: seq<DexBatch>, o: Withdrawal) {
    exists b, p :: b in was && p in b.withdrawals && p.orderId == o.orderId && p.address == o.address && p.percent == o.percent
  }

  lemma WithdrawalStaysMeans(was: seq<DexBatch>, b: DexBatch, o: Withdrawal)
    ensures ItemStays(WithdrawalsOf(was), WithdrawalItem(b)(o)) <==> WithdrawalStays(was, o)
  {
    var i := WithdrawalItem(b)(o);
    if q :| q in WithdrawalsOf(was) && q.id == i.id && q.terms == i.terms && q.address == i.address {
      var c, p := ItemFrom(was, WithdrawalsIn, WithdrawalItem, q);
      HexInjective(p.orderId, o.orderId);
      HexInjective(p.address, o.address);
    }
    if c, p :| c in was && p in c.withdrawals && p.orderId == o.orderId && p.address == o.address && p.percent == o.percent {
      ItemOf(was, WithdrawalsIn, WithdrawalItem, c, p);
      assert WithdrawalItem(c)(p).id == i.id && WithdrawalItem(c)(p).terms == i.terms && WithdrawalItem(c)(p).address == i.address;
    }
  }

  /**
   When a block leaves a row for a withdrawal, and its columns: pending for one that is new in the next batches or changed there,
   locked for one in the current batches, and complete for one that leaves with a block that came with the state before it.
   */
  lemma WithdrawalRowAt(chain: Chain, log: seq<Delivery>, m: nat, b: DexBatch, o: Withdrawal, life: Life)
    requires DistinctView(WithdrawalView(chain)) && WithdrawalLives(chain, Hex(o.orderId), life) && o in b.withdrawals
    ensures b in chain(m).nextDexBatches ==>
              var t, k := Replay(DexFeed(WithdrawalView(chain)), log), (Hex(o.orderId), m);
              && (k in t <==> WrittenAt(log, m, m == 0 || !WithdrawalStays(chain(m - 1).nextDexBatches, o)))
              && (k in t ==> t[k] == DexRow(b.committee % 0x1_0000, Hex(o.address), o.percent, Pending, None, 0))
    ensures b in chain(m).dexBatches ==>
              var t, k := Replay(DexFeed(WithdrawalView(chain)), log), (Hex(o.orderId), m);
              && (k in t <==> WrittenAt(log, m, m == 0 || !WithdrawalStays(chain(m - 1).dexBatches, o)))
              && (k in t ==> t[k] == DexRow(b.committee % 0x1_0000, Hex(o.address), o.percent, Locked, None, b.lockedHeight))
    ensures m > 0 && life(m) == Gone && b in chain(m - 1).dexBatches ==>
              var t, k := Replay(DexFeed(WithdrawalView(chain)), log), (Hex(o.orderId), m);
              && (k in t <==> Delivery(m, true) in log)
              && (k in t ==> WithdrawalSays(chain(m).events, Hex(o.orderId), t[k].outcome) &&
                             t[k] == DexRow(b.committee % 0x1_0000, Hex(o.address), o.percent, Complete, t[k].outcome, b.lockedHeight))
  {
    WithdrawalLivesInView(chain, Hex(o.orderId), life);
    if m > 0 {
      WithdrawalStaysMeans(chain(m - 1).nextDexBatches, b, o);
      WithdrawalStaysMeans(chain(m - 1).dexBatches, b, o);
    }
    if b in chain(m).nextDexBatches {
      ItemOf(chain(m).nextDexBatches, WithdrawalsIn, WithdrawalItem, b, o);
      PendingRowAt(WithdrawalView(chain), WithdrawalItem(b)(o), life, log, m);
    }
    if b in chain(m).dexBatches {
      ItemOf(chain(m).dexBatches, WithdrawalsIn, WithdrawalItem, b, o);
      LockedRowAt(WithdrawalView(chain), WithdrawalItem(b)(o), life, log, m);
    }
    if m > 0 && life(m) == Gone && b in chain(m - 1).dexBatches {
      ItemOf(chain(m - 1).dexBatches, WithdrawalsIn, WithdrawalItem, b, o);
      CompletionRowAt(WithdrawalView(chain), WithdrawalItem(b)(o), life, log, m);
      WithdrawalEventsListed(chain(m).events, Hex(o.orderId));
    }
  }
}
