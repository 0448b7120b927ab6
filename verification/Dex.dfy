/** The life of DEX orders, deposits and withdrawals: pending, locked, complete. */
module Dex {
  import opened Encoding
  import opened Tables
  import opened ChangeDetection
  import opened Chain

  // ================================================================ items, rows and one block's statements

  /** An order, deposit or withdrawal in a batch; T holds the amounts that are compared between heights. */
  datatype Item<T> = Item(id: string, address: string, terms: T, committee: nat, lockedHeight: nat)

  datatype DexState = Pending | Locked | Complete

  /** A row; X holds the results that an event reports on completion. */
  datatype DexRow<T, X> = DexRow(committee: nat, address: string, terms: T, state: DexState, outcome: Option<X>, lockedHeight: nat)

  function ItemRow<T, X>(i: Item<T>, state: DexState): DexRow<T, X> {
    DexRow(i.committee, i.address, i.terms, state, None, if state == Locked then i.lockedHeight else 0)
  }

  function ItemEntry<T, X>(state: DexState): Item<T> -> (string, DexRow<T, X>) {
    (i: Item<T>) => (i.id, ItemRow(i, state))
  }

  function RowIn<T, X>(state: DexState): Item<T> -> DexRow<T, X> {
    (i: Item<T>) => ItemRow(i, state)
  }

  predicate SameTerms<T(==), X>(cur: DexRow<T, X>, prev: DexRow<T, X>) {
    cur.terms == prev.terms && cur.address == prev.address
  }

  /** The row of an item that completes: the item as it was locked, with its outcome. */
  function Completed<T, X>(locked: DexRow<T, X>, outcome: X): DexRow<T, X> {
    locked.(state := Complete, outcome := Some(outcome))
  }

  /** The items of the batch before that have a completion event now. */
  function Completions<T, X>(items: seq<Item<T>>, events: map<string, X>): seq<(string, DexRow<T, X>)> {
    if items == [] then []
    else
      var i := items[|items| - 1];
      Completions(items[..|items| - 1], events) +
      if i.id in events then [(i.id, Completed(ItemRow(i, Locked), events[i.id]))] else []
  }

  /** The items of a batch that are new to it or whose terms changed. */
  function Entering<T(==), X>(items: seq<Item<T>>, before: seq<Item<T>>, state: DexState): seq<(string, DexRow<T, X>)> {
    Emit(Map(ItemEntry(state), items), Collect(Map(ItemEntry(state), before)), {}, SameTerms)
  }

  /** All statements of one block, in the order in which they reach the table. */
  function Statements<T(==), X>(current: seq<Item<T>>, next: seq<Item<T>>, previousCurrent: seq<Item<T>>,
                                previousNext: seq<Item<T>>, events: map<string, X>): seq<(string, DexRow<T, X>)> {
    Completions(previousCurrent, events) + Entering(current, previousCurrent, Locked) + Entering(next, previousNext, Pending)
  }

  method IndexItems<T, X>(items: seq<Item<T>>, state: DexState) returns (m: map<string, Item<T>>)
    ensures Mirrors(m, Collect(Map(ItemEntry<T, X>(state), items)), RowIn<T, X>(state))
  {
    m := map[];
    for i := 0 to |items|
      invariant Mirrors(m, Collect(Map(ItemEntry<T, X>(state), items[..i])), RowIn<T, X>(state))
    {
      IndexStep(m, ItemEntry<T, X>(state), RowIn<T, X>(state), items, i);
      m := m[items[i].id := items[i]];
    }
    assert items[..|items|] == items;
  }

  method ConvertCompletions<T, X>(items: seq<Item<T>>, events: map<string, X>) returns (results: seq<(string, DexRow<T, X>)>)
    ensures results == Completions(items, events)
  {
    results := [];
    for j := 0 to |items|
      invariant results == Completions(items[..j], events)
    {
      var i := items[j];
      assert items[..j + 1][..j] == items[..j];
      if i.id in events {
        results := results + [(i.id, DexRow(i.committee, i.address, i.terms, Complete, Some(events[i.id]), i.lockedHeight))];
      }
    }
    assert items[..|items|] == items;
  }

  /** The item sat in the batch before, with the same terms. */
  predicate Unchanged<T(==)>(i: Item<T>, h1: map<string, Item<T>>) {
    i.id in h1 && h1[i.id].terms == i.terms && h1[i.id].address == i.address
  }

  lemma EnteringStep<T, X>(items: seq<Item<T>>, j: nat, before: seq<Item<T>>, state: DexState, h1: map<string, Item<T>>)
    requires j < |items|
    requires Mirrors(h1, Collect(Map(ItemEntry<T, X>(state), before)), RowIn<T, X>(state))
    ensures Entering<T, X>(items[..j + 1], before, state) ==
            Entering<T, X>(items[..j], before, state) +
            if Unchanged(items[j], h1) then [] else [ItemEntry<T, X>(state)(items[j])]
  {
    MapStep(ItemEntry<T, X>(state), items, j);
    EmitSnoc(Map(ItemEntry<T, X>(state), items[..j]), ItemEntry<T, X>(state)(items[j]),
             Collect(Map(ItemEntry<T, X>(state), before)), {}, SameTerms);
  }

  method ConvertEntering<T(==), X>(items: seq<Item<T>>, before: seq<Item<T>>, state: DexState)
    returns (results: seq<(string, DexRow<T, X>)>)
    ensures results == Entering(items, before, state)
  {
    var h1: map<string, Item<T>> := IndexItems<T, X>(before, state);
    results := [];
    for j := 0 to |items|
      invariant results == Entering(items[..j], before, state)
    {
      var i := items[j];
      EnteringStep<T, X>(items, j, before, state, h1);
      if !Unchanged(i, h1) {
        results := results + [ItemEntry<T, X>(state)(i)];
      }
    }
    assert items[..|items|] == items;
  }

  method ConvertWithStateMachine<T(==), X>(current: seq<Item<T>>, next: seq<Item<T>>, previousCurrent: seq<Item<T>>,
                                           previousNext: seq<Item<T>>, events: map<string, X>)
    returns (results: seq<(string, DexRow<T, X>)>)
    ensures results == Statements(current, next, previousCurrent, previousNext, events)
  {
    results := ConvertCompletions(previousCurrent, events);
    var locked: seq<(string, DexRow<T, X>)> := ConvertEntering<T, X>(current, previousCurrent, Locked);
    results := results + locked;
    var pending: seq<(string, DexRow<T, X>)> := ConvertEntering<T, X>(next, previousNext, Pending);
    results := results + pending;
  }

  // ================================================================ a chain of batches

  /** The batches and completion events of one height. */
  datatype Phases<T, X> = Phases(current: seq<Item<T>>, next: seq<Item<T>>, events: map<string, X>)

  type View<!T, !X> = nat -> Phases<T, X>

  ghost predicate Listed<T>(items: seq<Item<T>>, id: string) {
    exists i :: i in items && i.id == id
  }

  ghost predicate DistinctIds<T>(items: seq<Item<T>>) {
    forall i, j :: 0 <= i < j < |items| ==> items[i].id != items[j].id
  }

  ghost predicate DistinctView<T, X>(view: View<T, X>) {
    forall h: nat :: DistinctIds(view(h).current) && DistinctIds(view(h).next)
  }

  ghost function DexFeed<T, X>(view: View<T, X>): Feed<string, DexRow<T, X>> {
    (d: Delivery) =>
      if d.HasPrevious()
      then Statements(view(d.height).current, view(d.height).next, view(d.height - 1).current, view(d.height - 1).next,
                      view(d.height).events)
      else Statements(view(d.height).current, view(d.height).next, [], [], view(d.height).events)
  }

  /** The life of one id: it only moves forward, and leaves from the current batch, with its event, once. */
  datatype Stage = Absent | Next | Current | Gone

  function Rank(s: Stage): nat {
    match s case Absent => 0 case Next => 1 case Current => 2 case Gone => 3
  }

  type Life = nat -> Stage

  ghost predicate Lives<T, X>(view: View<T, X>, id: string, life: Life) {
    && (forall h: nat :: Listed(view(h).next, id) <==> life(h) == Next)
    && (forall h: nat :: Listed(view(h).current, id) <==> life(h) == Current)
    && (forall h: nat | h > 0 :: Rank(life(h - 1)) <= Rank(life(h)))
    && (forall h: nat | h > 0 :: life(h) == Gone ==> life(h - 1) == Current || life(h - 1) == Gone)
    && (forall h: nat | h > 0 :: id in view(h).events <==> life(h) == Gone && life(h - 1) == Current)
  }

  // ================================================================ what one delivery writes for an id

  lemma {:induction false} CompletionsCollect<T, X>(items: seq<Item<T>>, events: map<string, X>, id: string)
    ensures var c, locked := Collect(Completions(items, events)), Collect(Map(ItemEntry<T, X>(Locked), items));
            && (id in c <==> id in locked && id in events)
            && (id in c ==> c[id] == Completed(locked[id], events[id]))
  {
    if items != [] {
      var n := |items| - 1;
      var i, rest := items[n], Completions(items[..n], events);
      CompletionsCollect(items[..n], events, id);
      CollectSnoc(Map(ItemEntry<T, X>(Locked), items[..n]), ItemEntry<T, X>(Locked)(i));
      if i.id in events {
        CollectSnoc(rest, (i.id, Completed(ItemRow<T, X>(i, Locked), events[i.id])));
      } else {
        assert Completions(items, events) == rest;
      }
    }
  }

  lemma ListedCollects<T, X>(items: seq<Item<T>>, state: DexState, id: string)
    ensures var c := Collect(Map(ItemEntry<T, X>(state), items));
            && (id in c <==> Listed(items, id))
            && (id in c ==> c[id].state == state && c[id].outcome == None)
  {
    var rows := Map(ItemEntry<T, X>(state), items);
    CollectKeys(rows, id);
    if id in Collect(rows) {
      var i := MapOrigin(ItemEntry<T, X>(state), items, id);
    }
    if i :| i in items && i.id == id {
      var j :| 0 <= j < |items| && items[j] == i;
      assert rows[j].0 == id;
    }
  }

  lemma EnteringCollects<T, X>(items: seq<Item<T>>, before: seq<Item<T>>, state: DexState, id: string)
    requires DistinctIds(items)
    ensures var c := Collect(Entering<T, X>(items, before, state));
            var now, was := Collect(Map(ItemEntry<T, X>(state), items)), Collect(Map(ItemEntry<T, X>(state), before));
            && (id in c ==> Listed(items, id) && id in now && c[id] == now[id])
            && (Listed(items, id) ==> id in now && (id !in c <==> id in was && SameTerms(now[id], was[id])))
  {
    MapDistinct(ItemEntry<T, X>(state), items);
    EmitCollects(Map(ItemEntry<T, X>(state), items), Collect(Map(ItemEntry<T, X>(state), before)), {}, SameTerms, id);
    ListedCollects<T, X>(items, state, id);
    ListedCollects<T, X>(before, state, id);
  }

  function StageOf(s: DexState): Stage {
    match s case Pending => Next case Locked => Current case Complete => Gone
  }

  /** The items of the batch that stage s speaks of, as rows. */
  ghost function BatchRows<T, X>(view: View<T, X>, h: nat, s: Stage): map<string, DexRow<T, X>> {
    if s == Next then Collect(Map(ItemEntry(Pending), view(h).next)) else Collect(Map(ItemEntry(Locked), view(h).current))
  }

  ghost predicate InBatch(s: Stage) { s == Next || s == Current }

  lemma CompletionPart<T, X>(view: View<T, X>, id: string, d: Delivery)
    ensures var c := Collect(Completions(if d.HasPrevious() then view(d.height - 1).current else [], view(d.height).events));
            && (id in c <==> d.HasPrevious() && Listed(view(d.height - 1).current, id) && id in view(d.height).events)
            && (id in c ==> id in BatchRows(view, d.height - 1, Current) &&
                            c[id] == Completed(BatchRows(view, d.height - 1, Current)[id], view(d.height).events[id]))
  {
    var previousCurrent := if d.HasPrevious() then view(d.height - 1).current else [];
    CompletionsCollect(previousCurrent, view(d.height).events, id);
    ListedCollects<T, X>(previousCurrent, Locked, id);
  }

  /** What one delivery compares with and what it writes, loop by loop; the later loop wins. */
  lemma DeliveryParts<T, X>(view: View<T, X>, id: string, d: Delivery)
    returns (complete: map<string, DexRow<T, X>>, locked: map<string, DexRow<T, X>>, pending: map<string, DexRow<T, X>>)
    requires DistinctView(view)
    ensures Collect(DexFeed(view)(d)) == complete + locked + pending
    ensures id in complete <==> d.HasPrevious() && Listed(view(d.height - 1).current, id) && id in view(d.height).events
    ensures id in complete ==> id in BatchRows(view, d.height - 1, Current) &&
                               complete[id] == Completed(BatchRows(view, d.height - 1, Current)[id], view(d.height).events[id])
    ensures EnteredFrom(view(d.height).current, if d.HasPrevious() then view(d.height - 1).current else [], Locked, id, locked)
    ensures EnteredFrom(view(d.height).next, if d.HasPrevious() then view(d.height - 1).next else [], Pending, id, pending)
  {
    var v := view(d.height);
    var previousCurrent, previousNext :=
      if d.HasPrevious() then view(d.height - 1).current else [], if d.HasPrevious() then view(d.height - 1).next else [];
    var a := Completions(previousCurrent, v.events);
    var b: seq<(string, DexRow<T, X>)> := Entering(v.current, previousCurrent, Locked);
    var c: seq<(string, DexRow<T, X>)> := Entering(v.next, previousNext, Pending);
    CollectConcat(a + b, c);
    CollectConcat(a, b);
    CompletionPart(view, id, d);
    EnteringCollects<T, X>(v.current, previousCurrent, Locked, id);
    EnteringCollects<T, X>(v.next, previousNext, Pending, id);
    ListedCollects<T, X>(v.current, Locked, id);
    ListedCollects<T, X>(v.next, Pending, id);
    ListedCollects<T, X>(previousCurrent, Locked, id);
    ListedCollects<T, X>(previousNext, Pending, id);
    complete, locked, pending := Collect(a), Collect(b), Collect(c);
  }

  /** What the rows of one batch say about an id: nothing unless it is listed, its row if it is new, or it did not change. */
  ghost predicate EnteredFrom<T, X>(items: seq<Item<T>>, before: seq<Item<T>>, state: DexState, id: string,
                                    rows: map<string, DexRow<T, X>>)
  {
    var now, was := Collect(Map(ItemEntry<T, X>(state), items)), Collect(Map(ItemEntry<T, X>(state), before));
    && (Listed(items, id) <==> id in now)
    && (id in now ==> now[id].state == state && now[id].outcome == None)
    && (id in rows ==> id in now && rows[id] == now[id])
    && (id in now ==> (id !in rows <==> id in was && SameTerms(now[id], was[id])))
    && (id in was <==> Listed(before, id))
  }

  /** What the last statement for an id says, in terms of its life. */
  ghost predicate NamesStage<T, X>(view: View<T, X>, id: string, life: Life, d: Delivery, c: map<string, DexRow<T, X>>) {
    var h := d.height;
    && (InBatch(life(h)) ==> id in BatchRows(view, h, life(h)))
    && (id in c ==> life(h) == StageOf(c[id].state))
    && (id in c && InBatch(life(h)) ==> c[id] == BatchRows(view, h, life(h))[id])
    && (id in c && c[id].state == Complete ==>
         d.HasPrevious() && life(h - 1) == Current && id in view(h).events && id in BatchRows(view, h - 1, Current) &&
         c[id] == Completed(BatchRows(view, h - 1, Current)[id], view(h).events[id]))
    && (id !in c <==> NoNews(view, id, life, d))
  }

  /** The id is not there, stands in its batch as before and is seen to, or is gone and is not seen to leave. */
  ghost predicate NoNews<T, X>(view: View<T, X>, id: string, life: Life, d: Delivery) {
    var h := d.height;
    match life(h)
    case Absent => true
    case Gone => !(d.HasPrevious() && life(h - 1) == Current)
    case s =>
      && d.HasPrevious() && life(h - 1) == s && id in BatchRows(view, h, s) && id in BatchRows(view, h - 1, s)
      && SameTerms(BatchRows(view, h, s)[id], BatchRows(view, h - 1, s)[id])
  }

  /** What one batch says about an id that sits in it. */
  lemma PendingNews<T, X>(view: View<T, X>, id: string, life: Life, d: Delivery, rows: map<string, DexRow<T, X>>)
    requires Lives(view, id, life) && life(d.height) == Next
    requires EnteredFrom(view(d.height).next, if d.HasPrevious() then view(d.height - 1).next else [], Pending, id, rows)
    ensures id in BatchRows(view, d.height, Next) && (id !in rows <==> NoNews(view, id, life, d))
    ensures id in rows ==> rows[id] == BatchRows(view, d.height, Next)[id] && rows[id].state == Pending
  {
    assert Listed(view(d.height).next, id);
    if d.HasPrevious() {
      assert Listed(view(d.height - 1).next, id) <==> life(d.height - 1) == Next;
      assert BatchRows(view, d.height - 1, Next) == Collect(Map(ItemEntry<T, X>(Pending), view(d.height - 1).next));
    }
  }

  lemma LockedNews<T, X>(view: View<T, X>, id: string, life: Life, d: Delivery, rows: map<string, DexRow<T, X>>)
    requires Lives(view, id, life) && life(d.height) == Current
    requires EnteredFrom(view(d.height).current, if d.HasPrevious() then view(d.height - 1).current else [], Locked, id, rows)
    ensures id in BatchRows(view, d.height, Current) && (id !in rows <==> NoNews(view, id, life, d))
    ensures id in rows ==> rows[id] == BatchRows(view, d.height, Current)[id] && rows[id].state == Locked
  {
    assert Listed(view(d.height).current, id);
    if d.HasPrevious() {
      assert Listed(view(d.height - 1).current, id) <==> life(d.height - 1) == Current;
      assert BatchRows(view, d.height - 1, Current) == Collect(Map(ItemEntry<T, X>(Locked), view(d.height - 1).current));
    }
  }

  lemma NextNamesStage<T, X>(view: View<T, X>, id: string, life: Life, d: Delivery)
    requires DistinctView(view) && Lives(view, id, life) && life(d.height) == Next
    ensures NamesStage(view, id, life, d, Collect(DexFeed(view)(d)))
  {
    var complete, locked, pending := DeliveryParts(view, id, d);
    PendingNews(view, id, life, d, pending);
    assert !Listed(view(d.height).current, id);
    assert id !in complete && id !in locked;
  }

  lemma CurrentNamesStage<T, X>(view: View<T, X>, id: string, life: Life, d: Delivery)
    requires DistinctView(view) && Lives(view, id, life) && life(d.height) == Current
    ensures NamesStage(view, id, life, d, Collect(DexFeed(view)(d)))
  {
    var complete, locked, pending := DeliveryParts(view, id, d);
    LockedNews(view, id, life, d, locked);
    assert !Listed(view(d.height).next, id);
    assert id !in complete && id !in pending;
  }

  lemma UnlistedNamesStage<T, X>(view: View<T, X>, id: string, life: Life, d: Delivery)
    requires DistinctView(view) && Lives(view, id, life) && !InBatch(life(d.height))
    ensures NamesStage(view, id, life, d, Collect(DexFeed(view)(d)))
  {
    var complete, locked, pending := DeliveryParts(view, id, d);
    assert !Listed(view(d.height).current, id) && !Listed(view(d.height).next, id);
    assert id !in locked && id !in pending;
  }

  /** Although three loops write under one key, the last statement for an id names its stage at that height. */
  lemma DeliveryNamesStage<T, X>(view: View<T, X>, id: string, life: Life, d: Delivery)
    requires DistinctView(view) && Lives(view, id, life)
    ensures NamesStage(view, id, life, d, Collect(DexFeed(view)(d)))
  {
    if life(d.height) == Next {
      NextNamesStage(view, id, life, d);
    } else if life(d.height) == Current {
      CurrentNamesStage(view, id, life, d);
    } else {
      UnlistedNamesStage(view, id, life, d);
    }
  }

  // ================================================================ what a reader gets back

  /** A row names the stage of its id at its height. */
  ghost predicate PresentRow<T, X>(view: View<T, X>, id: string, life: Life, log: seq<Delivery>, h: nat, row: DexRow<T, X>) {
    && life(h) == StageOf(row.state)
    && (InBatch(life(h)) ==> id in BatchRows(view, h, life(h)) && row == BatchRows(view, h, life(h))[id])
    && (life(h) == Gone ==>
         h > 0 && life(h - 1) == Current && (exists d :: d in log && d.height == h && d.withPrevious) &&
         id in view(h).events && id in BatchRows(view, h - 1, Current) &&
         row == Completed(BatchRows(view, h - 1, Current)[id], view(h).events[id]))
  }

  /** A missing row means that nothing about the id changed, or was seen to. */
  ghost predicate MissingRow<T, X>(view: View<T, X>, id: string, life: Life, log: seq<Delivery>, h: nat) {
    && (InBatch(life(h)) ==>
         id in BatchRows(view, h, life(h)) && h > 0 && life(h - 1) == life(h) && id in BatchRows(view, h - 1, life(h)) &&
         SameTerms(BatchRows(view, h, life(h))[id], BatchRows(view, h - 1, life(h))[id]))
    && (life(h) == Gone && h > 0 && life(h - 1) == Current ==>
         forall d :: d in log && d.height == h ==> !d.withPrevious)
  }

  lemma RowNamesStage<T, X>(view: View<T, X>, id: string, life: Life, log: seq<Delivery>, h: nat)
    requires DistinctView(view) && Lives(view, id, life) && (id, h) in Replay(DexFeed(view), log)
    ensures PresentRow(view, id, life, log, h, Replay(DexFeed(view), log)[(id, h)])
  {
    var feed := DexFeed(view);
    ReplayRow(feed, log, id, h);
    var d :| d in log && Writes(feed, d, id, h) && Replay(feed, log)[(id, h)] == Collect(feed(d))[id];
    DeliveryNamesStage(view, id, life, d);
  }

  lemma NoRowNoNews<T, X>(view: View<T, X>, id: string, life: Life, log: seq<Delivery>, h: nat)
    requires DistinctView(view) && Lives(view, id, life) && Indexed(log, h) && (id, h) !in Replay(DexFeed(view), log)
    ensures MissingRow(view, id, life, log, h)
  {
    var feed := DexFeed(view);
    ReplayRow(feed, log, id, h);
    forall d | d in log && d.height == h ensures NamesStage(view, id, life, d, Collect(feed(d))) && id !in Collect(feed(d)) {
      assert !Writes(feed, d, id, h);
      DeliveryNamesStage(view, id, life, d);
    }
  }

  lemma {:induction false} LifeIsMonotone<T, X>(view: View<T, X>, id: string, life: Life, i: nat, j: nat)
    requires Lives(view, id, life) && i <= j
    ensures Rank(life(i)) <= Rank(life(j))
    decreases j
  {
    if i < j {
      LifeIsMonotone(view, id, life, i, j - 1);
    }
  }

  /** The completion of the id was delivered, at or below h, with the state before it. */
  ghost predicate CompletionSeen(life: Life, log: seq<Delivery>, h: nat) {
    exists d :: d in log && d.HasPrevious() && d.height <= h && life(d.height) == Gone && life(d.height - 1) == Current
  }

  lemma CompletionAtMostOnce<T, X>(view: View<T, X>, id: string, life: Life, i: nat, j: nat)
    requires Lives(view, id, life) && 0 < i && 0 < j
    requires life(i) == Gone && life(i - 1) == Current && life(j) == Gone && life(j - 1) == Current
    ensures i == j
  {
    if i < j {
      LifeIsMonotone(view, id, life, i, j - 1);
    } else if j < i {
      LifeIsMonotone(view, id, life, j, i - 1);
    }
  }

  lemma JustLeft<T, X>(view: View<T, X>, id: string, life: Life, log: seq<Delivery>, h: nat)
    requires Lives(view, id, life) && h > 0 && life(h) == Gone && life(h - 1) == Current
    requires forall d :: d in log && d.height == h ==> !d.withPrevious
    ensures !CompletionSeen(life, log, h)
  {
    if CompletionSeen(life, log, h) {
      var d :| d in log && d.HasPrevious() && d.height <= h && life(d.height) == Gone && life(d.height - 1) == Current;
      CompletionAtMostOnce(view, id, life, d.height, h);
      assert false;
    }
  }

  /** The row of an id that left at m: what it was when last locked, complete with its outcome or without either. */
  ghost predicate GoneRow<T, X>(view: View<T, X>, id: string, life: Life, row: DexRow<T, X>, m: nat, seen: bool) {
    && m > 0 && life(m) == Gone && life(m - 1) == Current
    && id in BatchRows(view, m - 1, Current) && SameTerms(BatchRows(view, m - 1, Current)[id], row)
    && id in view(m).events
    && (row.state, row.outcome) == if seen then (Complete, Some(view(m).events[id])) else (Locked, None)
  }

  ghost predicate LeftRow<T, X>(view: View<T, X>, id: string, life: Life, row: DexRow<T, X>, h: nat, seen: bool) {
    exists m: nat :: m <= h && GoneRow(view, id, life, row, m, seen)
  }

  lemma StillLeft<T, X>(view: View<T, X>, id: string, life: Life, row: DexRow<T, X>, log: seq<Delivery>, h: nat)
    requires h > 0 && life(h) == Gone && life(h - 1) == Gone
    requires LeftRow(view, id, life, row, h - 1, CompletionSeen(life, log, h - 1))
    ensures LeftRow(view, id, life, row, h, CompletionSeen(life, log, h))
  {
    assert CompletionSeen(life, log, h) <==> CompletionSeen(life, log, h - 1);
    var m: nat :| m <= h - 1 && GoneRow(view, id, life, row, m, CompletionSeen(life, log, h - 1));
    assert m <= h;
  }

  /** No committed block up to h had any news of the id. */
  ghost predicate Unseen<T, X>(view: View<T, X>, id: string, life: Life, log: seq<Delivery>, h: nat) {
    forall d :: d in log && d.height <= h ==> NoNews(view, id, life, d)
  }

  lemma UnseenAt<T, X>(view: View<T, X>, id: string, life: Life, log: seq<Delivery>, h: nat)
    requires DistinctView(view) && Lives(view, id, life)
    ensures (id, h) !in Replay(DexFeed(view), log) <==> forall d :: d in log && d.height == h ==> NoNews(view, id, life, d)
  {
    ReplayRow(DexFeed(view), log, id, h);
    forall d: Delivery | d.height == h ensures Writes(DexFeed(view), d, id, h) <==> !NoNews(view, id, life, d) {
      DeliveryNamesStage(view, id, life, d);
    }
  }

  /** The row names the stage at h: with the terms of its batch, or the last terms and the outcome of an id that left. */
  ghost predicate NamesLife<T, X>(view: View<T, X>, id: string, life: Life, log: seq<Delivery>, h: nat, row: DexRow<T, X>) {
    match life(h)
    case Absent => false
    case Gone => LeftRow(view, id, life, row, h, CompletionSeen(life, log, h))
    case s =>
      && id in BatchRows(view, h, s) && StageOf(row.state) == s && row.outcome == None
      && SameTerms(BatchRows(view, h, s)[id], row)
  }

  lemma WrittenNamesLife<T, X>(view: View<T, X>, id: string, life: Life, log: seq<Delivery>, h: nat)
    requires DistinctView(view) && Lives(view, id, life) && (id, h) in Replay(DexFeed(view), log)
    ensures NamesLife(view, id, life, log, h, Replay(DexFeed(view), log)[(id, h)])
  {
    ListedCollects<T, X>(view(h).next, Pending, id);
    ListedCollects<T, X>(view(h).current, Locked, id);
    RowNamesStage(view, id, life, log, h);
    if life(h) == Gone {
      var d :| d in log && d.height == h && d.withPrevious;
      assert d.HasPrevious();
      assert GoneRow(view, id, life, Replay(DexFeed(view), log)[(id, h)], h, CompletionSeen(life, log, h));
    }
  }

  lemma OlderNamesLife<T, X>(view: View<T, X>, id: string, life: Life, log: seq<Delivery>, h: nat, row: DexRow<T, X>)
    requires DistinctView(view) && Lives(view, id, life) && h > 0 && Indexed(log, h)
    requires (id, h) !in Replay(DexFeed(view), log) && NamesLife(view, id, life, log, h - 1, row)
    ensures NamesLife(view, id, life, log, h, row)
  {
    NoRowNoNews(view, id, life, log, h);
    if life(h) == Gone {
      if life(h - 1) == Current {
        JustLeft(view, id, life, log, h);
        assert GoneRow(view, id, life, row, h, false);
      } else {
        StillLeft(view, id, life, row, log, h);
      }
    }
  }

  /**
   Lifecycle. With heights 1..h committed, the newest row of an id names its stage at h: pending or locked
   with its current terms while it sits in a batch, and once it is gone its last terms, complete with its
   outcome exactly when its completion height was delivered with the state before it; otherwise the row
   stays locked for good. There is no row exactly when no block had any news of the id.
   */
  lemma {:induction false} LifecycleAsOf<T, X>(view: View<T, X>, id: string, life: Life, log: seq<Delivery>, h: nat)
    requires DistinctView(view) && Lives(view, id, life) && IndexedThrough(log, h)
    ensures var r := AsOf(Replay(DexFeed(view), log), id, h);
            && (r.None? <==> Unseen(view, id, life, log, h))
            && (r.Some? ==> NamesLife(view, id, life, log, h, r.value))
    decreases h
  {
    UnseenAt(view, id, life, log, h);
    if (id, h) in Replay(DexFeed(view), log) {
      WrittenNamesLife(view, id, life, log, h);
    } else if h > 0 {
      LifecycleAsOf(view, id, life, log, h - 1);
      assert Indexed(log, h);
      var r := AsOf(Replay(DexFeed(view), log), id, h - 1);
      if r.Some? {
        OlderNamesLife(view, id, life, log, h, r.value);
      }
    }
  }

  /** An id that is not there before the first block is seen exactly once it is there. */
  lemma {:induction false} BornSeen<T, X>(view: View<T, X>, id: string, life: Life, log: seq<Delivery>, h: nat)
    requires DistinctView(view) && Lives(view, id, life) && IndexedThrough(log, h) && life(0) == Absent
    ensures Unseen(view, id, life, log, h) <==> life(h) == Absent
    decreases h
  {
    if h > 0 {
      BornSeen(view, id, life, log, h - 1);
      assert Indexed(log, h);
      var d :| d in log && d.height == h;
      assert life(h) == Absent ==> life(h - 1) == Absent;
      assert life(h) != Absent && life(h - 1) == Absent ==> !NoNews(view, id, life, d);
    }
  }

  /** The states of an id never go backwards from one row to a later one. */
  lemma StatesNeverGoBack<T, X>(view: View<T, X>, id: string, life: Life, log: seq<Delivery>, i: nat, j: nat)
    requires DistinctView(view) && Lives(view, id, life) && i <= j
    ensures var t := Replay(DexFeed(view), log);
            (id, i) in t && (id, j) in t ==>
              && (t[(id, i)].state == Complete ==> t[(id, j)].state == Complete)
              && (t[(id, i)].state == Locked ==> t[(id, j)].state != Pending)
  {
    if (id, i) in Replay(DexFeed(view), log) && (id, j) in Replay(DexFeed(view), log) {
      RowNamesStage(view, id, life, log, i);
      RowNamesStage(view, id, life, log, j);
      LifeIsMonotone(view, id, life, i, j);
    }
  }

  predicate IsComplete<T, X>(t: Table<string, DexRow<T, X>>, id: string, h: nat) {
    (id, h) in t && t[(id, h)].state == Complete
  }

  /** An id has at most one complete row, however often and in whatever order its blocks are committed. */
  lemma AtMostOneComplete<T, X>(view: View<T, X>, id: string, life: Life, log: seq<Delivery>, i: nat, j: nat)
    requires DistinctView(view) && Lives(view, id, life)
    ensures IsComplete(Replay(DexFeed(view), log), id, i) && IsComplete(Replay(DexFeed(view), log), id, j) ==> i == j
  {
    if IsComplete(Replay(DexFeed(view), log), id, i) && IsComplete(Replay(DexFeed(view), log), id, j) {
      RowNamesStage(view, id, life, log, i);
      RowNamesStage(view, id, life, log, j);
      CompletionAtMostOnce(view, id, life, i, j);
    }
  }

  // ================================================================ the same, item by item

  lemma BatchRowOf<T, X>(items: seq<Item<T>>, state: DexState, i: Item<T>)
    requires DistinctIds(items) && i in items
    ensures var c := Collect(Map(ItemEntry<T, X>(state), items));
            i.id in c && c[i.id] == DexRow(i.committee, i.address, i.terms, state, None, if state == Locked then i.lockedHeight else 0)
  {
    MapDistinct(ItemEntry<T, X>(state), items);
    MapMember(ItemEntry<T, X>(state), items, i);
  }

  lemma BatchItem<T, X>(items: seq<Item<T>>, state: DexState, id: string) returns (i: Item<T>)
    requires DistinctIds(items) && id in Collect(Map(ItemEntry<T, X>(state), items))
    ensures i in items && i.id == id
  {
    i := MapOrigin(ItemEntry<T, X>(state), items, id);
  }

  /** The row shows the item, in that state and without an outcome. */
  predicate ShowsItem<T(==), X(==)>(i: Item<T>, state: DexState, r: DexRow<T, X>) {
    r.address == i.address && r.terms == i.terms && r.state == state && r.outcome == None
  }

  /** As of any height the newest row of an item in the next batch shows it pending. */
  lemma PendingAsOf<T, X>(view: View<T, X>, i: Item<T>, life: Life, log: seq<Delivery>, h: nat)
    requires DistinctView(view) && Lives(view, i.id, life) && IndexedThrough(log, h) && i in view(h).next
    ensures var r := AsOf(Replay(DexFeed(view), log), i.id, h); r.Some? ==> ShowsItem(i, Pending, r.value)
  {
    LifecycleAsOf(view, i.id, life, log, h);
    assert Listed(view(h).next, i.id);
    BatchRowOf<T, X>(view(h).next, Pending, i);
  }

  /** And that of an item in the current batch shows it locked. */
  lemma LockedAsOf<T, X>(view: View<T, X>, i: Item<T>, life: Life, log: seq<Delivery>, h: nat)
    requires DistinctView(view) && Lives(view, i.id, life) && IndexedThrough(log, h) && i in view(h).current
    ensures var r := AsOf(Replay(DexFeed(view), log), i.id, h); r.Some? ==> ShowsItem(i, Locked, r.value)
  {
    LifecycleAsOf(view, i.id, life, log, h);
    assert Listed(view(h).current, i.id);
    BatchRowOf<T, X>(view(h).current, Locked, i);
  }

  /** The row of an item that left at m: complete with its outcome if that was seen, locked without one if not. */
  ghost predicate ShowsLeft<T, X>(view: View<T, X>, i: Item<T>, m: nat, seen: bool, r: DexRow<T, X>) {
    && r.address == i.address && r.terms == i.terms
    && if seen then r.state == Complete && i.id in view(m).events && r.outcome == Some(view(m).events[i.id])
       else r.state == Locked && r.outcome == None
  }

  lemma GoneAsOf<T, X>(view: View<T, X>, id: string, life: Life, log: seq<Delivery>, h: nat) returns (i: Item<T>, m: nat)
    requires DistinctView(view) && Lives(view, id, life) && IndexedThrough(log, h)
    requires life(h) == Gone && AsOf(Replay(DexFeed(view), log), id, h).Some?
    ensures 0 < m <= h && life(m) == Gone && life(m - 1) == Current && i in view(m - 1).current && i.id == id
    ensures ShowsLeft(view, i, m, CompletionSeen(life, log, h), AsOf(Replay(DexFeed(view), log), id, h).value)
  {
    LifecycleAsOf(view, id, life, log, h);
    var row, seen := AsOf(Replay(DexFeed(view), log), id, h).value, CompletionSeen(life, log, h);
    m :| m <= h && GoneRow(view, id, life, row, m, seen);
    i := BatchItem<T, X>(view(m - 1).current, Locked, id);
    BatchRowOf<T, X>(view(m - 1).current, Locked, i);
  }

  /** The batch before holds the item, with the same terms and address. */
  ghost predicate ItemStays<T>(was: seq<Item<T>>, i: Item<T>) {
    exists p :: p in was && p.id == i.id && p.terms == i.terms && p.address == i.address
  }

  lemma ItemStaysMeans<T, X>(was: seq<Item<T>>, state: DexState, i: Item<T>)
    requires DistinctIds(was)
    ensures var c := Collect(Map(ItemEntry<T, X>(state), was));
            ItemStays(was, i) <==> i.id in c && c[i.id].terms == i.terms && c[i.id].address == i.address
  {
    if p :| p in was && p.id == i.id && p.terms == i.terms && p.address == i.address {
      BatchRowOf<T, X>(was, state, p);
    }
    if i.id in Collect(Map(ItemEntry<T, X>(state), was)) {
      var p := BatchItem<T, X>(was, state, i.id);
      BatchRowOf<T, X>(was, state, p);
    }
  }

  /** The batch that a stage speaks of. */
  ghost function BatchAt<T, X>(v: Phases<T, X>, s: Stage): seq<Item<T>> {
    if s == Next then v.next else v.current
  }

  lemma NoNewsInBatch<T, X>(view: View<T, X>, i: Item<T>, life: Life, d: Delivery, s: Stage)
    requires DistinctView(view) && Lives(view, i.id, life) && InBatch(s) && i in BatchAt(view(d.height), s)
    ensures NoNews(view, i.id, life, d) <==> d.withPrevious && d.height > 0 && ItemStays(BatchAt(view(d.height - 1), s), i)
  {
    var state := if s == Next then Pending else Locked;
    var now := BatchAt(view(d.height), s);
    assert Listed(now, i.id);
    BatchRowOf<T, X>(now, state, i);
    if d.HasPrevious() {
      var was := BatchAt(view(d.height - 1), s);
      ItemStaysMeans<T, X>(was, state, i);
      ListedCollects<T, X>(was, state, i.id);
    }
  }

  lemma ItemWrittenAt<T, X>(view: View<T, X>, i: Item<T>, life: Life, log: seq<Delivery>, m: nat, s: Stage)
    requires DistinctView(view) && Lives(view, i.id, life) && InBatch(s) && i in BatchAt(view(m), s)
    ensures (i.id, m) in Replay(DexFeed(view), log) <==> WrittenAt(log, m, m == 0 || !ItemStays(BatchAt(view(m - 1), s), i))
  {
    UnseenAt(view, i.id, life, log, m);
    forall d: Delivery | d.height == m
      ensures NoNews(view, i.id, life, d) <==> d.withPrevious && m > 0 && ItemStays(BatchAt(view(m - 1), s), i)
    {
      NoNewsInBatch(view, i, life, d, s);
    }
  }

  lemma ItemWrittenAs<T, X>(view: View<T, X>, i: Item<T>, life: Life, log: seq<Delivery>, m: nat, s: Stage)
    requires DistinctView(view) && Lives(view, i.id, life) && InBatch(s) && i in BatchAt(view(m), s)
    requires (i.id, m) in Replay(DexFeed(view), log)
    ensures var r := Replay(DexFeed(view), log)[(i.id, m)];
            && (s == Next ==> r == DexRow(i.committee, i.address, i.terms, Pending, None, 0))
            && (s == Current ==> r == DexRow(i.committee, i.address, i.terms, Locked, None, i.lockedHeight))
  {
    assert Listed(BatchAt(view(m), s), i.id);
    BatchRowOf<T, X>(BatchAt(view(m), s), if s == Next then Pending else Locked, i);
    RowNamesStage(view, i.id, life, log, m);
  }

  /** When a block leaves a row for an item in the next batch, and which columns it has. */
  lemma PendingRowAt<T, X>(view: View<T, X>, i: Item<T>, life: Life, log: seq<Delivery>, m: nat)
    requires DistinctView(view) && Lives(view, i.id, life) && i in view(m).next
    ensures var t, k := Replay(DexFeed(view), log), (i.id, m);
            && (k in t <==> WrittenAt(log, m, m == 0 || !ItemStays(view(m - 1).next, i)))
            && (k in t ==> t[k] == DexRow(i.committee, i.address, i.terms, Pending, None, 0))
  {
    ItemWrittenAt(view, i, life, log, m, Next);
    if (i.id, m) in Replay(DexFeed(view), log) {
      ItemWrittenAs(view, i, life, log, m, Next);
    }
  }

  /** And in the current batch. */
  lemma LockedRowAt<T, X>(view: View<T, X>, i: Item<T>, life: Life, log: seq<Delivery>, m: nat)
    requires DistinctView(view) && Lives(view, i.id, life) && i in view(m).current
    ensures var t, k := Replay(DexFeed(view), log), (i.id, m);
            && (k in t <==> WrittenAt(log, m, m == 0 || !ItemStays(view(m - 1).current, i)))
            && (k in t ==> t[k] == DexRow(i.committee, i.address, i.terms, Locked, None, i.lockedHeight))
  {
    ItemWrittenAt(view, i, life, log, m, Current);
    if (i.id, m) in Replay(DexFeed(view), log) {
      ItemWrittenAs(view, i, life, log, m, Current);
    }
  }

  lemma CompletionWrittenAs<T, X>(view: View<T, X>, i: Item<T>, life: Life, log: seq<Delivery>, m: nat)
    requires DistinctView(view) && Lives(view, i.id, life) && m > 0 && life(m) == Gone && i in view(m - 1).current
    requires (i.id, m) in Replay(DexFeed(view), log)
    ensures i.id in view(m).events
    ensures Replay(DexFeed(view), log)[(i.id, m)] ==
            DexRow(i.committee, i.address, i.terms, Complete, Some(view(m).events[i.id]), i.lockedHeight)
  {
    BatchRowOf<T, X>(view(m - 1).current, Locked, i);
    RowNamesStage(view, i.id, life, log, m);
  }

  /** The block at which an item leaves writes its completion exactly when it came with the state before it. */
  lemma CompletionRowAt<T, X>(view: View<T, X>, i: Item<T>, life: Life, log: seq<Delivery>, m: nat)
    requires DistinctView(view) && Lives(view, i.id, life) && m > 0 && life(m) == Gone && i in view(m - 1).current
    ensures var t, k := Replay(DexFeed(view), log), (i.id, m);
            && (k in t <==> Delivery(m, true) in log)
            && (k in t ==> i.id in view(m).events &&
                           t[k] == DexRow(i.committee, i.address, i.terms, Complete, Some(view(m).events[i.id]), i.lockedHeight))
  {
    assert Listed(view(m - 1).current, i.id);
    UnseenAt(view, i.id, life, log, m);
    assert forall d: Delivery :: d.height == m && d.withPrevious ==> d == Delivery(m, true);
    if (i.id, m) in Replay(DexFeed(view), log) {
      CompletionWrittenAs(view, i, life, log, m);
    }
  }

  // ================================================================ heights delivered in two ways

  /** At height h the id does one thing only: sits in the next batch, in the current one, or completes. */
  ghost predicate ExclusiveAt<T, X>(view: View<T, X>, id: string, h: nat) {
    && !(Listed(view(h).next, id) && Listed(view(h).current, id))
    && (h > 0 && Listed(view(h - 1).current, id) && id in view(h).events ==>
          !Listed(view(h).current, id) && !Listed(view(h).next, id))
  }

  ghost predicate ExclusiveView<T, X>(view: View<T, X>) {
    forall id, h: nat :: ExclusiveAt(view, id, h)
  }

  /** An id that lives a regular life does one thing at a time. */
  lemma LivesExclusively<T, X>(view: View<T, X>, id: string, life: Life, h: nat)
    requires Lives(view, id, life)
    ensures ExclusiveAt(view, id, h)
  {
    assert Listed(view(h).next, id) <==> life(h) == Next;
    assert Listed(view(h).current, id) <==> life(h) == Current;
    if h > 0 {
      assert Listed(view(h - 1).current, id) <==> life(h - 1) == Current;
    }
  }

  lemma SameHeightSameRow<T, X>(view: View<T, X>, id: string, c: Delivery, d: Delivery)
    requires DistinctView(view) && ExclusiveAt(view, id, c.height) && c.height == d.height
    requires id in Collect(DexFeed(view)(c)) && id in Collect(DexFeed(view)(d))
    ensures Collect(DexFeed(view)(c))[id] == Collect(DexFeed(view)(d))[id]
  {
    if c.HasPrevious() == d.HasPrevious() {
      assert DexFeed(view)(c) == DexFeed(view)(d);
    } else {
      var cComplete, cLocked, cPending := DeliveryParts(view, id, c);
      var dComplete, dLocked, dPending := DeliveryParts(view, id, d);
      assert id !in cComplete || id !in dComplete;
    }
  }

  lemma {:induction false} CompletionsDistinct<T, X>(items: seq<Item<T>>, events: map<string, X>)
    requires DistinctIds(items)
    ensures DistinctKeys(Completions(items, events))
    ensures forall x :: x in Completions(items, events) ==> Listed(items, x.0)
  {
    if items != [] {
      var rest, i := items[..|items| - 1], items[|items| - 1];
      CompletionsDistinct(rest, events);
      forall x | x in Completions(rest, events) ensures Listed(rest, x.0) && x.0 != i.id {
        var j :| j in rest && j.id == x.0;
      }
      assert i in items && forall j :: j in rest ==> j in items;
    }
  }

  /** Two statements of one list without repeated keys. */
  lemma PartUnique<K, V>(part: seq<(K, V)>, x: (K, V))
    requires DistinctKeys(part) && x in part
    ensures x.0 in Collect(part) && Collect(part)[x.0] == x.1
  {
    var i :| 0 <= i < |part| && part[i] == x;
    CollectDistinct(part, i);
  }

  lemma EnteringUnique<T, X>(items: seq<Item<T>>, before: seq<Item<T>>, state: DexState, x: (string, DexRow<T, X>))
    requires DistinctIds(items) && x in Entering<T, X>(items, before, state)
    ensures x.0 in Collect(Entering<T, X>(items, before, state)) && Collect(Entering<T, X>(items, before, state))[x.0] == x.1
  {
    MapDistinct(ItemEntry<T, X>(state), items);
    EmitUnique(Map(ItemEntry<T, X>(state), items), Collect(Map(ItemEntry<T, X>(state), before)), {}, SameTerms, x);
  }

  /** A statement of the last list that speaks of its key is what three lists together leave behind. */
  lemma LastPartStands<K, V>(a: seq<(K, V)>, b: seq<(K, V)>, c: seq<(K, V)>, x: (K, V))
    requires x.0 !in Collect(c) && x.0 !in Collect(b) ==> x.0 in Collect(a) && Collect(a)[x.0] == x.1
    requires x.0 !in Collect(c) && x.0 in Collect(b) ==> Collect(b)[x.0] == x.1
    requires x.0 in Collect(c) ==> Collect(c)[x.0] == x.1
    ensures x.0 in Collect(a + b + c) && Collect(a + b + c)[x.0] == x.1
  {
    CollectConcat(a + b, c);
    CollectConcat(a, b);
  }

  /** What a completion says stands, because an id that completes is in no batch. */
  lemma CompletionStands<T, X>(v: Phases<T, X>, before: seq<Item<T>>, previousNext: seq<Item<T>>, x: (string, DexRow<T, X>))
    requires DistinctIds(before) && DistinctIds(v.current) && DistinctIds(v.next) && x in Completions(before, v.events)
    requires Listed(before, x.0) && x.0 in v.events ==> !Listed(v.current, x.0) && !Listed(v.next, x.0)
    ensures var c := Collect(Statements(v.current, v.next, before, previousNext, v.events));
            x.0 in c && c[x.0] == x.1
  {
    CompletionsDistinct(before, v.events);
    PartUnique(Completions(before, v.events), x);
    CompletionsCollect(before, v.events, x.0);
    EnteringCollects<T, X>(v.current, before, Locked, x.0);
    EnteringCollects<T, X>(v.next, previousNext, Pending, x.0);
    LastPartStands(Completions(before, v.events), Entering(v.current, before, Locked), Entering(v.next, previousNext, Pending), x);
  }

  /** What the current batch says stands, because its ids are not in the next one. */
  lemma LockedStands<T, X>(v: Phases<T, X>, before: seq<Item<T>>, previousNext: seq<Item<T>>, x: (string, DexRow<T, X>))
    requires DistinctIds(v.current) && DistinctIds(v.next) && x in Entering<T, X>(v.current, before, Locked)
    requires !(Listed(v.next, x.0) && Listed(v.current, x.0))
    ensures var c := Collect(Statements(v.current, v.next, before, previousNext, v.events));
            x.0 in c && c[x.0] == x.1
  {
    EnteringUnique(v.current, before, Locked, x);
    EnteringCollects<T, X>(v.current, before, Locked, x.0);
    EnteringCollects<T, X>(v.next, previousNext, Pending, x.0);
    LastPartStands(Completions(before, v.events), Entering(v.current, before, Locked), Entering(v.next, previousNext, Pending), x);
  }

  lemma PendingStands<T, X>(v: Phases<T, X>, before: seq<Item<T>>, previousNext: seq<Item<T>>, x: (string, DexRow<T, X>))
    requires DistinctIds(v.next) && x in Entering<T, X>(v.next, previousNext, Pending)
    ensures var c := Collect(Statements(v.current, v.next, before, previousNext, v.events));
            x.0 in c && c[x.0] == x.1
  {
    EnteringUnique(v.next, previousNext, Pending, x);
    LastPartStands(Completions(before, v.events), Entering(v.current, before, Locked), Entering(v.next, previousNext, Pending), x);
  }

  /** An id that does one thing at a time is the subject of one statement a block at most. */
  lemma OneStatement<T, X>(view: View<T, X>, d: Delivery, x: (string, DexRow<T, X>))
    requires DistinctView(view) && ExclusiveAt(view, x.0, d.height) && x in DexFeed(view)(d)
    ensures x.0 in Collect(DexFeed(view)(d)) && Collect(DexFeed(view)(d))[x.0] == x.1
  {
    var v := view(d.height);
    var before, previousNext :=
      if d.HasPrevious() then view(d.height - 1).current else [], if d.HasPrevious() then view(d.height - 1).next else [];
    if x in Completions(before, v.events) {
      CompletionStands(v, before, previousNext, x);
    } else if x in Entering<T, X>(v.current, before, Locked) {
      LockedStands(v, before, previousNext, x);
    } else {
      PendingStands(v, before, previousNext, x);
    }
  }

  /** Two deliveries of one height, with and without the state before it, never write different rows for an id. */
  lemma DexFeedAgrees<T, X>(view: View<T, X>, log: seq<Delivery>)
    requires DistinctView(view) && ExclusiveView(view)
    ensures Agree(DexFeed(view), log)
  {
    forall c, d, id | c in log && d in log && c.height == d.height && id in Collect(DexFeed(view)(c)) && id in Collect(DexFeed(view)(d))
      ensures Collect(DexFeed(view)(c))[id] == Collect(DexFeed(view)(d))[id]
    {
      assert ExclusiveAt(view, id, c.height);
      SameHeightSameRow(view, id, c, d);
    }
  }

  /** One item that is pending at 1, locked at 2, and gone with its event at 3. */
  ghost function ShortView<T, X>(item: Item<T>, outcome: X): View<T, X> {
    (h: nat) =>
      if h == 1 then Phases([], [item], map[])
      else if h == 2 then Phases([item], [], map[])
      else if h == 3 then Phases([], [], map[item.id := outcome])
      else Phases([], [], map[])
  }

  function ShortLife(): Life {
    (h: nat) => if h == 0 then Absent else if h == 1 then Next else if h == 2 then Current else Gone
  }

  ghost predicate IsShort<T, X>(v: Phases<T, X>, id: string, h: nat) {
    && DistinctIds(v.current) && DistinctIds(v.next)
    && (Listed(v.next, id) <==> h == 1) && (Listed(v.current, id) <==> h == 2) && (id in v.events <==> h == 3)
  }

  lemma ShortViewIsShort<T, X>(item: Item<T>, outcome: X, h: nat)
    ensures IsShort(ShortView(item, outcome)(h), item.id, h)
  {
    assert item in [item];
  }

  lemma ShortLives<T, X>(view: View<T, X>, id: string)
    requires forall h: nat :: IsShort(view(h), id, h)
    ensures DistinctView(view) && Lives(view, id, ShortLife())
  {
  }

  lemma ShortLifeLives<T, X>(item: Item<T>, outcome: X)
    ensures DistinctView(ShortView(item, outcome)) && Lives(ShortView(item, outcome), item.id, ShortLife())
  {
    forall h: nat ensures IsShort(ShortView(item, outcome)(h), item.id, h) {
      ShortViewIsShort(item, outcome, h);
    }
    ShortLives(ShortView(item, outcome), item.id);
  }

  /** An id that completes at a height delivered without the state before it stays locked. */
  lemma LostCompletion<T, X>(item: Item<T>, outcome: X) returns (log: seq<Delivery>)
    ensures IndexedThrough(log, 3) && ShortLife()(3) == Gone
    ensures var row := AsOf(Replay(DexFeed(ShortView(item, outcome)), log), item.id, 3);
            row.Some? && row.value.state == Locked
  {
    log := [Delivery(1, true), Delivery(2, true), Delivery(3, false)];
    assert log[0] in log && log[1] in log && log[2] in log;
    var view, life := ShortView(item, outcome), ShortLife();
    ShortLifeLives(item, outcome);
    assert !CompletionSeen(life, log, 3);
    LifecycleAsOf(view, item.id, life, log, 3);
  }

  // ================================================================ orders, deposits and withdrawals

  datatype OrderTerms = OrderTerms(amountForSale: U64, requestedAmount: U64)

  datatype SwapOutcome = SwapOutcome(success: bool, soldAmount: U64, boughtAmount: U64, localOrigin: bool)

  datatype DepositOutcome = DepositOutcome(localOrigin: bool, pointsReceived: U64)

  datatype WithdrawalOutcome = WithdrawalOutcome(localAmount: U64, remoteAmount: U64, pointsBurned: U64)

  function OrderItem(b: DexBatch): LimitOrder -> Item<OrderTerms> {
    (o: LimitOrder) => Item(Hex(o.orderId), Hex(o.address), OrderTerms(o.amountForSale, o.requestedAmount),
                            b.committee % 0x1_0000, b.lockedHeight)
  }

  function DepositItem(b: DexBatch): Deposit -> Item<U64> {
    (o: Deposit) => Item(Hex(o.orderId), Hex(o.address), o.amount, b.committee % 0x1_0000, b.lockedHeight)
  }

  function WithdrawalItem(b: DexBatch): Withdrawal -> Item<U64> {
    (o: Withdrawal) => Item(Hex(o.orderId), Hex(o.address), o.percent, b.committee % 0x1_0000, b.lockedHeight)
  }

  function OrdersIn(b: DexBatch): seq<LimitOrder> { b.orders }

  function DepositsIn(b: DexBatch): seq<Deposit> { b.deposits }

  function WithdrawalsIn(b: DexBatch): seq<Withdrawal> { b.withdrawals }

  /** The items of one kind in a list of batches, in order. */
  function ItemsOf<A, T>(batches: seq<DexBatch>, list: DexBatch -> seq<A>, item: DexBatch -> (A -> Item<T>)): seq<Item<T>> {
    if batches == [] then [] else Map(item(batches[0]), list(batches[0])) + ItemsOf(batches[1..], list, item)
  }

  function OrdersOf(batches: seq<DexBatch>): seq<Item<OrderTerms>> { ItemsOf(batches, OrdersIn, OrderItem) }

  function DepositsOf(batches: seq<DexBatch>): seq<Item<U64>> { ItemsOf(batches, DepositsIn, DepositItem) }

  function WithdrawalsOf(batches: seq<DexBatch>): seq<Item<U64>> { ItemsOf(batches, WithdrawalsIn, WithdrawalItem) }

  /** Every member of every batch is an item, and nothing else is. */
  lemma {:induction false} ItemOf<A, T>(batches: seq<DexBatch>, list: DexBatch -> seq<A>, item: DexBatch -> (A -> Item<T>), b: DexBatch, a: A)
    requires b in batches && a in list(b)
    ensures item(b)(a) in ItemsOf(batches, list, item)
  {
    if a in list(batches[0]) && b == batches[0] {
      var i :| 0 <= i < |list(b)| && list(b)[i] == a;
      assert Map(item(b), list(b))[i] == item(b)(a);
    } else {
      ItemOf(batches[1..], list, item, b, a);
    }
  }

  lemma {:induction false} ItemFrom<A, T>(batches: seq<DexBatch>, list: DexBatch -> seq<A>, item: DexBatch -> (A -> Item<T>), i: Item<T>)
    returns (b: DexBatch, a: A)
    requires i in ItemsOf(batches, list, item)
    ensures b in batches && a in list(b) && i == item(b)(a)
  {
    var own := Map(item(batches[0]), list(batches[0]));
    if i in own {
      b := batches[0];
      var j :| 0 <= j < |own| && own[j] == i;
      a := list(b)[j];
    } else {
      b, a := ItemFrom(batches[1..], list, item, i);
    }
  }

  // What an event of each kind says of an order id: nothing when it is malformed or has no id.

  function ReadSwap(e: Event): Option<(string, SwapOutcome)> {
    if e.eventType == DexSwap && e.msg.SwapMessage? && Hex(e.msg.orderId) != ""
    then Some((Hex(e.msg.orderId), SwapOutcome(e.msg.success, e.msg.soldAmount, e.msg.boughtAmount, e.msg.localOrigin)))
    else None
  }

  function ReadDeposit(e: Event): Option<(string, DepositOutcome)> {
    if e.eventType == DexDeposit && e.msg.DepositMessage? && Hex(e.msg.orderId) != ""
    then Some((Hex(e.msg.orderId), DepositOutcome(e.msg.localOrigin, e.msg.points)))
    else None
  }

  function ReadWithdrawal(e: Event): Option<(string, WithdrawalOutcome)> {
    if e.eventType == DexWithdraw && e.msg.WithdrawMessage? && Hex(e.msg.orderId) != ""
    then Some((Hex(e.msg.orderId), WithdrawalOutcome(e.msg.localAmount, e.msg.remoteAmount, e.msg.pointsBurned)))
    else None
  }

  /** The events of one kind by order id. */
  function EventMap<X>(read: Event -> Option<(string, X)>, events: seq<Event>): map<string, X> {
    if events == [] then map[]
    else
      var rest := EventMap(read, events[..|events| - 1]);
      match read(events[|events| - 1]) case None => rest case Some(x) => rest[x.0 := x.1]
  }

  /** The i-th event is the last one that says something of the id, and says x. */
  ghost predicate IsLastEvent<X>(read: Event -> Option<(string, X)>, events: seq<Event>, id: string, x: X, i: nat) {
    && i < |events| && read(events[i]) == Some((id, x))
    && forall j :: i < j < |events| ==> read(events[j]).None? || read(events[j]).value.0 != id
  }

  /** The map holds x for an id exactly when the last event that speaks of the id says x. */
  lemma {:induction false} LastEventWins<X>(read: Event -> Option<(string, X)>, events: seq<Event>, id: string, x: X)
    ensures id in EventMap(read, events) && EventMap(read, events)[id] == x <==> exists i: nat :: IsLastEvent(read, events, id, x, i)
  {
    if events != [] {
      var n := |events| - 1;
      var rest := events[..n];
      LastEventWins(read, rest, id, x);
      if read(events[n]).Some? && read(events[n]).value.0 == id {
        assert read(events[n]).value.1 == x ==> IsLastEvent(read, events, id, x, n);
      } else {
        if i: nat :| IsLastEvent(read, rest, id, x, i) {
          assert IsLastEvent(read, events, id, x, i);
        }
        if i: nat :| IsLastEvent(read, events, id, x, i) {
          assert i < n && events[i] == rest[i];
          assert IsLastEvent(read, rest, id, x, i);
        }
      }
    }
  }

  function SwapEvents(events: seq<Event>): map<string, SwapOutcome> { EventMap(ReadSwap, events) }

  function DepositEvents(events: seq<Event>): map<string, DepositOutcome> { EventMap(ReadDeposit, events) }

  function WithdrawalEvents(events: seq<Event>): map<string, WithdrawalOutcome> { EventMap(ReadWithdrawal, events) }

  method ParseDexEvents(events: seq<Event>)
    returns (swaps: map<string, SwapOutcome>, deposits: map<string, DepositOutcome>, withdrawals: map<string, WithdrawalOutcome>)
    ensures swaps == SwapEvents(events) && deposits == DepositEvents(events) && withdrawals == WithdrawalEvents(events)
  {
    swaps, deposits, withdrawals := map[], map[], map[];
    for i := 0 to |events|
      invariant swaps == SwapEvents(events[..i])
      invariant deposits == DepositEvents(events[..i])
      invariant withdrawals == WithdrawalEvents(events[..i])
    {
      var e := events[i];
      assert events[..i + 1][..i] == events[..i];
      match (e.eventType, e.msg)
      case (DexSwap, SwapMessage(orderId, sold, bought, local, success)) =>
        if Hex(orderId) != "" {
          swaps := swaps[Hex(orderId) := SwapOutcome(success, sold, bought, local)];
        }
      case (DexDeposit, DepositMessage(orderId, local, points)) =>
        if Hex(orderId) != "" {
          deposits := deposits[Hex(orderId) := DepositOutcome(local, points)];
        }
      case (DexWithdraw, WithdrawMessage(orderId, local, remote, burned)) =>
        if Hex(orderId) != "" {
          withdrawals := withdrawals[Hex(orderId) := WithdrawalOutcome(local, remote, burned)];
        }
      case _ =>
    }
    assert events[..|events|] == events;
  }

  ghost function OrderView(chain: Chain): View<OrderTerms, SwapOutcome> {
    (h: nat) => Phases(OrdersOf(chain(h).dexBatches), OrdersOf(chain(h).nextDexBatches), SwapEvents(chain(h).events))
  }

  ghost function DepositView(chain: Chain): View<U64, DepositOutcome> {
    (h: nat) => Phases(DepositsOf(chain(h).dexBatches), DepositsOf(chain(h).nextDexBatches), DepositEvents(chain(h).events))
  }

  ghost function WithdrawalView(chain: Chain): View<U64, WithdrawalOutcome> {
    (h: nat) => Phases(WithdrawalsOf(chain(h).dexBatches), WithdrawalsOf(chain(h).nextDexBatches), WithdrawalEvents(chain(h).events))
  }

  method ConvertDexOrders(data: BlockData) returns (results: seq<(string, DexRow<OrderTerms, SwapOutcome>)>)
    ensures forall chain: Chain, d: Delivery :: data == Delivered(chain, d) ==> results == DexFeed(OrderView(chain))(d)
  {
    var swaps, _, _ := ParseDexEvents(data.current.events);
    results := ConvertWithStateMachine(OrdersOf(data.current.dexBatches), OrdersOf(data.current.nextDexBatches),
                                       OrdersOf(data.previous.dexBatches), OrdersOf(data.previous.nextDexBatches), swaps);
  }

  method ConvertDexDeposits(data: BlockData) returns (results: seq<(string, DexRow<U64, DepositOutcome>)>)
    ensures forall chain: Chain, d: Delivery :: data == Delivered(chain, d) ==> results == DexFeed(DepositView(chain))(d)
  {
    var _, deposits, _ := ParseDexEvents(data.current.events);
    results := ConvertWithStateMachine(DepositsOf(data.current.dexBatches), DepositsOf(data.current.nextDexBatches),
                                       DepositsOf(data.previous.dexBatches), DepositsOf(data.previous.nextDexBatches), deposits);
  }

  method ConvertDexWithdrawals(data: BlockData) returns (results: seq<(string, DexRow<U64, WithdrawalOutcome>)>)
    ensures forall chain: Chain, d: Delivery :: data == Delivered(chain, d) ==> results == DexFeed(WithdrawalView(chain))(d)
  {
    var _, _, withdrawals := ParseDexEvents(data.current.events);
    results := ConvertWithStateMachine(WithdrawalsOf(data.current.dexBatches), WithdrawalsOf(data.current.nextDexBatches),
                                       WithdrawalsOf(data.previous.dexBatches), WithdrawalsOf(data.previous.nextDexBatches), withdrawals);
  }
}
