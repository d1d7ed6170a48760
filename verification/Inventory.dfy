/** The items of a shop, the history of their states, and the operations that edit them. */
module Inventory {
  import opened Prelude
  import opened Pricing
  import opened ItemContracts
  import Text

  datatype Status = InStock | Sold | Reserved | Archived

  /** A row of the items table. Its archive time is set exactly when its status becomes archived. */
  datatype Item = Item(facts: Facts, barcode: string, name: string, notes: Option<string>, status: Status)

  datatype Change = Created | Updated | SoldAt | ArchivedAt

  /** A row of the history table. */
  datatype Entry = Entry(item: nat, event: Change, facts: Facts, status: Status, at: int)

  /** Items are numbered in the order they were added and never removed. */
  datatype Shelf = Shelf(items: seq<Item>, history: seq<Entry>, now: int)

  /** The settings an operation reads: the shop's state, its plan, its invoice series and metal rates. */
  datatype Env = Env(
    open: bool, writable: bool, itemLimit: Option<nat>, hosted: bool, prefix: string, year: nat, rates: map<string, nat>)

  datatype Refusal =
    | Invalid | NotFound | NotInStock | TypeFixed | ModeFixed | BadWeight | LimitReached | BarcodeTaken
    | MixedDemand | NeedsWeight | TooLittleWeight | SoldByUnits | TooFewUnits
    | ShopClosed | NoMetalRate | TotalRequired | PricingChanged | KeyReused

  function DataOf(item: Item): Data {
    Data(item.facts, Some(item.barcode), item.name, item.notes)
  }

  // ---- what holds of every row ----

  predicate RowOk(item: Item) {
    && Contracts(item.facts)
    && (item.status != Archived ==> Storable(DataOf(item)))
    && (item.status == Archived ==> item.facts.quantity == 0)
  }

  predicate RowsOk(items: seq<Item>) {
    forall i :: 0 <= i < |items| ==> RowOk(items[i])
  }

  predicate BarcodesDiffer(items: seq<Item>) {
    forall i, j :: 0 <= i < j < |items| ==> items[i].barcode != items[j].barcode
  }

  predicate HasBarcode(items: seq<Item>, barcode: string) {
    exists i :: 0 <= i < |items| && items[i].barcode == barcode
  }

  // ---- history ----

  /** The state of an item on record at a time: its last entry not after that time. */
  function Latest(history: seq<Entry>, i: nat, t: int): Option<Entry> {
    if history == [] then None
    else
      var last := history[|history| - 1];
      if last.item == i && last.at <= t then Some(last) else Latest(history[..|history| - 1], i, t)
  }

  /** Entries are in order of time, strictly so for one item, and concern known items. */
  predicate HistoryOrdered(history: seq<Entry>) {
    forall j, k :: 0 <= j < k < |history| ==>
      history[j].at <= history[k].at && (history[j].item == history[k].item ==> history[j].at < history[k].at)
  }

  predicate HistoryWithin(history: seq<Entry>, items: nat, now: int) {
    forall k :: 0 <= k < |history| ==> history[k].item < items && history[k].at <= now
  }

  predicate Recorded(item: Item, entry: Option<Entry>) {
    entry.Some? && entry.value.facts == item.facts && entry.value.status == item.status
  }

  /** The history shows the present state of every item. */
  predicate HistoryCurrent(s: Shelf) {
    forall i :: 0 <= i < |s.items| ==> Recorded(s.items[i], Latest(s.history, i, s.now))
  }

  predicate HistoryOk(s: Shelf) {
    HistoryOrdered(s.history) && HistoryWithin(s.history, |s.items|, s.now) && HistoryCurrent(s)
  }

  predicate ShelfOk(s: Shelf) {
    RowsOk(s.items) && BarcodesDiffer(s.items) && HistoryOk(s)
  }

  function Snapshot(items: seq<Item>, i: nat, event: Change, at: int): Entry
    requires i < |items|
  {
    Entry(i, event, items[i].facts, items[i].status, at)
  }

  predicate AllBelow(ids: seq<nat>, n: nat) {
    forall k :: 0 <= k < |ids| ==> ids[k] < n
  }

  function Snapshots(items: seq<Item>, ids: seq<nat>, event: Change, at: int): (entries: seq<Entry>)
    requires AllBelow(ids, |items|)
    ensures |entries| == |ids|
    ensures forall k :: 0 <= k < |ids| ==> entries[k] == Snapshot(items, ids[k], event, at)
  {
    if ids == [] then [] else Snapshots(items, ids[..|ids| - 1], event, at) + [Snapshot(items, ids[|ids| - 1], event, at)]
  }

  /** Every operation replaces some rows and records each of them once. */
  function Commit(s: Shelf, items: seq<Item>, ids: seq<nat>, event: Change, at: int): Shelf
    requires AllBelow(ids, |items|)
  {
    Shelf(items, s.history + Snapshots(items, ids, event, at), at)
  }

  /** Rows outside ids are as before, and new rows are among ids. */
  predicate ChangesOnly(before: seq<Item>, after: seq<Item>, ids: seq<nat>) {
    && |before| <= |after|
    && forall i :: 0 <= i < |after| && i !in ids ==> i < |before| && after[i] == before[i]
  }

  /** An entry past the time asked about, or of another item, does not matter. */
  lemma {:induction false} LatestIgnores(history: seq<Entry>, batch: seq<Entry>, i: nat, t: int)
    requires forall k :: 0 <= k < |batch| ==> batch[k].item != i || batch[k].at > t
    ensures Latest(history + batch, i, t) == Latest(history, i, t)
  {
    if batch == [] {
      assert history + batch == history;
    } else {
      assert (history + batch)[..|history + batch| - 1] == history + batch[..|batch| - 1];
      LatestIgnores(history, batch[..|batch| - 1], i, t);
    }
  }

  lemma {:induction false} LatestFinds(history: seq<Entry>, k: nat, i: nat, t: int)
    requires k < |history| && history[k].item == i && history[k].at <= t
    requires forall j :: k < j < |history| ==> history[j].item != i
    ensures Latest(history, i, t) == Some(history[k])
  {
    if k < |history| - 1 { LatestFinds(history[..|history| - 1], k, i, t); }
  }

  /** Among the entries of the item up to t, the latest one has the greatest time. */
  lemma {:induction false} LatestIsGreatest(history: seq<Entry>, i: nat, t: int)
    requires HistoryOrdered(history)
    ensures Latest(history, i, t).None? <==> forall k :: 0 <= k < |history| ==> !(history[k].item == i && history[k].at <= t)
    ensures Latest(history, i, t).Some? ==>
              var e := Latest(history, i, t).value;
              && e in history && e.item == i && e.at <= t
              && forall k :: 0 <= k < |history| && history[k].item == i && history[k].at <= t && history[k] != e ==> history[k].at < e.at
  {
    if history != [] {
      var prefix := history[..|history| - 1];
      LatestIsGreatest(prefix, i, t);
      assert forall k :: 0 <= k < |prefix| ==> prefix[k] == history[k];
    }
  }

  lemma CommitKeepsCurrent(s: Shelf, items: seq<Item>, ids: seq<nat>, event: Change, at: int)
    requires HistoryOk(s) && ChangesOnly(s.items, items, ids) && AllBelow(ids, |items|) && Distinct(ids) && s.now < at
    ensures HistoryCurrent(Commit(s, items, ids, event, at))
  {
    var batch := Snapshots(items, ids, event, at);
    forall i | 0 <= i < |items| ensures Recorded(items[i], Latest(s.history + batch, i, at)) {
      if i in ids {
        var k :| 0 <= k < |ids| && ids[k] == i;
        LatestFinds(s.history + batch, |s.history| + k, i, at);
      } else {
        LatestIgnores(s.history, batch, i, at);
        SameUntil(s.history, i, s.now, at);
      }
    }
  }

  lemma {:induction false} SameUntil(history: seq<Entry>, i: nat, now: int, t: int)
    requires now <= t && forall k :: 0 <= k < |history| ==> history[k].at <= now
    ensures Latest(history, i, t) == Latest(history, i, now)
  {
    if history != [] { SameUntil(history[..|history| - 1], i, now, t); }
  }

  lemma CommitKeepsOrder(s: Shelf, items: seq<Item>, ids: seq<nat>, event: Change, at: int)
    requires HistoryOk(s) && |s.items| <= |items| && AllBelow(ids, |items|) && Distinct(ids) && s.now < at
    ensures HistoryOrdered(Commit(s, items, ids, event, at).history)
    ensures HistoryWithin(Commit(s, items, ids, event, at).history, |items|, at)
  {
    var batch := Snapshots(items, ids, event, at);
    forall j, k | 0 <= j < k < |s.history + batch|
      ensures (s.history + batch)[j].at <= (s.history + batch)[k].at
      ensures (s.history + batch)[j].item == (s.history + batch)[k].item ==> (s.history + batch)[j].at < (s.history + batch)[k].at
    {
      if k >= |s.history| && j >= |s.history| {
        assert batch[j - |s.history|].item == ids[j - |s.history|] && batch[k - |s.history|].item == ids[k - |s.history|];
      }
    }
  }

  lemma CommitKeepsHistory(s: Shelf, items: seq<Item>, ids: seq<nat>, event: Change, at: int)
    requires HistoryOk(s) && ChangesOnly(s.items, items, ids) && AllBelow(ids, |items|) && Distinct(ids) && s.now < at
    ensures HistoryOk(Commit(s, items, ids, event, at))
  {
    CommitKeepsCurrent(s, items, ids, event, at);
    CommitKeepsOrder(s, items, ids, event, at);
  }

  // ---- the cap on active items ----

  predicate IsActive(item: Item) {
    item.status in {InStock, Reserved} && item.facts.quantity > 0
  }

  function ActiveCount(items: seq<Item>): nat {
    if items == [] then 0 else ActiveCount(items[..|items| - 1]) + (if IsActive(items[|items| - 1]) then 1 else 0)
  }

  /** enforce_item_activation_capacity */
  predicate CapacityAllows(env: Env, items: seq<Item>, extra: int) {
    extra <= 0 || (env.open && env.writable && (env.itemLimit.None? || ActiveCount(items) + extra <= env.itemLimit.value))
  }

  lemma {:induction false} ActiveAppended(items: seq<Item>, added: seq<Item>)
    ensures ActiveCount(items) <= ActiveCount(items + added) <= ActiveCount(items) + |added|
  {
    if added == [] {
      assert items + added == items;
    } else {
      assert (items + added)[..|items + added| - 1] == items + added[..|added| - 1];
      ActiveAppended(items, added[..|added| - 1]);
    }
  }

  lemma {:induction false} ActiveUpdated(items: seq<Item>, i: nat, item: Item)
    requires i < |items|
    ensures ActiveCount(items[i := item])
         == ActiveCount(items) - (if IsActive(items[i]) then 1 else 0) + (if IsActive(item) then 1 else 0)
  {
    var last := |items| - 1;
    if i == last {
      assert items[i := item][..last] == items[..last];
    } else {
      assert items[i := item][..last] == items[..last][i := item];
      ActiveUpdated(items[..last], i, item);
    }
  }

  /** If no row becomes active the count does not grow. */
  lemma {:induction false} ActiveShrinks(before: seq<Item>, after: seq<Item>)
    requires |before| == |after| && forall i :: 0 <= i < |after| && IsActive(after[i]) ==> IsActive(before[i])
    ensures ActiveCount(after) <= ActiveCount(before)
  {
    if after != [] {
      var last := |after| - 1;
      assert forall i :: 0 <= i < last ==> before[..last][i] == before[i] && after[..last][i] == after[i];
      ActiveShrinks(before[..last], after[..last]);
    }
  }

  predicate StaysCapped(before: seq<Item>, after: seq<Item>, limit: Option<nat>) {
    limit.Some? ==> ActiveCount(after) <= ActiveCount(before) || ActiveCount(after) <= limit.value
  }

  // ---- creating ----

  function NewItem(d: Data, barcode: string): Item {
    Item(d.facts, barcode, d.name, d.notes, InStock)
  }

  predicate WantsBarcode(d: Data) { d.barcode.None? || d.barcode.value == "" }

  /** A drawn barcode is eight digits that no item of the shop has. */
  predicate IsFreshDraw(items: seq<Item>, draw: string) {
    |draw| == 8 && Text.AllDigits(draw) && !HasBarcode(items, draw)
  }

  /** create_item; draw is where the barcode generator stopped, and no fresh draw if it gave up. */
  function Create(s: Shelf, env: Env, p: Payload, draw: string, at: int): Result<Shelf, Refusal> {
    var accepted := AcceptedNew(p);
    if accepted.Err? then Err(Invalid)
    else
      var d := accepted.value;
      if d.facts.quantity > 0 && !CapacityAllows(env, s.items, 1) then Err(LimitReached)
      else if (if WantsBarcode(d) then !IsFreshDraw(s.items, draw) else HasBarcode(s.items, d.barcode.value)) then Err(BarcodeTaken)
      else Ok(Stock(s, [NewItem(d, if WantsBarcode(d) then draw else d.barcode.value)], at))
  }

  function Range(from: nat, count: nat): (ids: seq<nat>)
    ensures |ids| == count && forall k :: 0 <= k < count ==> ids[k] == from + k
    ensures forall i :: from <= i < from + count ==> i in ids
  {
    if count == 0 then [] else Range(from, count - 1) + [from + count - 1]
  }

  function Stock(s: Shelf, added: seq<Item>, at: int): Shelf {
    Commit(s, s.items + added, Range(|s.items|, |added|), Created, at)
  }

  lemma NewRowOk(d: Data, barcode: string)
    requires Storable(d) && |barcode| <= 100
    ensures RowOk(NewItem(d, barcode))
  {
  }

  /** Rows can be added when their barcodes are new and different. */
  predicate Fresh(items: seq<Item>, added: seq<Item>) {
    && RowsOk(added) && BarcodesDiffer(added)
    && forall k :: 0 <= k < |added| ==> !HasBarcode(items, added[k].barcode)
  }

  lemma FreshRowsFit(items: seq<Item>, added: seq<Item>)
    requires RowsOk(items) && BarcodesDiffer(items) && Fresh(items, added)
    ensures RowsOk(items + added) && BarcodesDiffer(items + added)
  {
    forall i, j | 0 <= i < j < |items + added| ensures (items + added)[i].barcode != (items + added)[j].barcode {
      if i < |items| <= j { assert !HasBarcode(items, added[j - |items|].barcode); }
    }
  }

  lemma StockIsSound(s: Shelf, added: seq<Item>, at: int)
    requires ShelfOk(s) && s.now < at && Fresh(s.items, added)
    ensures ShelfOk(Stock(s, added, at))
  {
    FreshRowsFit(s.items, added);
    CommitKeepsHistory(s, s.items + added, Range(|s.items|, |added|), Created, at);
  }

  lemma CapacityCaps(env: Env, items: seq<Item>, added: seq<Item>)
    requires CapacityAllows(env, items, |added|)
    ensures StaysCapped(items, items + added, env.itemLimit)
  {
    ActiveAppended(items, added);
  }

  lemma InactiveAddsNothing(items: seq<Item>, item: Item)
    requires !IsActive(item)
    ensures ActiveCount(items + [item]) == ActiveCount(items)
  {
    assert (items + [item])[..|items|] == items;
  }

  lemma CreateEffect(s: Shelf, env: Env, p: Payload, draw: string, at: int)
    requires Create(s, env, p, draw, at).Ok?
    ensures AcceptedNew(p).Ok? && Storable(AcceptedNew(p).value)
    ensures var d := AcceptedNew(p).value;
      var barcode := if WantsBarcode(d) then draw else d.barcode.value;
      && Create(s, env, p, draw, at) == Ok(Stock(s, [NewItem(d, barcode)], at))
      && |barcode| <= 100 && !HasBarcode(s.items, barcode)
      && (d.facts.quantity > 0 ==> CapacityAllows(env, s.items, 1))
  {
    AcceptedIsStorable(p);
  }

  lemma CreateIsSound(s: Shelf, env: Env, p: Payload, draw: string, at: int)
    requires ShelfOk(s) && s.now < at && Create(s, env, p, draw, at).Ok?
    ensures ShelfOk(Create(s, env, p, draw, at).value)
    ensures StaysCapped(s.items, Create(s, env, p, draw, at).value.items, env.itemLimit)
  {
    CreateEffect(s, env, p, draw, at);
    var d := AcceptedNew(p).value;
    var item := NewItem(d, if WantsBarcode(d) then draw else d.barcode.value);
    NewRowOk(d, item.barcode);
    StockIsSound(s, [item], at);
    if d.facts.quantity > 0 { CapacityCaps(env, s.items, [item]); } else { InactiveAddsNothing(s.items, item); }
  }

  /** What the shop's state and plan must allow before another item becomes active. */
  predicate RoomForOne(env: Env, items: seq<Item>) {
    env.open && env.writable && (env.itemLimit.None? || ActiveCount(items) < env.itemLimit.value)
  }

  /** The barcode a new item will have: its own, or eight drawn digits; None when it is taken. */
  function FreeBarcode(items: seq<Item>, d: Data, draw: string): Option<string> {
    if d.barcode.Some? && d.barcode.value != "" then
      if HasBarcode(items, d.barcode.value) then None else Some(d.barcode.value)
    else if |draw| == 8 && Text.AllDigits(draw) && !HasBarcode(items, draw) then Some(draw) else None
  }

  lemma StockOfOne(s: Shelf, item: Item, at: int)
    ensures Stock(s, [item], at) == Shelf(s.items + [item], s.history + [Entry(|s.items|, Created, item.facts, item.status, at)], at)
  {
    var ids := Range(|s.items|, 1);
    assert ids == [|s.items|];
    assert Snapshots(s.items + [item], ids, Created, at) == [Snapshot(s.items + [item], |s.items|, Created, at)];
  }

  lemma CreateWhen(s: Shelf, env: Env, p: Payload, d: Data, draw: string, at: int)
    requires AcceptedNew(p) == Ok(d)
    ensures var barcode := FreeBarcode(s.items, d, draw);
      && (Create(s, env, p, draw, at).Ok? <==> (d.facts.quantity > 0 ==> RoomForOne(env, s.items)) && barcode.Some?)
      && (Create(s, env, p, draw, at).Ok? ==> Create(s, env, p, draw, at) == Ok(Stock(s, [NewItem(d, barcode.value)], at)))
  {
  }

  /**
   * A payload becomes an item exactly when it describes a storable one that is new and whole, there is room for it if it
   * has any stock, and its barcode is free; the item is in stock and is what the payload describes.
   */
  lemma CreateExactly(s: Shelf, env: Env, p: Payload, draw: string, at: int)
    ensures Create(s, env, p, draw, at).Ok? <==>
      && AcceptedNew(p).Ok? && (Described(p).facts.quantity > 0 ==> RoomForOne(env, s.items))
      && FreeBarcode(s.items, Described(p), draw).Some?
    ensures Create(s, env, p, draw, at).Ok? ==>
      var d, after := Described(p), Create(s, env, p, draw, at).value;
      && FreeBarcode(s.items, d, draw).Some? && after.now == at
      && after.items == s.items + [Item(d.facts, FreeBarcode(s.items, d, draw).value, d.name, d.notes, InStock)]
      && after.history == s.history + [Entry(|s.items|, Created, d.facts, InStock, at)]
  {
    if AcceptedNew(p).Ok? {
      AcceptedNewExactly(p);
      CreateWhen(s, env, p, Described(p), draw, at);
      if Create(s, env, p, draw, at).Ok? {
        StockOfOne(s, NewItem(Described(p), FreeBarcode(s.items, Described(p), draw).value), at);
      }
    }
  }

  /** A new weighed item has all of its weight. */
  lemma CreatedIsWhole(s: Shelf, env: Env, p: Payload, draw: string, at: int)
    requires Create(s, env, p, draw, at).Ok?
    ensures var after := Create(s, env, p, draw, at).value.items;
      && |after| == |s.items| + 1 && after[..|s.items|] == s.items
      && var f := after[|s.items|].facts;
      && (f.stockMode == ByWeight ==> f.stockWeight == Some(f.netWeight))
      && (f.itemType == Jewellery ==> !p.metal.Absent? && !p.purity.Absent?)
  {
    AcceptedNewExactly(p);
    CreateExactly(s, env, p, draw, at);
    AcceptedExactly(p);
  }

  // ---- editing ----

  /** reconcile_remaining_weight */
  function Reconciled(currentTotal: int, currentRemaining: int, newTotal: int): Option<int> {
    var consumed := currentTotal - currentRemaining;
    if newTotal <= 0 || newTotal < consumed then None else Some(newTotal - consumed)
  }

  /** The reconciled remainder is never negative and keeps what was consumed. */
  lemma ReconciledKeepsConsumption(total: int, remaining: int, newTotal: int)
    ensures Reconciled(total, remaining, newTotal).Some? <==> newTotal > 0 && newTotal >= total - remaining
    ensures Reconciled(total, remaining, newTotal).Some? ==>
              var left := Reconciled(total, remaining, newTotal).value;
              left >= 0 && newTotal - left == total - remaining && (remaining <= total ==> left <= newTotal)
  {
  }

  function Weighed(f: Facts): int { if f.stockWeight.Some? then f.stockWeight.value else 0 }

  predicate Targets(f: Facts, r: Payload, mode: StockMode) {
    if r.stockMode.Absent? then f.stockMode == mode else r.stockMode == Given(StockName(mode))
  }

  function Truthy(f: Field<int>, otherwise: int): int { if f.Given? && f.value != 0 then f.value else otherwise }

  /** The weights an edit of a weighed item will store; None when they are refused. */
  function Reweighed(f: Facts, r: Payload): Option<(int, int)> {
    if f.stockMode == ByWeight then
      if !r.stockWeight.Absent? && r.netWeight.Absent? && r.stockWeight != Given(Weighed(f)) then None
      else if r.netWeight.Null? then None
      else
        var total := if r.netWeight.Given? then r.netWeight.value else f.netWeight;
        var left := Reconciled(f.netWeight, Weighed(f), total);
        if left.None? then None else Some((total, left.value))
    else
      var total := Truthy(r.netWeight, Truthy(r.stockWeight, 0));
      var left := Reconciled(0, 0, total);
      if left.None? then None else Some((total, left.value))
  }

  function WithWeights(r: Payload, weights: (int, int)): Payload {
    r.(netWeight := Given(weights.0), stockWeight := Given(weights.1), quantity := Given(if weights.1 > 0 then 1 else 0))
  }

  function Request(f: Facts, r: Payload): Option<Payload> {
    if !Targets(f, r, ByWeight) then Some(r)
    else var weights := Reweighed(f, r); if weights.None? then None else Some(WithWeights(r, weights.value))
  }

  predicate Activates(f: Facts, r: Payload) {
    f.quantity <= 0 && r.quantity.Given? && r.quantity.value > 0
  }

  /** The row after an edit: an emptied weighed item is sold. */
  function Revised(item: Item, w: Data): Item
    requires w.barcode.Some?
  {
    Item(w.facts, w.barcode.value, w.name, w.notes,
         if w.facts.stockMode == ByWeight && w.facts.stockWeight == Some(0) then Sold else item.status)
  }

  predicate OthersHave(items: seq<Item>, i: nat, barcode: string) {
    exists j :: 0 <= j < |items| && j != i && items[j].barcode == barcode
  }

  /** The checks of an edit before the merged item is validated. */
  function EditRefusal(items: seq<Item>, env: Env, hasSale: bool, i: nat, requested: Payload): (refusal: Option<Refusal>)
    requires i < |items|
    ensures refusal.None? ==> Request(items[i].facts, requested).Some?
  {
    var item := items[i];
    if item.status != InStock then Some(NotInStock)
    else if !requested.itemType.Absent? && requested.itemType != Given(TypeName(item.facts.itemType)) then Some(TypeFixed)
    else if !requested.stockMode.Absent? && requested.stockMode != Given(StockName(item.facts.stockMode)) && hasSale then Some(ModeFixed)
    else
      var request := Request(item.facts, requested);
      if request.None? then Some(BadWeight)
      else if Activates(item.facts, request.value) && !CapacityAllows(env, items, 1) then Some(LimitReached) else None
  }

  /** The stored item with the request merged in, validated and written. */
  function EditMerged(items: seq<Item>, i: nat, r: Payload): Result<Item, Refusal>
    requires i < |items|
  {
    var item := items[i];
    var v := Accepted(Overlay(PayloadOf(DataOf(item)), r));
    if v.Err? then Err(Invalid)
    else
      var w := Written(DataOf(item), r, v.value);
      if w.barcode.None? || OthersHave(items, i, w.barcode.value) then Err(BarcodeTaken) else Ok(Revised(item, w))
  }

  /** The edited row, or why there is none. */
  function Edit(items: seq<Item>, env: Env, hasSale: bool, i: nat, requested: Payload): Result<Item, Refusal>
    requires i < |items|
  {
    var refusal := EditRefusal(items, env, hasSale, i, requested);
    if refusal.Some? then Err(refusal.value) else EditMerged(items, i, Request(items[i].facts, requested).value)
  }

  function Update(s: Shelf, env: Env, hasSale: bool, i: nat, requested: Payload, at: int): Result<Shelf, Refusal> {
    if i >= |s.items| || s.items[i].status == Archived then Err(NotFound)
    else
      var edited := Edit(s.items, env, hasSale, i, requested);
      if edited.Err? then Err(edited.error) else Ok(Commit(s, s.items[i := edited.value], [i], Updated, at))
  }

  lemma RequestTouchesModes(f: Facts, requested: Payload)
    requires Request(f, requested).Some? && Targets(f, requested, ByWeight)
    ensures TouchesModes(Request(f, requested).value)
  {
  }

  /** An edit stores exactly the validated item. */
  lemma EditStoresValidated(items: seq<Item>, env: Env, hasSale: bool, i: nat, requested: Payload)
    requires i < |items| && RowOk(items[i]) && Edit(items, env, hasSale, i, requested).Ok?
    ensures var p := Overlay(PayloadOf(DataOf(items[i])), Request(items[i].facts, requested).value);
      && Accepted(p).Ok? && Storable(Accepted(p).value) && Accepted(p).value.barcode.Some?
      && Edit(items, env, hasSale, i, requested) == Ok(Revised(items[i], Accepted(p).value))
  {
    var d, r := DataOf(items[i]), Request(items[i].facts, requested).value;
    if d.facts.stockMode == ByWeight && !TouchesModes(r) {
      assert Targets(d.facts, requested, ByWeight);
      RequestTouchesModes(d.facts, requested);
    }
    PartialWriteIsWhole(d, r);
    AcceptedIsStorable(Overlay(PayloadOf(d), r));
  }

  lemma RevisedRowOk(item: Item, v: Data)
    requires Storable(v) && v.barcode.Some? && item.status == InStock
    ensures RowOk(Revised(item, v))
  {
  }

  /** Validation keeps weights that are already in order. */
  lemma WeightsSurvive(d: Data, r: Payload, weights: (int, int))
    requires weights.0 > 0 && weights.1 >= 0
    requires r.netWeight == Given(weights.0) && r.stockWeight == Given(weights.1)
    requires Accepted(Overlay(PayloadOf(d), r)).Ok?
    requires Accepted(Overlay(PayloadOf(d), r)).value.facts.stockMode == ByWeight
    ensures var v := Accepted(Overlay(PayloadOf(d), r)).value.facts;
      v.netWeight == weights.0 && v.stockWeight == Some(weights.1) && v.quantity == (if weights.1 > 0 then 1 else 0)
  {
    var p := Overlay(PayloadOf(d), r);
    AcceptedModesAre(p);
    AcceptedIsStorable(p);
    ModesKept(WithModes(p), LacksPricing(p));
  }

  /** The mode of the stored item is the one the request aimed at. */
  lemma EditedMode(d: Data, requested: Payload)
    requires Storable(d) && Request(d.facts, requested).Some?
    requires Accepted(Overlay(PayloadOf(d), Request(d.facts, requested).value)).Ok?
    ensures var v := Accepted(Overlay(PayloadOf(d), Request(d.facts, requested).value)).value.facts;
      v.stockMode == ByWeight <==> Targets(d.facts, requested, ByWeight)
  {
    var r := Request(d.facts, requested).value;
    UnrequestedModesKept(d, r);
    AcceptedModesAre(Overlay(PayloadOf(d), r));
  }

  function Consumed(f: Facts): int { f.netWeight - Weighed(f) }

  lemma ReweighedConserves(f: Facts, r: Payload)
    requires Contracts(f) && Reweighed(f, r).Some?
    ensures var (total, left) := Reweighed(f, r).value;
      total > 0 && left >= 0 && total - left == if f.stockMode == ByWeight then Consumed(f) else 0
  {
  }

  lemma ValidatedConserves(d: Data, requested: Payload)
    requires Storable(d) && Request(d.facts, requested).Some?
    requires Accepted(Overlay(PayloadOf(d), Request(d.facts, requested).value)).Ok?
    ensures var v := Accepted(Overlay(PayloadOf(d), Request(d.facts, requested).value)).value.facts;
      v.stockMode == ByWeight ==> Consumed(v) == if d.facts.stockMode == ByWeight then Consumed(d.facts) else 0
  {
    EditedMode(d, requested);
    if Targets(d.facts, requested, ByWeight) {
      ReweighedConserves(d.facts, requested);
      WeightsSurvive(d, Request(d.facts, requested).value, Reweighed(d.facts, requested).value);
    }
  }

  /**
   * While an item is weighed, no edit changes the weight already consumed; an item that becomes weighed
   * starts full; and an item that has been sold keeps its stock mode.
   */
  lemma EditConservesWeight(items: seq<Item>, env: Env, hasSale: bool, i: nat, requested: Payload)
    requires i < |items| && RowOk(items[i]) && Edit(items, env, hasSale, i, requested).Ok?
    ensures var f, g := items[i].facts, Edit(items, env, hasSale, i, requested).value.facts;
      && (g.stockMode == ByWeight ==> Consumed(g) == if f.stockMode == ByWeight then Consumed(f) else 0)
      && (hasSale ==> g.stockMode == f.stockMode)
  {
    EditStoresValidated(items, env, hasSale, i, requested);
    ValidatedConserves(DataOf(items[i]), requested);
    EditedMode(DataOf(items[i]), requested);
  }

  lemma CountedQuantityIs(d: Data, r: Payload)
    requires Accepted(Overlay(PayloadOf(d), r)).Ok? && Accepted(Overlay(PayloadOf(d), r)).value.facts.stockMode == ByQuantity
    ensures Given(Accepted(Overlay(PayloadOf(d), r)).value.facts.quantity) == Overlay(PayloadOf(d), r).quantity
  {
    var p := Overlay(PayloadOf(d), r);
    AcceptedModesAre(p);
    ModesKept(WithModes(p), LacksPricing(p));
    assert Normalized(p).quantity == p.quantity;
  }

  lemma AcceptedQuantityIs(d: Data, requested: Payload)
    requires Storable(d) && Request(d.facts, requested).Some?
    requires Accepted(Overlay(PayloadOf(d), Request(d.facts, requested).value)).Ok?
    ensures var r := Request(d.facts, requested).value;
      var v := Accepted(Overlay(PayloadOf(d), r)).value.facts;
      v.quantity > 0 ==> d.facts.quantity > 0 || Activates(d.facts, r)
  {
    var r := Request(d.facts, requested).value;
    EditedMode(d, requested);
    if Targets(d.facts, requested, ByWeight) {
      ReweighedConserves(d.facts, requested);
      WeightsSurvive(d, r, Reweighed(d.facts, requested).value);
    } else {
      CountedQuantityIs(d, r);
    }
  }

  lemma EditStaysCapped(items: seq<Item>, env: Env, hasSale: bool, i: nat, requested: Payload)
    requires i < |items| && RowOk(items[i]) && Edit(items, env, hasSale, i, requested).Ok?
    ensures StaysCapped(items, items[i := Edit(items, env, hasSale, i, requested).value], env.itemLimit)
  {
    EditStoresValidated(items, env, hasSale, i, requested);
    AcceptedQuantityIs(DataOf(items[i]), requested);
    ActiveUpdated(items, i, Edit(items, env, hasSale, i, requested).value);
  }

  lemma EditedBarcode(items: seq<Item>, env: Env, hasSale: bool, i: nat, requested: Payload)
    requires i < |items| && Edit(items, env, hasSale, i, requested).Ok?
    ensures items[i].status == InStock && !OthersHave(items, i, Edit(items, env, hasSale, i, requested).value.barcode)
  {
  }

  lemma ReplacedRowFits(items: seq<Item>, i: nat, item: Item)
    requires i < |items| && RowsOk(items) && BarcodesDiffer(items) && RowOk(item) && !OthersHave(items, i, item.barcode)
    ensures RowsOk(items[i := item]) && BarcodesDiffer(items[i := item])
  {
  }

  lemma EditIsSound(items: seq<Item>, env: Env, hasSale: bool, i: nat, requested: Payload)
    requires i < |items| && RowsOk(items) && BarcodesDiffer(items) && Edit(items, env, hasSale, i, requested).Ok?
    ensures var after := items[i := Edit(items, env, hasSale, i, requested).value]; RowsOk(after) && BarcodesDiffer(after)
  {
    EditStoresValidated(items, env, hasSale, i, requested);
    EditedBarcode(items, env, hasSale, i, requested);
    var v := Accepted(Overlay(PayloadOf(DataOf(items[i])), Request(items[i].facts, requested).value)).value;
    RevisedRowOk(items[i], v);
    ReplacedRowFits(items, i, Revised(items[i], v));
  }

  lemma UpdateIsSound(s: Shelf, env: Env, hasSale: bool, i: nat, requested: Payload, at: int)
    requires ShelfOk(s) && s.now < at && Update(s, env, hasSale, i, requested, at).Ok?
    ensures ShelfOk(Update(s, env, hasSale, i, requested, at).value)
    ensures StaysCapped(s.items, Update(s, env, hasSale, i, requested, at).value.items, env.itemLimit)
  {
    var item := Edit(s.items, env, hasSale, i, requested).value;
    EditIsSound(s.items, env, hasSale, i, requested);
    EditStaysCapped(s.items, env, hasSale, i, requested);
    CommitKeepsHistory(s, s.items[i := item], [i], Updated, at);
  }

  // ---- archiving ----

  /** Whether the weights an edit asks for may stand: a remainder is not edited directly, a total covers what was consumed. */
  predicate WeightsAllowed(f: Facts, r: Payload) {
    Targets(f, r, ByWeight) ==>
      if f.stockMode == ByWeight then
        && (r.stockWeight.Absent? || !r.netWeight.Absent? || r.stockWeight == Given(Weighed(f)))
        && (match r.netWeight case Absent => true case Null => false case Given(total) => total > 0 && total >= Consumed(f))
      else NewTotal(r) > 0
  }

  /** The weight a counted item starts with when it becomes weighed. */
  function NewTotal(r: Payload): int {
    if r.netWeight.Given? && r.netWeight.value != 0 then r.netWeight.value
    else if r.stockWeight.Given? then r.stockWeight.value else 0
  }

  lemma WeightsAllowedExactly(f: Facts, r: Payload)
    requires Contracts(f)
    ensures Request(f, r).Some? <==> WeightsAllowed(f, r)
  {
  }

  predicate BarcodeIsFree(items: seq<Item>, i: nat, barcode: Option<string>) {
    barcode.Some? && forall j :: 0 <= j < |items| && j != i ==> items[j].barcode != barcode.value
  }

  /** The checks of an edit that come before the validation of the merged item. */
  predicate MayEdit(items: seq<Item>, env: Env, hasSale: bool, i: nat, requested: Payload)
    requires i < |items|
  {
    var f := items[i].facts;
    && items[i].status == InStock && KeepsType(requested, f)
    && (hasSale ==> requested.stockMode.Absent? || requested.stockMode == Given(if f.stockMode == ByWeight then "weight" else "quantity"))
    && WeightsAllowed(f, requested)
    && (f.quantity <= 0 && RequestedQuantity(f, requested) > 0 ==> RoomForOne(env, items))
  }

  /** The number of pieces an edit asks for: one for a weighed item of which anything is left. */
  function RequestedQuantity(f: Facts, r: Payload): int {
    if Targets(f, r, ByWeight) then
      if f.stockMode == ByWeight then
        if (if r.netWeight.Given? then r.netWeight.value else f.netWeight) > Consumed(f) then 1 else 0
      else 1
    else if r.quantity.Given? then r.quantity.value else 0
  }

  lemma RequestedQuantityIs(f: Facts, r: Payload)
    requires Contracts(f) && WeightsAllowed(f, r)
    ensures Request(f, r).Some?
    ensures Activates(f, Request(f, r).value) <==> f.quantity <= 0 && RequestedQuantity(f, r) > 0
  {
  }

  lemma ChecksInOrder(items: seq<Item>, env: Env, hasSale: bool, i: nat, requested: Payload)
    requires i < |items| && Contracts(items[i].facts)
    ensures EditRefusal(items, env, hasSale, i, requested).None? <==> MayEdit(items, env, hasSale, i, requested)
  {
    WeightsAllowedExactly(items[i].facts, requested);
    if WeightsAllowed(items[i].facts, requested) { RequestedQuantityIs(items[i].facts, requested); }
  }

  lemma MergeExactly(items: seq<Item>, i: nat, r: Payload)
    requires i < |items|
    ensures EditMerged(items, i, r).Ok? <==>
      && Accepted(Overlay(PayloadOf(DataOf(items[i])), r)).Ok?
      && BarcodeIsFree(items, i, Written(DataOf(items[i]), r, Accepted(Overlay(PayloadOf(DataOf(items[i])), r)).value).barcode)
  {
  }

  lemma WrittenIsDescribed(d: Data, requested: Payload)
    requires Storable(d) && Request(d.facts, requested).Some?
    requires Accepted(Overlay(PayloadOf(d), Request(d.facts, requested).value)).Ok?
    ensures var r := Request(d.facts, requested).value;
      var p := Overlay(PayloadOf(d), r); Written(d, r, Accepted(p).value) == Described(p)
  {
    var r := Request(d.facts, requested).value;
    AcceptedExactly(Overlay(PayloadOf(d), r));
    if d.facts.stockMode == ByWeight && !TouchesModes(r) { RequestTouchesModes(d.facts, requested); }
    PartialWriteIsWhole(d, r);
  }

  /** An edit is made exactly when its checks pass and the merged item is complete, storable and under a free barcode. */
  lemma EditExactly(items: seq<Item>, env: Env, hasSale: bool, i: nat, requested: Payload)
    requires i < |items| && RowOk(items[i])
    ensures Edit(items, env, hasSale, i, requested).Ok? <==>
      && MayEdit(items, env, hasSale, i, requested)
      && Request(items[i].facts, requested).Some?
      && var p := Overlay(PayloadOf(DataOf(items[i])), Request(items[i].facts, requested).value);
      && Complete(p) && Storable(Described(p)) && BarcodeIsFree(items, i, Described(p).barcode)
  {
    ChecksInOrder(items, env, hasSale, i, requested);
    WeightsAllowedExactly(items[i].facts, requested);
    if MayEdit(items, env, hasSale, i, requested) {
      var d, r := DataOf(items[i]), Request(items[i].facts, requested).value;
      MergeExactly(items, i, r);
      AcceptedExactly(Overlay(PayloadOf(d), r));
      if Accepted(Overlay(PayloadOf(d), r)).Ok? { WrittenIsDescribed(d, requested); }
    }
  }

  /** The edited row: every requested entry is stored where its modes allow it, and every other stays as it was. */
  lemma EditStoresRequest(items: seq<Item>, env: Env, hasSale: bool, i: nat, requested: Payload)
    requires i < |items| && RowOk(items[i]) && Edit(items, env, hasSale, i, requested).Ok?
    ensures var d, after := DataOf(items[i]), Edit(items, env, hasSale, i, requested).value;
      var f, g := d.facts, after.facts;
      && TextStored(requested, d, DataOf(after)) && g.itemType == f.itemType && ModesStored(requested, f, g)
      && AmountsStored(requested, f, g) && CountStored(requested, f, g)
      && (g.stockMode == ByWeight ==>
            && g.netWeight == (if f.stockMode == ByQuantity then NewTotal(requested)
                               else if requested.netWeight.Given? then requested.netWeight.value else f.netWeight)
            && g.quantity == (if Weighed(g) > 0 then 1 else 0))
      && after.status == (if g.stockMode == ByWeight && Weighed(g) == 0 then Sold else InStock)
  {
    var d, r := DataOf(items[i]), Request(items[i].facts, requested).value;
    EditStoresValidated(items, env, hasSale, i, requested);
    MergedStores(d, r);
    EditedMode(d, requested);
    if Targets(d.facts, requested, ByWeight) {
      ReweighedConserves(d.facts, requested);
      WeightsSurvive(d, r, Reweighed(d.facts, requested).value);
    }
  }

  lemma CommitOfOne(s: Shelf, items: seq<Item>, i: nat, event: Change, at: int)
    requires i < |items|
    ensures Commit(s, items, [i], event, at) == Shelf(items, s.history + [Entry(i, event, items[i].facts, items[i].status, at)], at)
  {
    assert Snapshots(items, [i], event, at) == [Snapshot(items, i, event, at)];
  }

  /** An update replaces one row by its edit, and records it. */
  lemma UpdateExactly(s: Shelf, env: Env, hasSale: bool, i: nat, requested: Payload, at: int)
    ensures Update(s, env, hasSale, i, requested, at).Ok? <==> i < |s.items| && Edit(s.items, env, hasSale, i, requested).Ok?
    ensures Update(s, env, hasSale, i, requested, at).Ok? ==>
      var item := Edit(s.items, env, hasSale, i, requested).value;
      Update(s, env, hasSale, i, requested, at).value
      == Shelf(s.items[i := item], s.history + [Entry(i, Updated, item.facts, item.status, at)], at)
  {
    if i < |s.items| && Edit(s.items, env, hasSale, i, requested).Ok? {
      CommitOfOne(s, s.items[i := Edit(s.items, env, hasSale, i, requested).value], i, Updated, at);
    }
  }

  /** _archive_item */
  function Retired(item: Item): Item {
    item.(facts := item.facts.(quantity := 0), status := Archived)
  }

  function WithRetired(items: seq<Item>, ids: seq<nat>): (after: seq<Item>)
    ensures |after| == |items|
    ensures forall i :: 0 <= i < |items| ==> after[i] == if i in ids then Retired(items[i]) else items[i]
  {
    seq(|items|, i requires 0 <= i < |items| => if i in ids then Retired(items[i]) else items[i])
  }

  predicate Retirable(items: seq<Item>, ids: seq<nat>) {
    Distinct(ids) && forall k :: 0 <= k < |ids| ==> ids[k] < |items| && items[ids[k]].status == InStock
  }

  /** delete_items; delete_item is the case of one id. */
  function Archive(s: Shelf, ids: seq<nat>, at: int): Result<Shelf, Refusal> {
    if !Distinct(ids) || exists k :: 0 <= k < |ids| && (ids[k] >= |s.items| || s.items[ids[k]].status == Archived) then Err(NotFound)
    else if exists k :: 0 <= k < |ids| && s.items[ids[k]].status != InStock then Err(NotInStock)
    else Ok(Commit(s, WithRetired(s.items, ids), ids, ArchivedAt, at))
  }

  /** The numbers of the items in stock. */
  function Stocked(items: seq<Item>): (ids: seq<nat>)
    ensures Retirable(items, ids)
    ensures forall i: nat :: i in ids <==> i < |items| && items[i].status == InStock
  {
    if items == [] then []
    else
      var rest := Stocked(items[..|items| - 1]);
      if items[|items| - 1].status == InStock then rest + [|items| - 1] else rest
  }

  /** clear_in_stock_inventory */
  function Clear(s: Shelf, at: int): Shelf {
    Commit(s, WithRetired(s.items, Stocked(s.items)), Stocked(s.items), ArchivedAt, at)
  }

  /** The shelf after some rows were archived: they hold nothing, and each has one entry that says so. */
  predicate IsArchived(before: Shelf, after: Shelf, ids: seq<nat>, at: int) {
    && |after.items| == |before.items| && after.now == at
    && (forall i :: 0 <= i < |after.items| ==>
          var item := before.items[i];
          after.items[i] == if i in ids then Item(item.facts.(quantity := 0), item.barcode, item.name, item.notes, Archived) else item)
    && |after.history| == |before.history| + |ids| && before.history <= after.history
    && (forall k :: 0 <= k < |ids| ==>
          && ids[k] < |after.items|
          && after.history[|before.history| + k] == Entry(ids[k], ArchivedAt, after.items[ids[k]].facts, Archived, at))
  }

  /** Items are deleted exactly when all of them are different, there, and in stock. */
  lemma ArchiveExactly(s: Shelf, ids: seq<nat>, at: int)
    ensures Archive(s, ids, at).Ok? <==>
      Distinct(ids) && forall k :: 0 <= k < |ids| ==> ids[k] < |s.items| && s.items[ids[k]].status == InStock
    ensures Archive(s, ids, at).Ok? ==> IsArchived(s, Archive(s, ids, at).value, ids, at)
  {
  }

  /** Clearing archives exactly the items in stock. */
  lemma ClearExactly(s: Shelf, at: int) returns (ids: seq<nat>)
    ensures Distinct(ids) && forall i: nat :: i in ids <==> i < |s.items| && s.items[i].status == InStock
    ensures IsArchived(s, Clear(s, at), ids, at)
  {
    ids := Stocked(s.items);
  }

  lemma RetiredRowOk(item: Item)
    requires RowOk(item)
    ensures RowOk(Retired(item))
  {
  }

  lemma RetiredRowsOk(items: seq<Item>, ids: seq<nat>)
    requires RowsOk(items) && BarcodesDiffer(items)
    ensures RowsOk(WithRetired(items, ids)) && BarcodesDiffer(WithRetired(items, ids))
    ensures ActiveCount(WithRetired(items, ids)) <= ActiveCount(items)
  {
    var after := WithRetired(items, ids);
    forall i | 0 <= i < |items|
      ensures RowOk(after[i]) && (IsActive(after[i]) ==> IsActive(items[i])) && after[i].barcode == items[i].barcode
    {
      RetiredRowOk(items[i]);
    }
    ActiveShrinks(items, after);
  }

  lemma ArchivingIsSound(s: Shelf, ids: seq<nat>, at: int)
    requires ShelfOk(s) && s.now < at && Retirable(s.items, ids)
    ensures ShelfOk(Commit(s, WithRetired(s.items, ids), ids, ArchivedAt, at))
    ensures ActiveCount(WithRetired(s.items, ids)) <= ActiveCount(s.items)
  {
    RetiredRowsOk(s.items, ids);
    CommitKeepsHistory(s, WithRetired(s.items, ids), ids, ArchivedAt, at);
  }

  // ---- importing ----

  datatype Duplicate = AlreadyInShop | RepeatedInFile

  /** Which rows of a file are taken, and which are returned as duplicates, in file order. */
  datatype Split = Split(accepted: seq<Data>, duplicates: seq<(Data, Duplicate)>, reserved: set<string>)

  function Partition(rows: seq<Data>, existing: set<string>): Split {
    if rows == [] then Split([], [], existing)
    else
      var before, row := Partition(rows[..|rows| - 1], existing), rows[|rows| - 1];
      if row.barcode.Some? && row.barcode.value in before.reserved then
        before.(duplicates := before.duplicates + [(row, if row.barcode.value in existing then AlreadyInShop else RepeatedInFile)])
      else if row.barcode.Some? then
        before.(accepted := before.accepted + [row], reserved := before.reserved + {row.barcode.value})
      else before.(accepted := before.accepted + [row])
  }

  method PartitionRows(rows: seq<Data>, existing: set<string>) returns (split: Split)
    ensures split == Partition(rows, existing)
  {
    var accepted: seq<Data>, duplicates: seq<(Data, Duplicate)>, reserved := [], [], existing;
    for k := 0 to |rows|
      invariant Split(accepted, duplicates, reserved) == Partition(rows[..k], existing)
    {
      assert rows[..k + 1][..k] == rows[..k];
      var barcode := rows[k].barcode;
      if barcode.Some? && barcode.value in reserved {
        var reason := if barcode.value in existing then AlreadyInShop else RepeatedInFile;
        duplicates := duplicates + [(rows[k], reason)];
        continue;
      }
      if barcode.Some? { reserved := reserved + {barcode.value}; }
      accepted := accepted + [rows[k]];
    }
    assert rows[..|rows|] == rows;
    split := Split(accepted, duplicates, reserved);
  }

  predicate Supplied(rows: seq<Data>, barcode: string) {
    exists k :: 0 <= k < |rows| && rows[k].barcode == Some(barcode)
  }

  predicate SuppliedDiffer(rows: seq<Data>) {
    forall j, k :: 0 <= j < k < |rows| && rows[j].barcode.Some? ==> rows[j].barcode != rows[k].barcode
  }

  function DuplicateRows(split: Split): (rows: seq<Data>)
    ensures |rows| == |split.duplicates|
  {
    seq(|split.duplicates|, k requires 0 <= k < |split.duplicates| => split.duplicates[k].0)
  }

  lemma RowJoins(front: seq<Data>, row: Data)
    ensures multiset(front + [row]) == multiset(front) + multiset{row}
  {
  }

  /** Every row of the file is accepted or returned as a duplicate, as often as it stands there. */
  lemma {:induction false} PartitionKeepsRows(rows: seq<Data>, existing: set<string>)
    ensures var split := Partition(rows, existing);
      multiset(split.accepted) + multiset(DuplicateRows(split)) == multiset(rows)
  {
    if rows != [] {
      var prefix, row := rows[..|rows| - 1], rows[|rows| - 1];
      var before, split := Partition(prefix, existing), Partition(rows, existing);
      PartitionKeepsRows(prefix, existing);
      RowJoins(prefix, row);
      RowJoins(before.accepted, row);
      RowJoins(DuplicateRows(before), row);
      assert prefix + [row] == rows;
      if split.accepted == before.accepted { assert DuplicateRows(split) == DuplicateRows(before) + [row]; }
    }
  }

  /**
   * Accepted rows have new and different barcodes, and a duplicate's reason is the true one: its barcode was there
   * before, or an accepted row of the same file has it.
   */
  ghost predicate IsSplitOf(split: Split, rows: seq<Data>, existing: set<string>) {
    && |split.accepted| + |split.duplicates| == |rows|
    && (forall d :: d in split.accepted ==> d in rows)
    && SuppliedDiffer(split.accepted)
    && (forall b :: b in split.reserved <==> b in existing || Supplied(split.accepted, b))
    && (forall k :: 0 <= k < |split.accepted| && split.accepted[k].barcode.Some? ==> split.accepted[k].barcode.value !in existing)
    && (forall k :: 0 <= k < |split.duplicates| ==>
          && var (d, reason) := split.duplicates[k];
          && d in rows && d.barcode.Some?
          && (reason == AlreadyInShop <==> d.barcode.value in existing)
          && (reason == RepeatedInFile ==> Supplied(split.accepted, d.barcode.value)))
  }

  lemma {:induction false} PartitionSplits(rows: seq<Data>, existing: set<string>)
    ensures IsSplitOf(Partition(rows, existing), rows, existing)
  {
    if rows != [] {
      var prefix, row := rows[..|rows| - 1], rows[|rows| - 1];
      PartitionSplits(prefix, existing);
      var before, split := Partition(prefix, existing), Partition(rows, existing);
      forall b | Supplied(before.accepted, b) ensures Supplied(split.accepted, b) {
        var k :| 0 <= k < |before.accepted| && before.accepted[k].barcode == Some(b);
        assert split.accepted[k].barcode == Some(b);
      }
      if row.barcode.Some? && split.accepted != before.accepted {
        assert split.accepted[|before.accepted|].barcode == row.barcode;
        forall b | Supplied(split.accepted, b) ensures b in split.reserved {
          var k :| 0 <= k < |split.accepted| && split.accepted[k].barcode == Some(b);
          if k < |before.accepted| { assert before.accepted[k].barcode == Some(b); }
        }
      }
      assert forall d :: d in prefix ==> d in rows;
    }
  }

  /** The split of a file: every row is in one part, as often as it stands in the file, and for the right reason. */
  lemma PartitionIsExact(rows: seq<Data>, existing: set<string>)
    ensures var split := Partition(rows, existing);
      && IsSplitOf(split, rows, existing)
      && multiset(split.accepted) + multiset(DuplicateRows(split)) == multiset(rows)
  {
    PartitionSplits(rows, existing);
    PartitionKeepsRows(rows, existing);
  }

  /** The rows' supplied barcodes that items of the shop already have. */
  function Existing(items: seq<Item>, rows: seq<Data>): set<string> {
    set k | 0 <= k < |rows| && rows[k].barcode.Some? && HasBarcode(items, rows[k].barcode.value) :: rows[k].barcode.value
  }

  /** The new items, rows without a barcode taking the draws of their positions; None if the generator gave up. */
  function Barcoded(items: seq<Item>, rows: seq<Data>, draws: seq<string>, reserved: set<string>): Option<(seq<Item>, set<string>)> {
    if rows == [] then Some(([], reserved))
    else
      var last := |rows| - 1;
      var before := Barcoded(items, rows[..last], draws, reserved);
      if before.None? then None
      else if !WantsBarcode(rows[last]) then Some((before.value.0 + [NewItem(rows[last], rows[last].barcode.value)], before.value.1))
      else if last < |draws| && IsFreshDraw(items, draws[last]) && draws[last] !in before.value.1
      then Some((before.value.0 + [NewItem(rows[last], draws[last])], before.value.1 + {draws[last]}))
      else None
  }

  predicate BarcodedAs(items: seq<Item>, rows: seq<Data>, reserved: set<string>, made: seq<Item>, all: set<string>) {
    && |made| == |rows| && reserved <= all
    && forall k :: 0 <= k < |rows| ==>
         && made[k] == NewItem(rows[k], made[k].barcode) && made[k].barcode in all && |made[k].barcode| <= 100
         && (if WantsBarcode(rows[k]) then made[k].barcode !in reserved else rows[k].barcode == Some(made[k].barcode))
         && !HasBarcode(items, made[k].barcode)
  }

  lemma BarcodeAdded(
      items: seq<Item>, rows: seq<Data>, row: Data, reserved: set<string>,
      before: seq<Item>, some: set<string>, barcode: string, all: set<string>)
    requires SuppliedDiffer(rows + [row])
    requires BarcodedAs(items, rows, reserved, before, some) && BarcodesDiffer(before)
    requires some <= all && barcode in all && |barcode| <= 100 && !HasBarcode(items, barcode)
    requires if WantsBarcode(row) then barcode !in some else row.barcode == Some(barcode) && barcode in reserved
    ensures var made := before + [NewItem(row, barcode)];
      BarcodedAs(items, rows + [row], reserved, made, all) && BarcodesDiffer(made)
  {
    forall k | 0 <= k < |rows| ensures before[k].barcode != barcode {
      assert (rows + [row])[k] == rows[k] && (rows + [row])[|rows|] == row;
    }
  }

  lemma {:induction false} BarcodedIsFresh(items: seq<Item>, rows: seq<Data>, draws: seq<string>, reserved: set<string>)
    requires SuppliedDiffer(rows) && Barcoded(items, rows, draws, reserved).Some?
    requires forall k :: 0 <= k < |rows| ==> Suits(items, reserved, rows[k])
    ensures var (made, all) := Barcoded(items, rows, draws, reserved).value;
      BarcodedAs(items, rows, reserved, made, all) && BarcodesDiffer(made)
  {
    if rows != [] {
      var last := |rows| - 1;
      BarcodedIsFresh(items, rows[..last], draws, reserved);
      var (before, some) := Barcoded(items, rows[..last], draws, reserved).value;
      assert rows[..last] + [rows[last]] == rows && Suits(items, reserved, rows[last]);
      if WantsBarcode(rows[last]) {
        BarcodeAdded(items, rows[..last], rows[last], reserved, before, some, draws[last], some + {draws[last]});
      } else {
        BarcodeAdded(items, rows[..last], rows[last], reserved, before, some, rows[last].barcode.value, some);
      }
    }
  }

  /** The rows of a file whose payloads are all acceptable and in stock. */
  function RowsOf(payloads: seq<Payload>): Option<seq<Data>> {
    if payloads == [] then Some([])
    else
      var before, row := RowsOf(payloads[..|payloads| - 1]), Accepted(payloads[|payloads| - 1]);
      if before.None? || row.Err? || row.value.facts.quantity <= 0 then None else Some(before.value + [row.value])
  }

  predicate AllStorable(rows: seq<Data>) {
    forall k :: 0 <= k < |rows| ==> Storable(rows[k])
  }

  lemma {:induction false} RowsAreStorable(payloads: seq<Payload>)
    requires RowsOf(payloads).Some?
    ensures AllStorable(RowsOf(payloads).value) && |RowsOf(payloads).value| == |payloads|
  {
    if payloads != [] {
      var last := |payloads| - 1;
      RowsAreStorable(payloads[..last]);
      AcceptedIsStorable(payloads[last]);
      assert RowsOf(payloads).value == RowsOf(payloads[..last]).value + [Accepted(payloads[last]).value];
    }
  }

  /** The payload describes a storable item of which there is something. */
  predicate DescribesStock(p: Payload) { Complete(p) && Storable(Described(p)) && Described(p).facts.quantity > 0 }

  lemma RowTaken(p: Payload)
    ensures Accepted(p).Ok? && Accepted(p).value.facts.quantity > 0 <==> DescribesStock(p)
    ensures DescribesStock(p) ==> Accepted(p).value == Described(p)
  {
    AcceptedExactly(p);
  }

  predicate AreDescribed(rows: seq<Data>, payloads: seq<Payload>) {
    |rows| == |payloads| && forall k :: 0 <= k < |payloads| ==> rows[k] == Described(payloads[k])
  }

  lemma OneMoreRow(payloads: seq<Payload>, p: Payload)
    ensures RowsOf(payloads + [p]) ==
      if RowsOf(payloads).None? || !DescribesStock(p) then None else Some(RowsOf(payloads).value + [Described(p)])
  {
    RowTaken(p);
    assert (payloads + [p])[..|payloads|] == payloads;
  }

  /** The rows of a file are what its payloads describe, if each describes a storable item with stock. */
  lemma {:induction false} RowsOfExactly(payloads: seq<Payload>)
    ensures RowsOf(payloads).Some? <==> AllDescribeStock(payloads)
    ensures RowsOf(payloads).Some? ==> AreDescribed(RowsOf(payloads).value, payloads)
  {
    if payloads != [] {
      var front, p := payloads[..|payloads| - 1], payloads[|payloads| - 1];
      Unsnoc(payloads);
      RowsOfExactly(front);
      OneMoreRow(front, p);
      OneMoreDescribes(front, p);
    }
  }

  predicate AllDescribeStock(payloads: seq<Payload>) {
    forall k :: 0 <= k < |payloads| ==> DescribesStock(payloads[k])
  }

  lemma OneMoreDescribes(payloads: seq<Payload>, p: Payload)
    ensures AllDescribeStock(payloads + [p]) <==> AllDescribeStock(payloads) && DescribesStock(p)
  {
    assert (payloads + [p])[|payloads|] == p;
    assert forall k :: 0 <= k < |payloads| ==> (payloads + [p])[k] == payloads[k];
  }

  /** import_inventory_csv once the file is parsed */
  function Import(s: Shelf, env: Env, payloads: seq<Payload>, draws: seq<string>, at: int): Result<Shelf, Refusal> {
    var rows := RowsOf(payloads);
    if rows.None? then Err(Invalid)
    else
      var split := Partition(rows.value, Existing(s.items, rows.value));
      if !CapacityAllows(env, s.items, |split.accepted|) then Err(LimitReached)
      else if split.accepted == [] then Ok(s)
      else
        var made := Barcoded(s.items, split.accepted, draws, split.reserved);
        if made.None? then Err(BarcodeTaken) else Ok(Stock(s, made.value.0, at))
  }

  predicate Suits(items: seq<Item>, reserved: set<string>, d: Data) {
    d.barcode.Some? ==> |d.barcode.value| <= 100 && d.barcode.value in reserved && !HasBarcode(items, d.barcode.value)
  }

  lemma AcceptedRowsSuit(items: seq<Item>, rows: seq<Data>, k: nat)
    requires AllStorable(rows) && k < |Partition(rows, Existing(items, rows)).accepted|
    ensures var split := Partition(rows, Existing(items, rows));
      Storable(split.accepted[k]) && Suits(items, split.reserved, split.accepted[k])
  {
    var split := Partition(rows, Existing(items, rows));
    PartitionSplits(rows, Existing(items, rows));
    var d := split.accepted[k];
    assert d in rows;
    var j :| 0 <= j < |rows| && rows[j] == d;
    if d.barcode.Some? {
      assert Supplied(split.accepted, d.barcode.value);
      assert d.barcode.value !in Existing(items, rows);
      assert !HasBarcode(items, rows[j].barcode.value);
    }
  }

  lemma AcceptedRowsFresh(items: seq<Item>, rows: seq<Data>, draws: seq<string>)
    requires AllStorable(rows)
    requires var split := Partition(rows, Existing(items, rows)); Barcoded(items, split.accepted, draws, split.reserved).Some?
    ensures var split := Partition(rows, Existing(items, rows));
      var made := Barcoded(items, split.accepted, draws, split.reserved).value.0;
      Fresh(items, made) && |made| == |split.accepted|
  {
    var split := Partition(rows, Existing(items, rows));
    PartitionSplits(rows, Existing(items, rows));
    forall k | 0 <= k < |split.accepted| ensures Storable(split.accepted[k]) && Suits(items, split.reserved, split.accepted[k]) {
      AcceptedRowsSuit(items, rows, k);
    }
    BarcodedIsFresh(items, split.accepted, draws, split.reserved);
    var (made, all) := Barcoded(items, split.accepted, draws, split.reserved).value;
    forall k | 0 <= k < |made| ensures RowOk(made[k]) {
      NewRowOk(split.accepted[k], made[k].barcode);
    }
  }

  /**
   * An import is made exactly when every row describes a storable item with stock, there is room for all that are
   * accepted, and every barcode that is missing can be drawn.
   */
  lemma ImportExactly(s: Shelf, env: Env, payloads: seq<Payload>, draws: seq<string>, at: int)
    ensures Import(s, env, payloads, draws, at).Ok? <==>
      && RowsOf(payloads).Some?
      && var split := Partition(RowsOf(payloads).value, Existing(s.items, RowsOf(payloads).value));
      && (split.accepted != [] ==>
            env.open && env.writable && (env.itemLimit.None? || ActiveCount(s.items) + |split.accepted| <= env.itemLimit.value))
      && Barcoded(s.items, split.accepted, draws, split.reserved).Some?
  {
  }

  /** The shelf after some rows were added, each in stock under its barcode and recorded once. */
  predicate HasAdded(before: Shelf, after: Shelf, rows: seq<Data>, at: int) {
    && |after.items| == |before.items| + |rows| && before.items <= after.items
    && |after.history| == |before.history| + |rows| && before.history <= after.history
    && (forall k :: 0 <= k < |rows| ==>
          var item := after.items[|before.items| + k];
          && item == Item(rows[k].facts, item.barcode, rows[k].name, rows[k].notes, InStock)
          && after.history[|before.history| + k] == Entry(|before.items| + k, Created, item.facts, InStock, at))
  }

  lemma NewEntry(items: seq<Item>, added: seq<Item>, at: int, k: nat)
    requires k < |added| && added[k].status == InStock
    ensures AllBelow(Range(|items|, |added|), |items + added|)
    ensures Snapshots(items + added, Range(|items|, |added|), Created, at)[k] == Entry(|items| + k, Created, added[k].facts, InStock, at)
  {
    var ids := Range(|items|, |added|);
    assert ids[k] == |items| + k && (items + added)[ids[k]] == added[k];
    assert Snapshots(items + added, ids, Created, at)[k] == Snapshot(items + added, ids[k], Created, at);
  }

  lemma Appended<T>(a: seq<T>, b: seq<T>, k: nat)
    requires k < |b|
    ensures (a + b)[|a| + k] == b[k] && a <= a + b
  {
  }

  lemma StockAdds(s: Shelf, added: seq<Item>, rows: seq<Data>, at: int)
    requires |added| == |rows|
    requires forall k :: 0 <= k < |rows| ==> added[k] == Item(rows[k].facts, added[k].barcode, rows[k].name, rows[k].notes, InStock)
    ensures HasAdded(s, Stock(s, added, at), rows, at)
  {
    var batch := Snapshots(s.items + added, Range(|s.items|, |added|), Created, at);
    var after := Stock(s, added, at);
    assert after.items == s.items + added && after.history == s.history + batch && |batch| == |rows|;
    forall k | 0 <= k < |rows|
      ensures after.items[|s.items| + k] == added[k]
      ensures after.history[|s.history| + k] == Entry(|s.items| + k, Created, added[k].facts, InStock, at)
    {
      NewEntry(s.items, added, at, k);
      Appended(s.items, added, k);
      Appended(s.history, batch, k);
    }
  }

  /** An import adds the accepted rows, in order. */
  lemma ImportAdds(s: Shelf, env: Env, payloads: seq<Payload>, draws: seq<string>, at: int)
    requires Import(s, env, payloads, draws, at).Ok?
    ensures RowsOf(payloads).Some?
    ensures var accepted := Partition(RowsOf(payloads).value, Existing(s.items, RowsOf(payloads).value)).accepted;
      HasAdded(s, Import(s, env, payloads, draws, at).value, accepted, at)
  {
    var rows := RowsOf(payloads).value;
    var split := Partition(rows, Existing(s.items, rows));
    if split.accepted != [] {
      BarcodedRows(s.items, split.accepted, draws, split.reserved);
      StockAdds(s, Barcoded(s.items, split.accepted, draws, split.reserved).value.0, split.accepted, at);
    }
  }

  lemma {:induction false} BarcodedRows(items: seq<Item>, rows: seq<Data>, draws: seq<string>, reserved: set<string>)
    requires Barcoded(items, rows, draws, reserved).Some?
    ensures var made := Barcoded(items, rows, draws, reserved).value.0;
      && |made| == |rows|
      && forall k :: 0 <= k < |rows| ==> made[k] == Item(rows[k].facts, made[k].barcode, rows[k].name, rows[k].notes, InStock)
  {
    if rows != [] { BarcodedRows(items, rows[..|rows| - 1], draws, reserved); }
  }

  /** A batch import counts every accepted row against the cap. */
  lemma ImportIsSound(s: Shelf, env: Env, payloads: seq<Payload>, draws: seq<string>, at: int)
    requires ShelfOk(s) && s.now < at && Import(s, env, payloads, draws, at).Ok?
    ensures ShelfOk(Import(s, env, payloads, draws, at).value)
    ensures StaysCapped(s.items, Import(s, env, payloads, draws, at).value.items, env.itemLimit)
  {
    var rows := RowsOf(payloads).value;
    var split := Partition(rows, Existing(s.items, rows));
    if split.accepted != [] {
      RowsAreStorable(payloads);
      AcceptedRowsFresh(s.items, rows, draws);
      var made := Barcoded(s.items, split.accepted, draws, split.reserved).value.0;
      StockIsSound(s, made, at);
      CapacityCaps(env, s.items, made);
    }
  }
}
