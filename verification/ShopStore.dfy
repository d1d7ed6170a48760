/** The shop's tables, updated in place the way the services do, against the ledger's functions. */
module ShopStore {
  import opened Prelude
  import opened ItemContracts
  import opened Inventory
  import opened Checkout
  import opened Ledger

  lemma SnapshotsAgree(a: seq<Item>, b: seq<Item>, ids: seq<nat>, change: Change, at: int)
    requires AllBelow(ids, |a|) && AllBelow(ids, |b|)
    requires forall k :: 0 <= k < |ids| ==> a[ids[k]] == b[ids[k]]
    ensures Snapshots(a, ids, change, at) == Snapshots(b, ids, change, at)
  {
  }

  lemma SnapshotsGrow(items: seq<Item>, ids: seq<nat>, i: nat, change: Change, at: int)
    requires AllBelow(ids, |items|) && i < |items|
    ensures Snapshots(items, ids + [i], change, at) == Snapshots(items, ids, change, at) + [Snapshot(items, i, change, at)]
  {
    assert (ids + [i])[..|ids|] == ids;
  }

  lemma SnapshotsOfPrefix(items: seq<Item>, ids: seq<nat>, k: nat, change: Change, at: int)
    requires AllBelow(ids, |items|) && k < |ids|
    ensures Snapshots(items, ids[..k + 1], change, at) == Snapshots(items, ids[..k], change, at) + [Snapshot(items, ids[k], change, at)]
  {
    SnapshotsGrow(items, ids[..k], ids[k], change, at);
    assert ids[..k + 1] == ids[..k] + [ids[k]];
  }

  lemma ChangeNone(items: seq<Item>, d: Demand)
    ensures WithRetired(items, []) == items && WithSold(items, d, []) == items
  {
  }

  /** Changing the row of the next snapshot leaves the earlier ones as they are. */
  lemma OneMoreSnapshot(before: seq<Item>, after: seq<Item>, ids: seq<nat>, k: nat, change: Change, at: int)
    requires |before| == |after| && AllBelow(ids, |before|) && Distinct(ids) && k < |ids|
    requires forall i :: 0 <= i < |before| && i != ids[k] ==> after[i] == before[i]
    ensures Snapshots(after, ids[..k + 1], change, at)
         == Snapshots(before, ids[..k], change, at) + [Snapshot(after, ids[k], change, at)]
  {
    assert ids[..k + 1] == ids[..k] + [ids[k]];
    SnapshotsGrow(after, ids[..k], ids[k], change, at);
    SnapshotsAgree(before, after, ids[..k], change, at);
  }

  /** Retiring one more row leaves the earlier snapshots as they are. */
  lemma RetireOneMore(items: seq<Item>, ids: seq<nat>, k: nat, at: int)
    requires AllBelow(ids, |items|) && Distinct(ids) && k < |ids|
    ensures var before, after := WithRetired(items, ids[..k]), WithRetired(items, ids[..k + 1]);
      && after == before[ids[k] := Retired(before[ids[k]])]
      && Snapshots(after, ids[..k + 1], ArchivedAt, at)
         == Snapshots(before, ids[..k], ArchivedAt, at) + [Snapshot(after, ids[k], ArchivedAt, at)]
  {
    var before, after := WithRetired(items, ids[..k]), WithRetired(items, ids[..k + 1]);
    assert ids[..k + 1] == ids[..k] + [ids[k]];
    assert after == before[ids[k] := Retired(before[ids[k]])];
    OneMoreSnapshot(before, after, ids, k, ArchivedAt, at);
  }

  /** Selling one more row leaves the earlier snapshots as they are. */
  lemma SellOneMore(items: seq<Item>, d: Demand, ids: seq<nat>, k: nat, at: int)
    requires AllBelow(ids, |items|) && Distinct(ids) && k < |ids|
    ensures var before, after := WithSold(items, d, ids[..k]), WithSold(items, d, ids[..k + 1]);
      && after == before[ids[k] := Sell(before[ids[k]], d, ids[k])]
      && Snapshots(after, ids[..k + 1], SoldAt, at)
         == Snapshots(before, ids[..k], SoldAt, at) + [Snapshot(after, ids[k], SoldAt, at)]
  {
    var before, after := WithSold(items, d, ids[..k]), WithSold(items, d, ids[..k + 1]);
    assert ids[..k + 1] == ids[..k] + [ids[k]];
    assert after == before[ids[k] := Sell(before[ids[k]], d, ids[k])];
    OneMoreSnapshot(before, after, ids, k, SoldAt, at);
  }

  /** Once the barcode generator has given up, later rows do not matter. */
  lemma {:induction false} NoneStaysNone(items: seq<Item>, rows: seq<Data>, draws: seq<string>, taken: set<string>, k: nat)
    requires k <= |rows| && Barcoded(items, rows[..k], draws, taken).None?
    ensures Barcoded(items, rows, draws, taken).None?
  {
    if k == |rows| {
      assert rows[..k] == rows;
    } else {
      assert rows[..|rows| - 1][..k] == rows[..k];
      NoneStaysNone(items, rows[..|rows| - 1], draws, taken, k);
    }
  }

  class Shop {
    var items: seq<Item>
    var history: seq<Entry>
    var now: int
    var sales: seq<Sale>
    var lines: seq<Line>
    var nextSequence: nat
    var totalSales: int
    var keys: map<string, (Request, nat)>

    constructor ()
      ensures State() == Opened
    {
      items, history, now := [], [], 0;
      sales, lines, nextSequence, totalSales, keys := [], [], 1, 0, map[];
    }

    function Stand(): Shelf
      reads this
    {
      Shelf(items, history, now)
    }

    function Accounts(): Books
      reads this
    {
      Books(Stand(), sales, lines, nextSequence, totalSales)
    }

    function State(): Db
      reads this
    {
      Db(Accounts(), keys)
    }

    /** record_item_history */
    method Record(i: nat, change: Change, at: int)
      requires i < |items|
      modifies `history
      ensures history == old(history) + [Snapshot(items, i, change, at)]
    {
      var item := items[i];
      history := history + [Entry(i, change, item.facts, item.status, at)];
    }

    method AddItem(item: Item, at: int)
      modifies `items, `history, `now
      ensures Stand() == Stock(old(Stand()), [item], at)
    {
      items := items + [item];
      Record(|items| - 1, Created, at);
      now := at;
      assert Range(|old(items)|, 1) == [|old(items)|];
      SnapshotsGrow(items, [], |old(items)|, Created, at);
      assert [] + [|old(items)|] == [|old(items)|];
    }

    method CreateItem(env: Env, payload: Payload, draw: string, at: int) returns (r: Result<nat, Refusal>)
      modifies `items, `history, `now
      ensures var made := Create(old(Stand()), env, payload, draw, at);
        if made.Ok? then r == Ok(|old(items)|) && Stand() == made.value else r == Err(made.error) && Stand() == old(Stand())
    {
      var accepted := AcceptedNew(payload);
      if accepted.Err? { return Err(Invalid); }
      var d := accepted.value;
      if d.facts.quantity > 0 && !CapacityAllows(env, items, 1) { return Err(LimitReached); }
      var barcode := "";
      if WantsBarcode(d) {
        if !IsFreshDraw(items, draw) { return Err(BarcodeTaken); }
        barcode := draw;
      } else {
        barcode := d.barcode.value;
        if HasBarcode(items, barcode) { return Err(BarcodeTaken); }
      }
      AddItem(Item(d.facts, barcode, d.name, d.notes, InStock), at);
      return Ok(|items| - 1);
    }

    /** The checks and the partial write of an edit, on a copy of the row. */
    method EditRow(env: Env, i: nat, requested: Payload) returns (r: Result<Item, Refusal>)
      requires i < |items|
      ensures r == Edit(items, env, HasSale(lines, i), i, requested)
    {
      var item := items[i];
      if item.status != InStock { return Err(NotInStock); }
      if !requested.itemType.Absent? && requested.itemType != Given(TypeName(item.facts.itemType)) { return Err(TypeFixed); }
      if !requested.stockMode.Absent? && requested.stockMode != Given(StockName(item.facts.stockMode)) && HasSale(lines, i) {
        return Err(ModeFixed);
      }
      var updates := requested;
      if Targets(item.facts, requested, ByWeight) {
        var weights := Reweighed(item.facts, requested);
        if weights.None? { return Err(BadWeight); }
        updates := WithWeights(updates, weights.value);
      }
      if Activates(item.facts, updates) && !CapacityAllows(env, items, 1) { return Err(LimitReached); }
      var validated := Accepted(Overlay(PayloadOf(DataOf(item)), updates));
      if validated.Err? { return Err(Invalid); }
      var data := Written(DataOf(item), updates, validated.value);
      if data.barcode.None? || OthersHave(items, i, data.barcode.value) { return Err(BarcodeTaken); }
      item := Item(data.facts, data.barcode.value, data.name, data.notes, item.status);
      if item.facts.stockMode == ByWeight && item.facts.stockWeight == Some(0) { item := item.(status := Sold); }
      return Ok(item);
    }

    method UpdateItem(env: Env, i: nat, requested: Payload, at: int) returns (r: Result<Item, Refusal>)
      modifies `items, `history, `now
      ensures var made := Update(old(Stand()), env, HasSale(lines, i), i, requested, at);
        if made.Ok? then i < |items| && r == Ok(items[i]) && Stand() == made.value
        else r == Err(made.error) && Stand() == old(Stand())
    {
      if i >= |items| || items[i].status == Archived { return Err(NotFound); }
      r := EditRow(env, i, requested);
      if r.Ok? { Replace(i, r.value, Updated, at); }
    }

    method Replace(i: nat, item: Item, change: Change, at: int)
      requires i < |items|
      modifies `items, `history, `now
      ensures Stand() == Commit(old(Stand()), old(items)[i := item], [i], change, at)
    {
      items := items[i := item];
      Record(i, change, at);
      now := at;
      SnapshotsGrow(items, [], i, change, at);
      assert [] + [i] == [i];
    }

    /** _archive_item */
    method ArchiveRow(i: nat, at: int)
      requires i < |items|
      modifies `items, `history
      ensures items == old(items)[i := Retired(old(items)[i])]
      ensures history == old(history) + [Snapshot(items, i, ArchivedAt, at)]
    {
      var item := items[i];
      items := items[i := item.(facts := item.facts.(quantity := 0), status := Archived)];
      Record(i, ArchivedAt, at);
    }

    /** _archive_item for each of the rows */
    method ArchiveAll(ids: seq<nat>, at: int)
      requires AllBelow(ids, |items|) && Distinct(ids)
      modifies `items, `history, `now
      ensures Stand() == Commit(old(Stand()), WithRetired(old(items), ids), ids, ArchivedAt, at)
    {
      ChangeNone(items, Demand(map[], map[]));
      assert ids[..0] == [];
      ghost var first := items;
      for k := 0 to |ids|
        invariant |items| == |first| && items == WithRetired(first, ids[..k])
        invariant history == old(history) + Snapshots(items, ids[..k], ArchivedAt, at)
      {
        RetireOneMore(first, ids, k, at);
        ArchiveRow(ids[k], at);
      }
      assert ids[..|ids|] == ids;
      now := at;
    }

    method DeleteItems(ids: seq<nat>, at: int) returns (r: Result<nat, Refusal>)
      modifies `items, `history, `now
      ensures var made := Archive(old(Stand()), ids, at);
        if made.Ok? then r == Ok(|ids|) && Stand() == made.value else r == Err(made.error) && Stand() == old(Stand())
    {
      if !Distinct(ids) || exists k :: 0 <= k < |ids| && (ids[k] >= |items| || items[ids[k]].status == Archived) {
        return Err(NotFound);
      }
      if exists k :: 0 <= k < |ids| && items[ids[k]].status != InStock { return Err(NotInStock); }
      ArchiveAll(ids, at);
      return Ok(|ids|);
    }

    method ClearInventory(at: int) returns (count: nat)
      modifies `items, `history, `now
      ensures Stand() == Clear(old(Stand()), at) && count == |Stocked(old(items))|
    {
      var ids := Stocked(items);
      ArchiveAll(ids, at);
      return |ids|;
    }

    method AddItems(added: seq<Item>, at: int)
      modifies `items, `history, `now
      ensures Stand() == Stock(old(Stand()), added, at)
    {
      var ids := Range(|items|, |added|);
      items := items + added;
      RecordAll(ids, Created, at);
      now := at;
    }

    method RecordAll(ids: seq<nat>, change: Change, at: int)
      requires AllBelow(ids, |items|)
      modifies `history
      ensures history == old(history) + Snapshots(items, ids, change, at)
    {
      for k := 0 to |ids|
        invariant history == old(history) + Snapshots(items, ids[..k], change, at)
      {
        SnapshotsOfPrefix(items, ids, k, change, at);
        Record(ids[k], change, at);
      }
      assert ids[..|ids|] == ids;
    }

    /** The rows of a file are taken in order; the generator's draws stand for its random digits. */
    method BarcodeRows(rows: seq<Data>, draws: seq<string>, taken: set<string>) returns (made: Option<seq<Item>>)
      ensures made == match Barcoded(items, rows, draws, taken) { case None => None case Some(pair) => Some(pair.0) }
    {
      var added: seq<Item>, reserved := [], taken;
      for k := 0 to |rows|
        invariant Barcoded(items, rows[..k], draws, taken) == Some((added, reserved))
      {
        assert rows[..k + 1][..k] == rows[..k];
        var barcode := "";
        if !WantsBarcode(rows[k]) {
          barcode := rows[k].barcode.value;
        } else if k < |draws| && IsFreshDraw(items, draws[k]) && draws[k] !in reserved {
          barcode := draws[k];
          reserved := reserved + {barcode};
        } else {
          NoneStaysNone(items, rows, draws, taken, k + 1);
          return None;
        }
        added := added + [NewItem(rows[k], barcode)];
      }
      assert rows[..|rows|] == rows;
      return Some(added);
    }

    method ImportItems(env: Env, payloads: seq<Payload>, draws: seq<string>, at: int) returns (r: Result<nat, Refusal>)
      modifies `items, `history, `now
      ensures var made := Import(old(Stand()), env, payloads, draws, at);
        if made.Ok? then r == Ok(|items| - |old(items)|) && Stand() == made.value else r == Err(made.error) && Stand() == old(Stand())
    {
      var rows := RowsOf(payloads);
      if rows.None? { return Err(Invalid); }
      var split := PartitionRows(rows.value, Existing(items, rows.value));
      if !CapacityAllows(env, items, |split.accepted|) { return Err(LimitReached); }
      if split.accepted == [] { return Ok(0); }
      var made := BarcodeRows(split.accepted, draws, split.reserved);
      if made.None? { return Err(BarcodeTaken); }
      AddItems(made.value, at);
      return Ok(|made.value|);
    }

    // ---- checkout ----

    /** The loop over the items, before anything is written. */
    method CheckItems(d: Demand, order: seq<nat>) returns (refusal: Option<Refusal>)
      requires AllBelow(order, |items|)
      ensures refusal == FirstRefusal(items, d, order)
    {
      for k := 0 to |order|
        invariant FirstRefusal(items, d, order) == FirstRefusal(items, d, order[k..])
      {
        refusal := Refused(items, d, order[k]);
        if refusal.Some? { return; }
      }
      return None;
    }

    method DepleteRow(d: Demand, i: nat, at: int)
      requires i < |items|
      modifies `items, `history
      ensures items == old(items)[i := Sell(old(items)[i], d, i)]
      ensures history == old(history) + [Snapshot(items, i, SoldAt, at)]
    {
      var item := items[i];
      var f := item.facts;
      if f.stockMode == ByWeight {
        var left := Weighed(f) - Asked(d.weights, i);
        if left <= 0 {
          item := item.(facts := f.(stockWeight := Some(0), quantity := 0), status := Sold);
        } else {
          item := item.(facts := f.(stockWeight := Some(left), quantity := 1), status := InStock);
        }
      } else {
        var left := f.quantity - SoldUnits(d, i);
        item := item.(facts := f.(quantity := left), status := if left <= 0 then Sold else InStock);
      }
      items := items[i := item];
      Record(i, SoldAt, at);
    }

    /** Takes the sold stock away, row by row, recording each. */
    method Deplete(d: Demand, order: seq<nat>, at: int)
      requires AllBelow(order, |items|) && Distinct(order)
      modifies `items, `history, `now
      ensures Stand() == Commit(old(Stand()), WithSold(old(items), d, order), order, SoldAt, at)
    {
      ChangeNone(items, d);
      assert order[..0] == [];
      ghost var first := items;
      for k := 0 to |order|
        invariant |items| == |first| && items == WithSold(first, d, order[..k])
        invariant history == old(history) + Snapshots(items, order[..k], SoldAt, at)
      {
        SellOneMore(first, d, order, k, at);
        DepleteRow(d, order[k], at);
      }
      assert order[..|order|] == order;
      now := at;
    }

    method ScreenSale(env: Env, request: Request, order: seq<nat>) returns (d: Demand, refusal: Option<Refusal>)
      ensures d == Tally(request.cart) && refusal == Screened(Accounts(), env, request, order)
    {
      d := TallyCart(request.cart);
      if !CartFits(request.cart) { return d, Some(Invalid); }
      if Mixed(d) { return d, Some(MixedDemand); }
      if !AllBelow(order, |items|) { return d, Some(NotFound); }
      refusal := CheckItems(d, order);
      if refusal.Some? { return; }
      if !env.open { refusal := Some(ShopClosed); }
    }

    /** The sale and its number are written before the lines are priced; a refusal after that rolls them back. */
    method PriceSale(env: Env, request: Request, d: Demand, order: seq<nat>) returns (refusal: Option<Refusal>)
      requires AllBelow(order, |items|)
      modifies `sales, `lines, `nextSequence, `totalSales
      ensures var priced := LinesFor(env, items, d, order, |old(sales)|);
        refusal == if priced.None? then Some(NoMetalRate) else Confirmed(env, request, Total(priced.value))
      ensures refusal.Some? ==> Accounts() == old(Accounts())
      ensures refusal.None? ==>
        var priced := LinesFor(env, items, d, order, |old(sales)|).value;
        var sequence := FreeSequence(env, NumbersInUse(old(sales)), old(nextSequence));
        && sales == old(sales) + [Sale(InvoiceNo(env, sequence), Total(priced))] && lines == old(lines) + priced
        && nextSequence == sequence + 1 && totalSales == old(totalSales) + Total(priced)
    {
      var sequenceBefore, salesBefore := nextSequence, sales;
      var sequence := SearchSequence(env, NumbersInUse(sales), nextSequence);
      nextSequence := sequence + 1;
      sales := sales + [Sale(InvoiceNo(env, sequence), 0)];
      var priced, total, known := PriceLines(env, items, d, order, |salesBefore|);
      refusal := if known then Confirmed(env, request, total) else Some(NoMetalRate);
      if refusal.Some? {
        nextSequence, sales := sequenceBefore, salesBefore;
        return;
      }
      sales := sales[|salesBefore| := Sale(InvoiceNo(env, sequence), total)];
      lines := lines + priced;
      totalSales := totalSales + total;
    }

    method BookSale(env: Env, request: Request, d: Demand, order: seq<nat>, at: int) returns (refusal: Option<Refusal>)
      requires AllBelow(order, |items|) && Distinct(order)
      modifies `items, `history, `now, `sales, `lines, `nextSequence, `totalSales
      ensures refusal == PriceRefusal(old(Accounts()), env, request, d, order)
      ensures Accounts() == if refusal.Some? then old(Accounts())
                            else Booked(old(Accounts()), env, d, order, LinesFor(env, old(items), d, order, |old(sales)|).value, at)
    {
      refusal := PriceSale(env, request, d, order);
      if refusal.None? { Deplete(d, order, at); }
    }

    method ExecuteSale(env: Env, request: Request, order: seq<nat>, at: int) returns (r: Result<nat, Refusal>)
      requires IsOrder(order, Named(Tally(request.cart)))
      modifies `items, `history, `now, `sales, `lines, `nextSequence, `totalSales
      ensures var made := CheckedOut(old(Accounts()), env, request, order, at);
        if made.Ok? then r == Ok(|old(sales)|) && Accounts() == made.value else r == Err(made.error) && Accounts() == old(Accounts())
    {
      var sale := |sales|;
      var d, refusal := ScreenSale(env, request, order);
      if refusal.Some? { return Err(refusal.value); }
      refusal := BookSale(env, request, d, order, at);
      return if refusal.Some? then Err(refusal.value) else Ok(sale);
    }

    method Checkout(env: Env, key: string, request: Request, order: seq<nat>, at: int) returns (r: Result<nat, Refusal>)
      requires IsOrder(order, Named(Tally(request.cart)))
      modifies this
      ensures var answer := Answer(old(State()), env, key, request, order, at);
        if answer.Ok? then r == Ok(answer.value.1) && State() == answer.value.0
        else r == Err(answer.error) && State() == old(State())
    {
      if key in keys {
        if keys[key].0 != request { return Err(KeyReused); }
        return Ok(keys[key].1);
      }
      r := ExecuteSale(env, request, order, at);
      if r.Ok? { keys := keys[key := (request, r.value)]; }
    }
  }
}
