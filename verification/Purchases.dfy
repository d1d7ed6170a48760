/** What one checkout leaves behind: its lines and their prices, the rows it sold from, and their history. */
module Purchases {
  import opened Prelude
  import opened ItemContracts
  import opened Inventory
  import opened Checkout
  import opened Ledger
  import opened Runs

  /** The line takes what the cart asks of the item, at the right price. */
  predicate SellsAsked(env: Env, item: Item, cart: seq<CartLine>, i: nat, line: Line) {
    && line.item == i && RightlyPriced(env, item.facts, line)
    && (if NamesGrams(cart, i) then line.soldWeight == Some(WeightOf(cart, i)) && line.units == 1
        else line.soldWeight == None && line.units == UnitsOf(cart, i))
  }

  /** The row without what the cart asked: never less than nothing, and sold once nothing is left. */
  predicate TakesAsked(item: Item, cart: seq<CartLine>, i: nat, after: Item) {
    var f := item.facts;
    if f.stockMode == ByWeight then
      var left := Weighed(f) - WeightOf(cart, i);
      && left >= 0
      && after == Item(f.(stockWeight := Some(left), quantity := if left > 0 then 1 else 0), item.barcode, item.name, item.notes,
                       if left > 0 then InStock else Sold)
    else
      var left := f.quantity - UnitsOf(cart, i);
      && left >= 0
      && after == Item(f.(quantity := left), item.barcode, item.name, item.notes, if left > 0 then InStock else Sold)
  }

  /** The new lines: one for each item, of the new sale, as asked and rightly priced. */
  predicate HasNewLines(before: Books, after: Books, env: Env, cart: seq<CartLine>, order: seq<nat>) {
    && |after.lines| == |before.lines| + |order| && before.lines <= after.lines
    && forall k :: 0 <= k < |order| ==>
         var line := after.lines[|before.lines| + k];
         && order[k] < |before.shelf.items| && line.sale == |before.sales|
         && SellsAsked(env, before.shelf.items[order[k]], cart, order[k], line)
  }

  /** The rows sold from, and no others, are changed, and each of those is recorded once. */
  predicate HasSoldRows(before: Shelf, after: Shelf, cart: seq<CartLine>, order: seq<nat>, at: int) {
    && |after.items| == |before.items| && after.now == at
    && (forall i :: 0 <= i < |after.items| ==>
          if i in order then TakesAsked(before.items[i], cart, i, after.items[i]) else after.items[i] == before.items[i])
    && |after.history| == |before.history| + |order| && before.history <= after.history
    && forall k :: 0 <= k < |order| ==>
         && order[k] < |after.items|
         && after.history[|before.history| + k] == Entry(order[k], SoldAt, after.items[order[k]].facts, after.items[order[k]].status, at)
  }

  lemma CoveredRow(items: seq<Item>, cart: seq<CartLine>, i: nat)
    requires Covered(items, Tally(cart), i) && RowOk(items[i])
    ensures TakesAsked(items[i], cart, i, Sell(items[i], Tally(cart), i))
  {
    TallyIsTotal(cart, i);
    SaleKeepsRow(items, Tally(cart), i);
  }

  lemma SoldRows(b: Books, env: Env, cart: seq<CartLine>, order: seq<nat>, lines: seq<Line>, at: int)
    requires BooksOk(b) && Bookable(b, env, Tally(cart), order, lines)
    ensures HasSoldRows(b.shelf, Booked(b, env, Tally(cart), order, lines, at).shelf, cart, order, at)
  {
    var d, items := Tally(cart), b.shelf.items;
    var after := Booked(b, env, d, order, lines, at).shelf;
    var sold := WithSold(items, d, order);
    forall i | 0 <= i < |items| && i in order ensures TakesAsked(items[i], cart, i, sold[i]) {
      var k :| 0 <= k < |order| && order[k] == i;
      assert Covered(items, d, order[k]) && RowOk(items[i]);
      CoveredRow(items, cart, i);
    }
    forall k | 0 <= k < |order|
      ensures after.history[|b.shelf.history| + k] == Entry(order[k], SoldAt, sold[order[k]].facts, sold[order[k]].status, at)
    {
      assert Snapshots(sold, order, SoldAt, at)[k] == Snapshot(sold, order[k], SoldAt, at);
    }
  }

  lemma NewLineIsRight(b: Books, env: Env, cart: seq<CartLine>, order: seq<nat>, lines: seq<Line>, k: nat)
    requires BooksOk(b) && Bookable(b, env, Tally(cart), order, lines) && !Mixed(Tally(cart)) && k < |order|
    ensures |lines| == |order| && order[k] < |b.shelf.items| && lines[k].sale == |b.sales|
    ensures SellsAsked(env, b.shelf.items[order[k]], cart, order[k], lines[k])
  {
    var d, i, items := Tally(cart), order[k], b.shelf.items;
    LineAt(env, items, d, order, |b.sales|, k);
    assert RowOk(items[i]) && Covered(items, d, i);
    assert i !in d.units.Keys * d.weights.Keys;
    LineForIsRight(env, items, d, i, |b.sales|);
    TallyIsTotal(cart, i);
    TallyNames(cart, i);
  }

  lemma LinesAreAppended(before: Books, after: Books, env: Env, cart: seq<CartLine>, order: seq<nat>, lines: seq<Line>)
    requires after.lines == before.lines + lines && |lines| == |order| && AllBelow(order, |before.shelf.items|)
    requires forall k :: 0 <= k < |order| ==>
               lines[k].sale == |before.sales| && SellsAsked(env, before.shelf.items[order[k]], cart, order[k], lines[k])
    ensures HasNewLines(before, after, env, cart, order)
  {
    forall k | 0 <= k < |order| ensures after.lines[|before.lines| + k] == lines[k] {
      Appended(before.lines, lines, k);
    }
  }

  lemma NewLines(b: Books, env: Env, cart: seq<CartLine>, order: seq<nat>, lines: seq<Line>, at: int)
    requires BooksOk(b) && Bookable(b, env, Tally(cart), order, lines) && !Mixed(Tally(cart))
    ensures HasNewLines(b, Booked(b, env, Tally(cart), order, lines, at), env, cart, order)
  {
    forall k | 0 <= k < |order|
      ensures |lines| == |order| && lines[k].sale == |b.sales| && SellsAsked(env, b.shelf.items[order[k]], cart, order[k], lines[k])
    {
      NewLineIsRight(b, env, cart, order, lines, k);
    }
    LinesAreAppended(b, Booked(b, env, Tally(cart), order, lines, at), env, cart, order, lines);
  }

  lemma AcceptedIsNotMixed(b: Books, env: Env, r: Request, order: seq<nat>, at: int)
    requires CheckedOut(b, env, r, order, at).Ok?
    ensures !Mixed(Tally(r.cart))
  {
  }

  /**
   * A checkout that is carried out sells exactly what its cart asks: one rightly priced line for each item, the rows
   * without what was asked of them, one history entry each, and one sale of the lines' total.
   */
  lemma PurchaseIsRight(db: Db, e: Event)
    requires Inv(db) && e.op.Buy? && Apply(db, e) != db
    ensures var before, after, cart, order := db.books, Apply(db, e).books, e.op.request.cart, e.op.order;
      && HasNewLines(before, after, e.op.env, cart, order)
      && HasSoldRows(before.shelf, after.shelf, cart, order, At(db, e))
      && |after.sales| == |before.sales| + 1 && before.sales <= after.sales
      && after.sales[|before.sales|].total == Total(after.lines[|before.lines|..])
      && after.totalSales == before.totalSales + after.sales[|before.sales|].total
      && (e.op.request.confirmedTotal.Some? ==> after.sales[|before.sales|].total == e.op.request.confirmedTotal.value)
      && (e.op.env.hosted ==> e.op.request.confirmedTotal.Some?)
  {
    var b, env, r, order, at := db.books, e.op.env, e.op.request, e.op.order, At(db, e);
    PurchaseIsAccepted(db, e);
    var lines := PurchaseIsBooked(db, e);
    AcceptedIsNotMixed(b, env, r, order, at);
    NewLines(b, env, r.cart, order, lines, at);
    SoldRows(b, env, r.cart, order, lines, at);
    CheckedOutExactly(b, env, r, order, at);
    assert (b.lines + lines)[|b.lines|..] == lines;
  }
}
