/** What a shop's ledger guarantees over its runs. */
module Runs {
  import opened Prelude
  import opened ItemContracts
  import opened Inventory
  import opened Checkout
  import opened Ledger

  // ---- conservation of weight ----

  /** One step changes nothing in the balance of an item that is weighed before and after it. */
  lemma StepKeepsOffset(db: Db, e: Event, i: nat)
    requires Inv(db) && IsWeighed(db.books, i) && IsWeighed(Apply(db, e).books, i)
    ensures Offset(Apply(db, e).books, i) == Offset(db.books, i)
  {
    if !e.op.Buy? {
      ShelfEventIsSafe(db, e);
      assert KeepsItem(db.books, i, Apply(db, e).books.shelf.items[i].facts);
    } else if Apply(db, e) != db {
      PurchaseKeepsOffset(db, e, i);
    }
  }

  /** A purchase that changes anything has a new key and an accepted checkout. */
  lemma PurchaseIsAccepted(db: Db, e: Event)
    requires e.op.Buy? && Apply(db, e) != db
    ensures IsOrder(e.op.order, Named(Tally(e.op.request.cart))) && e.op.key !in db.keys
    ensures var books := CheckedOut(db.books, e.op.env, e.op.request, e.op.order, At(db, e));
      books.Ok? && Apply(db, e) == Db(books.value, db.keys[e.op.key := (e.op.request, |db.books.sales|)])
  {
  }

  /** A step that books a sale, and the sale it books. */
  lemma PurchaseIsBooked(db: Db, e: Event) returns (lines: seq<Line>)
    requires Inv(db) && e.op.Buy? && Apply(db, e) != db
    ensures IsOrder(e.op.order, Named(Tally(e.op.request.cart))) && e.op.key !in db.keys
    ensures Bookable(db.books, e.op.env, Tally(e.op.request.cart), e.op.order, lines)
    ensures Apply(db, e).books == Booked(db.books, e.op.env, Tally(e.op.request.cart), e.op.order, lines, At(db, e))
    ensures Apply(db, e).keys == db.keys[e.op.key := (e.op.request, |db.books.sales|)]
  {
    PurchaseIsAccepted(db, e);
    lines := CheckedOutIsBooked(db.books, e.op.env, e.op.request, e.op.order, At(db, e));
  }

  lemma PurchaseKeepsOffset(db: Db, e: Event, i: nat)
    requires Inv(db) && e.op.Buy? && Apply(db, e) != db && IsWeighed(db.books, i)
    ensures IsWeighed(Apply(db, e).books, i) && Offset(Apply(db, e).books, i) == Offset(db.books, i)
  {
    var lines := PurchaseIsBooked(db, e);
    BookedKeepsOffset(db.books, e.op.env, Tally(e.op.request.cart), e.op.order, lines, At(db, e), i);
  }

  /** The item is weighed in this state and after each of the events. */
  predicate StaysWeighed(db: Db, events: seq<Event>, i: nat)
    decreases |events|
  {
    IsWeighed(db.books, i) && (events == [] || StaysWeighed(Apply(db, events[0]), events[1..], i))
  }

  /**
   * As long as an item stays in weight mode, its total less its stock is what its sale lines took plus a
   * constant: no edit of the total loses or invents consumed weight.
   */
  lemma {:induction false} WeightIsConserved(db: Db, events: seq<Event>, i: nat)
    requires Inv(db) && StaysWeighed(db, events, i)
    ensures var after := Execute(db, events).books;
      && IsWeighed(after, i)
      && Consumed(after.shelf.items[i].facts) - SoldOf(after.lines, i)
         == Consumed(db.books.shelf.items[i].facts) - SoldOf(db.books.lines, i)
    decreases |events|
  {
    if events != [] {
      StepKeepsOffset(db, events[0], i);
      StepKeepsInv(db, events[0]);
      WeightIsConserved(Apply(db, events[0]), events[1..], i);
    }
  }

  lemma PurchaseKeepsSales(db: Db, e: Event, i: nat)
    requires Inv(db) && e.op.Buy? && Apply(db, e) != db && HasSale(db.books.lines, i)
    ensures HasSale(Apply(db, e).books.lines, i)
  {
    var k :| 0 <= k < |db.books.lines| && db.books.lines[k].item == i;
    var lines := PurchaseIsBooked(db, e);
    assert Apply(db, e).books.lines == db.books.lines + lines;
    assert (db.books.lines + lines)[k].item == i;
  }

  lemma SoldItemStaysWeighed(db: Db, e: Event, i: nat)
    requires Inv(db) && IsWeighed(db.books, i) && HasSale(db.books.lines, i)
    ensures IsWeighed(Apply(db, e).books, i) && HasSale(Apply(db, e).books.lines, i)
  {
    if !e.op.Buy? {
      ShelfEventIsSafe(db, e);
      assert KeepsItem(db.books, i, Apply(db, e).books.shelf.items[i].facts);
    } else if Apply(db, e) != db {
      PurchaseKeepsOffset(db, e, i);
      PurchaseKeepsSales(db, e, i);
    }
  }

  /** Once a weighed item has been sold from, it stays weighed, so its balance is fixed for good. */
  lemma {:induction false} SoldItemsStayWeighed(db: Db, events: seq<Event>, i: nat)
    requires Inv(db) && IsWeighed(db.books, i) && HasSale(db.books.lines, i)
    ensures StaysWeighed(db, events, i)
    decreases |events|
  {
    if events != [] {
      SoldItemStaysWeighed(db, events[0], i);
      StepKeepsInv(db, events[0]);
      SoldItemsStayWeighed(Apply(db, events[0]), events[1..], i);
    }
  }

  /** No run sells more of a weighed item than its total weight, and what is left is never negative. */
  lemma NothingIsOversold(events: seq<Event>, i: nat)
    requires IsWeighed(Execute(Opened, events).books, i)
    ensures var b := Execute(Opened, events).books; var f := b.shelf.items[i].facts;
      0 <= Weighed(f) <= f.netWeight && SoldOf(b.lines, i) + Weighed(f) <= f.netWeight
  {
    OpenedIsOk();
    AlwaysInv(Opened, events);
    var b := Execute(Opened, events).books;
    assert RowOk(b.shelf.items[i]);
    assert Offset(b, i) >= 0;
  }

  // ---- items created in the shop ----

  /** All that is gone from the item, while it is weighed, was sold. */
  predicate SoldAccountsFor(db: Db, i: nat) {
    i < |db.books.shelf.items| && (IsWeighed(db.books, i) ==> Offset(db.books, i) == 0)
  }

  lemma ShelfKeepsAccount(db: Db, e: Event, i: nat)
    requires Inv(db) && SoldAccountsFor(db, i) && !e.op.Buy?
    ensures SoldAccountsFor(Apply(db, e), i)
  {
    ShelfEventIsSafe(db, e);
    assert KeepsItem(db.books, i, Apply(db, e).books.shelf.items[i].facts);
    if IsWeighed(Apply(db, e).books, i) && !IsWeighed(db.books, i) {
      assert !HasSale(db.books.lines, i);
      UnsoldHasNone(db.books.lines, i);
    }
  }

  lemma StepKeepsAccount(db: Db, e: Event, i: nat)
    requires Inv(db) && SoldAccountsFor(db, i)
    ensures SoldAccountsFor(Apply(db, e), i)
  {
    if !e.op.Buy? {
      ShelfKeepsAccount(db, e, i);
    } else if Apply(db, e) != db {
      var lines := PurchaseIsBooked(db, e);
      BookedKeepsMode(db.books, e.op.env, Tally(e.op.request.cart), e.op.order, lines, At(db, e), i);
      if IsWeighed(db.books, i) { PurchaseKeepsOffset(db, e, i); }
    }
  }

  lemma {:induction false} RunKeepsAccount(db: Db, events: seq<Event>, i: nat)
    requires Inv(db) && SoldAccountsFor(db, i)
    ensures SoldAccountsFor(Execute(db, events), i)
    decreases |events|
  {
    if events != [] {
      StepKeepsAccount(db, events[0], i);
      StepKeepsInv(db, events[0]);
      RunKeepsAccount(Apply(db, events[0]), events[1..], i);
    }
  }

  lemma NewItemIsUnsold(b: Books)
    requires LinesFit(b)
    ensures SoldOf(b.lines, |b.shelf.items|) == 0
  {
    UnsoldHasNone(b.lines, |b.shelf.items|);
  }

  /**
   * An item that was created in the shop, not imported, starts whole; in every state of every run after that, whatever
   * is gone from it while it is weighed is what its sale lines took.
   */
  lemma CreatedItemsBalance(db: Db, e: Event, events: seq<Event>)
    requires Inv(db) && e.op.CreateItem? && Apply(db, e) != db
    ensures var i, b := |db.books.shelf.items|, Execute(Apply(db, e), events).books;
      && i < |b.shelf.items|
      && (IsWeighed(b, i) ==> Consumed(b.shelf.items[i].facts) == SoldOf(b.lines, i))
  {
    var i, shelf := |db.books.shelf.items|, db.books.shelf;
    var made := Create(shelf, e.op.env, e.op.payload, e.op.draw, At(db, e));
    assert Apply(db, e) == OnShelf(db, made);
    CreatedIsWhole(shelf, e.op.env, e.op.payload, e.op.draw, At(db, e));
    NewItemIsUnsold(db.books);
    StepKeepsInv(db, e);
    RunKeepsAccount(Apply(db, e), events, i);
  }

  // ---- contracts ----

  /** In every state of every run, every row meets the four table contracts. */
  lemma ContractsAlwaysHold(events: seq<Event>, i: nat)
    requires i < |Execute(Opened, events).books.shelf.items|
    ensures var f := Execute(Opened, events).books.shelf.items[i].facts;
      SignContract(f) && TypeContract(f) && StockContract(f) && PricingContract(f)
  {
    OpenedIsOk();
    AlwaysInv(Opened, events);
    assert RowOk(Execute(Opened, events).books.shelf.items[i]);
  }

  // ---- checkouts ----

  lemma KeysStay(db: Db, e: Event, key: string)
    requires key in db.keys
    ensures key in Apply(db, e).keys && Apply(db, e).keys[key] == db.keys[key]
  {
    if !e.op.Buy? { ShelfEventsKeepKeys(db, e); }
  }

  lemma ShelfEventsKeepKeys(db: Db, e: Event)
    requires !e.op.Buy?
    ensures Apply(db, e).keys == db.keys && Apply(db, e).books.sales == db.books.sales
    ensures Apply(db, e).books.nextSequence == db.books.nextSequence
  {
  }

  lemma {:induction false} KeysStayForGood(db: Db, events: seq<Event>, key: string)
    requires key in db.keys
    ensures key in Execute(db, events).keys && Execute(db, events).keys[key] == db.keys[key]
    decreases |events|
  {
    if events != [] {
      KeysStay(db, events[0], key);
      KeysStayForGood(Apply(db, events[0]), events[1..], key);
    }
  }

  lemma AnsweredKey(db: Db, env: Env, key: string, r: Request, order: seq<nat>, at: int)
    requires Answer(db, env, key, r, order, at).Ok?
    ensures var (after, sale) := Answer(db, env, key, r, order, at).value;
      key in after.keys && after.keys[key] == (r, sale)
  {
  }

  /**
   * A checkout that succeeded is never carried out again: after any further events, a retry with the same body
   * returns the same sale and changes nothing, and another body under the key is refused.
   */
  lemma CheckoutHappensOnce(
      db: Db, env: Env, key: string, r: Request, order: seq<nat>, at: int, events: seq<Event>,
      env2: Env, r2: Request, order2: seq<nat>, at2: int)
    requires Answer(db, env, key, r, order, at).Ok?
    ensures var (first, sale) := Answer(db, env, key, r, order, at).value;
      var later := Execute(first, events);
      Answer(later, env2, key, r2, order2, at2) == if r2 == r then Ok((later, sale)) else Err(KeyReused)
  {
    AnsweredKey(db, env, key, r, order, at);
    KeysStayForGood(Answer(db, env, key, r, order, at).value.0, events, key);
  }

  /** Keys and sales correspond one to one, and the running total is the sum of all line prices. */
  lemma OneSalePerKey(events: seq<Event>)
    ensures var db := Execute(Opened, events);
      && |db.keys| == |db.books.sales| && (forall k :: k in db.keys ==> db.keys[k].1 < |db.books.sales|)
      && (forall j, k :: j in db.keys && k in db.keys && j != k ==> db.keys[j].1 != db.keys[k].1)
      && db.books.totalSales == Total(db.books.lines)
      && forall s :: 0 <= s < |db.books.sales| ==> db.books.sales[s].total == Total(LinesOf(db.books.lines, s))
  {
    OpenedIsOk();
    AlwaysInv(Opened, events);
  }

  /** Each sale moves the sequence past its own number; nothing else moves it. */
  lemma SequenceAdvances(db: Db, e: Event)
    requires Inv(db)
    ensures var after := Apply(db, e).books;
      if after.sales == db.books.sales then after.nextSequence == db.books.nextSequence
      else
        && after.nextSequence > db.books.nextSequence && |after.sales| == |db.books.sales| + 1
        && after.nextSequence <= db.books.nextSequence + |db.books.sales| + 1
        && e.op.Buy? && after.sales[|db.books.sales|].invoiceNo == InvoiceNo(e.op.env, after.nextSequence - 1)
  {
    if !e.op.Buy? {
      ShelfEventsKeepKeys(db, e);
    } else if Apply(db, e) != db {
      var lines := PurchaseIsBooked(db, e);
      var used := NumbersInUse(db.books.sales);
      FreeSequenceIsFirst(e.op.env, used, db.books.nextSequence);
      FewerNumbersThanSales(db.books.sales);
    }
  }

  lemma {:induction false} FewerNumbersThanSales(sales: seq<Sale>)
    ensures |NumbersInUse(sales)| <= |sales|
  {
    if sales != [] {
      var last := |sales| - 1;
      FewerNumbersThanSales(sales[..last]);
      assert NumbersInUse(sales) == NumbersInUse(sales[..last]) + {sales[last].invoiceNo};
    }
  }

  /** Invoice numbers are unique in every run, whatever becomes of the prefix and the year. */
  lemma InvoiceNumbersAreUnique(events: seq<Event>, j: nat, k: nat)
    requires j < k < |Execute(Opened, events).books.sales|
    ensures Execute(Opened, events).books.sales[j].invoiceNo != Execute(Opened, events).books.sales[k].invoiceNo
  {
    OpenedIsOk();
    AlwaysInv(Opened, events);
  }

  // ---- the cap ----

  function LimitOf(op: Op): Option<nat> {
    match op
    case CreateItem(env, _, _) => env.itemLimit
    case UpdateItem(env, _, _) => env.itemLimit
    case ImportItems(env, _, _) => env.itemLimit
    case _ => Some(0)
  }

  lemma CreateStaysCapped(db: Db, e: Event)
    requires Inv(db) && e.op.CreateItem?
    ensures StaysCapped(db.books.shelf.items, Apply(db, e).books.shelf.items, e.op.env.itemLimit)
  {
    var made := Create(db.books.shelf, e.op.env, e.op.payload, e.op.draw, At(db, e));
    assert Apply(db, e) == OnShelf(db, made);
    if made.Ok? { CreateIsSound(db.books.shelf, e.op.env, e.op.payload, e.op.draw, At(db, e)); }
  }

  lemma UpdateStaysCapped(db: Db, e: Event)
    requires Inv(db) && e.op.UpdateItem?
    ensures StaysCapped(db.books.shelf.items, Apply(db, e).books.shelf.items, e.op.env.itemLimit)
  {
    var hasSale := HasSale(db.books.lines, e.op.item);
    var made := Update(db.books.shelf, e.op.env, hasSale, e.op.item, e.op.requested, At(db, e));
    assert Apply(db, e) == OnShelf(db, made);
    if made.Ok? { UpdateIsSound(db.books.shelf, e.op.env, hasSale, e.op.item, e.op.requested, At(db, e)); }
  }

  lemma ImportStaysCapped(db: Db, e: Event)
    requires Inv(db) && e.op.ImportItems?
    ensures StaysCapped(db.books.shelf.items, Apply(db, e).books.shelf.items, e.op.env.itemLimit)
  {
    var made := Import(db.books.shelf, e.op.env, e.op.payloads, e.op.draws, At(db, e));
    assert Apply(db, e) == OnShelf(db, made);
    if made.Ok? { ImportIsSound(db.books.shelf, e.op.env, e.op.payloads, e.op.draws, At(db, e)); }
  }

  lemma ClearingAddsNoneActive(db: Db, e: Event)
    requires Inv(db) && e.op.ClearInventory?
    ensures ActiveCount(Apply(db, e).books.shelf.items) <= ActiveCount(db.books.shelf.items)
  {
    var shelf := db.books.shelf;
    assert Apply(db, e) == WithShelf(db, Clear(shelf, At(db, e)));
    ArchivingIsSound(shelf, Stocked(shelf.items), At(db, e));
  }

  lemma DeletingAddsNoneActive(db: Db, e: Event)
    requires Inv(db) && e.op.DeleteItems?
    ensures ActiveCount(Apply(db, e).books.shelf.items) <= ActiveCount(db.books.shelf.items)
  {
    var shelf, made := db.books.shelf, Archive(db.books.shelf, e.op.ids, At(db, e));
    assert Apply(db, e) == OnShelf(db, made);
    if made.Ok? {
      ArchiveNeedsRetirable(shelf, e.op.ids, At(db, e));
      ArchivingIsSound(shelf, e.op.ids, At(db, e));
    }
  }

  /**
   * No operation takes the active items past the larger of their present number and the plan's limit; deleting,
   * clearing and selling never add any.
   */
  lemma ActiveItemsStayCapped(db: Db, e: Event)
    requires Inv(db)
    ensures StaysCapped(db.books.shelf.items, Apply(db, e).books.shelf.items, LimitOf(e.op))
  {
    match e.op
    case CreateItem(_, _, _) => CreateStaysCapped(db, e);
    case UpdateItem(_, _, _) => UpdateStaysCapped(db, e);
    case ImportItems(_, _, _) => ImportStaysCapped(db, e);
    case DeleteItems(_) => DeletingAddsNoneActive(db, e);
    case ClearInventory => ClearingAddsNoneActive(db, e);
    case Buy(_, _, _, _) => if Apply(db, e) != db { PurchaseAddsNoneActive(db, e); }
  }

  lemma PurchaseAddsNoneActive(db: Db, e: Event)
    requires Inv(db) && e.op.Buy? && Apply(db, e) != db
    ensures ActiveCount(Apply(db, e).books.shelf.items) <= ActiveCount(db.books.shelf.items)
  {
    var lines := PurchaseIsBooked(db, e);
    SaleKeepsRows(db.books.shelf.items, Tally(e.op.request.cart), e.op.order);
  }
}
