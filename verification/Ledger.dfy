/** A shop's inventory and sales as one machine: every operation, over every run. */
module Ledger {
  import opened Prelude
  import opened ItemContracts
  import opened Inventory
  import opened Checkout

  /** Books, and for every checkout key the body it was first used with and the sale it made. */
  datatype Db = Db(books: Books, keys: map<string, (Request, nat)>)

  datatype Op =
    | CreateItem(env: Env, payload: Payload, draw: string)
    | UpdateItem(env: Env, item: nat, requested: Payload)
    | DeleteItems(ids: seq<nat>)
    | ClearInventory
    | ImportItems(env: Env, payloads: seq<Payload>, draws: seq<string>)
    | Buy(env: Env, key: string, request: Request, order: seq<nat>)

  /** An operation, and how long after the last committed one it is performed. */
  datatype Event = Event(wait: nat, op: Op)

  const Opened := Db(Books(Shelf([], [], 0), [], [], 1, 0), map[])

  predicate HasSale(lines: seq<Line>, i: nat) {
    exists k :: 0 <= k < |lines| && lines[k].item == i
  }

  function WithShelf(db: Db, shelf: Shelf): Db { db.(books := db.books.(shelf := shelf)) }

  function OnShelf(db: Db, shelf: Result<Shelf, Refusal>): Db {
    if shelf.Ok? then WithShelf(db, shelf.value) else db
  }

  /** The answer of a checkout: the database afterwards and the sale, or a refusal that changes nothing. */
  function Answer(db: Db, env: Env, key: string, request: Request, order: seq<nat>, at: int): Result<(Db, nat), Refusal> {
    if key in db.keys then
      if db.keys[key].0 != request then Err(KeyReused) else Ok((db, db.keys[key].1))
    else
      var books := CheckedOut(db.books, env, request, order, at);
      if books.Err? then Err(books.error)
      else Ok((Db(books.value, db.keys[key := (request, |db.books.sales|)]), |db.books.sales|))
  }

  /** A new key is answered by the checkout itself, and remembers its body and its sale; an old one by what it remembers. */
  lemma AnswersExactly(db: Db, env: Env, key: string, request: Request, order: seq<nat>, at: int)
    ensures var answer, books := Answer(db, env, key, request, order, at), CheckedOut(db.books, env, request, order, at);
      if key in db.keys then
        if db.keys[key].0 == request then answer == Ok((db, db.keys[key].1)) else answer == Err(KeyReused)
      else
        && (answer.Ok? <==> books.Ok?) && (books.Err? ==> answer == Err(books.error))
        && (books.Ok? ==> answer.value.0.books == books.value && answer.value.1 == |db.books.sales|
                          && answer.value.0.keys == db.keys[key := (request, |db.books.sales|)])
  {
  }

  function At(db: Db, e: Event): int { db.books.shelf.now + 1 + e.wait }

  /** Refused operations change nothing; a checkout is performed in some order of its items. */
  function Apply(db: Db, e: Event): Db {
    var shelf, at := db.books.shelf, At(db, e);
    match e.op
    case CreateItem(env, p, draw) => OnShelf(db, Create(shelf, env, p, draw, at))
    case UpdateItem(env, i, r) => OnShelf(db, Update(shelf, env, HasSale(db.books.lines, i), i, r, at))
    case DeleteItems(ids) => OnShelf(db, Archive(shelf, ids, at))
    case ClearInventory => WithShelf(db, Clear(shelf, at))
    case ImportItems(env, ps, draws) => OnShelf(db, Import(shelf, env, ps, draws, at))
    case Buy(env, key, request, order) =>
      if !IsOrder(order, Named(Tally(request.cart))) then db
      else
        var answer := Answer(db, env, key, request, order, at);
        if answer.Ok? then answer.value.0 else db
  }

  function Execute(db: Db, events: seq<Event>): Db
    decreases |events|
  {
    if events == [] then db else Execute(Apply(db, events[0]), events[1..])
  }

  // ---- the invariant ----

  function SoldIn(line: Line): nat { if line.soldWeight.Some? then line.soldWeight.value else 0 }

  /** The weight of an item that sale lines have taken. */
  function SoldOf(lines: seq<Line>, i: nat): nat {
    if lines == [] then 0
    else SoldOf(lines[..|lines| - 1], i) + (if lines[|lines| - 1].item == i then SoldIn(lines[|lines| - 1]) else 0)
  }

  /** The part of a weighed item's consumed weight that no sale accounts for: fixed when it is imported. */
  function Offset(b: Books, i: nat): int
    requires i < |b.shelf.items|
  {
    Consumed(b.shelf.items[i].facts) - SoldOf(b.lines, i)
  }

  predicate IsWeighed(b: Books, i: nat) {
    i < |b.shelf.items| && b.shelf.items[i].facts.stockMode == ByWeight
  }

  /** Sales never take more of a weighed item than has left its stock. */
  predicate Conserved(b: Books) {
    forall i :: 0 <= i < |b.shelf.items| && IsWeighed(b, i) ==> Offset(b, i) >= 0
  }

  /** Lines belong to known sales and items, and are by weight exactly when their item is. */
  predicate LinesFit(b: Books) {
    forall k :: 0 <= k < |b.lines| ==>
      && b.lines[k].item < |b.shelf.items| && b.lines[k].sale < |b.sales|
      && (b.lines[k].soldWeight.Some? <==> IsWeighed(b, b.lines[k].item))
  }

  function LinesOf(lines: seq<Line>, sale: nat): seq<Line> {
    if lines == [] then []
    else LinesOf(lines[..|lines| - 1], sale) + (if lines[|lines| - 1].sale == sale then [lines[|lines| - 1]] else [])
  }

  /** Every sale's total is that of its lines, and the running total that of all lines. */
  predicate AddsUp(b: Books) {
    && b.totalSales == Total(b.lines)
    && forall s :: 0 <= s < |b.sales| ==> b.sales[s].total == Total(LinesOf(b.lines, s))
  }

  predicate NumbersDiffer(sales: seq<Sale>) {
    forall j, k :: 0 <= j < k < |sales| ==> sales[j].invoiceNo != sales[k].invoiceNo
  }

  predicate BooksOk(b: Books) {
    ShelfOk(b.shelf) && Conserved(b) && LinesFit(b) && AddsUp(b) && NumbersDiffer(b.sales)
  }

  /** Every key made one sale and every sale was made by one key. */
  predicate KeysMatch(db: Db) {
    && (forall k :: k in db.keys ==> db.keys[k].1 < |db.books.sales|)
    && (forall j, k :: j in db.keys && k in db.keys && j != k ==> db.keys[j].1 != db.keys[k].1)
    && |db.keys| == |db.books.sales|
  }

  predicate Inv(db: Db) { BooksOk(db.books) && KeysMatch(db) }

  // ---- editing the shelf ----

  /** What an operation on the shelf may do to the items that sales refer to. */
  predicate KeepsItems(b: Books, after: seq<Item>) {
    && |b.shelf.items| <= |after|
    && (forall i :: 0 <= i < |b.shelf.items| ==> KeepsItem(b, i, after[i].facts))
    && forall i :: |b.shelf.items| <= i < |after| ==> (after[i].facts.stockMode == ByWeight ==> Consumed(after[i].facts) >= 0)
  }

  /** A weighed item's consumption does not change, and an item that starts to be weighed has had no sale. */
  predicate KeepsItem(b: Books, i: nat, g: Facts)
    requires i < |b.shelf.items|
  {
    var f := b.shelf.items[i].facts;
    && (g.stockMode == ByWeight ==> Consumed(g) == if f.stockMode == ByWeight then Consumed(f) else 0)
    && (HasSale(b.lines, i) ==> g.stockMode == f.stockMode)
  }

  lemma {:induction false} UnsoldHasNone(lines: seq<Line>, i: nat)
    requires !HasSale(lines, i)
    ensures SoldOf(lines, i) == 0
  {
    if lines != [] {
      var last := |lines| - 1;
      assert forall k :: 0 <= k < last ==> lines[..last][k] == lines[k];
      assert !HasSale(lines[..last], i);
      UnsoldHasNone(lines[..last], i);
    }
  }

  lemma ShelfStepKeepsBooks(b: Books, shelf: Shelf)
    requires BooksOk(b) && ShelfOk(shelf) && KeepsItems(b, shelf.items)
    ensures BooksOk(b.(shelf := shelf))
  {
    var after := b.(shelf := shelf);
    forall i | 0 <= i < |shelf.items| && IsWeighed(after, i) ensures Offset(after, i) >= 0 {
      if i >= |b.shelf.items| || !IsWeighed(b, i) {
        assert !HasSale(b.lines, i);
        UnsoldHasNone(b.lines, i);
        if i < |b.shelf.items| { assert KeepsItem(b, i, shelf.items[i].facts); }
      } else {
        assert KeepsItem(b, i, shelf.items[i].facts);
        assert IsWeighed(b, i) && Offset(b, i) >= 0;
      }
    }
    forall k | 0 <= k < |b.lines| ensures b.lines[k].soldWeight.Some? <==> IsWeighed(after, b.lines[k].item) {
      assert HasSale(b.lines, b.lines[k].item);
      assert KeepsItem(b, b.lines[k].item, shelf.items[b.lines[k].item].facts);
    }
  }

  lemma NewItemsKeep(b: Books, added: seq<Item>)
    requires RowsOk(added)
    ensures KeepsItems(b, b.shelf.items + added)
  {
    var after := b.shelf.items + added;
    forall i | |b.shelf.items| <= i < |after| ensures after[i].facts.stockMode == ByWeight ==> Consumed(after[i].facts) >= 0 {
      assert RowOk(added[i - |b.shelf.items|]);
    }
  }

  lemma CreateKeeps(db: Db, env: Env, p: Payload, draw: string, at: int)
    requires Inv(db) && db.books.shelf.now < at && Create(db.books.shelf, env, p, draw, at).Ok?
    ensures ShelfOk(Create(db.books.shelf, env, p, draw, at).value)
    ensures KeepsItems(db.books, Create(db.books.shelf, env, p, draw, at).value.items)
  {
    CreateIsSound(db.books.shelf, env, p, draw, at);
    CreateEffect(db.books.shelf, env, p, draw, at);
    var d := AcceptedNew(p).value;
    var item := NewItem(d, if WantsBarcode(d) then draw else d.barcode.value);
    NewRowOk(d, item.barcode);
    NewItemsKeep(db.books, [item]);
  }

  lemma ImportKeeps(db: Db, env: Env, ps: seq<Payload>, draws: seq<string>, at: int)
    requires Inv(db) && db.books.shelf.now < at && Import(db.books.shelf, env, ps, draws, at).Ok?
    ensures ShelfOk(Import(db.books.shelf, env, ps, draws, at).value)
    ensures KeepsItems(db.books, Import(db.books.shelf, env, ps, draws, at).value.items)
  {
    var shelf := db.books.shelf;
    ImportIsSound(shelf, env, ps, draws, at);
    var after := Import(shelf, env, ps, draws, at).value;
    assert RowsOk(after.items);
    var added := after.items[|shelf.items|..];
    assert after.items == shelf.items + added;
    NewItemsKeep(db.books, added);
  }

  lemma UpdateKeeps(db: Db, env: Env, i: nat, r: Payload, at: int)
    requires var hasSale := HasSale(db.books.lines, i);
      Inv(db) && db.books.shelf.now < at && Update(db.books.shelf, env, hasSale, i, r, at).Ok?
    ensures var hasSale := HasSale(db.books.lines, i);
      && ShelfOk(Update(db.books.shelf, env, hasSale, i, r, at).value)
      && KeepsItems(db.books, Update(db.books.shelf, env, hasSale, i, r, at).value.items)
  {
    var items, hasSale := db.books.shelf.items, HasSale(db.books.lines, i);
    UpdateIsSound(db.books.shelf, env, hasSale, i, r, at);
    EditConservesWeight(items, env, hasSale, i, r);
    var after := items[i := Edit(items, env, hasSale, i, r).value];
    forall j | 0 <= j < |items| ensures KeepsItem(db.books, j, after[j].facts) {
      if j != i { assert after[j] == items[j]; }
    }
  }

  lemma RetiringKeeps(db: Db, ids: seq<nat>, at: int)
    requires Inv(db) && db.books.shelf.now < at && Retirable(db.books.shelf.items, ids)
    ensures var items := WithRetired(db.books.shelf.items, ids);
      ShelfOk(Commit(db.books.shelf, items, ids, ArchivedAt, at)) && KeepsItems(db.books, items)
  {
    ArchivingIsSound(db.books.shelf, ids, at);
    var items, after := db.books.shelf.items, WithRetired(db.books.shelf.items, ids);
    forall j | 0 <= j < |items| ensures KeepsItem(db.books, j, after[j].facts) {
    }
  }

  lemma ArchiveNeedsRetirable(s: Shelf, ids: seq<nat>, at: int)
    requires Archive(s, ids, at).Ok?
    ensures Retirable(s.items, ids)
    ensures Archive(s, ids, at).value == Commit(s, WithRetired(s.items, ids), ids, ArchivedAt, at)
  {
  }

  /** The step touches the shelf alone, soundly, and keeps the weights of the items already on it. */
  predicate ShelfSafe(db: Db, after: Db) {
    after == WithShelf(db, after.books.shelf) && ShelfOk(after.books.shelf) && KeepsItems(db.books, after.books.shelf.items)
  }

  lemma NothingIsSafe(db: Db)
    requires Inv(db)
    ensures ShelfSafe(db, db)
  {
  }

  lemma CreateIsSafe(db: Db, e: Event)
    requires Inv(db) && e.op.CreateItem?
    ensures ShelfSafe(db, Apply(db, e))
  {
    var made := Create(db.books.shelf, e.op.env, e.op.payload, e.op.draw, At(db, e));
    assert Apply(db, e) == OnShelf(db, made);
    if made.Ok? { CreateKeeps(db, e.op.env, e.op.payload, e.op.draw, At(db, e)); } else { NothingIsSafe(db); }
  }

  lemma UpdateIsSafe(db: Db, e: Event)
    requires Inv(db) && e.op.UpdateItem?
    ensures ShelfSafe(db, Apply(db, e))
  {
    var made := Update(db.books.shelf, e.op.env, HasSale(db.books.lines, e.op.item), e.op.item, e.op.requested, At(db, e));
    assert Apply(db, e) == OnShelf(db, made);
    if made.Ok? { UpdateKeeps(db, e.op.env, e.op.item, e.op.requested, At(db, e)); } else { NothingIsSafe(db); }
  }

  lemma DeletionIsSafe(db: Db, e: Event)
    requires Inv(db) && e.op.DeleteItems?
    ensures ShelfSafe(db, Apply(db, e))
  {
    var made := Archive(db.books.shelf, e.op.ids, At(db, e));
    assert Apply(db, e) == OnShelf(db, made);
    if made.Ok? {
      ArchiveNeedsRetirable(db.books.shelf, e.op.ids, At(db, e));
      RetiringKeeps(db, e.op.ids, At(db, e));
    } else {
      NothingIsSafe(db);
    }
  }

  lemma ClearanceIsSafe(db: Db, e: Event)
    requires Inv(db) && e.op.ClearInventory?
    ensures ShelfSafe(db, Apply(db, e))
  {
    assert Apply(db, e) == WithShelf(db, Clear(db.books.shelf, At(db, e)));
    RetiringKeeps(db, Stocked(db.books.shelf.items), At(db, e));
  }

  lemma ImportIsSafe(db: Db, e: Event)
    requires Inv(db) && e.op.ImportItems?
    ensures ShelfSafe(db, Apply(db, e))
  {
    var made := Import(db.books.shelf, e.op.env, e.op.payloads, e.op.draws, At(db, e));
    assert Apply(db, e) == OnShelf(db, made);
    if made.Ok? { ImportKeeps(db, e.op.env, e.op.payloads, e.op.draws, At(db, e)); } else { NothingIsSafe(db); }
  }

  lemma ShelfEventIsSafe(db: Db, e: Event)
    requires Inv(db) && !e.op.Buy?
    ensures ShelfSafe(db, Apply(db, e))
  {
    match e.op
    case CreateItem(_, _, _) => CreateIsSafe(db, e);
    case UpdateItem(_, _, _) => UpdateIsSafe(db, e);
    case DeleteItems(_) => DeletionIsSafe(db, e);
    case ClearInventory => ClearanceIsSafe(db, e);
    case ImportItems(_, _, _) => ImportIsSafe(db, e);
  }

  lemma SafeKeepsInv(db: Db, after: Db)
    requires Inv(db) && ShelfSafe(db, after)
    ensures Inv(after)
  {
    ShelfStepKeepsBooks(db.books, after.books.shelf);
  }

  // ---- buying ----

  lemma {:induction false} SoldOfConcat(a: seq<Line>, b: seq<Line>, i: nat)
    ensures SoldOf(a + b, i) == SoldOf(a, i) + SoldOf(b, i)
  {
    if b == [] {
      assert a + b == a;
    } else {
      assert (a + b)[..|a + b| - 1] == a + b[..|b| - 1];
      SoldOfConcat(a, b[..|b| - 1], i);
    }
  }

  lemma LineTakes(env: Env, items: seq<Item>, d: Demand, i: nat, sale: nat)
    requires i < |items| && RateKnown(env, items[i].facts)
    ensures LineFor(env, items, d, i, sale).item == i && SoldIn(LineFor(env, items, d, i, sale)) == Asked(d.weights, i)
  {
  }

  /** Lines that take each ordered item once take exactly what is asked of it. */
  lemma {:induction false} TakenOnce(lines: seq<Line>, d: Demand, order: seq<nat>, i: nat)
    requires |lines| == |order| && Distinct(order)
    requires forall k :: 0 <= k < |lines| ==> lines[k].item == order[k] && SoldIn(lines[k]) == Asked(d.weights, order[k])
    ensures SoldOf(lines, i) == if i in order then Asked(d.weights, i) else 0
  {
    if order != [] {
      var last := |order| - 1;
      TakenOnce(lines[..last], d, order[..last], i);
      assert order == order[..last] + [order[last]];
    }
  }

  /** The new lines take from each item exactly the weight the cart asked of it. */
  lemma LinesTake(env: Env, items: seq<Item>, d: Demand, order: seq<nat>, sale: nat, i: nat)
    requires AllBelow(order, |items|) && Distinct(order) && LinesFor(env, items, d, order, sale).Some?
    ensures SoldOf(LinesFor(env, items, d, order, sale).value, i) == if i in order then Asked(d.weights, i) else 0
  {
    var lines := LinesFor(env, items, d, order, sale).value;
    forall k | 0 <= k < |lines| ensures lines[k].item == order[k] && SoldIn(lines[k]) == Asked(d.weights, order[k]) {
      LineAt(env, items, d, order, sale, k);
      LineTakes(env, items, d, order[k], sale);
    }
    TakenOnce(lines, d, order, i);
  }

  /** What a booked sale rests on. */
  predicate Bookable(b: Books, env: Env, d: Demand, order: seq<nat>, lines: seq<Line>) {
    && AllBelow(order, |b.shelf.items|) && Distinct(order) && AllCovered(b.shelf.items, d, order)
    && LinesFor(env, b.shelf.items, d, order, |b.sales|) == Some(lines)
  }

  lemma BookedShelfOk(b: Books, env: Env, d: Demand, order: seq<nat>, lines: seq<Line>, at: int)
    requires BooksOk(b) && Bookable(b, env, d, order, lines) && b.shelf.now < at
    ensures ShelfOk(Booked(b, env, d, order, lines, at).shelf)
  {
    SaleKeepsRows(b.shelf.items, d, order);
    CommitKeepsHistory(b.shelf, WithSold(b.shelf.items, d, order), order, SoldAt, at);
  }

  /** A covered sale consumes of a weighed item exactly what was asked. */
  lemma SaleConsumes(items: seq<Item>, d: Demand, order: seq<nat>, i: nat)
    requires AllCovered(items, d, order) && i < |items| && RowOk(items[i]) && items[i].facts.stockMode == ByWeight
    ensures var g := WithSold(items, d, order)[i].facts;
      g.stockMode == ByWeight && Consumed(g) == Consumed(items[i].facts) + if i in order then Asked(d.weights, i) else 0
  {
    if i in order {
      var k :| 0 <= k < |order| && order[k] == i;
      assert Covered(items, d, order[k]);
      SaleKeepsRow(items, d, i);
    }
  }

  lemma BookedKeepsOffset(b: Books, env: Env, d: Demand, order: seq<nat>, lines: seq<Line>, at: int, i: nat)
    requires BooksOk(b) && Bookable(b, env, d, order, lines) && IsWeighed(b, i)
    ensures var after := Booked(b, env, d, order, lines, at); IsWeighed(after, i) && Offset(after, i) == Offset(b, i)
  {
    var after := Booked(b, env, d, order, lines, at);
    assert RowOk(b.shelf.items[i]);
    SaleConsumes(b.shelf.items, d, order, i);
    LinesTake(env, b.shelf.items, d, order, |b.sales|, i);
    SoldOfConcat(b.lines, lines, i);
    assert after.shelf.items == WithSold(b.shelf.items, d, order) && after.lines == b.lines + lines;
  }

  lemma BookedKeepsMode(b: Books, env: Env, d: Demand, order: seq<nat>, lines: seq<Line>, at: int, i: nat)
    requires i < |b.shelf.items| && AllBelow(order, |b.shelf.items|)
    ensures Booked(b, env, d, order, lines, at).shelf.items[i].facts.stockMode == b.shelf.items[i].facts.stockMode
  {
  }

  lemma BookedConserves(b: Books, env: Env, d: Demand, order: seq<nat>, lines: seq<Line>, at: int)
    requires BooksOk(b) && Bookable(b, env, d, order, lines)
    ensures Conserved(Booked(b, env, d, order, lines, at))
  {
    var after := Booked(b, env, d, order, lines, at);
    forall i | 0 <= i < |after.shelf.items| && IsWeighed(after, i) ensures Offset(after, i) >= 0 {
      BookedKeepsMode(b, env, d, order, lines, at, i);
      assert IsWeighed(b, i);
      BookedKeepsOffset(b, env, d, order, lines, at, i);
    }
  }

  lemma NewLineFits(b: Books, env: Env, d: Demand, order: seq<nat>, lines: seq<Line>, k: nat)
    requires Bookable(b, env, d, order, lines) && k < |lines|
    ensures lines[k].item == order[k] && lines[k].sale == |b.sales|
    ensures lines[k].soldWeight.Some? <==> IsWeighed(b, order[k])
  {
    LineAt(env, b.shelf.items, d, order, |b.sales|, k);
    assert Covered(b.shelf.items, d, order[k]);
  }

  lemma SoldItemsKeepModes(items: seq<Item>, d: Demand, order: seq<nat>, i: nat)
    requires i < |items|
    ensures WithSold(items, d, order)[i].facts.stockMode == items[i].facts.stockMode
  {
  }

  predicate LineFits(items: seq<Item>, sales: nat, line: Line) {
    line.item < |items| && line.sale < sales && (line.soldWeight.Some? <==> items[line.item].facts.stockMode == ByWeight)
  }

  lemma OldLinesFit(b: Books, env: Env, d: Demand, order: seq<nat>, lines: seq<Line>, at: int)
    requires BooksOk(b) && Bookable(b, env, d, order, lines)
    ensures var after := Booked(b, env, d, order, lines, at);
      forall k :: 0 <= k < |b.lines| ==> LineFits(after.shelf.items, |after.sales|, b.lines[k])
  {
    var after := Booked(b, env, d, order, lines, at);
    forall k | 0 <= k < |b.lines| ensures LineFits(after.shelf.items, |after.sales|, b.lines[k]) {
      SoldItemsKeepModes(b.shelf.items, d, order, b.lines[k].item);
    }
  }

  lemma NewLinesFit(b: Books, env: Env, d: Demand, order: seq<nat>, lines: seq<Line>, at: int)
    requires Bookable(b, env, d, order, lines)
    ensures var after := Booked(b, env, d, order, lines, at);
      forall k :: 0 <= k < |lines| ==> LineFits(after.shelf.items, |after.sales|, lines[k])
  {
    var after := Booked(b, env, d, order, lines, at);
    forall k | 0 <= k < |lines| ensures LineFits(after.shelf.items, |after.sales|, lines[k]) {
      NewLineFits(b, env, d, order, lines, k);
      SoldItemsKeepModes(b.shelf.items, d, order, order[k]);
    }
  }

  lemma AllFit(items: seq<Item>, sales: nat, a: seq<Line>, b: seq<Line>)
    requires forall k :: 0 <= k < |a| ==> LineFits(items, sales, a[k])
    requires forall k :: 0 <= k < |b| ==> LineFits(items, sales, b[k])
    ensures forall k :: 0 <= k < |a + b| ==> LineFits(items, sales, (a + b)[k])
  {
  }

  lemma BookedLinesFit(b: Books, env: Env, d: Demand, order: seq<nat>, lines: seq<Line>, at: int)
    requires BooksOk(b) && Bookable(b, env, d, order, lines)
    ensures LinesFit(Booked(b, env, d, order, lines, at))
  {
    var after := Booked(b, env, d, order, lines, at);
    OldLinesFit(b, env, d, order, lines, at);
    NewLinesFit(b, env, d, order, lines, at);
    AllFit(after.shelf.items, |after.sales|, b.lines, lines);
    assert after.lines == b.lines + lines;
  }

  lemma {:induction false} LinesOfConcat(a: seq<Line>, b: seq<Line>, s: nat)
    ensures LinesOf(a + b, s) == LinesOf(a, s) + LinesOf(b, s)
  {
    if b == [] {
      assert a + b == a;
    } else {
      assert (a + b)[..|a + b| - 1] == a + b[..|b| - 1];
      LinesOfConcat(a, b[..|b| - 1], s);
    }
  }

  lemma {:induction false} LinesOfAll(lines: seq<Line>, s: nat, t: nat)
    requires forall k :: 0 <= k < |lines| ==> lines[k].sale == s
    ensures LinesOf(lines, t) == if s == t then lines else []
  {
    if lines != [] {
      LinesOfAll(lines[..|lines| - 1], s, t);
      assert lines[..|lines| - 1] + [lines[|lines| - 1]] == lines;
    }
  }

  lemma {:induction false} LinesOfNone(lines: seq<Line>, s: nat)
    requires forall k :: 0 <= k < |lines| ==> lines[k].sale < s
    ensures LinesOf(lines, s) == []
  {
    if lines != [] { LinesOfNone(lines[..|lines| - 1], s); }
  }

  lemma BookedAddsUp(b: Books, env: Env, d: Demand, order: seq<nat>, lines: seq<Line>, at: int)
    requires BooksOk(b) && Bookable(b, env, d, order, lines)
    ensures AddsUp(Booked(b, env, d, order, lines, at))
  {
    var after := Booked(b, env, d, order, lines, at);
    TotalConcat(b.lines, lines);
    forall k | 0 <= k < |lines| ensures lines[k].sale == |b.sales| {
      NewLineFits(b, env, d, order, lines, k);
    }
    forall s | 0 <= s < |after.sales| ensures after.sales[s].total == Total(LinesOf(after.lines, s)) {
      LinesOfConcat(b.lines, lines, s);
      LinesOfAll(lines, |b.sales|, s);
      if s == |b.sales| {
        LinesOfNone(b.lines, s);
        assert [] + lines == lines;
      } else {
        assert LinesOf(b.lines, s) + [] == LinesOf(b.lines, s);
      }
    }
  }

  /** A new sale's number is new: the search skips every number in use. */
  lemma BookedNumbersDiffer(b: Books, env: Env, d: Demand, order: seq<nat>, lines: seq<Line>, at: int)
    requires NumbersDiffer(b.sales) && AllBelow(order, |b.shelf.items|)
    ensures NumbersDiffer(Booked(b, env, d, order, lines, at).sales)
    ensures Booked(b, env, d, order, lines, at).nextSequence > b.nextSequence
  {
    FreeSequenceIsFirst(env, NumbersInUse(b.sales), b.nextSequence);
    assert forall j :: 0 <= j < |b.sales| ==> b.sales[j].invoiceNo in NumbersInUse(b.sales);
  }

  lemma BookedIsOk(b: Books, env: Env, d: Demand, order: seq<nat>, lines: seq<Line>, at: int)
    requires BooksOk(b) && Bookable(b, env, d, order, lines) && b.shelf.now < at
    ensures BooksOk(Booked(b, env, d, order, lines, at))
  {
    BookedShelfOk(b, env, d, order, lines, at);
    BookedConserves(b, env, d, order, lines, at);
    BookedLinesFit(b, env, d, order, lines, at);
    BookedAddsUp(b, env, d, order, lines, at);
    BookedNumbersDiffer(b, env, d, order, lines, at);
  }

  lemma CheckedOutIsBooked(b: Books, env: Env, r: Request, order: seq<nat>, at: int) returns (lines: seq<Line>)
    requires CheckedOut(b, env, r, order, at).Ok? && IsOrder(order, Named(Tally(r.cart)))
    ensures Bookable(b, env, Tally(r.cart), order, lines)
    ensures CheckedOut(b, env, r, order, at) == Ok(Booked(b, env, Tally(r.cart), order, lines, at))
  {
    ScreenedIsCovered(b, env, r, order);
    lines := LinesFor(env, b.shelf.items, Tally(r.cart), order, |b.sales|).value;
  }

  lemma NewKeyMatches(db: Db, books: Books, key: string, request: Request)
    requires KeysMatch(db) && key !in db.keys && |books.sales| == |db.books.sales| + 1
    ensures KeysMatch(Db(books, db.keys[key := (request, |db.books.sales|)]))
  {
  }

  lemma AnswerKeepsInv(db: Db, env: Env, key: string, request: Request, order: seq<nat>, at: int)
    requires Inv(db) && db.books.shelf.now < at && IsOrder(order, Named(Tally(request.cart)))
    requires Answer(db, env, key, request, order, at).Ok?
    ensures Inv(Answer(db, env, key, request, order, at).value.0)
  {
    if key !in db.keys {
      var books := CheckedOut(db.books, env, request, order, at).value;
      var lines := CheckedOutIsBooked(db.books, env, request, order, at);
      BookedIsOk(db.books, env, Tally(request.cart), order, lines, at);
      assert |books.sales| == |db.books.sales| + 1;
      NewKeyMatches(db, books, key, request);
    }
  }

  lemma BuyKeepsInv(db: Db, e: Event)
    requires Inv(db) && e.op.Buy?
    ensures Inv(Apply(db, e))
  {
    var env, key, request, order := e.op.env, e.op.key, e.op.request, e.op.order;
    if Apply(db, e) != db { AnswerKeepsInv(db, env, key, request, order, At(db, e)); }
  }

  lemma StepKeepsInv(db: Db, e: Event)
    requires Inv(db)
    ensures Inv(Apply(db, e))
  {
    if e.op.Buy? {
      BuyKeepsInv(db, e);
    } else {
      ShelfEventIsSafe(db, e);
      SafeKeepsInv(db, Apply(db, e));
    }
  }

  /** Contracts, history, weights, totals, numbers and keys hold in every state of every run. */
  lemma {:induction false} AlwaysInv(db: Db, events: seq<Event>)
    requires Inv(db)
    ensures Inv(Execute(db, events))
    decreases |events|
  {
    if events != [] {
      StepKeepsInv(db, events[0]);
      AlwaysInv(Apply(db, events[0]), events[1..]);
    }
  }

  lemma OpenedIsOk()
    ensures Inv(Opened)
  {
  }
}
