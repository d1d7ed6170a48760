/** Past inventory read back from the history, against the items table as it was. */
module Dashboard {
  import opened Prelude
  import opened Pricing
  import opened ItemContracts
  import opened Inventory
  import opened Checkout
  import opened Ledger
  import opened Runs
  import Text

  // ---- replaying the history ----

  /** Nothing was recorded between two states except entries after a time. */
  predicate GrewAfter(before: seq<Entry>, after: seq<Entry>, t: int) {
    before <= after && forall k :: |before| <= k < |after| ==> after[k].at > t
  }

  /** Every operation of the run is performed after the time. */
  predicate AllAfter(db: Db, events: seq<Event>, t: int)
    decreases |events|
  {
    events == [] || (t < At(db, events[0]) && AllAfter(Apply(db, events[0]), events[1..], t))
  }

  lemma CommitGrows(s: Shelf, items: seq<Item>, ids: seq<nat>, change: Change, at: int, t: int)
    requires AllBelow(ids, |items|) && t < at
    ensures GrewAfter(s.history, Commit(s, items, ids, change, at).history, t)
  {
  }

  lemma CreateGrows(s: Shelf, env: Env, p: Payload, draw: string, at: int, t: int)
    requires t < at && Create(s, env, p, draw, at).Ok?
    ensures GrewAfter(s.history, Create(s, env, p, draw, at).value.history, t)
  {
    CreateEffect(s, env, p, draw, at);
  }

  lemma UpdateGrows(s: Shelf, env: Env, hasSale: bool, i: nat, r: Payload, at: int, t: int)
    requires t < at && Update(s, env, hasSale, i, r, at).Ok?
    ensures GrewAfter(s.history, Update(s, env, hasSale, i, r, at).value.history, t)
  {
    var edited := Edit(s.items, env, hasSale, i, r);
    CommitGrows(s, s.items[i := edited.value], [i], Updated, at, t);
  }

  lemma ImportGrows(s: Shelf, env: Env, ps: seq<Payload>, draws: seq<string>, at: int, t: int)
    requires t < at && Import(s, env, ps, draws, at).Ok?
    ensures GrewAfter(s.history, Import(s, env, ps, draws, at).value.history, t)
  {
  }

  lemma CreateStepGrows(db: Db, e: Event, t: int)
    requires t < At(db, e) && (e.op.CreateItem? || e.op.ImportItems?)
    ensures GrewAfter(db.books.shelf.history, Apply(db, e).books.shelf.history, t)
  {
    var shelf, at := db.books.shelf, At(db, e);
    if e.op.CreateItem? {
      var made := Create(shelf, e.op.env, e.op.payload, e.op.draw, at);
      assert Apply(db, e) == OnShelf(db, made);
      if made.Ok? { CreateGrows(shelf, e.op.env, e.op.payload, e.op.draw, at, t); }
    } else {
      var made := Import(shelf, e.op.env, e.op.payloads, e.op.draws, at);
      assert Apply(db, e) == OnShelf(db, made);
      if made.Ok? { ImportGrows(shelf, e.op.env, e.op.payloads, e.op.draws, at, t); }
    }
  }

  lemma UpdateStepGrows(db: Db, e: Event, t: int)
    requires t < At(db, e) && e.op.UpdateItem?
    ensures GrewAfter(db.books.shelf.history, Apply(db, e).books.shelf.history, t)
  {
    var hasSale := HasSale(db.books.lines, e.op.item);
    var made := Update(db.books.shelf, e.op.env, hasSale, e.op.item, e.op.requested, At(db, e));
    assert Apply(db, e) == OnShelf(db, made);
    if made.Ok? { UpdateGrows(db.books.shelf, e.op.env, hasSale, e.op.item, e.op.requested, At(db, e), t); }
  }

  lemma ArchiveStepGrows(db: Db, e: Event, t: int)
    requires t < At(db, e) && (e.op.DeleteItems? || e.op.ClearInventory?)
    ensures GrewAfter(db.books.shelf.history, Apply(db, e).books.shelf.history, t)
  {
    var shelf, at := db.books.shelf, At(db, e);
    if e.op.ClearInventory? {
      CommitGrows(shelf, WithRetired(shelf.items, Stocked(shelf.items)), Stocked(shelf.items), ArchivedAt, at, t);
    } else if Archive(shelf, e.op.ids, at).Ok? {
      ArchiveNeedsRetirable(shelf, e.op.ids, at);
      CommitGrows(shelf, WithRetired(shelf.items, e.op.ids), e.op.ids, ArchivedAt, at, t);
    }
  }

  lemma StepGrows(db: Db, e: Event, t: int)
    requires Inv(db) && t < At(db, e)
    ensures GrewAfter(db.books.shelf.history, Apply(db, e).books.shelf.history, t)
  {
    if !e.op.Buy? {
      match e.op
      case CreateItem(_, _, _) => CreateStepGrows(db, e, t);
      case ImportItems(_, _, _) => CreateStepGrows(db, e, t);
      case UpdateItem(_, _, _) => UpdateStepGrows(db, e, t);
      case _ => ArchiveStepGrows(db, e, t);
    } else if Apply(db, e) != db {
      var lines := PurchaseIsBooked(db, e);
      var shelf := db.books.shelf;
      CommitGrows(shelf, WithSold(shelf.items, Tally(e.op.request.cart), e.op.order), e.op.order, SoldAt, At(db, e), t);
    }
  }

  lemma {:induction false} RunGrows(db: Db, events: seq<Event>, t: int)
    requires Inv(db) && AllAfter(db, events, t)
    ensures GrewAfter(db.books.shelf.history, Execute(db, events).books.shelf.history, t)
    decreases |events|
  {
    if events != [] {
      StepGrows(db, events[0], t);
      StepKeepsInv(db, events[0]);
      RunGrows(Apply(db, events[0]), events[1..], t);
    }
  }

  lemma PastIsKept(before: seq<Entry>, after: seq<Entry>, now: int, t: int, i: nat)
    requires GrewAfter(before, after, t) && now <= t && forall k :: 0 <= k < |before| ==> before[k].at <= now
    ensures Latest(after, i, t) == Latest(before, i, now)
  {
    var batch := after[|before|..];
    assert after == before + batch;
    LatestIgnores(before, batch, i, t);
    SameUntil(before, i, now, t);
  }

  /** In the present, the history shows each row, and nothing of items not yet added. */
  lemma HistoryShowsThePresent(s: Shelf, i: nat)
    requires HistoryOk(s)
    ensures var seen := Latest(s.history, i, s.now);
      if i < |s.items| then Recorded(s.items[i], seen) else seen.None?
  {
    LatestIsGreatest(s.history, i, s.now);
  }

  /**
   * However a run goes on, the latest entry of an item at or before a time is the row the items table held
   * at that time, and an item not yet added has none.
   */
  lemma HistoryReplaysThePast(db: Db, future: seq<Event>, t: int, i: nat)
    requires Inv(db) && db.books.shelf.now <= t && AllAfter(db, future, t)
    ensures var seen := Latest(Execute(db, future).books.shelf.history, i, t);
      if i < |db.books.shelf.items| then Recorded(db.books.shelf.items[i], seen) else seen.None?
  {
    RunGrows(db, future, t);
    PastIsKept(db.books.shelf.history, Execute(db, future).books.shelf.history, db.books.shelf.now, t, i);
    HistoryShowsThePresent(db.books.shelf, i);
  }

  // ---- summing over the inventory ----

  /** A sum over the states on record at a time, of the first n items. */
  function PastSum(history: seq<Entry>, n: nat, t: int, worth: Facts -> int): int {
    if n == 0 then 0
    else
      var seen := Latest(history, n - 1, t);
      PastSum(history, n - 1, t, worth) + (if seen.Some? then worth(seen.value.facts) else 0)
  }

  /** The same sum over the rows of the table, those archived or those not. */
  function RowSum(items: seq<Item>, archived: bool, worth: Facts -> int): int {
    if items == [] then 0
    else
      var last := items[|items| - 1];
      RowSum(items[..|items| - 1], archived, worth) + (if (last.status == Archived) == archived then worth(last.facts) else 0)
  }

  lemma {:induction false} PastSumIsRowSum(history: seq<Entry>, items: seq<Item>, n: nat, t: int, worth: Facts -> int)
    requires n <= |items| && forall i :: 0 <= i < |items| ==> Recorded(items[i], Latest(history, i, t))
    ensures PastSum(history, n, t, worth) == RowSum(items[..n], false, worth) + RowSum(items[..n], true, worth)
  {
    if n > 0 {
      PastSumIsRowSum(history, items, n - 1, t, worth);
      assert items[..n][..n - 1] == items[..n - 1];
      assert Recorded(items[n - 1], Latest(history, n - 1, t));
    }
  }

  lemma {:induction false} UnknownAddNothing(history: seq<Entry>, m: nat, n: nat, t: int, worth: Facts -> int)
    requires m <= n && forall i :: m <= i < n ==> Latest(history, i, t).None?
    ensures PastSum(history, n, t, worth) == PastSum(history, m, t, worth)
  {
    if m < n { UnknownAddNothing(history, m, n - 1, t, worth); }
  }

  /** A sum read from the history counts the archived rows of the time as well. */
  lemma PastSumsCountArchived(db: Db, future: seq<Event>, t: int, n: nat, worth: Facts -> int)
    requires Inv(db) && db.books.shelf.now <= t && AllAfter(db, future, t) && n >= |db.books.shelf.items|
    ensures PastSum(Execute(db, future).books.shelf.history, n, t, worth)
         == RowSum(db.books.shelf.items, false, worth) + RowSum(db.books.shelf.items, true, worth)
  {
    var items, after := db.books.shelf.items, Execute(db, future).books.shelf.history;
    forall i: nat ensures if i < |items| then Recorded(items[i], Latest(after, i, t)) else Latest(after, i, t).None? {
      HistoryReplaysThePast(db, future, t, i);
    }
    UnknownAddNothing(after, |items|, n, t, worth);
    PastSumIsRowSum(after, items, |items|, t, worth);
    assert items[..|items|] == items;
  }

  /** The metal filter of the dashboard; None stands for all metals. */
  predicate Matches(f: Facts, metal: Option<string>) { metal.None? || Text.Lower(f.metal) == metal.value }

  function Units(metal: Option<string>): Facts -> int {
    (f: Facts) => if Matches(f, metal) && f.quantity > 0 then f.quantity else 0
  }

  /** The count of a stored item: its pieces, if it is of the metal asked for. */
  lemma UnitsCountPieces(f: Facts, metal: Option<string>)
    requires Contracts(f)
    ensures Units(metal)(f) == if metal.None? || Text.Lower(f.metal) == metal.value then f.quantity else 0
  {
  }

  lemma {:induction false} ArchivedHoldNone(items: seq<Item>, metal: Option<string>)
    requires RowsOk(items)
    ensures RowSum(items, true, Units(metal)) == 0
  {
    if items != [] {
      assert RowOk(items[|items| - 1]);
      ArchivedHoldNone(items[..|items| - 1], metal);
    }
  }

  /** The inventory count read from the history at a time equals the count over the live rows at that time. */
  lemma PastCountIsLiveCount(db: Db, future: seq<Event>, t: int, n: nat, metal: Option<string>)
    requires Inv(db) && db.books.shelf.now <= t && AllAfter(db, future, t) && n >= |db.books.shelf.items|
    ensures PastSum(Execute(db, future).books.shelf.history, n, t, Units(metal))
         == RowSum(db.books.shelf.items, false, Units(metal))
  {
    PastSumsCountArchived(db, future, t, n, Units(metal));
    ArchivedHoldNone(db.books.shelf.items, metal);
  }

  // ---- the stock and sale values, which do not agree ----

  /** Paise per gram times 10^4: silver counts at its base rate, other metals at their purity, unknown ones at nothing. */
  function EffectiveRateOf(f: Facts, rates: map<string, nat>): int {
    var metal := Text.Lower(f.metal);
    if metal !in rates then 0 else if metal == "silver" then rates[metal] * FULL_PURITY else rates[metal] * f.purity
  }

  /** The weight a unit is priced at, or what is left of a weighed item. */
  function PricingWeight(f: Facts): int { if f.stockMode == ByWeight then Weighed(f) else f.netWeight }

  function MetalWorth(f: Facts, rates: map<string, nat>): int { PricingWeight(f) * EffectiveRateOf(f, rates) }

  function MakingWorth(f: Facts): int {
    if f.pricing == FixedMaking then f.making * UNIT else f.making * PricingWeight(f) * 10_000
  }

  /** The suggested price before tax; a stone without its Ratti terms counts for nothing. */
  function SuggestedWorth(f: Facts, rates: map<string, nat>): int {
    if f.itemType == Stone then
      (if f.ratti.Some? && f.ratePerRatti.Some? then f.ratti.value * f.ratePerRatti.value * 10_000 else 0)
    else if f.pricing == FixedRate then f.fixedRate * UNIT
    else MetalWorth(f, rates) + MakingWorth(f)
  }

  /** The two values the dashboard sums: of the metal, and of the suggested price. */
  datatype Value = StockValue | SaleValue

  function UnitWorth(v: Value, f: Facts, rates: map<string, nat>): int {
    match v case StockValue => MetalWorth(f, rates) case SaleValue => SuggestedWorth(f, rates)
  }

  /** What an item adds to a sum: a weighed one its worth, a counted one the worth of each unit it has. */
  function ItemWorth(v: Value, f: Facts, rates: map<string, nat>, metal: Option<string>): int {
    if !Matches(f, metal) then 0
    else if f.stockMode == ByWeight then UnitWorth(v, f, rates)
    else Units(metal)(f) * UnitWorth(v, f, rates)
  }

  function Worth(v: Value, rates: map<string, nat>, metal: Option<string>): Facts -> int {
    (f: Facts) => ItemWorth(v, f, rates, metal)
  }

  lemma ProductIsNotNegative(a: int, b: int)
    requires a >= 0 && b >= 0
    ensures a * b >= 0
  {
  }

  lemma UnitWorthIsNotNegative(v: Value, f: Facts, rates: map<string, nat>)
    requires Contracts(f)
    ensures UnitWorth(v, f, rates) >= 0
  {
    var metal := Text.Lower(f.metal);
    if metal in rates { ProductIsNotNegative(rates[metal], f.purity); }
    ProductIsNotNegative(PricingWeight(f), EffectiveRateOf(f, rates));
    ProductIsNotNegative(f.making, PricingWeight(f));
    if f.itemType == Stone { ProductIsNotNegative(f.ratti.value, f.ratePerRatti.value); }
  }

  lemma ItemWorthIsNotNegative(v: Value, f: Facts, rates: map<string, nat>, metal: Option<string>)
    requires Contracts(f)
    ensures ItemWorth(v, f, rates, metal) >= 0
    ensures f.stockMode == ByQuantity && f.quantity == 0 ==> ItemWorth(v, f, rates, metal) == 0
  {
    UnitWorthIsNotNegative(v, f, rates);
    ProductIsNotNegative(Units(metal)(f), UnitWorth(v, f, rates));
  }

  /** What a stored item adds: its worth once if it is weighed, else for each piece; nothing if it is of another metal. */
  lemma ItemWorthIs(v: Value, f: Facts, rates: map<string, nat>, metal: Option<string>)
    requires Contracts(f)
    ensures Worth(v, rates, metal)(f) ==
      if metal.Some? && Text.Lower(f.metal) != metal.value then 0
      else UnitWorth(v, f, rates) * if f.stockMode == ByWeight then 1 else f.quantity
  {
    UnitsCountPieces(f, metal);
  }

  /** The metal value is that of a priced line, of a piece or of what is left of a weighed item. */
  lemma MetalWorthIs(d: Data, env: Env)
    requires Storable(d) && d.facts.itemType == Jewellery && d.facts.pricing != FixedRate
    requires Text.Lower(Text.Strip(d.facts.metal)) == "silver" <==> Text.Lower(d.facts.metal) == "silver"
    ensures var f := d.facts;
      UnitWorth(StockValue, f, env.rates) == MetalOf(env, f, if f.stockMode == ByWeight then Weighed(f) else f.netWeight)
  {
    assert EffectiveRateOf(d.facts, env.rates) == RateAt(env, d.facts);
  }

  /**
   * The suggested price of an item is the exact price checkout locks for a unit, or for all that is left of it,
   * unless its metal is silver with blanks around it: checkout strips the name, the dashboard does not.
   */
  lemma SuggestedIsExactPrice(d: Data, env: Env)
    requires Storable(d) && RateKnown(env, d.facts)
    requires Text.Lower(Text.Strip(d.facts.metal)) == "silver" <==> Text.Lower(d.facts.metal) == "silver"
    ensures var f := d.facts;
      SuggestedWorth(f, env.rates)
      == ExactPrice(QuoteFor(env, f, if f.stockMode == ByWeight then Some(NonNegative(Weighed(f))) else None))
  {
    var f := d.facts;
    var q := QuoteFor(env, f, if f.stockMode == ByWeight then Some(NonNegative(Weighed(f))) else None);
    assert q.weight == PricingWeight(f) && q.isSilver == (Text.Lower(f.metal) == "silver");
    if f.itemType == Stone {
      assert SuggestedWorth(f, env.rates) == MetalValue(q);
    } else if f.pricing == FixedRate {
      assert SuggestedWorth(f, env.rates) == FixedValue(q);
    } else {
      assert EffectiveRateOf(f, env.rates) == EffectiveRate(q);
      assert MetalWorth(f, env.rates) == MetalValue(q) && MakingWorth(f) == MakingValue(q);
    }
  }

  lemma {:induction false} SumIsNotNegative(items: seq<Item>, archived: bool, worth: Facts -> int)
    requires forall i :: 0 <= i < |items| ==> worth(items[i].facts) >= 0
    ensures RowSum(items, archived, worth) >= 0
  {
    if items != [] { SumIsNotNegative(items[..|items| - 1], archived, worth); }
  }

  lemma {:induction false} NoSumMeansNone(items: seq<Item>, worth: Facts -> int)
    requires forall i :: 0 <= i < |items| ==> worth(items[i].facts) >= 0
    ensures RowSum(items, true, worth) == 0 <==>
            forall i :: 0 <= i < |items| && items[i].status == Archived ==> worth(items[i].facts) == 0
  {
    if items != [] {
      var last := |items| - 1;
      NoSumMeansNone(items[..last], worth);
      SumIsNotNegative(items[..last], true, worth);
      assert forall i :: 0 <= i < last ==> items[..last][i] == items[i];
    }
  }

  /** No archived weighed item that passes the filter is worth anything. */
  predicate NoArchivedWorth(items: seq<Item>, v: Value, rates: map<string, nat>, metal: Option<string>) {
    forall i :: 0 <= i < |items| && items[i].status == Archived && items[i].facts.stockMode == ByWeight ==>
      Matches(items[i].facts, metal) ==> UnitWorth(v, items[i].facts, rates) == 0
  }

  lemma ArchivedWorthExactly(items: seq<Item>, v: Value, rates: map<string, nat>, metal: Option<string>)
    requires RowsOk(items)
    ensures RowSum(items, true, Worth(v, rates, metal)) >= 0
    ensures RowSum(items, true, Worth(v, rates, metal)) == 0 <==> NoArchivedWorth(items, v, rates, metal)
  {
    var worth := Worth(v, rates, metal);
    forall i | 0 <= i < |items|
      ensures worth(items[i].facts) >= 0
      ensures items[i].status == Archived && items[i].facts.stockMode == ByQuantity ==> worth(items[i].facts) == 0
    {
      assert RowOk(items[i]);
      ItemWorthIsNotNegative(v, items[i].facts, rates, metal);
    }
    SumIsNotNegative(items, true, worth);
    NoSumMeansNone(items, worth);
  }

  /**
   * For every metal filter, the stock value and the sale value read from the history are never below the live
   * ones, and equal them exactly when no archived weighed item of that metal has any worth left: archiving
   * empties the quantity but not the weight.
   */
  lemma PastValueIsLiveValueExactly(
      db: Db, future: seq<Event>, t: int, n: nat, v: Value, rates: map<string, nat>, metal: Option<string>)
    requires Inv(db) && db.books.shelf.now <= t && AllAfter(db, future, t) && n >= |db.books.shelf.items|
    ensures var past := PastSum(Execute(db, future).books.shelf.history, n, t, Worth(v, rates, metal));
      var live := RowSum(db.books.shelf.items, false, Worth(v, rates, metal));
      past >= live && (past == live <==> NoArchivedWorth(db.books.shelf.items, v, rates, metal))
  {
    PastSumsCountArchived(db, future, t, n, Worth(v, rates, metal));
    ArchivedWorthExactly(db.books.shelf.items, v, rates, metal);
  }

  // ---- a run on which the values differ ----

  const CHAIN := Data(
    Facts("S1", "chain", Jewellery, MakingPerGram, ByWeight, "gold", 10_000, 5, 0, 0, Some(5), None, None, 1), Some("B1"), "Chain", None)

  const SETTINGS := Env(true, true, None, false, "", 2025, map["gold" := 1])

  lemma ChainIsStorable()
    ensures Storable(CHAIN)
  {
    Text.StripIsTrimmed("chain");
    Text.StripIsTrimmed("gold");
    assert Text.Lower("chain") == "chain" && Text.Lower("gold") == "gold";
    assert "gold"[0] != "stone"[0];
  }

  lemma ChainIsCreated()
    ensures AcceptedNew(PayloadOf(CHAIN)) == Ok(CHAIN)
  {
    ChainIsStorable();
    StorableIsAccepted(CHAIN);
  }

  const CREATED := Event(0, CreateItem(SETTINGS, PayloadOf(CHAIN), ""))
  const DELETED := Event(0, DeleteItems([0]))

  lemma CreatedFrom(s: Shelf, env: Env, p: Payload, at: int, d: Data)
    requires AcceptedNew(p) == Ok(d) && !WantsBarcode(d) && CapacityAllows(env, s.items, 1) && !HasBarcode(s.items, d.barcode.value)
    ensures Create(s, env, p, "", at) == Ok(Stock(s, [NewItem(d, d.barcode.value)], at))
  {
  }

  lemma AddedFirst(env: Env, d: Data)
    requires AcceptedNew(PayloadOf(d)) == Ok(d) && !WantsBarcode(d) && env.open && env.writable && env.itemLimit.None?
    ensures Apply(Opened, Event(0, CreateItem(env, PayloadOf(d), ""))).books.shelf.items == [NewItem(d, d.barcode.value)]
  {
    var e := Event(0, CreateItem(env, PayloadOf(d), ""));
    CreatedFrom(Opened.books.shelf, env, PayloadOf(d), At(Opened, e), d);
    assert Apply(Opened, e) == OnShelf(Opened, Create(Opened.books.shelf, env, PayloadOf(d), "", At(Opened, e)));
  }

  lemma ChainIsAdded()
    ensures Apply(Opened, CREATED).books.shelf.items == [NewItem(CHAIN, "B1")]
  {
    ChainIsCreated();
    AddedFirst(SETTINGS, CHAIN);
  }

  lemma ChainIsDeleted(db: Db)
    requires db.books.shelf.items == [NewItem(CHAIN, "B1")]
    ensures Apply(db, DELETED).books.shelf.items == [Retired(NewItem(CHAIN, "B1"))]
  {
    var items := db.books.shelf.items;
    assert Distinct([0]);
    assert Archive(db.books.shelf, [0], At(db, DELETED)).Ok?;
    assert WithRetired(items, [0]) == [Retired(items[0])];
  }

  lemma TwoEvents(db: Db, first: Event, second: Event)
    ensures Execute(db, [first, second]) == Apply(Apply(db, first), second)
  {
    assert [first, second][1..] == [second] && [second][1..] == [];
    assert Execute(db, [first, second]) == Execute(Apply(db, first), [second]);
    assert Execute(Apply(db, first), [second]) == Execute(Apply(Apply(db, first), second), []);
  }

  lemma ChainKeepsItsWorth(item: Item, v: Value)
    requires item == Retired(NewItem(CHAIN, "B1"))
    ensures item.status == Archived && item.facts.stockMode == ByWeight && UnitWorth(v, item.facts, SETTINGS.rates) > 0
  {
    assert Text.Lower("gold") == "gold";
    assert "gold"[0] != "silver"[0];
    assert EffectiveRateOf(item.facts, SETTINGS.rates) == 10_000;
  }

  lemma RetiredChainShows(db: Db, v: Value)
    requires Inv(db) && db.books.shelf.items == [Retired(NewItem(CHAIN, "B1"))]
    ensures var shelf, worth := db.books.shelf, Worth(v, SETTINGS.rates, None);
      PastSum(shelf.history, 1, shelf.now, worth) > RowSum(shelf.items, false, worth)
  {
    PastValueIsLiveValueExactly(db, [], db.books.shelf.now, 1, v, SETTINGS.rates, None);
    ChainKeepsItsWorth(db.books.shelf.items[0], v);
    assert !NoArchivedWorth(db.books.shelf.items, v, SETTINGS.rates, None);
  }

  /** The run of one creation and one deletion: the weighed item is gone from the live values, not from the historical ones. */
  lemma DeletedWeightIsStillCounted(v: Value)
    ensures var shelf, worth := Execute(Opened, [CREATED, DELETED]).books.shelf, Worth(v, SETTINGS.rates, None);
      && shelf.items == [Retired(NewItem(CHAIN, "B1"))]
      && PastSum(shelf.history, |shelf.items|, shelf.now, worth) > RowSum(shelf.items, false, worth) == 0
  {
    ChainIsAdded();
    ChainIsDeleted(Apply(Opened, CREATED));
    TwoEvents(Opened, CREATED, DELETED);
    OpenedIsOk();
    AlwaysInv(Opened, [CREATED, DELETED]);
    RetiredChainShows(Execute(Opened, [CREATED, DELETED]), v);
  }
}
