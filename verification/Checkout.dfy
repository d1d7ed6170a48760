/** Selling a cart: what is asked of each item, the checks, the invoice number, the priced lines. */
module Checkout {
  import opened Prelude
  import opened Pricing
  import opened ItemContracts
  import opened Inventory
  import Text

  // ---- the cart ----

  datatype CartLine = Units(item: nat, count: nat) | Grams(item: nat, weight: nat)

  /** What a cart asks of each item, by units and by weight. */
  datatype Demand = Demand(units: map<nat, nat>, weights: map<nat, nat>)

  function Asked(m: map<nat, nat>, i: nat): nat { if i in m then m[i] else 0 }

  function Tally(cart: seq<CartLine>): Demand {
    if cart == [] then Demand(map[], map[])
    else
      var before, line := Tally(cart[..|cart| - 1]), cart[|cart| - 1];
      match line
      case Units(i, n) => before.(units := before.units[i := Asked(before.units, i) + n])
      case Grams(i, w) => before.(weights := before.weights[i := Asked(before.weights, i) + w])
  }

  function UnitsOf(cart: seq<CartLine>, i: nat): nat {
    if cart == [] then 0
    else UnitsOf(cart[1..], i) + (if cart[0].Units? && cart[0].item == i then cart[0].count else 0)
  }

  function WeightOf(cart: seq<CartLine>, i: nat): nat {
    if cart == [] then 0
    else WeightOf(cart[1..], i) + (if cart[0].Grams? && cart[0].item == i then cart[0].weight else 0)
  }

  lemma {:induction false} OfConcat(a: seq<CartLine>, b: seq<CartLine>, i: nat)
    ensures UnitsOf(a + b, i) == UnitsOf(a, i) + UnitsOf(b, i)
    ensures WeightOf(a + b, i) == WeightOf(a, i) + WeightOf(b, i)
  {
    if a == [] {
      assert a + b == b;
    } else {
      assert (a + b)[1..] == a[1..] + b;
      OfConcat(a[1..], b, i);
    }
  }

  /** The tally holds the sums over the cart's lines, and exactly the items the cart names. */
  lemma {:induction false} TallyIsTotal(cart: seq<CartLine>, i: nat)
    ensures Asked(Tally(cart).units, i) == UnitsOf(cart, i)
    ensures Asked(Tally(cart).weights, i) == WeightOf(cart, i)
    ensures i in Tally(cart).units <==> exists k :: 0 <= k < |cart| && cart[k].Units? && cart[k].item == i
    ensures i in Tally(cart).weights <==> exists k :: 0 <= k < |cart| && cart[k].Grams? && cart[k].item == i
  {
    if cart != [] {
      var last := |cart| - 1;
      TallyIsTotal(cart[..last], i);
      OfConcat(cart[..last], [cart[last]], i);
      assert cart[..last] + [cart[last]] == cart;
      assert forall k :: 0 <= k < last ==> cart[..last][k] == cart[k];
      assert [cart[last]][1..] == [];
    }
  }

  /** The first loop of a checkout. */
  method TallyCart(cart: seq<CartLine>) returns (demand: Demand)
    ensures demand == Tally(cart)
  {
    var units: map<nat, nat>, weights: map<nat, nat> := map[], map[];
    for k := 0 to |cart|
      invariant Demand(units, weights) == Tally(cart[..k])
    {
      assert cart[..k + 1][..k] == cart[..k];
      match cart[k] {
        case Units(i, n) => units := units[i := Asked(units, i) + n];
        case Grams(i, w) => weights := weights[i := Asked(weights, i) + w];
      }
    }
    assert cart[..|cart|] == cart;
    demand := Demand(units, weights);
  }

  /** A well-formed cart: up to a hundred lines, each for a positive amount. */
  predicate CartFits(cart: seq<CartLine>) {
    1 <= |cart| <= 100 && forall k :: 0 <= k < |cart| ==> if cart[k].Units? then cart[k].count >= 1 else cart[k].weight >= 1
  }

  predicate Mixed(d: Demand) { d.units.Keys * d.weights.Keys != {} }

  function Named(d: Demand): set<nat> { d.units.Keys + d.weights.Keys }

  /** An order in which the set of named items may be iterated. */
  predicate IsOrder(order: seq<nat>, named: set<nat>) {
    Distinct(order) && (forall i :: i in named ==> i in order) && (forall i :: i in order ==> i in named)
  }

  // ---- the checks ----

  function Refused(items: seq<Item>, d: Demand, i: nat): Option<Refusal>
    requires i < |items|
  {
    var item := items[i];
    if item.status != InStock then Some(NotInStock)
    else if item.facts.stockMode == ByWeight then
      if i !in d.weights then Some(NeedsWeight)
      else if item.facts.stockWeight.None? || item.facts.stockWeight.value < d.weights[i] then Some(TooLittleWeight) else None
    else if i in d.weights then Some(SoldByUnits)
    else if item.facts.quantity < Asked(d.units, i) then Some(TooFewUnits) else None
  }

  function FirstRefusal(items: seq<Item>, d: Demand, order: seq<nat>): Option<Refusal>
    requires AllBelow(order, |items|)
  {
    if order == [] then None
    else if Refused(items, d, order[0]).Some? then Refused(items, d, order[0])
    else FirstRefusal(items, d, order[1..])
  }

  lemma {:induction false} NoRefusalMeansAll(items: seq<Item>, d: Demand, order: seq<nat>)
    requires AllBelow(order, |items|)
    ensures FirstRefusal(items, d, order).None? <==> forall k :: 0 <= k < |order| ==> Refused(items, d, order[k]).None?
  {
    if order != [] {
      NoRefusalMeansAll(items, d, order[1..]);
      assert forall k :: 0 < k < |order| ==> order[k] == order[1..][k - 1];
    }
  }

  // ---- the invoice number ----

  /** The printed number: series, year, and the sequence padded to six digits. */
  function InvoiceNo(env: Env, sequence: nat): string {
    Text.Upper(Text.Strip(if env.prefix == "" then "INV" else env.prefix)) + "-" + Text.Digits(env.year) + "-"
      + Text.ZeroPad(Text.Digits(sequence), 6)
  }

  /** The printed number in figures; a shop without a prefix prints INV. */
  lemma InvoiceNoReads(env: Env)
    requires env.year == 2025
    ensures env.prefix == "" ==> InvoiceNo(env, 7) == "INV" + "-" + "2025" + "-" + "000007"
    ensures env.prefix == " gold " ==> InvoiceNo(env, 1_234_567) == "GOLD" + "-" + "2025" + "-" + "1234567"
  {
    YearAndSequencesRead();
    PrefixReads("", "INV", "");
    PrefixReads(" ", "gold", " ");
    assert "" + "INV" + "" == "INV" && " " + "gold" + " " == " gold ";
    assert Text.Upper("INV") == "INV" && Text.Upper("gold") == "GOLD";
  }

  lemma PrefixReads(left: string, core: string, right: string)
    requires Text.AllSpace(left) && Text.AllSpace(right) && core != "" && Text.Trimmed(core)
    ensures Text.Strip(left + core + right) == core
  {
    Text.StripOfPadded(left, core, right);
  }

  lemma YearAndSequencesRead()
    ensures Text.Digits(2025) == "2025" && Text.ZeroPad(Text.Digits(7), 6) == "000007"
    ensures Text.ZeroPad(Text.Digits(1_234_567), 6) == "1234567"
  {
    SevenPadded();
    assert Text.Digits(2) == "2" && Text.Digits(20) == "20";
    assert Text.Digits(202) == "202";
    LongDigits();
  }

  lemma LongDigits()
    ensures Text.Digits(1_234_567) == "1234567"
  {
    assert Text.Digits(1) == "1" && Text.Digits(12) == "12";
    assert Text.Digits(123) == "123" && Text.Digits(1_234) == "1234";
    assert Text.Digits(12_345) == "12345" && Text.Digits(123_456) == "123456";
  }

  lemma SevenPadded()
    ensures Text.ZeroPad(Text.Digits(7), 6) == "000007"
  {
    assert Text.Digits(7) == "7" && ['0'] + "7" == "07" && ['0'] + "07" == "007" && ['0'] + "007" == "0007";
    assert ['0'] + "0007" == "00007" && ['0'] + "00007" == "000007";
    assert Text.ZeroPad("00007", 6) == "000007" && Text.ZeroPad("0007", 6) == "000007";
    assert Text.ZeroPad("007", 6) == "000007" && Text.ZeroPad("07", 6) == "000007";
  }

  lemma SuffixesAgree(head: string, a: string, b: string)
    requires head + a == head + b
    ensures a == b
  {
    assert (head + a)[|head|..] == a && (head + b)[|head|..] == b;
  }

  lemma InvoiceNoInjective(env: Env, m: nat, n: nat)
    requires InvoiceNo(env, m) == InvoiceNo(env, n)
    ensures m == n
  {
    var head := Text.Upper(Text.Strip(if env.prefix == "" then "INV" else env.prefix)) + "-" + Text.Digits(env.year) + "-";
    SuffixesAgree(head, Text.ZeroPad(Text.Digits(m), 6), Text.ZeroPad(Text.Digits(n), 6));
    Text.ZeroPadInjective(m, n, 6);
  }

  /** The first sequence from n on whose number is not in use. */
  function FreeSequence(env: Env, used: set<string>, n: nat): (m: nat)
    ensures m >= n
    decreases |used|
  {
    if InvoiceNo(env, n) in used then FreeSequence(env, used - {InvoiceNo(env, n)}, n + 1) else n
  }

  /** It is found within as many steps as there are invoices, is unused, and nothing before it is free. */
  lemma {:induction false} FreeSequenceIsFirst(env: Env, used: set<string>, n: nat)
    ensures var m := FreeSequence(env, used, n);
      && m <= n + |used| && InvoiceNo(env, m) !in used
      && forall k: nat :: n <= k < m ==> InvoiceNo(env, k) in used
    decreases |used|
  {
    if InvoiceNo(env, n) in used {
      FreeSequenceIsFirst(env, used - {InvoiceNo(env, n)}, n + 1);
      var m := FreeSequence(env, used, n);
      if InvoiceNo(env, m) in used { InvoiceNoInjective(env, m, n); }
    }
  }

  /** The search loop; the numbers already passed are pairwise different, which bounds it. */
  method SearchSequence(env: Env, used: set<string>, start: nat) returns (sequence: nat)
    ensures sequence == FreeSequence(env, used, start)
  {
    sequence := start;
    ghost var left := used;
    while InvoiceNo(env, sequence) in used
      invariant start <= sequence && left <= used
      invariant FreeSequence(env, used, start) == FreeSequence(env, left, sequence)
      invariant forall k: nat :: k >= sequence && InvoiceNo(env, k) in used ==> InvoiceNo(env, k) in left
      decreases |left|
    {
      var number := InvoiceNo(env, sequence);
      forall k: nat | k > sequence && InvoiceNo(env, k) in used ensures InvoiceNo(env, k) != number {
        if InvoiceNo(env, k) == number { InvoiceNoInjective(env, k, sequence); }
      }
      left := left - {number};
      sequence := sequence + 1;
    }
  }

  // ---- the priced lines ----

  /** A row of the sale_items table. */
  datatype Line = Line(sale: nat, item: nat, units: nat, soldWeight: Option<nat>, breakdown: Breakdown, price: nat)

  function NonNegative(n: int): nat { if n < 0 then 0 else n }

  function MaybeAmount(o: Option<int>): nat { if o.Some? then NonNegative(o.value) else 0 }

  predicate NeedsRate(f: Facts) { f.itemType == Jewellery && f.pricing != FixedRate }

  predicate RateKnown(env: Env, f: Facts) {
    NeedsRate(f) ==> Text.Lower(f.metal) in env.rates
  }

  /** The price terms of a weight, or of a whole piece. */
  function QuoteFor(env: Env, f: Facts, sold: Option<nat>): Quote
    requires RateKnown(env, f)
  {
    Quote(f.itemType, f.pricing, if sold.Some? then sold.value else NonNegative(f.netWeight),
          if NeedsRate(f) then env.rates[Text.Lower(f.metal)] else 0, NonNegative(f.purity),
          Text.Lower(Text.Strip(f.metal)) == "silver", NonNegative(f.making), NonNegative(f.fixedRate),
          MaybeAmount(f.ratti), MaybeAmount(f.ratePerRatti))
  }

  function SoldWeight(d: Demand, i: nat): Option<nat> { if i in d.weights then Some(d.weights[i]) else None }

  function SoldUnits(d: Demand, i: nat): nat { if i in d.units then d.units[i] else 1 }

  /** The price of one unit, or of the weight sold. */
  function Locked(env: Env, f: Facts, sold: Option<nat>): Breakdown
    requires RateKnown(env, f)
  {
    LockPrice(QuoteFor(env, f, sold))
  }

  function Times(price: nat, units: nat): nat { price * units }

  function LineFor(env: Env, items: seq<Item>, d: Demand, i: nat, sale: nat): Line
    requires i < |items| && RateKnown(env, items[i].facts)
  {
    var breakdown := Locked(env, items[i].facts, SoldWeight(d, i));
    Line(sale, i, SoldUnits(d, i), SoldWeight(d, i), breakdown,
         Times(breakdown.finalPrice, if i in d.weights then 1 else SoldUnits(d, i)))
  }

  /** None when a metal has no rate. */
  function LinesFor(env: Env, items: seq<Item>, d: Demand, order: seq<nat>, sale: nat): (lines: Option<seq<Line>>)
    requires AllBelow(order, |items|)
    ensures lines.Some? ==> |lines.value| == |order|
  {
    if order == [] then Some([])
    else
      var before, i := LinesFor(env, items, d, order[..|order| - 1], sale), order[|order| - 1];
      if before.None? || !RateKnown(env, items[i].facts) then None
      else Some(before.value + [LineFor(env, items, d, i, sale)])
  }

  function Prices(lines: seq<Line>): (prices: seq<int>)
    ensures |prices| == |lines| && forall k :: 0 <= k < |lines| ==> prices[k] == lines[k].price
  {
    seq(|lines|, k requires 0 <= k < |lines| => lines[k].price)
  }

  function Total(lines: seq<Line>): int { Sum(Prices(lines)) }

  lemma TotalConcat(a: seq<Line>, b: seq<Line>)
    ensures Total(a + b) == Total(a) + Total(b)
  {
    assert Prices(a + b) == Prices(a) + Prices(b);
    SumConcat(Prices(a), Prices(b));
  }

  lemma TotalOfOne(line: Line)
    ensures Total([line]) == line.price
  {
    assert Prices([line]) == [line.price];
    SumAppend([], line.price);
    assert [] + [line.price] == [line.price];
  }

  method SumPrices(lines: seq<Line>) returns (total: int)
    ensures total == Total(lines)
  {
    total := 0;
    for k := 0 to |lines|
      invariant total == Total(lines[..k])
    {
      assert lines[..k + 1] == lines[..k] + [lines[k]];
      TotalConcat(lines[..k], [lines[k]]);
      TotalOfOne(lines[k]);
      total := total + lines[k].price;
    }
    assert lines[..|lines|] == lines;
  }

  /** One turn of the pricing loop. */
  lemma OneMoreLine(env: Env, items: seq<Item>, d: Demand, order: seq<nat>, sale: nat, k: nat)
    requires AllBelow(order, |items|) && k < |order|
    ensures var before, after := LinesFor(env, items, d, order[..k], sale), LinesFor(env, items, d, order[..k + 1], sale);
      if before.None? || !RateKnown(env, items[order[k]].facts) then after.None?
      else after == Some(before.value + [LineFor(env, items, d, order[k], sale)])
  {
    assert order[..k + 1][..k] == order[..k];
  }

  /** The pricing loop; known is false as soon as a metal has no rate. */
  method PriceLines(env: Env, items: seq<Item>, d: Demand, order: seq<nat>, sale: nat) returns (lines: seq<Line>, total: int, known: bool)
    requires AllBelow(order, |items|)
    ensures known <==> LinesFor(env, items, d, order, sale).Some?
    ensures known ==> Some(lines) == LinesFor(env, items, d, order, sale) && total == Total(lines)
  {
    lines, known := [], true;
    for k := 0 to |order|
      invariant known ==> LinesFor(env, items, d, order[..k], sale) == Some(lines)
      invariant !known ==> LinesFor(env, items, d, order[..k], sale).None?
    {
      OneMoreLine(env, items, d, order, sale, k);
      var item := items[order[k]];
      if !known || (NeedsRate(item.facts) && Text.Lower(item.facts.metal) !in env.rates) {
        known := false;
      } else {
        lines := lines + [LineFor(env, items, d, order[k], sale)];
      }
    }
    assert order[..|order|] == order;
    total := SumPrices(lines);
  }

  lemma {:induction false} LineAt(env: Env, items: seq<Item>, d: Demand, order: seq<nat>, sale: nat, k: nat)
    requires AllBelow(order, |items|) && k < |order| && LinesFor(env, items, d, order, sale).Some?
    ensures RateKnown(env, items[order[k]].facts)
    ensures LinesFor(env, items, d, order, sale).value[k] == LineFor(env, items, d, order[k], sale)
  {
    if k < |order| - 1 { LineAt(env, items, d, order[..|order| - 1], sale, k); }
  }

  // ---- what a line must cost ----

  /** n is x / unit rounded half up. */
  predicate RoundsTo(x: int, unit: int, n: int) { 2 * unit * n <= 2 * x + unit < 2 * unit * n + 2 * unit }

  /** Paise per gram times 10^4: the shop's rate at the purity of the metal, silver counting as pure. */
  function RateAt(env: Env, f: Facts): int {
    var metal := Text.Lower(f.metal);
    if metal !in env.rates then 0
    else env.rates[metal] * if Text.Lower(Text.Strip(f.metal)) == "silver" then 10_000 else f.purity
  }

  /** The value of the material in units of 10^-7 paise: of the Ratti of a stone, of so much metal otherwise. */
  function MetalOf(env: Env, f: Facts, weight: int): int {
    if f.itemType == Stone then (if f.ratti.Some? && f.ratePerRatti.Some? then f.ratti.value * f.ratePerRatti.value * 10_000 else 0)
    else if f.pricing == FixedRate then 0
    else weight * RateAt(env, f)
  }

  /** The making charge in units of 10^-7 paise: one for the piece, or one for each gram. */
  function MakingOf(f: Facts, weight: int): int {
    if f.pricing == FixedMaking then f.making * 10_000_000
    else if f.pricing == MakingPerGram then f.making * weight * 10_000
    else 0
  }

  function FixedOf(f: Facts): int { if f.pricing == FixedRate then f.fixedRate * 10_000_000 else 0 }

  /**
   * The figures of a line: each part and their sum are rounded half up to the paisa, three percent of the subtotal is
   * added, and the price is charged once for a weight, or once for each piece.
   */
  predicate RightlyPriced(env: Env, f: Facts, line: Line) {
    var weight: int := if line.soldWeight.Some? then line.soldWeight.value else f.netWeight;
    var b := line.breakdown;
    && RoundsTo(MetalOf(env, f, weight), 10_000_000, b.metalValue)
    && RoundsTo(MakingOf(f, weight), 10_000_000, b.makingCharge) && RoundsTo(FixedOf(f), 10_000_000, b.fixedRate)
    && RoundsTo(MetalOf(env, f, weight) + MakingOf(f, weight) + FixedOf(f), 10_000_000, b.subtotal)
    && b.gstRate == 300 && RoundsTo(b.subtotal * 3, 100, b.gst) && b.finalPrice == b.subtotal + b.gst
    && line.price == if line.soldWeight.Some? then b.finalPrice else b.finalPrice * line.units
  }

  lemma QuoteIsOfWeight(env: Env, f: Facts, sold: Option<nat>)
    requires Contracts(f) && RateKnown(env, f)
    ensures var q, weight := QuoteFor(env, f, sold), if sold.Some? then sold.value else f.netWeight;
      && MetalValue(q) == MetalOf(env, f, weight) && MakingValue(q) == MakingOf(f, weight) && FixedValue(q) == FixedOf(f)
  {
    var q := QuoteFor(env, f, sold);
    if NeedsRate(f) { assert EffectiveRate(q) == RateAt(env, f); }
  }

  lemma TaxRounds(subtotal: nat)
    ensures RoundsTo(subtotal * 3, 100, HalfUp(subtotal * GST_RATE, FULL_PURITY))
  {
    HalfUpIsNearest(subtotal * GST_RATE, FULL_PURITY);
  }

  lemma LockedRounds(q: Quote)
    ensures var b := LockPrice(q);
      && RoundsTo(MetalValue(q), 10_000_000, b.metalValue) && RoundsTo(MakingValue(q), 10_000_000, b.makingCharge)
      && RoundsTo(FixedValue(q), 10_000_000, b.fixedRate)
      && RoundsTo(MetalValue(q) + MakingValue(q) + FixedValue(q), 10_000_000, b.subtotal)
      && b.gstRate == 300 && RoundsTo(b.subtotal * 3, 100, b.gst) && b.finalPrice == b.subtotal + b.gst
  {
    HalfUpIsNearest(MetalValue(q), UNIT);
    HalfUpIsNearest(MakingValue(q), UNIT);
    HalfUpIsNearest(FixedValue(q), UNIT);
    HalfUpIsNearest(ExactPrice(q), UNIT);
    TaxRounds(HalfUp(ExactPrice(q), UNIT));
  }

  lemma LineForIsRight(env: Env, items: seq<Item>, d: Demand, i: nat, sale: nat)
    requires i < |items| && Contracts(items[i].facts) && RateKnown(env, items[i].facts)
    requires i in d.weights ==> i !in d.units
    ensures var line := LineFor(env, items, d, i, sale);
      && RightlyPriced(env, items[i].facts, line) && line.item == i && line.sale == sale
      && line.soldWeight == (if i in d.weights then Some(d.weights[i]) else None)
      && line.units == (if i in d.units then d.units[i] else 1)
  {
    var q := QuoteFor(env, items[i].facts, SoldWeight(d, i));
    QuoteIsOfWeight(env, items[i].facts, SoldWeight(d, i));
    LockedRounds(q);
  }

  // ---- taking stock away ----

  function Depleted(item: Item, units: nat, weight: nat): Item {
    var f := item.facts;
    if f.stockMode == ByWeight then
      var left := Weighed(f) - weight;
      if left <= 0 then item.(facts := f.(stockWeight := Some(0), quantity := 0), status := Sold)
      else item.(facts := f.(stockWeight := Some(left), quantity := 1), status := InStock)
    else
      item.(facts := f.(quantity := f.quantity - units), status := if f.quantity - units <= 0 then Sold else InStock)
  }

  function Sell(item: Item, d: Demand, i: nat): Item {
    Depleted(item, SoldUnits(d, i), Asked(d.weights, i))
  }

  function WithSold(items: seq<Item>, d: Demand, order: seq<nat>): (after: seq<Item>)
    ensures |after| == |items|
    ensures forall i :: 0 <= i < |items| ==> after[i] == if i in order then Sell(items[i], d, i) else items[i]
  {
    seq(|items|, i requires 0 <= i < |items| => if i in order then Sell(items[i], d, i) else items[i])
  }

  /** What an accepted demand guarantees of the item it falls on. */
  predicate Covered(items: seq<Item>, d: Demand, i: nat) {
    i < |items| && Refused(items, d, i).None? && (i in d.units || i in d.weights)
  }

  lemma DepletedContracts(item: Item, units: nat, weight: nat)
    requires Contracts(item.facts)
    requires if item.facts.stockMode == ByWeight then weight <= Weighed(item.facts) else units <= item.facts.quantity
    ensures Contracts(Depleted(item, units, weight).facts)
  {
  }

  lemma DepletedTidy(item: Item, units: nat, weight: nat)
    requires Tidy(item.facts)
    ensures Tidy(Depleted(item, units, weight).facts)
  {
  }

  /** A covered sale never oversells, takes exactly what was asked, and leaves a proper row. */
  lemma SaleKeepsRow(items: seq<Item>, d: Demand, i: nat)
    requires Covered(items, d, i) && RowOk(items[i])
    ensures var f, after := items[i].facts, Sell(items[i], d, i);
      && RowOk(after) && after.facts.stockMode == f.stockMode && after.status != Archived
      && (if f.stockMode == ByWeight
          then Weighed(after.facts) == Weighed(f) - d.weights[i] && Consumed(after.facts) == Consumed(f) + d.weights[i]
          else after.facts.quantity == f.quantity - d.units[i] && after.facts.quantity >= 0)
      && after == Item(f.(stockWeight := after.facts.stockWeight, quantity := after.facts.quantity),
                       items[i].barcode, items[i].name, items[i].notes, after.status)
      && after.status == (if (if f.stockMode == ByWeight then Weighed(after.facts) else after.facts.quantity) == 0 then Sold else InStock)
      && (f.stockMode == ByWeight ==> after.facts.quantity == if Weighed(after.facts) > 0 then 1 else 0)
      && (f.stockMode == ByQuantity ==> after.facts.stockWeight == f.stockWeight)
      && (IsActive(after) ==> IsActive(items[i]))
  {
    DepletedContracts(items[i], SoldUnits(d, i), Asked(d.weights, i));
    DepletedTidy(items[i], SoldUnits(d, i), Asked(d.weights, i));
  }

  predicate AllCovered(items: seq<Item>, d: Demand, order: seq<nat>) {
    forall k :: 0 <= k < |order| ==> Covered(items, d, order[k])
  }

  lemma SaleKeepsRows(items: seq<Item>, d: Demand, order: seq<nat>)
    requires RowsOk(items) && BarcodesDiffer(items) && AllCovered(items, d, order)
    ensures RowsOk(WithSold(items, d, order)) && BarcodesDiffer(WithSold(items, d, order))
    ensures ActiveCount(WithSold(items, d, order)) <= ActiveCount(items)
  {
    var after := WithSold(items, d, order);
    forall i | 0 <= i < |items|
      ensures RowOk(after[i]) && (IsActive(after[i]) ==> IsActive(items[i])) && after[i].barcode == items[i].barcode
    {
      if i in order { SaleKeepsRow(items, d, i); }
    }
    ActiveShrinks(items, after);
  }

  // ---- a sale ----

  /** The body of a checkout request; two bodies are the same exactly when their digests are. */
  datatype Request = Request(cart: seq<CartLine>, confirmedTotal: Option<int>, customer: string)

  datatype Sale = Sale(invoiceNo: string, total: int)

  datatype Books = Books(shelf: Shelf, sales: seq<Sale>, lines: seq<Line>, nextSequence: nat, totalSales: int)

  function NumbersInUse(sales: seq<Sale>): set<string> {
    set k | 0 <= k < |sales| :: sales[k].invoiceNo
  }

  /** The checks before anything is written. */
  function Screened(b: Books, env: Env, r: Request, order: seq<nat>): Option<Refusal> {
    var d := Tally(r.cart);
    if !CartFits(r.cart) then Some(Invalid)
    else if Mixed(d) then Some(MixedDemand)
    else if !AllBelow(order, |b.shelf.items|) then Some(NotFound)
    else if FirstRefusal(b.shelf.items, d, order).Some? then FirstRefusal(b.shelf.items, d, order)
    else if !env.open then Some(ShopClosed) else None
  }

  /** The last checks, on the total the customer confirmed. */
  function Confirmed(env: Env, r: Request, total: int): Option<Refusal> {
    if r.confirmedTotal.None? then (if env.hosted then Some(TotalRequired) else None)
    else if r.confirmedTotal.value != total then Some(PricingChanged) else None
  }

  function Booked(b: Books, env: Env, d: Demand, order: seq<nat>, lines: seq<Line>, at: int): Books
    requires AllBelow(order, |b.shelf.items|)
  {
    var sequence := FreeSequence(env, NumbersInUse(b.sales), b.nextSequence);
    Books(Commit(b.shelf, WithSold(b.shelf.items, d, order), order, SoldAt, at),
          b.sales + [Sale(InvoiceNo(env, sequence), Total(lines))], b.lines + lines, sequence + 1, b.totalSales + Total(lines))
  }

  /** Why a screened sale is refused after its number is found and its lines are priced. */
  function PriceRefusal(b: Books, env: Env, r: Request, d: Demand, order: seq<nat>): (refusal: Option<Refusal>)
    requires AllBelow(order, |b.shelf.items|)
    ensures refusal.None? ==> LinesFor(env, b.shelf.items, d, order, |b.sales|).Some?
  {
    var lines := LinesFor(env, b.shelf.items, d, order, |b.sales|);
    if lines.None? then Some(NoMetalRate) else Confirmed(env, r, Total(lines.value))
  }

  /** _execute_create_sale; order is the order in which the set of items is iterated. */
  function CheckedOut(b: Books, env: Env, r: Request, order: seq<nat>, at: int): Result<Books, Refusal> {
    var d := Tally(r.cart);
    if Screened(b, env, r, order).Some? then Err(Screened(b, env, r, order).value)
    else
      var refusal := PriceRefusal(b, env, r, d, order);
      if refusal.Some? then Err(refusal.value)
      else Ok(Booked(b, env, d, order, LinesFor(env, b.shelf.items, d, order, |b.sales|).value, at))
  }

  /** A screened sale covers every item it names. */
  lemma ScreenedIsCovered(b: Books, env: Env, r: Request, order: seq<nat>)
    requires Screened(b, env, r, order).None? && IsOrder(order, Named(Tally(r.cart)))
    ensures AllCovered(b.shelf.items, Tally(r.cart), order)
  {
    NoRefusalMeansAll(b.shelf.items, Tally(r.cart), order);
    forall k | 0 <= k < |order| ensures Covered(b.shelf.items, Tally(r.cart), order[k]) {
      assert order[k] in order;
    }
  }
  // ---- when a checkout succeeds, and what it leaves ----

  predicate NamesUnits(cart: seq<CartLine>, i: nat) { exists k :: 0 <= k < |cart| && cart[k].Units? && cart[k].item == i }

  predicate NamesGrams(cart: seq<CartLine>, i: nat) { exists k :: 0 <= k < |cart| && cart[k].Grams? && cart[k].item == i }

  /** The item is in stock and has what the cart asks of it: so much weight, or so many pieces. */
  predicate Sellable(item: Item, cart: seq<CartLine>, i: nat) {
    && item.status == InStock
    && (if item.facts.stockMode == ByWeight then
          NamesGrams(cart, i) && item.facts.stockWeight.Some? && WeightOf(cart, i) <= item.facts.stockWeight.value
        else !NamesGrams(cart, i) && UnitsOf(cart, i) <= item.facts.quantity)
  }

  /** Jewellery that is not sold at a fixed rate needs a rate for its metal. */
  predicate IsRated(env: Env, f: Facts) {
    f.itemType == Stone || f.pricing == FixedRate || Text.Lower(f.metal) in env.rates
  }

  /** What the customer confirmed is the total; on the hosted service there must be a confirmation. */
  predicate Agrees(env: Env, r: Request, total: int) {
    match r.confirmedTotal case None => !env.hosted case Some(confirmed) => confirmed == total
  }

  lemma TallyNames(cart: seq<CartLine>, i: nat)
    ensures i in Tally(cart).units <==> NamesUnits(cart, i)
    ensures i in Tally(cart).weights <==> NamesGrams(cart, i)
    ensures i in Named(Tally(cart)) <==> NamesUnits(cart, i) || NamesGrams(cart, i)
  {
    TallyIsTotal(cart, i);
  }

  lemma SellableExactly(items: seq<Item>, cart: seq<CartLine>, i: nat)
    requires i < |items|
    ensures Refused(items, Tally(cart), i).None? <==> Sellable(items[i], cart, i)
  {
    TallyIsTotal(cart, i);
    TallyNames(cart, i);
  }

  predicate AllRated(env: Env, items: seq<Item>, order: seq<nat>) {
    forall k :: 0 <= k < |order| ==> order[k] < |items| && IsRated(env, items[order[k]].facts)
  }

  lemma RatedAppend(env: Env, items: seq<Item>, front: seq<nat>, i: nat)
    requires i < |items| && AllBelow(front, |items|)
    ensures AllRated(env, items, front + [i]) <==> AllRated(env, items, front) && RateKnown(env, items[i].facts)
  {
    assert (front + [i])[|front|] == i;
    assert forall k :: 0 <= k < |front| ==> (front + [i])[k] == front[k];
  }

  lemma {:induction false} LinesForExactly(env: Env, items: seq<Item>, d: Demand, order: seq<nat>, sale: nat)
    requires AllBelow(order, |items|)
    ensures LinesFor(env, items, d, order, sale).Some? <==> AllRated(env, items, order)
  {
    if order != [] {
      Unsnoc(order);
      assert AllBelow(order[..|order| - 1], |items|);
      RatedAppend(env, items, order[..|order| - 1], order[|order| - 1]);
      LinesForExactly(env, items, d, order[..|order| - 1], sale);
    }
  }

  /** The cart can be sold: it is well formed, asks each item by weight or by pieces, and every item is there and has enough. */
  predicate CartSells(b: Books, env: Env, cart: seq<CartLine>, order: seq<nat>) {
    && 1 <= |cart| <= 100
    && (forall k :: 0 <= k < |cart| ==> (if cart[k].Units? then cart[k].count else cart[k].weight) >= 1)
    && (forall k :: 0 <= k < |order| ==>
          && order[k] < |b.shelf.items| && Sellable(b.shelf.items[order[k]], cart, order[k])
          && !(NamesUnits(cart, order[k]) && NamesGrams(cart, order[k])))
    && env.open
  }

  lemma MixedExactly(cart: seq<CartLine>, order: seq<nat>)
    requires IsOrder(order, Named(Tally(cart)))
    ensures Mixed(Tally(cart)) <==> exists k :: 0 <= k < |order| && NamesUnits(cart, order[k]) && NamesGrams(cart, order[k])
  {
    var d := Tally(cart);
    if Mixed(d) {
      var i :| i in d.units.Keys * d.weights.Keys;
      TallyNames(cart, i);
      assert i in order;
    }
    forall k | 0 <= k < |order| && NamesUnits(cart, order[k]) && NamesGrams(cart, order[k]) ensures Mixed(d) {
      TallyNames(cart, order[k]);
      assert order[k] in d.units.Keys * d.weights.Keys;
    }
  }

  lemma ScreenedExactly(b: Books, env: Env, r: Request, order: seq<nat>)
    requires IsOrder(order, Named(Tally(r.cart)))
    ensures Screened(b, env, r, order).None? <==> CartSells(b, env, r.cart, order)
  {
    MixedExactly(r.cart, order);
    if AllBelow(order, |b.shelf.items|) {
      NoRefusalMeansAll(b.shelf.items, Tally(r.cart), order);
      forall k | 0 <= k < |order|
        ensures Refused(b.shelf.items, Tally(r.cart), order[k]).None? <==> Sellable(b.shelf.items[order[k]], r.cart, order[k])
      {
        SellableExactly(b.shelf.items, r.cart, order[k]);
      }
    }
  }

  /** A checkout succeeds exactly when its cart can be sold, its metals are rated, and the customer agrees to the total. */
  lemma CheckedOutExactly(b: Books, env: Env, r: Request, order: seq<nat>, at: int)
    requires IsOrder(order, Named(Tally(r.cart)))
    ensures CheckedOut(b, env, r, order, at).Ok? <==>
      && CartSells(b, env, r.cart, order)
      && AllRated(env, b.shelf.items, order) && AllBelow(order, |b.shelf.items|)
      && LinesFor(env, b.shelf.items, Tally(r.cart), order, |b.sales|).Some?
      && Agrees(env, r, Total(LinesFor(env, b.shelf.items, Tally(r.cart), order, |b.sales|).value))
  {
    ScreenedExactly(b, env, r, order);
    if CartSells(b, env, r.cart, order) {
      assert AllBelow(order, |b.shelf.items|);
      LinesForExactly(env, b.shelf.items, Tally(r.cart), order, |b.sales|);
    }
  }
}
