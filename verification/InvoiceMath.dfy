/** The figures printed on an invoice: its columns, its tax rows and its totals, in paise. */
module InvoiceMath {
  import opened Prelude
  import opened Pricing
  import opened Checkout
  import opened Ledger
  import opened Runs
  import Inventory

  /** The printed columns of a line. */
  datatype InvoiceLine = InvoiceLine(quantity: nat, value: nat, making: nat, gst: nat, rate: nat, price: nat)

  datatype Totals = Totals(quantity: nat, value: nat, making: nat, gst: nat, grandTotal: int, groups: map<nat, nat>)

  function Printed(line: Line): InvoiceLine {
    var b := line.breakdown;
    InvoiceLine(line.units, b.metalValue * line.units + b.fixedRate * line.units, b.makingCharge * line.units,
                b.gst * line.units, b.gstRate, line.price)
  }

  lemma Distribute(a: int, b: int, c: int, n: nat)
    requires a == b + c
    ensures a * n == b * n + c * n
  {
  }

  /** The columns of a line: each figure of a piece, for as many pieces as the line has; a fixed rate counts as value. */
  lemma PrintedReads(line: Line)
    ensures var printed, b := Printed(line), line.breakdown;
      && printed.quantity == line.units && printed.price == line.price && printed.rate == b.gstRate
      && printed.value == line.units * (b.metalValue + b.fixedRate)
      && printed.making == line.units * b.makingCharge && printed.gst == line.units * b.gst
  {
    Distribute(line.breakdown.metalValue + line.breakdown.fixedRate, line.breakdown.metalValue, line.breakdown.fixedRate, line.units);
  }

  function PrintedAll(lines: seq<Line>): (printed: seq<InvoiceLine>)
    ensures |printed| == |lines| && forall k :: 0 <= k < |lines| ==> printed[k] == Printed(lines[k])
  {
    seq(|lines|, k requires 0 <= k < |lines| => Printed(lines[k]))
  }

  function Column(printed: seq<InvoiceLine>, column: InvoiceLine -> nat): nat {
    if printed == [] then 0 else Column(printed[..|printed| - 1], column) + column(printed[|printed| - 1])
  }

  const QUANTITY: InvoiceLine -> nat := (l: InvoiceLine) => l.quantity
  const VALUE: InvoiceLine -> nat := (l: InvoiceLine) => l.value
  const MAKING: InvoiceLine -> nat := (l: InvoiceLine) => l.making
  const GST: InvoiceLine -> nat := (l: InvoiceLine) => l.gst

  /** The tax of the lines at one rate. */
  function TaxAt(printed: seq<InvoiceLine>, rate: nat): nat {
    Column(printed, (l: InvoiceLine) => if l.rate == rate then l.gst else 0)
  }

  predicate HasRate(printed: seq<InvoiceLine>, rate: nat) {
    exists k :: 0 <= k < |printed| && printed[k].rate == rate
  }

  /** A tax group for every rate on the invoice, holding the tax charged at it. */
  predicate GroupsMatch(printed: seq<InvoiceLine>, groups: map<nat, nat>) {
    && (forall rate :: rate in groups ==> HasRate(printed, rate) && groups[rate] == TaxAt(printed, rate))
    && (forall k :: 0 <= k < |printed| ==> printed[k].rate in groups)
  }

  lemma OneMoreGroup(printed: seq<InvoiceLine>, line: InvoiceLine, groups: map<nat, nat>)
    requires GroupsMatch(printed, groups)
    ensures var before := if line.rate in groups then groups[line.rate] else 0;
      GroupsMatch(printed + [line], groups[line.rate := before + line.gst])
  {
    var all := printed + [line];
    assert all[..|all| - 1] == printed;
    assert all[|printed|].rate == line.rate;
    if line.rate !in groups { NoTaxAt(printed, line.rate); }
    forall rate | HasRate(printed, rate) ensures HasRate(all, rate) {
      var k :| 0 <= k < |printed| && printed[k].rate == rate;
      assert all[k].rate == rate;
    }
  }

  lemma {:induction false} NoTaxAt(printed: seq<InvoiceLine>, rate: nat)
    requires !HasRate(printed, rate)
    ensures TaxAt(printed, rate) == 0
  {
    if printed != [] {
      var last := |printed| - 1;
      assert forall k :: 0 <= k < last ==> printed[..last][k] == printed[k];
      assert !HasRate(printed[..last], rate);
      assert printed[last].rate != rate;
      NoTaxAt(printed[..last], rate);
    }
  }

  lemma ColumnAppend(printed: seq<InvoiceLine>, line: InvoiceLine, column: InvoiceLine -> nat)
    ensures Column(printed + [line], column) == Column(printed, column) + column(line)
  {
    assert (printed + [line])[..|printed|] == printed;
  }

  /** _invoice_lines */
  method InvoiceLines(lines: seq<Line>, total: int) returns (printed: seq<InvoiceLine>, totals: Totals)
    ensures printed == PrintedAll(lines) && totals.grandTotal == total
    ensures totals.quantity == Column(printed, QUANTITY) && totals.value == Column(printed, VALUE)
    ensures totals.making == Column(printed, MAKING) && totals.gst == Column(printed, GST)
    ensures GroupsMatch(printed, totals.groups)
    ensures |lines| == 1 ==>
      totals == Totals(printed[0].quantity, printed[0].value, printed[0].making, printed[0].gst, total, totals.groups)
  {
    printed := [];
    var quantity, value, making, gst: nat := 0, 0, 0, 0;
    var groups: map<nat, nat> := map[];
    for k := 0 to |lines|
      invariant printed == PrintedAll(lines[..k])
      invariant quantity == Column(printed, QUANTITY) && value == Column(printed, VALUE)
      invariant making == Column(printed, MAKING) && gst == Column(printed, GST)
      invariant GroupsMatch(printed, groups)
    {
      var line := Printed(lines[k]);
      OneMoreGroup(printed, line, groups);
      ColumnAppend(printed, line, QUANTITY);
      ColumnAppend(printed, line, VALUE);
      ColumnAppend(printed, line, MAKING);
      ColumnAppend(printed, line, GST);
      printed := printed + [line];
      quantity, value := quantity + line.quantity, value + line.value;
      making, gst := making + line.making, gst + line.gst;
      groups := groups[line.rate := (if line.rate in groups then groups[line.rate] else 0) + line.gst];
    }
    assert lines[..|lines|] == lines;
    totals := Totals(quantity, value, making, gst, total, groups);
    if |lines| == 1 { assert printed[..0] == []; }
  }

  // ---- the summary ----

  datatype Row = BeforeTax(amount: int) | Sgst(rate: nat, amount: int) | Cgst(rate: nat, amount: int) | WithTax(amount: int)

  predicate Ascending(rates: seq<nat>) {
    forall i, j :: 0 <= i < j < |rates| ==> rates[i] < rates[j]
  }

  predicate Known(rates: seq<nat>, groups: map<nat, nat>) {
    forall k :: 0 <= k < |rates| ==> rates[k] in groups
  }

  lemma {:induction false} SmallestExists(s: set<nat>) returns (m: nat)
    requires s != {}
    ensures m in s && forall x :: x in s ==> m <= x
  {
    m :| m in s;
    if s != {m} {
      var rest := SmallestExists(s - {m});
      assert forall x :: x in s ==> x == m || x in s - {m};
      if rest < m { m := rest; }
    }
  }

  function Smallest(s: set<nat>): (m: nat)
    requires s != {}
    ensures m in s && forall x :: x in s ==> m <= x
  {
    assert exists m :: m in s && forall x :: x in s ==> m <= x by { var m := SmallestExists(s); }
    var m :| m in s && forall x :: x in s ==> m <= x;
    m
  }

  function SortedSet(s: set<nat>): (rates: seq<nat>)
    ensures Ascending(rates) && |rates| == |s|
    ensures forall k :: 0 <= k < |rates| ==> rates[k] in s
  {
    if s == {} then []
    else
      var m := Smallest(s);
      var rest := SortedSet(s - {m});
      [m] + rest
  }

  lemma {:induction false} SortedSetHas(s: set<nat>, x: nat)
    requires x in s
    ensures x in SortedSet(s)
  {
    var m := Smallest(s);
    if x != m { SortedSetHas(s - {m}, x); }
    assert SortedSet(s) == [m] + SortedSet(s - {m});
  }

  /** The rates of the groups in ascending order. */
  function Sorted(groups: map<nat, nat>): (rates: seq<nat>)
    ensures Known(rates, groups) && Ascending(rates) && |rates| == |groups.Keys|
  {
    SortedSet(groups.Keys)
  }

  lemma SortedHasAll(groups: map<nat, nat>, rate: nat)
    requires rate in groups
    ensures rate in Sorted(groups)
  {
    SortedSetHas(groups.Keys, rate);
  }

  /** The half that is rounded up; the other half is what is left. */
  function StateHalf(tax: nat): nat { HalfUp(tax, 2) }

  function Pair(rate: nat, tax: nat): (rows: seq<Row>)
    ensures |rows| == 2
  {
    [Sgst(rate, StateHalf(tax)), Cgst(rate, tax - StateHalf(tax))]
  }

  function TaxRows(groups: map<nat, nat>, rates: seq<nat>): (rows: seq<Row>)
    requires Known(rates, groups)
    ensures |rows| == 2 * |rates|
  {
    if rates == [] then []
    else TaxRows(groups, rates[..|rates| - 1]) + Pair(rates[|rates| - 1], groups[rates[|rates| - 1]])
  }

  lemma {:induction false} TaxRowsAt(groups: map<nat, nat>, rates: seq<nat>, k: nat)
    requires k < |rates| && Known(rates, groups)
    ensures TaxRows(groups, rates)[2 * k..2 * k + 2] == Pair(rates[k], groups[rates[k]])
  {
    var last := |rates| - 1;
    var before := TaxRows(groups, rates[..last]);
    if k < last {
      TaxRowsAt(groups, rates[..last], k);
      assert TaxRows(groups, rates)[2 * k..2 * k + 2] == before[2 * k..2 * k + 2];
    }
  }

  function TaxTable(totals: Totals, saleRate: nat): seq<Row> {
    if totals.groups != map[] then TaxRows(totals.groups, Sorted(totals.groups)) else Pair(saleRate, totals.gst)
  }

  /** The rows of the summary table, an invoice without lines falling back on the rate of the sale. */
  function Summary(totals: Totals, saleRate: nat): seq<Row> {
    [BeforeTax(totals.grandTotal - totals.gst)] + TaxTable(totals, saleRate) + [WithTax(totals.grandTotal)]
  }

  method PairRows(rate: nat, tax: nat) returns (rows: seq<Row>)
    ensures rows == Pair(rate, tax)
  {
    var sgst := StateHalf(tax);
    rows := [Sgst(rate, sgst), Cgst(rate, tax - sgst)];
  }

  method TaxTableRows(totals: Totals, saleRate: nat) returns (rows: seq<Row>)
    ensures rows == TaxTable(totals, saleRate)
  {
    if totals.groups == map[] {
      rows := PairRows(saleRate, totals.gst);
      return;
    }
    var rates := Sorted(totals.groups);
    rows := [];
    for k := 0 to |rates|
      invariant rows == TaxRows(totals.groups, rates[..k])
    {
      assert rates[..k + 1][..k] == rates[..k];
      var pair := PairRows(rates[k], totals.groups[rates[k]]);
      rows := rows + pair;
    }
    assert rates[..|rates|] == rates;
  }

  /** _draw_summary */
  method SummaryRows(totals: Totals, saleRate: nat) returns (rows: seq<Row>)
    ensures rows == Summary(totals, saleRate)
  {
    var taxRows := TaxTableRows(totals, saleRate);
    rows := [BeforeTax(totals.grandTotal - totals.gst)] + taxRows + [WithTax(totals.grandTotal)];
  }

  /** What the rows before the last add up to. */
  function Amounts(rows: seq<Row>): seq<int> {
    if rows == [] then [] else Amounts(rows[..|rows| - 1]) + [rows[|rows| - 1].amount]
  }

  function RowTotal(rows: seq<Row>): int { Sum(Amounts(rows)) }

  lemma RowTotalAppend(rows: seq<Row>, row: Row)
    ensures RowTotal(rows + [row]) == RowTotal(rows) + row.amount
  {
    assert (rows + [row])[..|rows|] == rows;
    SumAppend(Amounts(rows), row.amount);
  }

  lemma {:induction false} RowTotalConcat(a: seq<Row>, b: seq<Row>)
    ensures RowTotal(a + b) == RowTotal(a) + RowTotal(b)
  {
    if b == [] {
      assert a + b == a;
    } else {
      var last := |b| - 1;
      RowTotalConcat(a, b[..last]);
      RowTotalAppend(a + b[..last], b[last]);
      RowTotalAppend(b[..last], b[last]);
      assert a + b == a + b[..last] + [b[last]] && b[..last] + [b[last]] == b;
    }
  }

  function GroupSum(groups: map<nat, nat>, rates: seq<nat>): int
    requires Known(rates, groups)
  {
    if rates == [] then 0 else GroupSum(groups, rates[..|rates| - 1]) + groups[rates[|rates| - 1]]
  }

  lemma PairTotal(rate: nat, tax: nat)
    ensures RowTotal(Pair(rate, tax)) == tax
  {
    var half := StateHalf(tax);
    RowTotalAppend([], Sgst(rate, half));
    RowTotalAppend([Sgst(rate, half)], Cgst(rate, tax - half));
    assert [] + [Sgst(rate, half)] == [Sgst(rate, half)];
    assert Pair(rate, tax) == [Sgst(rate, half)] + [Cgst(rate, tax - half)];
  }

  lemma {:induction false} TaxRowsTotal(groups: map<nat, nat>, rates: seq<nat>)
    requires Known(rates, groups)
    ensures RowTotal(TaxRows(groups, rates)) == GroupSum(groups, rates)
  {
    if rates != [] {
      var last := |rates| - 1;
      TaxRowsTotal(groups, rates[..last]);
      PairTotal(rates[last], groups[rates[last]]);
      RowTotalConcat(TaxRows(groups, rates[..last]), Pair(rates[last], groups[rates[last]]));
    }
  }

  function TaxSum(printed: seq<InvoiceLine>, rates: seq<nat>): int {
    if rates == [] then 0 else TaxSum(printed, rates[..|rates| - 1]) + TaxAt(printed, rates[|rates| - 1])
  }

  lemma {:induction false} TaxSumAppend(printed: seq<InvoiceLine>, line: InvoiceLine, rates: seq<nat>)
    requires Ascending(rates)
    ensures TaxSum(printed + [line], rates) == TaxSum(printed, rates) + if line.rate in rates then line.gst else 0
  {
    if rates != [] {
      var last := |rates| - 1;
      TaxSumAppend(printed, line, rates[..last]);
      assert (printed + [line])[..|printed|] == printed;
      assert rates == rates[..last] + [rates[last]];
    }
  }

  lemma {:induction false} TaxSumEmpty(rates: seq<nat>)
    ensures TaxSum([], rates) == 0
  {
    if rates != [] { TaxSumEmpty(rates[..|rates| - 1]); }
  }

  /** The groups share out the whole tax. */
  lemma {:induction false} GroupsShareTheTax(printed: seq<InvoiceLine>, rates: seq<nat>)
    requires Ascending(rates) && forall k :: 0 <= k < |printed| ==> printed[k].rate in rates
    ensures TaxSum(printed, rates) == Column(printed, GST)
  {
    if printed == [] {
      TaxSumEmpty(rates);
    } else {
      var last := |printed| - 1;
      assert forall k :: 0 <= k < last ==> printed[..last][k] == printed[k];
      GroupsShareTheTax(printed[..last], rates);
      TaxSumAppend(printed[..last], printed[last], rates);
      assert printed[..last] + [printed[last]] == printed;
    }
  }

  lemma {:induction false} GroupSumIsTaxSum(printed: seq<InvoiceLine>, groups: map<nat, nat>, rates: seq<nat>)
    requires GroupsMatch(printed, groups) && Known(rates, groups)
    ensures GroupSum(groups, rates) == TaxSum(printed, rates)
  {
    if rates != [] { GroupSumIsTaxSum(printed, groups, rates[..|rates| - 1]); }
  }

  /** The totals _invoice_lines returns for some printed lines. */
  predicate TotalsMatch(printed: seq<InvoiceLine>, totals: Totals) {
    totals.gst == Column(printed, GST) && GroupsMatch(printed, totals.groups)
  }

  lemma TaxTableTotal(printed: seq<InvoiceLine>, totals: Totals, saleRate: nat)
    requires TotalsMatch(printed, totals)
    ensures RowTotal(TaxTable(totals, saleRate)) == totals.gst
  {
    if totals.groups != map[] {
      var rates := Sorted(totals.groups);
      TaxRowsTotal(totals.groups, rates);
      GroupSumIsTaxSum(printed, totals.groups, rates);
      forall k | 0 <= k < |printed| ensures printed[k].rate in rates { SortedHasAll(totals.groups, printed[k].rate); }
      GroupsShareTheTax(printed, rates);
    } else {
      PairTotal(saleRate, totals.gst);
    }
  }

  /** The first row is before tax, the last with tax, and all but the last add up to the last. */
  predicate Reconciles(rows: seq<Row>, beforeTax: int, total: int) {
    && |rows| >= 2 && rows[0] == BeforeTax(beforeTax) && rows[|rows| - 1] == WithTax(total)
    && RowTotal(rows[..|rows| - 1]) == total
  }

  /** For any lines, the amount before tax and all the tax rows add up to the total with tax. */
  lemma SummaryReconciles(printed: seq<InvoiceLine>, totals: Totals, saleRate: nat)
    requires TotalsMatch(printed, totals)
    ensures Reconciles(Summary(totals, saleRate), totals.grandTotal - totals.gst, totals.grandTotal)
  {
    var rows, before := Summary(totals, saleRate), BeforeTax(totals.grandTotal - totals.gst);
    assert rows[..|rows| - 1] == [before] + TaxTable(totals, saleRate);
    TaxTableTotal(printed, totals, saleRate);
    RowTotalConcat([before], TaxTable(totals, saleRate));
    RowTotalAppend([], before);
    assert [] + [before] == [before];
  }

  /** A pair of halves makes up its group, and the state's half is never smaller, by a paisa at most. */
  predicate HalvesOf(rows: seq<Row>, rate: nat, tax: nat) {
    && |rows| == 2 && rows[0].Sgst? && rows[1].Cgst? && rows[0].rate == rate == rows[1].rate
    && rows[0].amount + rows[1].amount == tax && 0 <= rows[0].amount - rows[1].amount <= 1
  }

  lemma PairIsHalves(rate: nat, tax: nat)
    ensures HalvesOf(Pair(rate, tax), rate, tax)
  {
    HalfUpIsNearest(tax, 2);
  }

  lemma MiddleRows(first: Row, table: seq<Row>, last: Row, k: nat)
    requires 2 * k + 2 <= |table|
    ensures ([first] + table + [last])[2 * k + 1..2 * k + 3] == table[2 * k..2 * k + 2]
  {
  }

  lemma TableHalves(groups: map<nat, nat>, rates: seq<nat>, k: nat)
    requires k < |rates| && Known(rates, groups)
    ensures HalvesOf(TaxRows(groups, rates)[2 * k..2 * k + 2], rates[k], groups[rates[k]])
  {
    TaxRowsAt(groups, rates, k);
    PairIsHalves(rates[k], groups[rates[k]]);
  }

  /** After the first row the table pairs the halves of every tax group, rate by ascending rate. */
  lemma EveryGroupIsHalved(totals: Totals, saleRate: nat, k: nat)
    requires totals.groups != map[] && k < |totals.groups.Keys|
    ensures var rows, rates := Summary(totals, saleRate), Sorted(totals.groups);
      && |rows| == 2 * |rates| + 2 && rates[k] in totals.groups
      && HalvesOf(rows[2 * k + 1..2 * k + 3], rates[k], totals.groups[rates[k]])
  {
    var rates := Sorted(totals.groups);
    TableHalves(totals.groups, rates, k);
    MiddleRows(BeforeTax(totals.grandTotal - totals.gst), TaxTable(totals, saleRate), WithTax(totals.grandTotal), k);
  }

  // ---- the invoices of a run ----

  /** A line as checkout writes it. */
  predicate WellPriced(line: Line) {
    var b := line.breakdown;
    && b.finalPrice == b.subtotal + b.gst && line.price == b.finalPrice * line.units
    && -1 <= b.metalValue + b.fixedRate + b.makingCharge - b.subtotal <= 1
  }

  predicate AllWellPriced(lines: seq<Line>) {
    forall k :: 0 <= k < |lines| ==> WellPriced(lines[k])
  }

  function BeforeTaxOf(lines: seq<Line>): int {
    if lines == [] then 0
    else BeforeTaxOf(lines[..|lines| - 1]) + lines[|lines| - 1].breakdown.subtotal * lines[|lines| - 1].units
  }

  predicate Near(x: int, y: int, distance: nat) { x <= y + distance && y <= x + distance }

  lemma Spread3(a: int, b: int, c: int, s: int, n: nat)
    requires -1 <= a + b + c - s <= 1
    ensures Near(a * n + b * n + c * n, s * n, n)
  {
    var d := a + b + c - s;
    assert a * n + b * n + c * n - s * n == d * n;
    assert d == -1 || d == 0 || d == 1;
  }

  /** The amount before tax is the sum of the lines' subtotals times their pieces. */
  lemma {:induction false} BeforeTaxIsSubtotals(lines: seq<Line>)
    requires AllWellPriced(lines)
    ensures Total(lines) - Column(PrintedAll(lines), GST) == BeforeTaxOf(lines)
  {
    if lines == [] {
      assert Prices(lines) == [];
    } else {
      var last := |lines| - 1;
      var line := lines[last];
      assert lines == lines[..last] + [line];
      BeforeTaxIsSubtotals(lines[..last]);
      TotalConcat(lines[..last], [line]);
      TotalOfOne(line);
      assert PrintedAll(lines)[..last] == PrintedAll(lines[..last]);
      Distribute(line.breakdown.finalPrice, line.breakdown.subtotal, line.breakdown.gst, line.units);
    }
  }

  /** The value and making columns drift from the amount before tax by at most a paisa a piece. */
  lemma {:induction false} ColumnsDriftLittle(lines: seq<Line>)
    requires AllWellPriced(lines)
    ensures var printed := PrintedAll(lines);
      Near(Column(printed, VALUE) + Column(printed, MAKING), BeforeTaxOf(lines), Column(printed, QUANTITY))
  {
    if lines != [] {
      var last := |lines| - 1;
      var b := lines[last].breakdown;
      assert AllWellPriced(lines[..last]);
      ColumnsDriftLittle(lines[..last]);
      assert PrintedAll(lines)[..last] == PrintedAll(lines[..last]);
      assert WellPriced(lines[last]);
      Spread3(b.metalValue, b.fixedRate, b.makingCharge, b.subtotal, lines[last].units);
    }
  }

  lemma LineForIsWellPriced(env: Inventory.Env, items: seq<Inventory.Item>, d: Demand, i: nat, sale: nat)
    requires i < |items| && RateKnown(env, items[i].facts) && (i in d.weights ==> i !in d.units)
    ensures WellPriced(LineFor(env, items, d, i, sale))
  {
    ComponentsWithinOnePaisa(QuoteFor(env, items[i].facts, SoldWeight(d, i)));
  }

  lemma NotBoth(d: Demand, i: nat)
    requires !Mixed(d)
    ensures !(i in d.units && i in d.weights)
  {
    assert i in d.units.Keys * d.weights.Keys <==> i in d.units && i in d.weights;
  }

  lemma NewLinesWellPriced(b: Books, env: Inventory.Env, d: Demand, order: seq<nat>, lines: seq<Line>)
    requires Bookable(b, env, d, order, lines) && !Mixed(d)
    ensures AllWellPriced(lines)
  {
    forall k | 0 <= k < |lines| ensures WellPriced(lines[k]) {
      LineAt(env, b.shelf.items, d, order, |b.sales|, k);
      NotBoth(d, order[k]);
      LineForIsWellPriced(env, b.shelf.items, d, order[k], |b.sales|);
    }
  }

  lemma ShelfEventsKeepLines(db: Db, e: Event)
    requires !e.op.Buy?
    ensures Apply(db, e).books.lines == db.books.lines
  {
  }

  /** Only a checkout writes lines, and it writes them well priced. */
  lemma StepKeepsWellPriced(db: Db, e: Event)
    requires Inv(db) && AllWellPriced(db.books.lines)
    ensures AllWellPriced(Apply(db, e).books.lines)
  {
    if !e.op.Buy? {
      ShelfEventsKeepLines(db, e);
    } else if Apply(db, e) != db {
      BuyKeepsWellPriced(db, e);
    }
  }

  lemma BuyKeepsWellPriced(db: Db, e: Event)
    requires Inv(db) && AllWellPriced(db.books.lines) && e.op.Buy? && Apply(db, e) != db
    ensures AllWellPriced(Apply(db, e).books.lines)
  {
    var d := Tally(e.op.request.cart);
    var lines := PurchaseIsBooked(db, e);
    PurchaseIsNotMixed(db, e);
    NewLinesWellPriced(db.books, e.op.env, d, e.op.order, lines);
    var after := Apply(db, e).books.lines;
    assert after == db.books.lines + lines;
  }

  lemma PurchaseIsNotMixed(db: Db, e: Event)
    requires e.op.Buy? && Apply(db, e) != db
    ensures !Mixed(Tally(e.op.request.cart))
  {
  }

  lemma {:induction false} LinesAreWellPriced(db: Db, events: seq<Event>)
    requires Inv(db) && AllWellPriced(db.books.lines)
    ensures AllWellPriced(Execute(db, events).books.lines)
    decreases |events|
  {
    if events != [] {
      StepKeepsWellPriced(db, events[0]);
      StepKeepsInv(db, events[0]);
      LinesAreWellPriced(Apply(db, events[0]), events[1..]);
    }
  }

  lemma {:induction false} OfSaleWellPriced(lines: seq<Line>, s: nat)
    requires AllWellPriced(lines)
    ensures AllWellPriced(LinesOf(lines, s))
  {
    if lines != [] { OfSaleWellPriced(lines[..|lines| - 1], s); }
  }

  /** The line columns and totals of one sale, as _invoice_lines returns them. */
  predicate IsInvoiceOf(lines: seq<Line>, total: int, totals: Totals) {
    TotalsMatch(PrintedAll(lines), totals) && totals.grandTotal == total
  }

  /** The invoice of any well-priced lines: before tax is the sum of the subtotals, and with all tax rows the total. */
  lemma InvoiceReconciles(lines: seq<Line>, totals: Totals, saleRate: nat)
    requires AllWellPriced(lines) && IsInvoiceOf(lines, Total(lines), totals)
    ensures Reconciles(Summary(totals, saleRate), BeforeTaxOf(lines), Total(lines))
  {
    BeforeTaxIsSubtotals(lines);
    assert totals.grandTotal - totals.gst == BeforeTaxOf(lines);
    SummaryReconciles(PrintedAll(lines), totals, saleRate);
  }

  /** In every run the lines of every sale are well priced and make up its total, so its invoice reconciles. */
  lemma EverySaleIsWellPriced(events: seq<Event>, s: nat)
    requires s < |Execute(Opened, events).books.sales|
    ensures var b := Execute(Opened, events).books;
      AllWellPriced(LinesOf(b.lines, s)) && b.sales[s].total == Total(LinesOf(b.lines, s))
  {
    var b := Execute(Opened, events).books;
    OpenedIsOk();
    AlwaysInv(Opened, events);
    LinesAreWellPriced(Opened, events);
    OfSaleWellPriced(b.lines, s);
  }
}
