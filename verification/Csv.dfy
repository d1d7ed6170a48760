/** Inventory files: what a row says, how items are written to rows, and how rows are read back. */
module Csv {
  import opened Prelude
  import opened Pricing
  import opened ItemContracts
  import opened Inventory
  import Text

  // ---- cells ----

  predicate IsFormula(s: string) { s != "" && s[0] in {'=', '+', '-', '@'} }

  predicate IsEscaped(s: string) { s != "" && s[0] == '\'' && IsFormula(s[1..]) }

  /** _spreadsheet_safe */
  function Safe(s: string): string { if IsFormula(s) then "'" + s else s }

  /** _cell */
  function Cell(s: string): string {
    var value := Text.Strip(s);
    if IsEscaped(value) then value[1..] else value
  }

  /** A spreadsheet takes a cell for a formula by its first character. */
  predicate IsInert(cell: string) { cell == "" || cell[0] !in {'=', '+', '-', '@'} }

  /** An escaped text is never taken for a formula; any other is written as it is. */
  lemma SafeIsInert(s: string)
    ensures IsInert(Safe(s)) && Safe(s) == if IsInert(s) then s else "'" + s
  {
  }

  lemma FormulaStrips(s: string)
    requires IsFormula(s)
    ensures Text.Strip("'" + s) == "'" + Text.Strip(s) && IsFormula(Text.Strip(s))
  {
    Text.StripCons('\'', s);
    Text.StripRightKeepsHead(s);
    assert Text.StripLeft(s) == s;
  }

  /** Reading an escaped cell gives what reading the plain one gives, for every string. */
  lemma EscapeIsInvisible(s: string)
    ensures Cell(Safe(s)) == Cell(s)
  {
    if IsFormula(s) { FormulaStrips(s); }
  }

  lemma {:induction false} StripLeftShortens(s: string)
    ensures |Text.StripLeft(s)| <= |s| && (|Text.StripLeft(s)| == |s| ==> Text.StripLeft(s) == s)
  {
    if s != "" && Text.IsSpace(s[0]) { StripLeftShortens(s[1..]); }
  }

  lemma {:induction false} StripRightShortens(s: string)
    ensures |Text.StripRight(s)| <= |s| && (|Text.StripRight(s)| == |s| ==> Text.StripRight(s) == s)
  {
    if s != "" && Text.IsSpace(s[|s| - 1]) { StripRightShortens(s[..|s| - 1]); }
  }

  lemma CellShortens(s: string)
    ensures |Cell(s)| <= |s| && (|Cell(s)| == |s| ==> Cell(s) == s)
  {
    StripLeftShortens(s);
    StripRightShortens(Text.StripLeft(s));
  }

  /** Texts a file gives back unchanged. */
  predicate IsPlain(s: string) { Text.Trimmed(s) && !IsEscaped(s) }

  lemma PlainExactly(s: string)
    ensures Cell(Safe(s)) == s <==> IsPlain(s)
  {
    EscapeIsInvisible(s);
    Text.StripIsTrimmed(s);
    StripLeftShortens(s);
    StripRightShortens(Text.StripLeft(s));
  }

  /** A cell read in lower case gives back, up to case, exactly the plain texts. */
  lemma PlainUpToCase(s: string)
    ensures Text.Lower(Cell(Safe(s))) == Text.Lower(s) <==> IsPlain(s)
  {
    EscapeIsInvisible(s);
    PlainExactly(s);
    CellShortens(s);
    if Text.Lower(Cell(s)) == Text.Lower(s) { assert |Cell(s)| == |s|; }
  }

  // ---- numbers ----

  /** The digits of a column value of that scale, at least one of them before the point. */
  function Numeral(n: nat, scale: nat): (s: string)
    ensures |s| > scale && Text.AllDigits(s)
  {
    Text.ZeroPad(Text.Digits(n), scale + 1)
  }

  /** str() of the value. */
  function DecimalText(n: nat, scale: nat): string {
    var s := Numeral(n, scale);
    s[..|s| - scale] + "." + s[|s| - scale..]
  }

  function Point(s: string): (k: nat)
    ensures k <= |s| && (k < |s| ==> s[k] == '.') && forall i :: 0 <= i < k ==> s[i] != '.'
  {
    if s == "" || s[0] == '.' then 0 else 1 + Point(s[1..])
  }

  function Zeros(k: nat): (z: string)
    ensures |z| == k && Text.AllDigits(z)
  {
    if k == 0 then "" else "0" + Zeros(k - 1)
  }

  /** A plain decimal numeral with at most that many decimals, in units of its scale. */
  function ParseDecimal(s: string, scale: nat): Option<nat> {
    var k := Point(s);
    var whole, decimals := s[..k], if k < |s| then s[k + 1..] else "";
    if !Text.AllDigits(whole) || !Text.AllDigits(decimals) || |decimals| > scale || whole + decimals == "" then None
    else Some(Text.DigitsValue(whole + decimals + Zeros(scale - |decimals|)))
  }

  function ParseInt(s: string): Option<nat> {
    if s == "" || !Text.AllDigits(s) then None else Some(Text.DigitsValue(s))
  }

  lemma PointIsFirst(whole: string, decimals: string)
    requires Text.AllDigits(whole)
    ensures Point(whole + "." + decimals) == |whole|
  {
    var s := whole + "." + decimals;
    var k := Point(s);
    assert s[|whole|] == '.';
    assert forall i :: 0 <= i < |whole| ==> s[i] == whole[i] && Text.IsDigit(whole[i]) && s[i] != '.';
  }

  lemma ParseOfParts(whole: string, decimals: string)
    requires Text.AllDigits(whole) && Text.AllDigits(decimals) && whole != ""
    ensures ParseDecimal(whole + "." + decimals, |decimals|) == Some(Text.DigitsValue(whole + decimals))
  {
    var s := whole + "." + decimals;
    PointIsFirst(whole, decimals);
    assert s[..|whole|] == whole && s[|whole| + 1..] == decimals && whole + decimals + Zeros(0) == whole + decimals;
  }

  lemma Rejoined(s: string, k: nat)
    requires k <= |s|
    ensures s[..k] + s[k..] == s
  {
  }

  lemma NumeralValue(n: nat, scale: nat)
    ensures Text.DigitsValue(Numeral(n, scale)) == n
  {
    Text.ZeroPadValue(Text.Digits(n), scale + 1);
    Text.DigitsRoundTrip(n);
  }

  lemma DecimalRoundTrip(n: nat, scale: nat)
    ensures ParseDecimal(DecimalText(n, scale), scale) == Some(n)
  {
    var s := Numeral(n, scale);
    NumeralValue(n, scale);
    Rejoined(s, |s| - scale);
    ParseOfParts(s[..|s| - scale], s[|s| - scale..]);
  }

  lemma DigitsRead()
    ensures Text.Digits(1_050) == "1050" && Text.Digits(5) == "5"
  {
    assert Text.Digits(1) == "1" && Text.Digits(10) == "10";
    assert Text.Digits(105) == "105";
  }

  /** Decimals in figures: grams are printed with three places and money with two. */
  lemma DecimalsShow()
    ensures DecimalText(1_050, GRAMS) == "1.050" && DecimalText(5, PAISE) == "0.05"
  {
    DigitsRead();
    assert Numeral(1_050, 3) == "1050" && "1050"[..1] == "1" && "1050"[1..] == "050";
    assert ['0'] + "5" == "05" && ['0'] + "05" == "005";
    assert Text.ZeroPad("05", 3) == "005";
    assert Numeral(5, 2) == "005" && "005"[..1] == "0" && "005"[1..] == "05";
  }

  lemma PointOfWhole(whole: string)
    requires Text.AllDigits(whole)
    ensures Point(whole) == |whole|
  {
    assert forall i :: 0 <= i < |whole| ==> Text.IsDigit(whole[i]) && whole[i] != '.';
  }

  lemma PartsRead(whole: string, decimals: string, scale: nat)
    requires Text.AllDigits(whole) && Text.AllDigits(decimals) && whole != ""
    ensures ParseDecimal(whole + "." + decimals, scale) ==
      if |decimals| > scale then None else Some(Text.DigitsValue(whole + decimals + Zeros(scale - |decimals|)))
  {
    var s := whole + "." + decimals;
    PointIsFirst(whole, decimals);
    assert s[..|whole|] == whole && s[|whole| + 1..] == decimals;
  }

  lemma ZeroMoves(digits: string, k: nat)
    requires k >= 1
    ensures digits + Zeros(k) == (digits + "0") + Zeros(k - 1)
  {
  }

  lemma PlacedAlike(whole: string, decimals: string, k: nat)
    requires k >= 1
    ensures whole + decimals + Zeros(k) == whole + (decimals + "0") + Zeros(k - 1)
  {
    ZeroMoves(whole + decimals, k);
    assert whole + (decimals + "0") == (whole + decimals) + "0";
  }

  lemma PlaceIsZero(whole: string, decimals: string, scale: nat)
    requires Text.AllDigits(whole) && Text.AllDigits(decimals) && whole != "" && |decimals| < scale
    ensures ParseDecimal(whole + "." + decimals, scale) == ParseDecimal(whole + "." + (decimals + "0"), scale)
  {
    PlacedAlike(whole, decimals, scale - |decimals|);
    PartsRead(whole, decimals, scale);
    PartsRead(whole, decimals + "0", scale);
  }

  lemma PointIsOptional(whole: string, scale: nat)
    requires Text.AllDigits(whole) && whole != ""
    ensures ParseDecimal(whole, scale) == ParseDecimal(whole + "." + "", scale)
  {
    PartsRead(whole, "", scale);
    PointOfWhole(whole);
    assert whole[..|whole|] == whole && whole + "" == whole;
  }

  /** A missing decimal place reads as a zero, and a missing point as no places; too many places are no number. */
  lemma PlacesRead(whole: string, decimals: string, scale: nat)
    requires Text.AllDigits(whole) && Text.AllDigits(decimals) && whole != ""
    ensures |decimals| < scale ==> ParseDecimal(whole + "." + decimals, scale) == ParseDecimal(whole + "." + (decimals + "0"), scale)
    ensures ParseDecimal(whole, scale) == ParseDecimal(whole + "." + "", scale)
    ensures |decimals| > scale ==> ParseDecimal(whole + "." + decimals, scale) == None
  {
    if |decimals| < scale { PlaceIsZero(whole, decimals, scale); }
    if |decimals| > scale { PartsRead(whole, decimals, scale); }
    PointIsOptional(whole, scale);
  }

  lemma IntRoundTrip(n: nat)
    ensures ParseInt(Text.Digits(n)) == Some(n)
  {
    Text.DigitsRoundTrip(n);
  }

  // ---- rows ----

  /** The columns an import reads; a missing column reads as empty. */
  datatype Row = Row(
    sku: string, barcode: string, name: string, category: string, itemType: string, pricing: string, stockMode: string,
    metal: string, purity: string, quantity: string, netWeight: string, making: string, fixedRate: string,
    stockWeight: string, ratti: string, ratePerRatti: string, notes: string, status: string)

  const GRAMS: nat := 3
  const PAISE: nat := 2

  function OrNone(s: string): Field<string> { if s == "" then Null else Given(s) }

  /** The row as its cells are read. */
  function Cells(r: Row): Row {
    Row(Cell(r.sku), Cell(r.barcode), Cell(r.name), Cell(r.category), Cell(r.itemType), Cell(r.pricing), Cell(r.stockMode),
        Cell(r.metal), Cell(r.purity), Cell(r.quantity), Cell(r.netWeight), Cell(r.making), Cell(r.fixedRate),
        Cell(r.stockWeight), Cell(r.ratti), Cell(r.ratePerRatti), Cell(r.notes), Cell(r.status))
  }

  /** A number; None when the cell holds none. */
  function Number(cell: string, scale: nat): Option<Field<int>> {
    var n := ParseDecimal(cell, scale);
    if n.None? then None else Some(Given(n.value))
  }

  function NumberOrNone(cell: string, scale: nat): Option<Field<int>> {
    if cell == "" then Some(Null) else Number(cell, scale)
  }

  function Count(cell: string): Option<Field<int>> {
    var n := ParseInt(cell);
    if n.None? then None else Some(Given(n.value))
  }

  function Fixed(n: int): Option<Field<int>> { Some(Given(n)) }

  datatype Numbers = Numbers(
    purity: Option<Field<int>>, quantity: Option<Field<int>>, netWeight: Option<Field<int>>, making: Option<Field<int>>,
    fixedRate: Option<Field<int>>, stockWeight: Option<Field<int>>, ratti: Option<Field<int>>, ratePerRatti: Option<Field<int>>)

  /** Which number cells are read, and which are fixed by the type, pricing and stock mode. */
  function NumbersOf(c: Row): Numbers {
    var isStone := Text.Lower(c.itemType) == "stone";
    var isFixed := Text.Lower(c.pricing) == "fixed_rate";
    Numbers(
      if isStone then Fixed(0) else Number(c.purity, PAISE),
      if Text.Lower(c.stockMode) == "weight" then Fixed(1) else Count(c.quantity),
      if isStone || c.netWeight == "" then Fixed(0) else Number(c.netWeight, GRAMS),
      if isStone || isFixed then Fixed(0) else Number(c.making, PAISE),
      if !isStone && isFixed then Number(c.fixedRate, PAISE) else Fixed(0),
      NumberOrNone(c.stockWeight, GRAMS), NumberOrNone(c.ratti, GRAMS), NumberOrNone(c.ratePerRatti, PAISE))
  }

  predicate AllNumbers(n: Numbers) {
    && n.purity.Some? && n.quantity.Some? && n.netWeight.Some? && n.making.Some? && n.fixedRate.Some?
    && n.stockWeight.Some? && n.ratti.Some? && n.ratePerRatti.Some?
  }

  function WithNumbers(c: Row, n: Numbers): Payload
    requires AllNumbers(n)
  {
    var itemType := Text.Lower(c.itemType);
    Payload(
      Given(c.sku), OrNone(c.barcode), Given(c.name), Given(c.category), Given(itemType),
      Given(Text.Lower(c.pricing)), Given(Text.Lower(c.stockMode)),
      Given(if itemType == "stone" then "stone" else Text.Lower(c.metal)),
      n.purity.value, n.netWeight.value, n.making.value, n.fixedRate.value, n.stockWeight.value, n.ratti.value,
      n.ratePerRatti.value, n.quantity.value, OrNone(c.notes))
  }

  /** _item_payload; None when a number cell holds no number. */
  function ItemPayload(r: Row): Option<Payload> {
    var n := NumbersOf(Cells(r));
    if AllNumbers(n) then Some(WithNumbers(Cells(r), n)) else None
  }

  datatype Reading = Ignored | Issue | Candidate(data: Data)

  /** The validation of a row's entries. */
  function ReadPayload(payload: Option<Payload>): Reading {
    if payload.None? then Issue
    else
      var accepted := Accepted(payload.value);
      if accepted.Err? || accepted.value.facts.quantity <= 0 then Issue else Candidate(accepted.value)
  }

  /** A row of that status, in lower case. */
  function ReadAs(status: string, payload: Option<Payload>): Reading {
    if status != "" && status !in {"in_stock", "sold", "reserved", "archived"} then Issue
    else if status != "" && status != "in_stock" then Ignored
    else ReadPayload(payload)
  }

  /** What parse_inventory_csv makes of one row. */
  function Read(r: Row): Reading { ReadAs(Text.Lower(Cells(r).status), ItemPayload(r)) }

  lemma PayloadDecides(payload: Option<Payload>)
    ensures !ReadPayload(payload).Ignored?
    ensures ReadPayload(payload).Candidate? <==> payload.Some? && DescribesStock(payload.value)
    ensures ReadPayload(payload).Candidate? ==> ReadPayload(payload).data == Described(payload.value)
  {
    if payload.Some? { RowTaken(payload.value); }
  }

  lemma StatusDecides(status: string, payload: Option<Payload>)
    ensures ReadAs(status, payload).Ignored? <==> status in {"sold", "reserved", "archived"}
    ensures ReadAs(status, payload).Candidate? <==> status in {"", "in_stock"} && payload.Some? && DescribesStock(payload.value)
    ensures ReadAs(status, payload).Candidate? ==> ReadAs(status, payload).data == Described(payload.value)
  {
    PayloadDecides(payload);
  }

  /** What becomes of a row: by its status it is read or passed over, and it is taken when its entries describe stock. */
  lemma ReadDecides(r: Row)
    ensures var status := Text.Lower(Cell(r.status));
      && (Read(r).Ignored? <==> status in {"sold", "reserved", "archived"})
      && (Read(r).Candidate? <==>
            status in {"", "in_stock"} && ItemPayload(r).Some? && DescribesStock(ItemPayload(r).value))
      && (Read(r).Candidate? ==> Read(r).data == Described(ItemPayload(r).value))
  {
    StatusDecides(Text.Lower(Cell(r.status)), ItemPayload(r));
  }

  /** The optional text of a cell. */
  function TextOf(cell: string): Option<string> { if cell == "" then None else Some(cell) }

  /** The number of a cell, if there is one; an optional cell may be empty. */
  function NumberIn(cell: string, scale: nat): Option<int> {
    var n := ParseDecimal(cell, scale); if n.None? then None else Some(n.value)
  }

  /** The texts and names of a row that is taken are those of its cells. */
  lemma CandidateSays(r: Row)
    requires Read(r).Candidate?
    ensures var d := Read(r).data;
      && d.facts.sku == Cell(r.sku) && d.name == Cell(r.name) && d.barcode == TextOf(Cell(r.barcode)) && d.notes == TextOf(Cell(r.notes))
      && d.facts.category == NormalCategory(Cell(r.category)) && d.facts.quantity > 0
      && (d.facts.itemType == Stone ==> d.facts.metal == "stone")
      && (d.facts.itemType == Jewellery ==> d.facts.metal == Text.Lower(Cell(r.metal)))
  {
    ReadDecides(r);
  }

  lemma CandidateCharges(r: Row)
    requires Read(r).Candidate? && Read(r).data.facts.itemType == Jewellery
    ensures var f := Read(r).data.facts;
      && NumberIn(Cell(r.purity), 2) == Some(f.purity)
      && (if f.pricing == FixedRate then NumberIn(Cell(r.fixedRate), 2) == Some(f.fixedRate)
          else NumberIn(Cell(r.making), 2) == Some(f.making))
  {
    ReadDecides(r);
  }

  lemma CandidateRatti(r: Row)
    requires Read(r).Candidate? && Read(r).data.facts.itemType == Stone
    ensures var f := Read(r).data.facts; NumberIn(Cell(r.ratti), 3) == f.ratti && NumberIn(Cell(r.ratePerRatti), 2) == f.ratePerRatti
  {
    ReadDecides(r);
  }

  /** So are its money amounts, where its type and pricing leave them to the cells. */
  lemma CandidateCosts(r: Row)
    requires Read(r).Candidate?
    ensures var f := Read(r).data.facts;
      if f.itemType == Stone then NumberIn(Cell(r.ratti), 3) == f.ratti && NumberIn(Cell(r.ratePerRatti), 2) == f.ratePerRatti
      else
        && NumberIn(Cell(r.purity), 2) == Some(f.purity)
        && (if f.pricing == FixedRate then NumberIn(Cell(r.fixedRate), 2) == Some(f.fixedRate)
            else NumberIn(Cell(r.making), 2) == Some(f.making))
  {
    if Read(r).data.facts.itemType == Stone { CandidateRatti(r); } else { CandidateCharges(r); }
  }

  /** So are its pieces, or its weights. */
  lemma CandidateMeasures(r: Row)
    requires Read(r).Candidate?
    ensures var f := Read(r).data.facts;
      if f.stockMode == ByQuantity then
        && ParseInt(Cell(r.quantity)).Some? && f.quantity == ParseInt(Cell(r.quantity)).value
        && (f.itemType == Jewellery && f.pricing != FixedRate ==> NumberIn(Cell(r.netWeight), 3) == Some(f.netWeight))
      else
        && (Cell(r.stockWeight) != "" ==> NumberIn(Cell(r.stockWeight), 3) == f.stockWeight)
        && (Cell(r.netWeight) != "" && f.netWeight != Weighed(f) ==> NumberIn(Cell(r.netWeight), 3) == Some(f.netWeight))
  {
    ReadDecides(r);
  }

  // ---- the file of duplicates ----

  function SafeRow(r: Row): Row {
    Row(Safe(r.sku), Safe(r.barcode), Safe(r.name), Safe(r.category), Safe(r.itemType), Safe(r.pricing), Safe(r.stockMode),
        Safe(r.metal), Safe(r.purity), Safe(r.quantity), Safe(r.netWeight), Safe(r.making), Safe(r.fixedRate),
        Safe(r.stockWeight), Safe(r.ratti), Safe(r.ratePerRatti), Safe(r.notes), Safe(r.status))
  }

  lemma SafeCells(r: Row)
    ensures Cells(SafeRow(r)) == Cells(r)
  {
    EscapeIsInvisible(r.sku);
    EscapeIsInvisible(r.barcode);
    EscapeIsInvisible(r.name);
    EscapeIsInvisible(r.category);
    EscapeIsInvisible(r.itemType);
    EscapeIsInvisible(r.pricing);
    EscapeIsInvisible(r.stockMode);
    EscapeIsInvisible(r.metal);
    EscapeIsInvisible(r.purity);
    EscapeIsInvisible(r.quantity);
    EscapeIsInvisible(r.netWeight);
    EscapeIsInvisible(r.making);
    EscapeIsInvisible(r.fixedRate);
    EscapeIsInvisible(r.stockWeight);
    EscapeIsInvisible(r.ratti);
    EscapeIsInvisible(r.ratePerRatti);
    EscapeIsInvisible(r.notes);
    EscapeIsInvisible(r.status);
  }

  /** A row of the duplicates file is read exactly as the row it was made from, whatever the row. */
  lemma DuplicatesReadTheSame(r: Row)
    ensures ItemPayload(SafeRow(r)) == ItemPayload(r) && Read(SafeRow(r)) == Read(r)
  {
    SafeCells(r);
  }

  // ---- exporting ----

  function StatusName(s: Status): string {
    match s case InStock => "in_stock" case Sold => "sold" case Reserved => "reserved" case Archived => "archived"
  }

  function Shown(n: int, scale: nat): string
  {
    DecimalText(if n < 0 then 0 else n, scale)
  }

  function ShownOrEmpty(o: Option<int>, scale: nat): string
  {
    if o.None? then "" else Shown(o.value, scale)
  }

  /** The row build_inventory_csv writes for an item. */
  function ExportRow(item: Item): Row {
    var f := item.facts;
    Row(Safe(f.sku), Safe(item.barcode), Safe(item.name), Safe(f.category), TypeName(f.itemType), PricingName(f.pricing),
        StockName(f.stockMode), Safe(f.metal), Shown(f.purity, PAISE), Text.Digits(if f.quantity < 0 then 0 else f.quantity),
        Shown(f.netWeight, GRAMS), Shown(f.making, PAISE), Shown(f.fixedRate, PAISE), ShownOrEmpty(f.stockWeight, GRAMS),
        ShownOrEmpty(f.ratti, GRAMS), ShownOrEmpty(f.ratePerRatti, PAISE),
        if item.notes.None? then "" else Safe(item.notes.value), StatusName(item.status))
  }

  predicate NumbersInert(r: Row) {
    && IsInert(r.purity) && IsInert(r.quantity) && IsInert(r.netWeight) && IsInert(r.making) && IsInert(r.fixedRate)
    && IsInert(r.stockWeight) && IsInert(r.ratti) && IsInert(r.ratePerRatti)
  }

  lemma ExportedNumbersInert(item: Item)
    ensures NumbersInert(ExportRow(item))
  {
    var f := item.facts;
    DecimalIsInert(f.purity, PAISE);
    DecimalIsInert(f.netWeight, GRAMS);
    DecimalIsInert(f.making, PAISE);
    DecimalIsInert(f.fixedRate, PAISE);
    if f.stockWeight.Some? { DecimalIsInert(f.stockWeight.value, GRAMS); }
    if f.ratti.Some? { DecimalIsInert(f.ratti.value, GRAMS); }
    if f.ratePerRatti.Some? { DecimalIsInert(f.ratePerRatti.value, PAISE); }
    DigitsAreInert(Text.Digits(if f.quantity < 0 then 0 else f.quantity));
  }

  /** No cell of an export is taken for a formula. */
  lemma ExportIsInert(item: Item)
    ensures var r := ExportRow(item);
      && IsInert(r.sku) && IsInert(r.barcode) && IsInert(r.name) && IsInert(r.category) && IsInert(r.itemType) && IsInert(r.pricing)
      && IsInert(r.stockMode) && IsInert(r.metal) && NumbersInert(r) && IsInert(r.notes) && IsInert(r.status)
  {
    ExportedNumbersInert(item);
  }

  lemma DigitsAreInert(s: string)
    requires Text.AllDigits(s)
    ensures IsInert(s)
  {
    if s != "" { assert Text.IsDigit(s[0]); }
  }

  lemma DecimalIsInert(n: int, scale: nat)
    ensures IsInert(Shown(n, scale))
  {
    var s := Numeral(if n < 0 then 0 else n, scale);
    assert Shown(n, scale)[0] == s[0] && Text.IsDigit(s[0]);
  }

  predicate NumeralLike(s: string) {
    s != "" && forall i :: 0 <= i < |s| ==> Text.IsDigit(s[i]) || s[i] == '.'
  }

  lemma NumeralsArePlain(s: string)
    requires NumeralLike(s)
    ensures Cell(s) == s
  {
    Text.StripIsTrimmed(s);
    assert Text.IsDigit(s[0]) || s[0] == '.';
    assert Text.IsDigit(s[|s| - 1]) || s[|s| - 1] == '.';
  }

  lemma JoinedIsNumeral(whole: string, decimals: string)
    requires Text.AllDigits(whole) && Text.AllDigits(decimals)
    ensures NumeralLike(whole + "." + decimals)
  {
    var s := whole + "." + decimals;
    forall i | 0 <= i < |s| ensures Text.IsDigit(s[i]) || s[i] == '.' {
      if i < |whole| {
        assert s[i] == whole[i];
      } else if i > |whole| {
        assert s[i] == decimals[i - |whole| - 1];
      }
    }
  }

  lemma ShownReads(n: nat, scale: nat)
    ensures Cell(Shown(n, scale)) == Shown(n, scale) && Shown(n, scale) != ""
    ensures Number(Cell(Shown(n, scale)), scale) == Some(Given(n))
  {
    var s := Numeral(n, scale);
    JoinedIsNumeral(s[..|s| - scale], s[|s| - scale..]);
    NumeralsArePlain(DecimalText(n, scale));
    DecimalRoundTrip(n, scale);
  }

  lemma ShownOrEmptyReads(o: Option<int>, scale: nat)
    requires (o.Some? ==> o.value >= 0)
    ensures NumberOrNone(Cell(ShownOrEmpty(o, scale)), scale) == Some(Opt(o))
  {
    if o.Some? {
      ShownReads(o.value, scale);
    } else {
      Text.StripIsTrimmed("");
    }
  }

  lemma QuantityReads(n: nat)
    ensures Count(Cell(Text.Digits(n))) == Some(Given(n))
  {
    NumeralsArePlain(Text.Digits(n));
    IntRoundTrip(n);
  }

  predicate IsName(s: string) {
    s != "" && forall i :: 0 <= i < |s| ==> 'a' <= s[i] <= 'z' || s[i] == '_'
  }

  lemma NamesRead(s: string)
    requires IsName(s)
    ensures Cell(s) == s && Text.Lower(s) == s
  {
    Text.StripIsTrimmed(s);
    assert 'a' <= s[0] <= 'z' || s[0] == '_';
    assert 'a' <= s[|s| - 1] <= 'z' || s[|s| - 1] == '_';
    assert forall i :: 0 <= i < |s| ==> Text.Lower(s)[i] == s[i];
  }

  lemma TypeNameReads(t: ItemType)
    ensures Text.Lower(Cell(TypeName(t))) == TypeName(t)
  {
    match t
    case Jewellery => NamesRead("jewellery");
    case Stone => NamesRead("stone");
  }

  lemma PricingNameReads(p: PricingMethod)
    ensures Text.Lower(Cell(PricingName(p))) == PricingName(p)
  {
    match p
    case FixedRate => NamesRead("fixed_rate");
    case FixedMaking => NamesRead("fixed_making_charge");
    case MakingPerGram => NamesRead("making_charge_per_gram");
    case RatePerRatti => NamesRead("rate_per_ratti");
  }

  lemma StockNameReads(m: StockMode)
    ensures Text.Lower(Cell(StockName(m))) == StockName(m)
  {
    match m
    case ByQuantity => NamesRead("quantity");
    case ByWeight => NamesRead("weight");
  }

  /** A row whose cells hold the printed numbers and names of an item. */
  predicate ShowsNumbers(c: Row, f: Facts) {
    && Text.Lower(c.itemType) == TypeName(f.itemType) && Text.Lower(c.pricing) == PricingName(f.pricing)
    && Text.Lower(c.stockMode) == StockName(f.stockMode)
    && Number(c.purity, PAISE) == Some(Given(f.purity)) && Count(c.quantity) == Some(Given(f.quantity))
    && c.netWeight != "" && Number(c.netWeight, GRAMS) == Some(Given(f.netWeight))
    && Number(c.making, PAISE) == Some(Given(f.making)) && Number(c.fixedRate, PAISE) == Some(Given(f.fixedRate))
    && NumberOrNone(c.stockWeight, GRAMS) == Some(Opt(f.stockWeight)) && NumberOrNone(c.ratti, GRAMS) == Some(Opt(f.ratti))
    && NumberOrNone(c.ratePerRatti, PAISE) == Some(Opt(f.ratePerRatti))
  }

  lemma ExportShowsNumbers(item: Item)
    requires SignContract(item.facts)
    ensures ShowsNumbers(Cells(ExportRow(item)), item.facts)
  {
    var f := item.facts;
    TypeNameReads(f.itemType);
    PricingNameReads(f.pricing);
    StockNameReads(f.stockMode);
    ShownReads(f.purity, PAISE);
    ShownReads(f.netWeight, GRAMS);
    ShownReads(f.making, PAISE);
    ShownReads(f.fixedRate, PAISE);
    ShownOrEmptyReads(f.stockWeight, GRAMS);
    ShownOrEmptyReads(f.ratti, GRAMS);
    ShownOrEmptyReads(f.ratePerRatti, PAISE);
    QuantityReads(f.quantity);
  }

  lemma NamesAreDistinct(f: Facts)
    ensures TypeName(f.itemType) == "stone" <==> f.itemType == Stone
    ensures PricingName(f.pricing) == "fixed_rate" <==> f.pricing == FixedRate
    ensures StockName(f.stockMode) == "weight" <==> f.stockMode == ByWeight
  {
  }

  /** The numbers of an item in stock come back as they are: what the reader fixes, the contracts fix too. */
  lemma NumbersComeBack(c: Row, f: Facts)
    requires ShowsNumbers(c, f) && Contracts(f) && Tidy(f) && f.quantity > 0
    ensures NumbersOf(c) == Numbers(Some(Given(f.purity)), Some(Given(f.quantity)), Some(Given(f.netWeight)), Some(Given(f.making)),
      Some(Given(f.fixedRate)), Some(Opt(f.stockWeight)), Some(Opt(f.ratti)), Some(Opt(f.ratePerRatti)))
  {
    NamesAreDistinct(f);
  }

  /** The item with its metal in lower case, as a file gives it back. */
  function Lowered(item: Item): Item {
    item.(facts := item.facts.(metal := Text.Lower(item.facts.metal)))
  }

  /** The exact condition for an item to survive a round trip: texts a file gives back, the metal up to case. */
  predicate Survives(item: Item) {
    && IsPlain(item.facts.sku) && IsPlain(item.name) && !IsEscaped(item.facts.category)
    && IsPlain(item.barcode) && item.barcode != ""
    && (item.facts.itemType == Jewellery ==> IsPlain(item.facts.metal))
    && (item.notes.Some? ==> IsPlain(item.notes.value) && item.notes.value != "")
  }

  lemma LoweredMetalFits(f: Facts)
    requires TypeContract(f) && Tidy(f) && (f.itemType == Jewellery ==> Text.Trimmed(f.metal))
    ensures var g := f.(metal := Text.Lower(f.metal)); TypeContract(g) && Tidy(g)
  {
    var lower := Text.Lower(f.metal);
    Text.LowerTwice(f.metal);
    Text.StripIsTrimmed(f.metal);
    if f.itemType == Jewellery {
      Text.LowerTrimmed(f.metal);
      Text.StripIsTrimmed(lower);
      assert !NamesStone(lower);
      StoneIsNamed(lower);
    } else {
      assert Text.Lower("stone") == "stone";
    }
  }

  lemma LoweredRowOk(item: Item)
    requires RowOk(item) && item.status == InStock && (item.facts.itemType == Jewellery ==> Text.Trimmed(item.facts.metal))
    ensures RowOk(Lowered(item))
  {
    LoweredMetalFits(item.facts);
  }

  lemma NormalIsTrimmed(category: string)
    requires IsNormalCategory(category)
    ensures Text.Trimmed(category)
  {
    var trimmed := Text.Strip(category);
    Text.StripIsTrimmed(category);
    Text.LowerTrimmed(trimmed);
    assert category == Text.Lower(trimmed) || category == "earring";
  }

  lemma FormulaStaysFormula(s: string)
    requires IsFormula(s)
    ensures IsFormula(NormalCategory(s))
  {
    FormulaStrips(s);
    var lowered := Text.Lower(Text.Strip(s));
    assert lowered[0] == Text.LowerChar(Text.Strip(s)[0]);
    assert lowered != "earrings" by { assert "earrings"[0] == 'e'; }
  }

  /** A stored category comes back unless it starts with an escaped formula. */
  lemma CategoryExactly(category: string)
    requires IsNormalCategory(category)
    ensures !IsEscaped(category) ==> Cell(Safe(category)) == category
    ensures NormalCategory(Cell(Safe(category))) == category ==> !IsEscaped(category)
  {
    NormalIsTrimmed(category);
    PlainExactly(category);
    if IsEscaped(category) {
      Text.StripIsTrimmed(category);
      FormulaStaysFormula(category[1..]);
    }
  }

  lemma EmptyReads()
    ensures Cell("") == ""
  {
    Text.StripIsTrimmed("");
  }

  predicate TextsMatch(c: Row, item: Item) {
    && c.sku == item.facts.sku && c.name == item.name && c.category == item.facts.category
    && OrNone(c.barcode) == Given(item.barcode) && OrNone(c.notes) == Opt(item.notes)
    && (item.facts.itemType == Jewellery ==> Text.Lower(c.metal) == item.facts.metal)
  }

  lemma NotesExactly(notes: Option<string>)
    ensures OrNone(Cell(if notes.None? then "" else Safe(notes.value))) == Opt(notes)
       <==> (notes.Some? ==> IsPlain(notes.value) && notes.value != "")
  {
    EmptyReads();
    if notes.Some? { PlainExactly(notes.value); }
  }

  lemma SurvivingTextsMatch(item: Item)
    requires Survives(item) && IsNormalCategory(item.facts.category)
    ensures TextsMatch(Cells(ExportRow(item)), Lowered(item))
  {
    PlainExactly(item.facts.sku);
    PlainExactly(item.name);
    PlainExactly(item.barcode);
    CategoryExactly(item.facts.category);
    PlainUpToCase(item.facts.metal);
    NotesExactly(item.notes);
  }

  lemma MatchingPayload(c: Row, item: Item)
    requires ShowsNumbers(c, item.facts) && TextsMatch(c, item) && Contracts(item.facts) && Tidy(item.facts) && item.facts.quantity > 0
    ensures AllNumbers(NumbersOf(c)) && WithNumbers(c, NumbersOf(c)) == PayloadOf(DataOf(item))
  {
    NumbersComeBack(c, item.facts);
    NamesAreDistinct(item.facts);
  }

  lemma StatusReads(item: Item)
    ensures Text.Lower(Cells(ExportRow(item)).status) == StatusName(item.status)
  {
    match item.status
    case InStock => NamesRead("in_stock");
    case Sold => NamesRead("sold");
    case Reserved => NamesRead("reserved");
    case Archived => NamesRead("archived");
  }

  predicate ForSale(item: Item) { RowOk(item) && item.status == InStock && item.facts.quantity > 0 }

  lemma SurvivorsPayload(item: Item)
    requires ForSale(item) && Survives(item)
    ensures ItemPayload(ExportRow(item)) == Some(PayloadOf(DataOf(Lowered(item))))
  {
    LoweredRowOk(item);
    ExportShowsNumbers(item);
    SurvivingTextsMatch(item);
    ShownWhateverMetal(Cells(ExportRow(item)), item.facts, Text.Lower(item.facts.metal));
    MatchingPayload(Cells(ExportRow(item)), Lowered(item));
  }

  lemma ReadsAs(r: Row, d: Data)
    requires Text.Lower(Cells(r).status) == "in_stock" && ItemPayload(r) == Some(PayloadOf(d))
    requires Accepted(PayloadOf(d)) == Ok(d) && d.facts.quantity > 0
    ensures Read(r) == Candidate(d)
  {
  }

  lemma SurvivorsComeBack(item: Item)
    requires ForSale(item) && Survives(item)
    ensures Read(ExportRow(item)) == Candidate(DataOf(Lowered(item)))
  {
    SurvivorsPayload(item);
    LoweredRowOk(item);
    StatusReads(item);
    StorableIsAccepted(DataOf(Lowered(item)));
    ReadsAs(ExportRow(item), DataOf(Lowered(item)));
  }

  lemma ShownWhateverMetal(c: Row, f: Facts, metal: string)
    requires ShowsNumbers(c, f)
    ensures ShowsNumbers(c, f.(metal := metal))
  {
  }

  /** The metal of accepted jewellery is the one its payload names. */
  lemma AcceptedMetalIs(p: Payload)
    requires Accepted(p).Ok? && Accepted(p).value.facts.itemType == Jewellery && p.metal.Given?
    ensures p.metal == Given(Accepted(p).value.facts.metal)
  {
    AcceptedModesAre(p);
    assert Normalized(p).metal == p.metal;
  }

  lemma ReadMeansAccepted(r: Row)
    requires Read(r).Candidate?
    ensures ItemPayload(r) == Some(WithNumbers(Cells(r), NumbersOf(Cells(r))))
    ensures Accepted(ItemPayload(r).value) == Ok(Read(r).data)
  {
  }

  /** What a row's payload must have held for an item to be accepted from it. */
  lemma AcceptedTexts(c: Row, n: Numbers, item: Item)
    requires AllNumbers(n) && Accepted(WithNumbers(c, n)) == Ok(DataOf(item))
    ensures c.sku == item.facts.sku && c.name == item.name && NormalCategory(c.category) == item.facts.category
    ensures OrNone(c.barcode) == Given(item.barcode) && OrNone(c.notes) == Opt(item.notes)
    ensures item.facts.itemType == Jewellery && Text.Lower(c.itemType) != "stone" ==> Text.Lower(c.metal) == item.facts.metal
  {
    var p := WithNumbers(c, n);
    AcceptedTextIs(p);
    AcceptedModesAre(p);
    if item.facts.itemType == Jewellery { AcceptedMetalIs(p); }
  }

  lemma MatchedTextsSurvive(item: Item)
    requires var c := Cells(ExportRow(item));
      && c.sku == item.facts.sku && c.name == item.name && NormalCategory(c.category) == item.facts.category
      && OrNone(c.barcode) == Given(item.barcode) && OrNone(c.notes) == Opt(item.notes)
      && (item.facts.itemType == Jewellery ==> Text.Lower(c.metal) == Text.Lower(item.facts.metal))
    requires IsNormalCategory(item.facts.category)
    ensures Survives(item)
  {
    PlainExactly(item.facts.sku);
    PlainExactly(item.name);
    PlainExactly(item.barcode);
    CategoryExactly(item.facts.category);
    PlainUpToCase(item.facts.metal);
    NotesExactly(item.notes);
  }

  lemma ComeBackMeansSurvived(item: Item)
    requires ForSale(item) && Read(ExportRow(item)) == Candidate(DataOf(Lowered(item)))
    ensures Survives(item)
  {
    ReadMeansAccepted(ExportRow(item));
    AcceptedTexts(Cells(ExportRow(item)), NumbersOf(Cells(ExportRow(item))), Lowered(item));
    TypeNameReads(item.facts.itemType);
    NamesAreDistinct(item.facts);
    MatchedTextsSurvive(item);
  }

  /**
   * Writing an item in stock to a file and reading it back gives the item with its metal in lower case,
   * exactly when its texts survive.
   */
  lemma RoundTripExactly(item: Item)
    requires ForSale(item)
    ensures Read(ExportRow(item)) == Candidate(DataOf(Lowered(item))) <==> Survives(item)
  {
    if Survives(item) { SurvivorsComeBack(item); }
    if Read(ExportRow(item)) == Candidate(DataOf(Lowered(item))) { ComeBackMeansSurvived(item); }
  }

  lemma LowerMetalIsFixed(item: Item, cell: string)
    requires TypeContract(item.facts) && (item.facts.itemType == Jewellery ==> Text.Lower(cell) == item.facts.metal)
    ensures Lowered(item) == item
  {
    Text.LowerTwice(cell);
    assert Text.Lower("stone") == "stone";
  }

  lemma ComeBackMeansLower(item: Item)
    requires ForSale(item) && Read(ExportRow(item)) == Candidate(DataOf(item))
    ensures Lowered(item) == item
  {
    var c := Cells(ExportRow(item));
    ReadMeansAccepted(ExportRow(item));
    AcceptedTexts(c, NumbersOf(c), item);
    TypeNameReads(item.facts.itemType);
    NamesAreDistinct(item.facts);
    LowerMetalIsFixed(item, c.metal);
  }

  /** It comes back unchanged exactly when, besides, its metal was in lower case. */
  lemma UnchangedExactly(item: Item)
    requires ForSale(item)
    ensures Read(ExportRow(item)) == Candidate(DataOf(item)) <==> Survives(item) && Lowered(item) == item
  {
    RoundTripExactly(item);
    if Read(ExportRow(item)) == Candidate(DataOf(item)) { ComeBackMeansLower(item); }
  }

  // ---- whole files ----

  datatype Parsed = Parsed(candidates: seq<Data>, payloads: seq<Payload>, ignored: nat, issues: nat)

  function Parse(rows: seq<Row>): Parsed {
    if rows == [] then Parsed([], [], 0, 0)
    else
      var before, row := Parse(rows[..|rows| - 1]), rows[|rows| - 1];
      match Read(row)
      case Ignored => before.(ignored := before.ignored + 1)
      case Issue => before.(issues := before.issues + 1)
      case Candidate(d) => before.(candidates := before.candidates + [d], payloads := before.payloads + [PayloadOf(d)])
  }

  /** The loop of parse_inventory_csv; a file with any issue is refused whole. */
  method ParseRows(rows: seq<Row>) returns (parsed: Parsed)
    ensures parsed == Parse(rows)
  {
    parsed := Parsed([], [], 0, 0);
    for k := 0 to |rows|
      invariant parsed == Parse(rows[..k])
    {
      assert rows[..k + 1][..k] == rows[..k];
      match Read(rows[k]) {
        case Ignored => parsed := parsed.(ignored := parsed.ignored + 1);
        case Issue => parsed := parsed.(issues := parsed.issues + 1);
        case Candidate(d) =>
          parsed := parsed.(candidates := parsed.candidates + [d], payloads := parsed.payloads + [PayloadOf(d)]);
      }
    }
    assert rows[..|rows|] == rows;
  }

  /** The items a file lists: all but the archived ones. */
  function Export(items: seq<Item>): seq<Row> {
    if items == [] then []
    else
      var last := items[|items| - 1];
      Export(items[..|items| - 1]) + (if last.status == Archived then [] else [ExportRow(last)])
  }

  method BuildInventoryCsv(items: seq<Item>) returns (rows: seq<Row>)
    ensures rows == Export(items)
  {
    rows := [];
    for k := 0 to |items|
      invariant rows == Export(items[..k])
    {
      assert items[..k + 1][..k] == items[..k];
      if items[k].status != Archived { rows := rows + [ExportRow(items[k])]; }
    }
    assert items[..|items|] == items;
  }

  /** The data of the items in stock, as a file gives it back. */
  function InStockData(items: seq<Item>): seq<Data> {
    if items == [] then []
    else
      var last := items[|items| - 1];
      InStockData(items[..|items| - 1]) + (if last.status == InStock then [DataOf(Lowered(last))] else [])
  }

  predicate AllSurvive(items: seq<Item>) {
    forall i :: 0 <= i < |items| && items[i].status == InStock ==> Survives(items[i])
  }

  predicate NoneEmpty(items: seq<Item>) {
    forall i :: 0 <= i < |items| && items[i].status == InStock ==> items[i].facts.quantity > 0
  }

  lemma OutOfStockIsIgnored(item: Item)
    requires item.status != InStock
    ensures Read(ExportRow(item)) == Ignored
  {
    StatusReads(item);
  }

  /** The payload has the modes and the stock of an emptied item. */
  predicate ShowsEmpty(p: Payload, f: Facts) {
    && p.itemType == Given(TypeName(f.itemType)) && p.pricing == Given(PricingName(f.pricing))
    && p.stockMode == Given(StockName(f.stockMode)) && SignContract(f) && StockContract(f) && Tidy(f) && f.quantity == 0
    && (if f.stockMode == ByWeight then p.stockWeight == Opt(f.stockWeight) else p.quantity == Given(0))
  }

  lemma EmptyNormalizes(p: Payload, f: Facts)
    requires ShowsEmpty(p, f)
    ensures Normalized(p).quantity == Given(0)
  {
    NamesAreNormal(f.itemType);
    NamesAreDistinct(f);
    var m := WithModes(p);
    assert m.itemType == p.itemType && m.pricing == p.pricing && m.stockMode == p.stockMode;
    if f.stockMode == ByWeight { assert WithCharges(m, LacksPricing(p)).stockWeight == Given(0); }
  }

  lemma EmptyStaysEmpty(p: Payload, f: Facts)
    requires ShowsEmpty(p, f) && Accepted(p).Ok?
    ensures Accepted(p).value.facts.quantity == 0
  {
    EmptyNormalizes(p, f);
  }

  lemma EmptyRowReads(c: Row, f: Facts)
    requires ShowsNumbers(c, f) && SignContract(f) && StockContract(f) && Tidy(f) && f.quantity == 0 && AllNumbers(NumbersOf(c))
    requires Accepted(WithNumbers(c, NumbersOf(c))).Ok?
    ensures Accepted(WithNumbers(c, NumbersOf(c))).value.facts.quantity == 0
  {
    NamesAreDistinct(f);
    EmptyStaysEmpty(WithNumbers(c, NumbersOf(c)), f);
  }

  /** An item in stock of which none are left spoils the file. */
  lemma EmptyIsAnIssue(item: Item)
    requires RowOk(item) && item.status == InStock && item.facts.quantity == 0
    ensures Read(ExportRow(item)) == Issue
  {
    var c := Cells(ExportRow(item));
    StatusReads(item);
    ExportShowsNumbers(item);
    if AllNumbers(NumbersOf(c)) && Accepted(WithNumbers(c, NumbersOf(c))).Ok? { EmptyRowReads(c, item.facts); }
  }

  lemma ParseAppend(rows: seq<Row>, row: Row)
    ensures Parse(rows + [row]) ==
      match Read(row)
      case Ignored => Parse(rows).(ignored := Parse(rows).ignored + 1)
      case Issue => Parse(rows).(issues := Parse(rows).issues + 1)
      case Candidate(d) =>
        Parse(rows).(candidates := Parse(rows).candidates + [d], payloads := Parse(rows).payloads + [PayloadOf(d)])
  {
    assert (rows + [row])[..|rows|] == rows;
  }

  function PayloadsOf(rows: seq<Data>): seq<Payload> {
    if rows == [] then [] else PayloadsOf(rows[..|rows| - 1]) + [PayloadOf(rows[|rows| - 1])]
  }

  lemma PayloadsAppend(rows: seq<Data>, d: Data)
    ensures PayloadsOf(rows + [d]) == PayloadsOf(rows) + [PayloadOf(d)]
  {
    assert (rows + [d])[..|rows|] == rows;
  }

  /** A parsed file of a whole export: what it holds, and whether it is accepted. */
  predicate ParsedFrom(items: seq<Item>, parsed: Parsed) {
    && (parsed.issues == 0 <==> NoneEmpty(items))
    && (NoneEmpty(items) ==> parsed.candidates == InStockData(items) && parsed.payloads == PayloadsOf(InStockData(items)))
  }

  lemma InStockAppend(items: seq<Item>, item: Item)
    ensures InStockData(items + [item]) == InStockData(items) + (if item.status == InStock then [DataOf(Lowered(item))] else [])
    ensures Export(items + [item]) == Export(items) + (if item.status == Archived then [] else [ExportRow(item)])
    ensures NoneEmpty(items + [item]) <==> NoneEmpty(items) && (item.status == InStock ==> item.facts.quantity > 0)
  {
    assert (items + [item])[..|items|] == items;
    assert forall i :: 0 <= i < |items| ==> (items + [item])[i] == items[i];
    assert (items + [item])[|items|] == item;
  }

  /** One more exported item parses as it should. */
  lemma ExportedItemParses(items: seq<Item>, item: Item)
    requires ParsedFrom(items, Parse(Export(items))) && RowOk(item) && (item.status == InStock ==> Survives(item))
    ensures ParsedFrom(items + [item], Parse(Export(items + [item])))
  {
    InStockAppend(items, item);
    if item.status == Archived {
      assert Export(items + [item]) == Export(items);
    } else {
      ParseAppend(Export(items), ExportRow(item));
      if item.status != InStock {
        OutOfStockIsIgnored(item);
      } else if item.facts.quantity == 0 {
        EmptyIsAnIssue(item);
      } else {
        SurvivorsComeBack(item);
        PayloadsAppend(InStockData(items), DataOf(Lowered(item)));
      }
    }
  }

  lemma PrefixSurvives(items: seq<Item>)
    requires RowsOk(items) && AllSurvive(items) && items != []
    ensures var prefix, last := items[..|items| - 1], items[|items| - 1];
      RowsOk(prefix) && AllSurvive(prefix) && RowOk(last) && (last.status == InStock ==> Survives(last))
  {
    assert forall i :: 0 <= i < |items| - 1 ==> items[..|items| - 1][i] == items[i];
  }

  lemma {:induction false} ExportIsParsed(items: seq<Item>)
    requires RowsOk(items) && AllSurvive(items)
    ensures ParsedFrom(items, Parse(Export(items)))
  {
    if items != [] {
      Unsnoc(items);
      PrefixSurvives(items);
      ExportIsParsed(items[..|items| - 1]);
      ExportedItemParses(items[..|items| - 1], items[|items| - 1]);
    }
  }

  /**
   * A whole export whose texts survive parses to exactly the data of the items in stock, in order; it is
   * refused exactly when some item in stock has none left.
   */
  lemma ExportParses(items: seq<Item>)
    requires RowsOk(items) && AllSurvive(items)
    ensures Parse(Export(items)).issues == 0 <==> NoneEmpty(items)
    ensures NoneEmpty(items) ==> Parse(Export(items)).candidates == InStockData(items)
                                 && Parse(Export(items)).payloads == PayloadsOf(InStockData(items))
  {
    ExportIsParsed(items);
  }

  lemma SameLast(a: seq<Data>, x: Data, b: seq<Data>, y: Data)
    requires a + [x] == b + [y]
    ensures a == b && x == y
  {
    assert |a| == |b|;
    assert (a + [x])[..|a|] == a && (b + [y])[..|b|] == b;
    assert (a + [x])[|a|] == x && (b + [y])[|b|] == y;
  }

  lemma InStockIsRead(item: Item)
    requires item.status == InStock
    ensures !Read(ExportRow(item)).Ignored?
  {
    StatusReads(item);
  }

  predicate Returns(items: seq<Item>) {
    Parse(Export(items)).issues == 0 && Parse(Export(items)).candidates == InStockData(items)
  }

  /** If a file gives everything back, so did the shorter one, and its last item survives. */
  lemma LastReturns(items: seq<Item>, item: Item)
    requires Returns(items + [item]) && RowOk(item)
    ensures Returns(items) && (item.status == InStock ==> item.facts.quantity > 0 && Survives(item))
  {
    InStockAppend(items, item);
    if item.status == Archived {
      assert Export(items + [item]) == Export(items);
    } else {
      ParseAppend(Export(items), ExportRow(item));
      if item.status != InStock {
        OutOfStockIsIgnored(item);
      } else {
        InStockIsRead(item);
        SameLast(Parse(Export(items)).candidates, Read(ExportRow(item)).data, InStockData(items), DataOf(Lowered(item)));
        CandidatesAreInStock(ExportRow(item));
        RoundTripExactly(item);
      }
    }
  }

  lemma CandidatesAreInStock(r: Row)
    requires Read(r).Candidate?
    ensures Read(r).data.facts.quantity > 0
  {
  }

  lemma SurvivalExtends(items: seq<Item>, item: Item)
    requires AllSurvive(items) && NoneEmpty(items) && (item.status == InStock ==> item.facts.quantity > 0 && Survives(item))
    ensures AllSurvive(items + [item]) && NoneEmpty(items + [item])
  {
  }

  lemma PrefixRowsOk(items: seq<Item>)
    requires RowsOk(items) && items != []
    ensures RowsOk(items[..|items| - 1]) && RowOk(items[|items| - 1])
  {
  }

  lemma {:induction false} ReturnsMeansSurvive(items: seq<Item>)
    requires RowsOk(items) && Returns(items)
    ensures AllSurvive(items) && NoneEmpty(items)
  {
    if items != [] {
      Unsnoc(items);
      PrefixRowsOk(items);
      LastReturns(items[..|items| - 1], items[|items| - 1]);
      ReturnsMeansSurvive(items[..|items| - 1]);
      SurvivalExtends(items[..|items| - 1], items[|items| - 1]);
    }
  }

  /**
   * A whole export is read without an issue and gives back exactly the items in stock, in order, if and
   * only if the texts of each of them survive and none of them is used up.
   */
  lemma ExportReturnsExactly(items: seq<Item>)
    requires RowsOk(items)
    ensures Returns(items) <==> AllSurvive(items) && NoneEmpty(items)
  {
    if AllSurvive(items) && NoneEmpty(items) { ExportParses(items); }
    if Returns(items) { ReturnsMeansSurvive(items); }
  }

  // ---- back into a shop ----

  /** The items in stock, their metals in lower case. */
  function InStockItems(items: seq<Item>): seq<Item> {
    if items == [] then []
    else
      var last := items[|items| - 1];
      InStockItems(items[..|items| - 1]) + (if last.status == InStock then [Lowered(last)] else [])
  }

  predicate LoweredFrom(item: Item, items: seq<Item>) {
    exists j :: 0 <= j < |items| && items[j].status == InStock && item == Lowered(items[j])
  }

  lemma LoweredFromPrefix(item: Item, prefix: seq<Item>, last: Item)
    requires LoweredFrom(item, prefix)
    ensures LoweredFrom(item, prefix + [last])
  {
    var j :| 0 <= j < |prefix| && prefix[j].status == InStock && item == Lowered(prefix[j]);
    assert (prefix + [last])[j] == prefix[j];
  }

  lemma LoweredFromLast(prefix: seq<Item>, last: Item)
    requires last.status == InStock
    ensures LoweredFrom(Lowered(last), prefix + [last])
  {
    assert (prefix + [last])[|prefix|] == last;
  }

  predicate AllLoweredFrom(rows: seq<Item>, items: seq<Item>) {
    forall k :: 0 <= k < |rows| ==> LoweredFrom(rows[k], items)
  }

  lemma {:induction false} StockIsLowered(items: seq<Item>)
    ensures AllLoweredFrom(InStockItems(items), items)
  {
    if items != [] {
      var prefix, last := items[..|items| - 1], items[|items| - 1];
      Unsnoc(items);
      StockIsLowered(prefix);
      var before := InStockItems(prefix);
      forall k | 0 <= k < |before| ensures LoweredFrom(before[k], items) { LoweredFromPrefix(before[k], prefix, last); }
      if last.status == InStock { LoweredFromLast(prefix, last); }
    }
  }

  predicate HoldsDataOf(rows: seq<Data>, items: seq<Item>) {
    |rows| == |items| && forall k :: 0 <= k < |rows| ==> rows[k] == DataOf(items[k])
  }

  lemma {:induction false} DataOfInStock(items: seq<Item>)
    ensures HoldsDataOf(InStockData(items), InStockItems(items))
  {
    if items != [] { DataOfInStock(items[..|items| - 1]); }
  }

  lemma {:induction false} InStockDiffer(items: seq<Item>)
    requires BarcodesDiffer(items)
    ensures BarcodesDiffer(InStockItems(items))
  {
    if items != [] {
      var last := |items| - 1;
      var prefix := items[..last];
      InStockDiffer(prefix);
      StockIsLowered(prefix);
      var before := InStockItems(prefix);
      forall k | 0 <= k < |before| ensures before[k].barcode != items[last].barcode {
        assert LoweredFrom(before[k], prefix);
        var j :| 0 <= j < |prefix| && prefix[j].status == InStock && before[k] == Lowered(prefix[j]);
        assert items[j].barcode != items[last].barcode;
      }
    }
  }

  lemma RowsOfAppend(payloads: seq<Payload>, p: Payload, rows: seq<Data>, d: Data)
    requires RowsOf(payloads) == Some(rows) && Accepted(p) == Ok(d) && d.facts.quantity > 0
    ensures RowsOf(payloads + [p]) == Some(rows + [d])
  {
    assert (payloads + [p])[..|payloads|] == payloads;
  }

  lemma RowsOfStored(payloads: seq<Payload>, rows: seq<Data>, d: Data)
    requires RowsOf(payloads) == Some(rows) && Storable(d) && d.facts.quantity > 0
    ensures RowsOf(payloads + [PayloadOf(d)]) == Some(rows + [d])
  {
    StorableIsAccepted(d);
    RowsOfAppend(payloads, PayloadOf(d), rows, d);
  }

  predicate InStore(d: Data) { Storable(d) && d.facts.quantity > 0 }

  lemma {:induction false} RowsOfPayloads(rows: seq<Data>)
    requires forall k :: 0 <= k < |rows| ==> InStore(rows[k])
    ensures RowsOf(PayloadsOf(rows)) == Some(rows)
  {
    if rows != [] {
      var prefix, last := rows[..|rows| - 1], rows[|rows| - 1];
      Unsnoc(rows);
      RowsOfPayloads(prefix);
      RowsOfStored(PayloadsOf(prefix), prefix, last);
    }
  }

  /** Rows whose barcodes are new and different are all accepted. */
  lemma {:induction false} AllAccepted(rows: seq<Data>)
    requires SuppliedDiffer(rows)
    ensures Partition(rows, {}).accepted == rows
  {
    if rows != [] {
      var last := |rows| - 1;
      AllAccepted(rows[..last]);
      PartitionSplits(rows[..last], {});
      assert rows[last].barcode.Some? ==> !Supplied(rows[..last], rows[last].barcode.value);
      assert rows[..last] + [rows[last]] == rows;
    }
  }

  lemma {:induction false} BarcodesKept(items: seq<Item>, target: seq<Item>, rows: seq<Data>, reserved: set<string>)
    requires |rows| == |items| && forall k :: 0 <= k < |rows| ==>
      rows[k] == DataOf(items[k]) && items[k].status == InStock && items[k].barcode != ""
    ensures Barcoded(target, rows, [], reserved) == Some((items, reserved))
  {
    if rows != [] {
      var last := |rows| - 1;
      BarcodesKept(items[..last], target, rows[..last], reserved);
      assert items[..last] + [items[last]] == items;
    }
  }

  predicate Importable(items: seq<Item>) {
    && RowsOk(items) && BarcodesDiffer(items)
    && forall k :: 0 <= k < |items| ==> items[k].status == InStock && items[k].facts.quantity > 0 && items[k].barcode != ""
  }

  lemma ImportableDataFits(items: seq<Item>, rows: seq<Data>)
    requires Importable(items) && HoldsDataOf(rows, items)
    ensures SuppliedDiffer(rows) && forall k :: 0 <= k < |rows| ==> InStore(rows[k])
  {
    forall k | 0 <= k < |rows| ensures InStore(rows[k]) { assert RowOk(items[k]); }
  }

  lemma NewBarcodesDoNotExist(target: seq<Item>, items: seq<Item>, rows: seq<Data>)
    requires HoldsDataOf(rows, items) && forall k :: 0 <= k < |items| ==> !HasBarcode(target, items[k].barcode)
    ensures Existing(target, rows) == {}
  {
  }

  lemma ImportWhen(s: Shelf, env: Env, payloads: seq<Payload>, rows: seq<Data>, made: seq<Item>, at: int)
    requires RowsOf(payloads) == Some(rows) && rows != [] && Existing(s.items, rows) == {}
    requires Partition(rows, {}).accepted == rows && CapacityAllows(env, s.items, |rows|)
    requires Barcoded(s.items, rows, [], Partition(rows, {}).reserved) == Some((made, Partition(rows, {}).reserved))
    ensures Import(s, env, payloads, [], at) == Ok(Stock(s, made, at))
  {
  }

  lemma ImportsAll(s: Shelf, env: Env, items: seq<Item>, rows: seq<Data>, at: int)
    requires Importable(items) && items != [] && HoldsDataOf(rows, items)
    requires forall k :: 0 <= k < |items| ==> !HasBarcode(s.items, items[k].barcode)
    requires CapacityAllows(env, s.items, |items|)
    ensures Import(s, env, PayloadsOf(rows), [], at) == Ok(Stock(s, items, at))
  {
    ImportableDataFits(items, rows);
    RowsOfPayloads(rows);
    NewBarcodesDoNotExist(s.items, items, rows);
    AllAccepted(rows);
    BarcodesKept(items, s.items, rows, Partition(rows, {}).reserved);
    ImportWhen(s, env, PayloadsOf(rows), rows, items, at);
  }

  lemma StockIsImportable(items: seq<Item>, target: seq<Item>)
    requires RowsOk(items) && BarcodesDiffer(items) && AllSurvive(items) && NoneEmpty(items)
    requires forall i :: 0 <= i < |items| ==> !HasBarcode(target, items[i].barcode)
    ensures Importable(InStockItems(items)) && HoldsDataOf(InStockData(items), InStockItems(items))
    ensures forall k :: 0 <= k < |InStockItems(items)| ==> !HasBarcode(target, InStockItems(items)[k].barcode)
  {
    var stock := InStockItems(items);
    DataOfInStock(items);
    StockIsLowered(items);
    InStockDiffer(items);
    forall k | 0 <= k < |stock|
      ensures RowOk(stock[k]) && stock[k].facts.quantity > 0 && stock[k].barcode != "" && !HasBarcode(target, stock[k].barcode)
    {
      assert LoweredFrom(stock[k], items);
      var j :| 0 <= j < |items| && items[j].status == InStock && stock[k] == Lowered(items[j]);
      assert Survives(items[j]) && RowOk(items[j]);
      LoweredRowOk(items[j]);
    }
  }

  /**
   * Exporting a shop's items and importing the file into a shop without their barcodes adds exactly the
   * items that were in stock, every field as it was but for the case of the metal.
   */
  lemma ExportThenImportRestoresStock(items: seq<Item>, s: Shelf, env: Env, at: int)
    requires RowsOk(items) && BarcodesDiffer(items) && AllSurvive(items) && NoneEmpty(items)
    requires forall i :: 0 <= i < |items| ==> !HasBarcode(s.items, items[i].barcode)
    requires CapacityAllows(env, s.items, |InStockItems(items)|)
    ensures Parse(Export(items)).issues == 0
    ensures Import(s, env, Parse(Export(items)).payloads, [], at)
         == Ok(if InStockItems(items) == [] then s else Stock(s, InStockItems(items), at))
  {
    ExportParses(items);
    DataOfInStock(items);
    if InStockItems(items) != [] {
      StockIsImportable(items, s.items);
      ImportsAll(s, env, InStockItems(items), InStockData(items), at);
    }
  }
}
