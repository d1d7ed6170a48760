/**
 * Item payloads: normalisation, validation, the table constraints, and partial updates.
 * Weights and Ratti are whole thousandths, money whole paise, purity hundredths of a percent.
 */
module ItemContracts {
  import opened Prelude
  import opened Pricing
  import Text

  datatype StockMode = ByQuantity | ByWeight

  /** A dictionary entry: missing, None, or a value. */
  datatype Field<+T> = Absent | Null | Given(value: T)

  datatype Payload = Payload(
    sku: Field<string>, barcode: Field<string>, name: Field<string>, category: Field<string>,
    itemType: Field<string>, pricing: Field<string>, stockMode: Field<string>, metal: Field<string>,
    purity: Field<int>, netWeight: Field<int>, making: Field<int>, fixedRate: Field<int>, stockWeight: Field<int>,
    ratti: Field<int>, ratePerRatti: Field<int>, quantity: Field<int>, notes: Field<string>)

  /** What an item's history keeps of it. */
  datatype Facts = Facts(
    sku: string, category: string, itemType: ItemType, pricing: PricingMethod, stockMode: StockMode, metal: string,
    purity: int, netWeight: int, making: int, fixedRate: int, stockWeight: Option<int>,
    ratti: Option<int>, ratePerRatti: Option<int>, quantity: int)

  /** A validated item. */
  datatype Data = Data(facts: Facts, barcode: Option<string>, name: string, notes: Option<string>)

  // ---- names ----

  function NormalCategory(category: string): string {
    var trimmed := Text.Lower(Text.Strip(category));
    if trimmed == "earrings" then "earring" else trimmed
  }

  predicate IsNormalCategory(category: string) { NormalCategory(category) == category }

  lemma NormalCategoryIsNormal(category: string)
    ensures IsNormalCategory(NormalCategory(category))
  {
    var trimmed := Text.Lower(Text.Strip(category));
    Text.StripIsTrimmed(category);
    Text.LowerTrimmed(Text.Strip(category));
    Text.LowerTwice(Text.Strip(category));
    Text.StripIsTrimmed(trimmed);
    EarringIsNormal();
  }

  lemma EarringIsNormal()
    ensures IsNormalCategory("earring")
  {
    Text.StripIsTrimmed("earring");
    assert Text.Lower("earring") == "earring";
  }

  function TypeName(t: ItemType): string { if t == Stone then "stone" else "jewellery" }

  function PricingName(p: PricingMethod): string {
    match p
    case FixedRate => "fixed_rate"
    case FixedMaking => "fixed_making_charge"
    case MakingPerGram => "making_charge_per_gram"
    case RatePerRatti => "rate_per_ratti"
  }

  function StockName(m: StockMode): string { if m == ByWeight then "weight" else "quantity" }

  function ParseType(s: string): Option<ItemType> {
    if s == "jewellery" then Some(Jewellery) else if s == "stone" then Some(Stone) else None
  }

  function ParsePricing(s: string): Option<PricingMethod> {
    if s == "fixed_rate" then Some(FixedRate)
    else if s == "fixed_making_charge" then Some(FixedMaking)
    else if s == "making_charge_per_gram" then Some(MakingPerGram)
    else if s == "rate_per_ratti" then Some(RatePerRatti) else None
  }

  function ParseStock(s: string): Option<StockMode> {
    if s == "quantity" then Some(ByQuantity) else if s == "weight" then Some(ByWeight) else None
  }

  function LegacyPricing(category: string): string {
    var trimmed := Text.Lower(Text.Strip(category));
    if trimmed == "unique" then "fixed_rate" else if trimmed == "other" then "fixed_making_charge" else "making_charge_per_gram"
  }

  // ---- normalisation ----

  /** str(value), or of the default when the key is missing. */
  function Shown(f: Field<string>, fallback: string): string {
    match f case Absent => fallback case Null => "None" case Given(s) => s
  }

  /** value or 0 */
  function Amount(f: Field<int>): int { if f.Given? then f.value else 0 }

  predicate LacksPricing(p: Payload) { !p.pricing.Given? || p.pricing.value == "" }

  function WithModes(p: Payload): Payload {
    var category := NormalCategory(Shown(p.category, "jewellery"));
    var itemType := Text.Lower(Text.Strip(Shown(p.itemType, "jewellery")));
    p.(category := Given(category), itemType := Given(itemType),
       pricing := if !LacksPricing(p) then p.pricing
                  else Given(if itemType == "stone" then "rate_per_ratti" else LegacyPricing(category)),
       stockMode := if p.stockMode.Absent? then Given("quantity") else p.stockMode)
  }

  function WithCharges(p: Payload, legacy: bool): Payload {
    if p.itemType == Given("stone") then
      p.(metal := Given("stone"), purity := Given(0), netWeight := Given(0), making := Given(0),
         fixedRate := Given(0), stockWeight := Null)
    else if p.pricing == Given("fixed_rate") then
      p.(fixedRate := if !p.fixedRate.Given? && Amount(p.making) > 0 then Given(Amount(p.making)) else p.fixedRate,
         making := Given(0), stockWeight := Null,
         netWeight := if legacy && p.category == Given("unique") then Given(0) else p.netWeight)
    else
      p.(fixedRate := Given(0))
  }

  function WithStock(p: Payload): Payload {
    if p.stockMode == Given("weight") then
      var total := if Amount(p.netWeight) <= 0 && Amount(p.stockWeight) > 0 then Amount(p.stockWeight) else Amount(p.netWeight);
      var remaining := if p.stockWeight.Given? then p.stockWeight.value else total;
      p.(netWeight := Given(total), stockWeight := Given(remaining), quantity := Given(if remaining > 0 then 1 else 0))
    else p.(stockWeight := Null)
  }

  function Normalized(p: Payload): Payload {
    WithStock(WithCharges(WithModes(p), LacksPricing(p)))
  }

  /** normalize_legacy_payload, rewriting a copy entry by entry. */
  method Normalize(p: Payload) returns (n: Payload)
    ensures n == Normalized(p)
  {
    n := p;
    n := n.(category := Given(NormalCategory(Shown(n.category, "jewellery"))));
    var itemType := Text.Lower(Text.Strip(Shown(n.itemType, "jewellery")));
    n := n.(itemType := Given(itemType));
    var legacy := LacksPricing(n);
    if legacy {
      n := n.(pricing := Given(if itemType == "stone" then "rate_per_ratti" else LegacyPricing(n.category.value)));
    }
    if n.stockMode.Absent? { n := n.(stockMode := Given("quantity")); }
    if itemType == "stone" {
      n := n.(metal := Given("stone"), purity := Given(0), netWeight := Given(0), making := Given(0), fixedRate := Given(0));
      n := n.(stockWeight := Null);
    } else if n.pricing == Given("fixed_rate") {
      var legacyMaking := Amount(n.making);
      if !n.fixedRate.Given? && legacyMaking > 0 { n := n.(fixedRate := Given(legacyMaking)); }
      n := n.(making := Given(0), stockWeight := Null);
      if legacy && n.category == Given("unique") { n := n.(netWeight := Given(0)); }
    } else {
      n := n.(fixedRate := Given(0));
    }
    if n.stockMode == Given("weight") {
      var total, remaining := Amount(n.netWeight), Amount(n.stockWeight);
      if total <= 0 && remaining > 0 { total := remaining; }
      if !n.stockWeight.Given? { remaining := total; }
      n := n.(netWeight := Given(total), stockWeight := Given(remaining), quantity := Given(if remaining > 0 then 1 else 0));
    } else {
      n := n.(stockWeight := Null);
    }
  }

  lemma ModesSettle(p: Payload)
    ensures WithModes(WithModes(p)) == WithModes(p) && !LacksPricing(WithModes(p))
  {
    NormalCategoryIsNormal(Shown(p.category, "jewellery"));
    var trimmed := Text.Strip(Shown(p.itemType, "jewellery"));
    Text.StripIsTrimmed(Shown(p.itemType, "jewellery"));
    Text.LowerTrimmed(trimmed);
    Text.LowerTwice(trimmed);
    Text.StripIsTrimmed(Text.Lower(trimmed));
  }

  /** Later stages leave the modes alone. */
  lemma ModesKept(p: Payload, legacy: bool)
    ensures var n := WithStock(WithCharges(p, legacy));
      n.category == p.category && n.itemType == p.itemType && n.pricing == p.pricing && n.stockMode == p.stockMode
  {
  }

  lemma AmountsSettle(p: Payload, legacy: bool)
    ensures var n := WithStock(WithCharges(p, legacy)); WithStock(WithCharges(n, false)) == n
  {
  }

  /** Normalising a normalised payload changes nothing. */
  lemma NormalizedTwice(p: Payload)
    ensures Normalized(Normalized(p)) == Normalized(p)
  {
    var m, legacy := WithModes(p), LacksPricing(p);
    ModesSettle(p);
    ModesKept(m, legacy);
    AmountsSettle(m, legacy);
    assert WithModes(Normalized(p)) == Normalized(p);
  }

  // ---- validation ----

  datatype Rejection = Malformed | Contradictory

  predicate Within(s: string, most: nat) { 1 <= |s| <= most }

  predicate FitsOptional(f: Field<string>, most: nat) { f.Given? ==> |f.value| <= most }

  predicate AtLeast(f: Field<int>, least: int, optional: bool) {
    match f case Absent => true case Null => optional case Given(n) => n >= least
  }

  function Value(f: Field<int>, fallback: int): int { if f.Given? then f.value else fallback }

  function Maybe<T>(f: Field<T>): Option<T> { if f.Given? then Some(f.value) else None }

  predicate TextFits(p: Payload) {
    && p.sku.Given? && Within(p.sku.value, 50)
    && FitsOptional(p.barcode, 100)
    && p.name.Given? && Within(p.name.value, 255)
    && p.category.Given? && Within(p.category.value, 20)
    && !p.metal.Null? && Within(Shown(p.metal, "gold"), 50)
    && FitsOptional(p.notes, 50)
  }

  predicate ModesFit(p: Payload) {
    && p.itemType.Given? && ParseType(p.itemType.value).Some?
    && p.pricing.Given? && ParsePricing(p.pricing.value).Some?
    && p.stockMode.Given? && ParseStock(p.stockMode.value).Some?
  }

  predicate NumbersFit(p: Payload) {
    && AtLeast(p.purity, 0, false) && Value(p.purity, 0) <= 10_000
    && AtLeast(p.netWeight, 0, false) && AtLeast(p.making, 0, false) && AtLeast(p.fixedRate, 0, false)
    && AtLeast(p.stockWeight, 0, true) && AtLeast(p.ratti, 1, true) && AtLeast(p.ratePerRatti, 1, true)
    && AtLeast(p.quantity, 0, false)
  }

  /** Field by field coercion of a normalised payload. */
  function Coerced(p: Payload): Option<Data> {
    if TextFits(p) && ModesFit(p) && NumbersFit(p) then
      Some(Data(
        Facts(p.sku.value, p.category.value, ParseType(p.itemType.value).value, ParsePricing(p.pricing.value).value,
              ParseStock(p.stockMode.value).value, Shown(p.metal, "gold"), Value(p.purity, 0), Value(p.netWeight, 0),
              Value(p.making, 0), Value(p.fixedRate, 0), Maybe(p.stockWeight), Maybe(p.ratti), Maybe(p.ratePerRatti),
              Value(p.quantity, 1)),
        Maybe(p.barcode), p.name.value, Maybe(p.notes)))
    else None
  }

  predicate NamesStone(metal: string) { Text.Lower(Text.Strip(metal)) == "stone" }

  /** validate_modes */
  predicate ModesAgree(f: Facts) {
    if f.itemType == Stone then
      f.pricing == RatePerRatti && f.stockMode == ByQuantity && f.ratti.Some? && f.ratePerRatti.Some?
    else
      && f.pricing != RatePerRatti && !NamesStone(f.metal) && f.ratti.None? && f.ratePerRatti.None?
      && (if f.stockMode == ByWeight then
            && f.pricing != FixedRate && f.netWeight > 0
            && f.stockWeight.Some? && f.stockWeight.value <= f.netWeight
            && (f.stockWeight.value > 0 <==> f.quantity == 1)
          else if f.pricing == FixedRate then f.fixedRate > 0
          else f.netWeight > 0)
  }

  function Accepted(p: Payload): Result<Data, Rejection> {
    var data := Coerced(Normalized(p));
    if data.None? then Err(Malformed) else if !ModesAgree(data.value.facts) then Err(Contradictory) else Ok(data.value)
  }

  /** ItemCreate adds two demands to an accepted payload. */
  function AcceptedNew(p: Payload): Result<Data, Rejection> {
    var accepted := Accepted(p);
    if accepted.Err? then accepted
    else if accepted.value.facts.itemType == Jewellery && (p.metal.Absent? || p.purity.Absent?) then Err(Contradictory)
    else if accepted.value.facts.stockMode == ByWeight && accepted.value.facts.stockWeight != Some(accepted.value.facts.netWeight)
    then Err(Contradictory)
    else accepted
  }

  // ---- the table constraints ----

  predicate SignContract(f: Facts) {
    && f.quantity >= 0 && 0 <= f.purity <= 10_000
    && f.netWeight >= 0 && f.making >= 0 && f.fixedRate >= 0
    && (f.stockWeight.Some? ==> f.stockWeight.value >= 0)
    && (f.ratti.Some? ==> f.ratti.value >= 0) && (f.ratePerRatti.Some? ==> f.ratePerRatti.value >= 0)
  }

  predicate TypeContract(f: Facts) {
    || (&& f.itemType == Stone && f.metal == "stone" && f.pricing == RatePerRatti && f.stockMode == ByQuantity
        && f.purity == 0 && f.netWeight == 0 && f.making == 0 && f.fixedRate == 0 && f.stockWeight.None?
        && f.ratti.Some? && f.ratti.value > 0 && f.ratePerRatti.Some? && f.ratePerRatti.value > 0)
    || (&& f.itemType == Jewellery && f.metal != "stone" && f.pricing != RatePerRatti
        && f.ratti.None? && f.ratePerRatti.None?)
  }

  predicate StockContract(f: Facts) {
    || (f.stockMode == ByQuantity && f.stockWeight.None?)
    || (&& f.stockMode == ByWeight && f.itemType == Jewellery && f.pricing != FixedRate && f.netWeight > 0
        && f.stockWeight.Some? && f.stockWeight.value <= f.netWeight && f.quantity in {0, 1})
  }

  predicate PricingContract(f: Facts) {
    || f.itemType == Stone
    || (f.pricing == FixedRate && f.fixedRate > 0 && f.making == 0 && f.stockMode == ByQuantity)
    || (&& f.pricing in {FixedMaking, MakingPerGram} && f.fixedRate == 0
        && ((f.stockMode == ByQuantity && f.netWeight > 0) || f.stockMode == ByWeight))
  }

  /** The constraints of the items table that concern the recorded facts. */
  predicate Contracts(f: Facts) {
    SignContract(f) && TypeContract(f) && StockContract(f) && PricingContract(f)
  }

  /** What the schema demands beyond the table constraints. */
  predicate Tidy(f: Facts) {
    && IsNormalCategory(f.category) && Within(f.category, 20) && Within(f.sku, 50) && Within(f.metal, 50)
    && (f.itemType == Jewellery ==> !NamesStone(f.metal))
    && (f.stockMode == ByWeight ==> (f.quantity == 1 <==> f.stockWeight.Some? && f.stockWeight.value > 0))
  }

  predicate Storable(d: Data) {
    && Contracts(d.facts) && Tidy(d.facts) && Within(d.name, 255)
    && (d.barcode.Some? ==> |d.barcode.value| <= 100) && (d.notes.Some? ==> |d.notes.value| <= 50)
  }

  lemma StoneIsNamed(metal: string)
    requires !NamesStone(metal)
    ensures metal != "stone"
  {
    Text.StripIsTrimmed("stone");
    assert Text.Lower("stone") == "stone";
  }

  /** Every accepted payload meets every table constraint. */
  lemma AcceptedIsStorable(p: Payload)
    requires Accepted(p).Ok?
    ensures Storable(Accepted(p).value)
  {
    var d := Accepted(p).value;
    ModesSettle(p);
    ModesKept(WithModes(p), LacksPricing(p));
    NormalCategoryIsNormal(Shown(p.category, "jewellery"));
    if d.facts.itemType == Jewellery { StoneIsNamed(d.facts.metal); }
    AcceptedSigns(Normalized(p));
    AcceptedModes(p);
  }

  lemma AcceptedSigns(n: Payload)
    requires Coerced(n).Some?
    ensures SignContract(Coerced(n).value.facts)
  {
  }

  lemma AcceptedModes(p: Payload)
    requires Accepted(p).Ok? && (Accepted(p).value.facts.itemType == Jewellery ==> Accepted(p).value.facts.metal != "stone")
    ensures var f := Accepted(p).value.facts; TypeContract(f) && StockContract(f) && PricingContract(f)
  {
    ModesKept(WithModes(p), LacksPricing(p));
  }

  // ---- what a payload describes ----

  /** Category names lose outer white space and capitals, and "earrings" is an alias. */
  lemma NormalCategoryReads(category: string)
    ensures Text.Lower(Text.Strip(category)) == "earrings" ==> NormalCategory(category) == "earring"
    ensures Text.Lower(Text.Strip(category)) != "earrings" ==> NormalCategory(category) == Text.Lower(Text.Strip(category))
  {
  }

  predicate SaysStone(p: Payload) { p.itemType.Given? && Text.Lower(Text.Strip(p.itemType.value)) == "stone" }

  predicate SaysJewellery(p: Payload) {
    p.itemType.Absent? || (p.itemType.Given? && Text.Lower(Text.Strip(p.itemType.value)) == "jewellery")
  }

  /** A payload without a pricing method is priced by its type and category, as older clients expect. */
  function SaidPricing(p: Payload): PricingMethod {
    if p.pricing == Given("fixed_rate") then FixedRate
    else if p.pricing == Given("fixed_making_charge") then FixedMaking
    else if p.pricing == Given("making_charge_per_gram") then MakingPerGram
    else if p.pricing == Given("rate_per_ratti") || SaysStone(p) then RatePerRatti
    else UsualPricing(SaidCategory(p))
  }

  function UsualPricing(category: string): PricingMethod {
    match category case "unique" => FixedRate case "other" => FixedMaking case _ => MakingPerGram
  }

  function SaidCategory(p: Payload): string {
    match p.category case Absent => "jewellery" case Null => "none" case Given(category) => NormalCategory(category)
  }

  predicate SaysWeight(p: Payload) { p.stockMode == Given("weight") }

  /** The total weight of a weighed item; a remaining weight alone stands for both. */
  function SaidTotal(p: Payload): int {
    if Amount(p.netWeight) > 0 || Amount(p.stockWeight) <= 0 then Amount(p.netWeight) else Amount(p.stockWeight)
  }

  function SaidRemaining(p: Payload): int { if p.stockWeight.Given? then p.stockWeight.value else SaidTotal(p) }

  /** The item a payload describes, entries that its type or pricing rule out being dropped. */
  function Described(p: Payload): Data {
    var stone, pricing, weighed := SaysStone(p), SaidPricing(p), SaysWeight(p);
    Data(
      Facts(
        Shown(p.sku, ""), SaidCategory(p), if stone then Stone else Jewellery, pricing, if weighed then ByWeight else ByQuantity,
        if stone then "stone" else Shown(p.metal, "gold"),
        if stone then 0 else Amount(p.purity),
        if stone then 0
        else if weighed then SaidTotal(p)
        else if pricing == FixedRate && LacksPricing(p) then 0
        else Amount(p.netWeight),
        if stone || pricing == FixedRate then 0 else Amount(p.making),
        if stone || pricing != FixedRate then 0 else if p.fixedRate.Given? then p.fixedRate.value else Amount(p.making),
        if weighed then Some(SaidRemaining(p)) else None,
        Maybe(p.ratti), Maybe(p.ratePerRatti),
        if weighed then (if SaidRemaining(p) > 0 then 1 else 0) else if p.quantity.Given? then p.quantity.value else 1),
      Maybe(p.barcode), Shown(p.name, ""), Maybe(p.notes))
  }

  /** The entries a description needs are there, and its names are known. */
  predicate Complete(p: Payload) {
    && p.sku.Given? && p.name.Given? && (SaysStone(p) || SaysJewellery(p))
    && (p.pricing.Given? ==> p.pricing.value in {"", "fixed_rate", "fixed_making_charge", "making_charge_per_gram", "rate_per_ratti"})
    && (p.stockMode.Absent? || p.stockMode == Given("quantity") || p.stockMode == Given("weight"))
    && (SaysWeight(p) || !p.quantity.Null?)
    && (SaysStone(p) || (!p.metal.Null? && !p.purity.Null?))
    && (SaysStone(p) || SaidPricing(p) == FixedRate || !p.making.Null?)
    && (SaysStone(p) || SaysWeight(p) || (SaidPricing(p) == FixedRate && LacksPricing(p)) || !p.netWeight.Null?)
  }

  lemma NamesAreNormal(t: ItemType)
    ensures Text.Lower(Text.Strip(TypeName(t))) == TypeName(t)
  {
    Text.StripIsTrimmed(TypeName(t));
    assert Text.Lower(TypeName(t)) == TypeName(t);
  }

  lemma DefaultsAreNormal()
    ensures Text.Lower(Text.Strip("jewellery")) == "jewellery" && NormalCategory("jewellery") == "jewellery"
    ensures Text.Lower(Text.Strip("None")) == "none" && NormalCategory("None") == "none"
  {
    NamesAreNormal(Jewellery);
    Text.StripIsTrimmed("None");
    assert Text.Lower("None") == "none";
    assert "jewellery"[0] != "earrings"[0] && "none"[0] != "earrings"[0];
  }

  lemma DescribedModes(p: Payload)
    ensures var m := WithModes(p);
      && m.category == Given(SaidCategory(p))
      && (m.itemType == Given("stone") <==> SaysStone(p)) && (m.itemType == Given("jewellery") <==> SaysJewellery(p))
      && (m.stockMode == Given("weight") <==> SaysWeight(p))
  {
    DefaultsAreNormal();
    assert "jewellery"[0] != "stone"[0] && "none"[0] != "stone"[0] && "none"[0] != "jewellery"[0];
  }

  /** The method that a payload without one gets. */
  lemma LegacyPricingIsUsual(category: string)
    requires IsNormalCategory(category)
    ensures LegacyPricing(category) == PricingName(UsualPricing(category))
  {
    Text.StripIsTrimmed(category);
  }

  lemma UnnamedPricing(p: Payload)
    requires LacksPricing(p)
    ensures SaidPricing(p) == if SaysStone(p) then RatePerRatti else UsualPricing(SaidCategory(p))
  {
  }

  lemma SaidCategoryIsNormal(p: Payload)
    ensures IsNormalCategory(SaidCategory(p))
  {
    DefaultsAreNormal();
    NormalCategoryIsNormal(Shown(p.category, "jewellery"));
  }

  lemma DescribedPricing(p: Payload)
    requires LacksPricing(p) && (SaysStone(p) || SaysJewellery(p))
    ensures WithModes(p).pricing == Given(PricingName(SaidPricing(p)))
  {
    DescribedModes(p);
    UnnamedPricing(p);
    SaidCategoryIsNormal(p);
    LegacyPricingIsUsual(SaidCategory(p));
  }

  lemma NamedPricing(p: Payload)
    requires p.pricing.Given? && p.pricing.value in {"fixed_rate", "fixed_making_charge", "making_charge_per_gram", "rate_per_ratti"}
    ensures WithModes(p).pricing == Given(PricingName(SaidPricing(p))) && !LacksPricing(p)
  {
  }

  lemma CompletePricing(p: Payload)
    requires Complete(p)
    ensures WithModes(p).pricing == Given(PricingName(SaidPricing(p)))
  {
    if LacksPricing(p) { DescribedPricing(p); } else { NamedPricing(p); }
  }

  lemma LegacyFixedIsUnique(p: Payload)
    requires LacksPricing(p) && SaysJewellery(p) && SaidPricing(p) == FixedRate
    ensures SaidCategory(p) == "unique"
  {
    UnnamedPricing(p);
    assert "jewellery"[0] != "stone"[0];
  }

  /** Naming the stages of a payload whose modes are known: its amounts follow from them. */
  predicate NormalStone(p: Payload, n: Payload) {
    && n.metal == Given("stone") && n.purity == Given(0) && n.netWeight == Given(0) && n.making == Given(0) && n.fixedRate == Given(0)
    && n.stockWeight == Null && n.quantity == p.quantity
  }

  predicate NormalFixed(p: Payload, n: Payload) {
    && n.metal == p.metal && n.purity == p.purity && n.making == Given(0) && n.stockWeight == Null && n.quantity == p.quantity
    && n.fixedRate == (if !p.fixedRate.Given? && Amount(p.making) > 0 then p.making else p.fixedRate)
    && n.netWeight == (if LacksPricing(p) then Given(0) else p.netWeight)
  }

  predicate NormalCounted(p: Payload, n: Payload) {
    && n.metal == p.metal && n.purity == p.purity && n.making == p.making && n.fixedRate == Given(0)
    && n.stockWeight == Null && n.quantity == p.quantity && n.netWeight == p.netWeight
  }

  predicate NormalWeighed(p: Payload, n: Payload) {
    && n.metal == p.metal && n.purity == p.purity && n.making == p.making && n.fixedRate == Given(0)
    && n.netWeight == Given(SaidTotal(p)) && n.stockWeight == Given(SaidRemaining(p))
    && n.quantity == Given(if SaidRemaining(p) > 0 then 1 else 0)
  }

  predicate NormalText(p: Payload, n: Payload) {
    && n.sku == p.sku && n.barcode == p.barcode && n.name == p.name && n.notes == p.notes
    && n.ratti == p.ratti && n.ratePerRatti == p.ratePerRatti
  }

  lemma ChargesDescribe(m: Payload, legacy: bool)
    ensures var n := WithStock(WithCharges(m, legacy));
      && NormalText(m, n)
      && (m.itemType == Given("stone") && m.stockMode != Given("weight") ==> NormalStone(m, n))
  {
  }

  lemma StagesDescribe(p: Payload)
    requires Complete(p) && (SaysWeight(p) ==> SaysJewellery(p) && SaidPricing(p) != FixedRate)
    ensures var n := Normalized(p);
      && NormalText(p, n)
      && (if SaysStone(p) then NormalStone(p, n)
          else if SaidPricing(p) == FixedRate then NormalFixed(p, n)
          else if SaysWeight(p) then NormalWeighed(p, n) else NormalCounted(p, n))
  {
    DescribedModes(p);
    CompletePricing(p);
    var m := WithModes(p);
    if SaysStone(p) {
      ChargesDescribe(m, LacksPricing(p));
    } else if SaidPricing(p) == FixedRate {
      assert m.pricing == Given("fixed_rate");
      if LacksPricing(p) { LegacyFixedIsUnique(p); }
    } else {
      assert m.pricing != Given("fixed_rate");
    }
  }

  lemma NormalModesAre(p: Payload)
    ensures var n, m := Normalized(p), WithModes(p);
      && n.category == m.category && n.itemType == m.itemType && n.pricing == m.pricing && n.stockMode == m.stockMode
      && n.sku == p.sku && n.name == p.name
  {
    ModesKept(WithModes(p), LacksPricing(p));
  }

  lemma AcceptedModesAreSaid(p: Payload)
    requires Accepted(p).Ok?
    ensures p.sku.Given? && p.name.Given? && (SaysStone(p) || SaysJewellery(p))
    ensures p.pricing.Given? ==> p.pricing.value in {"", "fixed_rate", "fixed_making_charge", "making_charge_per_gram", "rate_per_ratti"}
    ensures p.stockMode.Absent? || p.stockMode == Given("quantity") || p.stockMode == Given("weight")
  {
    NormalModesAre(p);
    DescribedModes(p);
  }

  lemma AcceptedWeighedIs(p: Payload)
    requires Accepted(p).Ok? && SaysWeight(p)
    ensures SaysJewellery(p) && SaidPricing(p) != FixedRate
    ensures !p.metal.Null? && !p.purity.Null? && !p.making.Null?
  {
    NormalModesAre(p);
    DescribedModes(p);
    AcceptedModesAreSaid(p);
    if LacksPricing(p) { DescribedPricing(p); } else { NamedPricing(p); }
  }

  lemma AcceptedCountedIs(p: Payload)
    requires Accepted(p).Ok? && !SaysWeight(p)
    ensures !p.quantity.Null? && (SaysStone(p) || (!p.metal.Null? && !p.purity.Null?))
    ensures SaysStone(p) || SaidPricing(p) == FixedRate || !p.making.Null?
    ensures SaysStone(p) || (SaidPricing(p) == FixedRate && LacksPricing(p)) || !p.netWeight.Null?
  {
    NormalModesAre(p);
    DescribedModes(p);
    AcceptedModesAreSaid(p);
    if LacksPricing(p) { DescribedPricing(p); } else { NamedPricing(p); }
  }

  lemma AcceptedIsComplete(p: Payload)
    requires Accepted(p).Ok?
    ensures Complete(p) && (SaysWeight(p) ==> SaysJewellery(p) && SaidPricing(p) != FixedRate)
  {
    AcceptedModesAreSaid(p);
    if SaysWeight(p) { AcceptedWeighedIs(p); } else { AcceptedCountedIs(p); }
  }

  /** A fixed rate that is neither given nor taken from the making charge is refused. */
  predicate NamesRate(p: Payload) {
    SaidPricing(p) == FixedRate && !SaysStone(p) && !p.fixedRate.Given? ==> Amount(p.making) > 0
  }

  lemma AcceptedNamesRate(p: Payload)
    requires Accepted(p).Ok?
    ensures NamesRate(p)
  {
    AcceptedIsComplete(p);
    StagesDescribe(p);
    NormalModesAre(p);
    DescribedModes(p);
    CompletePricing(p);
  }

  lemma DescriptionIsCoerced(p: Payload)
    requires Complete(p) && NamesRate(p) && (SaysWeight(p) ==> SaysJewellery(p) && SaidPricing(p) != FixedRate)
    requires Coerced(Normalized(p)).Some?
    ensures Coerced(Normalized(p)) == Some(Described(p))
  {
    StagesDescribe(p);
    NormalModesAre(p);
    DescribedModes(p);
    CompletePricing(p);
  }

  lemma DescribedModesFit(p: Payload)
    requires Complete(p)
    ensures ModesFit(Normalized(p))
  {
    NormalModesAre(p);
    DescribedModes(p);
    CompletePricing(p);
  }

  lemma DescribedTextFits(p: Payload)
    requires Complete(p) && Storable(Described(p))
    ensures TextFits(Normalized(p))
  {
    StagesDescribe(p);
    NormalModesAre(p);
    DescribedModes(p);
    if SaysStone(p) {
      assert NormalStone(p, Normalized(p));
    } else if SaidPricing(p) == FixedRate {
      assert NormalFixed(p, Normalized(p));
    }
  }

  lemma DescribedNumbersFit(p: Payload)
    requires Complete(p) && Storable(Described(p))
    ensures NumbersFit(Normalized(p)) && NamesRate(p)
  {
    StagesDescribe(p);
    if SaysStone(p) {
      assert NormalStone(p, Normalized(p));
    } else if SaidPricing(p) == FixedRate {
      assert NormalFixed(p, Normalized(p));
    } else if SaysWeight(p) {
      assert NormalWeighed(p, Normalized(p));
    } else {
      assert NormalCounted(p, Normalized(p));
    }
  }

  lemma StorableAgrees(f: Facts)
    requires Contracts(f) && Tidy(f)
    ensures ModesAgree(f)
  {
  }

  /** Validation accepts exactly the complete payloads that describe a storable item, and stores what they describe. */
  lemma AcceptedExactly(p: Payload)
    ensures Accepted(p).Ok? <==> Complete(p) && Storable(Described(p))
    ensures Accepted(p).Ok? ==> Accepted(p).value == Described(p)
  {
    if Accepted(p).Ok? {
      AcceptedIsComplete(p);
      AcceptedNamesRate(p);
      DescriptionIsCoerced(p);
      AcceptedIsStorable(p);
    }
    if Complete(p) && Storable(Described(p)) {
      DescribedModesFit(p);
      DescribedTextFits(p);
      DescribedNumbersFit(p);
      DescriptionIsCoerced(p);
      StorableAgrees(Described(p).facts);
    }
  }

  // ---- a stored item as a payload ----

  function Opt<T>(o: Option<T>): Field<T> { if o.Some? then Given(o.value) else Null }

  function PayloadOf(d: Data): Payload {
    var f := d.facts;
    Payload(Given(f.sku), Opt(d.barcode), Given(d.name), Given(f.category), Given(TypeName(f.itemType)),
            Given(PricingName(f.pricing)), Given(StockName(f.stockMode)), Given(f.metal), Given(f.purity), Given(f.netWeight),
            Given(f.making), Given(f.fixedRate), Opt(f.stockWeight), Opt(f.ratti), Opt(f.ratePerRatti), Given(f.quantity),
            Opt(d.notes))
  }

  lemma PayloadModesNormal(d: Data)
    requires Storable(d)
    ensures WithModes(PayloadOf(d)) == PayloadOf(d) && !LacksPricing(PayloadOf(d))
  {
    NamesAreNormal(d.facts.itemType);
  }

  lemma PayloadNormal(d: Data)
    requires Storable(d)
    ensures Normalized(PayloadOf(d)) == PayloadOf(d)
  {
    PayloadModesNormal(d);
  }

  lemma PayloadCoerces(d: Data)
    requires Storable(d)
    ensures Coerced(PayloadOf(d)) == Some(d)
  {
  }

  /** The stored items are exactly the payloads that validation returns unchanged. */
  lemma StorableIsAccepted(d: Data)
    ensures Storable(d) <==> Accepted(PayloadOf(d)) == Ok(d)
  {
    if Storable(d) {
      PayloadNormal(d);
      PayloadCoerces(d);
    }
    if Accepted(PayloadOf(d)) == Ok(d) { AcceptedIsStorable(PayloadOf(d)); }
  }

  // ---- partial updates ----

  function Pick<T>(requested: Field<T>, current: Field<T>): Field<T> { if requested.Absent? then current else requested }

  /** {**current, **requested} */
  function Overlay(current: Payload, requested: Payload): Payload {
    Payload(
      Pick(requested.sku, current.sku), Pick(requested.barcode, current.barcode), Pick(requested.name, current.name),
      Pick(requested.category, current.category), Pick(requested.itemType, current.itemType),
      Pick(requested.pricing, current.pricing), Pick(requested.stockMode, current.stockMode),
      Pick(requested.metal, current.metal), Pick(requested.purity, current.purity),
      Pick(requested.netWeight, current.netWeight), Pick(requested.making, current.making),
      Pick(requested.fixedRate, current.fixedRate), Pick(requested.stockWeight, current.stockWeight),
      Pick(requested.ratti, current.ratti), Pick(requested.ratePerRatti, current.ratePerRatti),
      Pick(requested.quantity, current.quantity), Pick(requested.notes, current.notes))
  }

  /** Naming one of these fields rewrites all the fields that depend on them. */
  predicate TouchesModes(r: Payload) {
    !r.category.Absent? || !r.itemType.Absent? || !r.pricing.Absent? || !r.stockMode.Absent? || !r.netWeight.Absent?
  }

  /** Only the requested fields, or all dependent ones, are copied from the validated item. */
  function Written(d: Data, r: Payload, v: Data): Data {
    var f, w, all := d.facts, v.facts, TouchesModes(r);
    Data(
      Facts(
        if r.sku.Absent? then f.sku else w.sku,
        if r.category.Absent? then f.category else w.category,
        if r.itemType.Absent? then f.itemType else w.itemType,
        if r.pricing.Absent? then f.pricing else w.pricing,
        if r.stockMode.Absent? then f.stockMode else w.stockMode,
        if r.metal.Absent? && !all then f.metal else w.metal,
        if r.purity.Absent? && !all then f.purity else w.purity,
        if !all then f.netWeight else w.netWeight,
        if r.making.Absent? && !all then f.making else w.making,
        if r.fixedRate.Absent? && !all then f.fixedRate else w.fixedRate,
        if r.stockWeight.Absent? && !all then f.stockWeight else w.stockWeight,
        if r.ratti.Absent? && !all then f.ratti else w.ratti,
        if r.ratePerRatti.Absent? && !all then f.ratePerRatti else w.ratePerRatti,
        if r.quantity.Absent? && !all then f.quantity else w.quantity),
      if r.barcode.Absent? then d.barcode else v.barcode,
      if r.name.Absent? then d.name else v.name,
      if r.notes.Absent? then d.notes else v.notes)
  }

  /** The modes of an accepted item are those its payload names. */
  lemma AcceptedModesAre(p: Payload)
    requires Accepted(p).Ok?
    ensures var v, m := Accepted(p).value.facts, WithModes(p);
      && m.category == Given(v.category) && m.itemType.Given? && ParseType(m.itemType.value) == Some(v.itemType)
      && m.pricing.Given? && ParsePricing(m.pricing.value) == Some(v.pricing)
      && m.stockMode.Given? && ParseStock(m.stockMode.value) == Some(v.stockMode)
  {
    ModesKept(WithModes(p), LacksPricing(p));
  }

  lemma UnrequestedModesKept(d: Data, r: Payload)
    requires Storable(d) && Accepted(Overlay(PayloadOf(d), r)).Ok?
    ensures ModesUnmoved(r, d.facts, Accepted(Overlay(PayloadOf(d), r)).value.facts)
  {
    var p := Overlay(PayloadOf(d), r);
    var v := Accepted(p).value.facts;
    AcceptedModesAre(p);
    CategoryKept(d, r);
    TypeKept(d, r);
    PricingKept(d, r);
  }

  lemma CategoryKept(d: Data, r: Payload)
    requires IsNormalCategory(d.facts.category)
    ensures r.category.Absent? ==> WithModes(Overlay(PayloadOf(d), r)).category == Given(d.facts.category)
  {
  }

  lemma TypeKept(d: Data, r: Payload)
    ensures r.itemType.Absent? ==> WithModes(Overlay(PayloadOf(d), r)).itemType == Given(TypeName(d.facts.itemType))
  {
    NamesAreNormal(d.facts.itemType);
  }

  lemma PricingKept(d: Data, r: Payload)
    ensures r.pricing.Absent? ==> WithModes(Overlay(PayloadOf(d), r)).pricing == Given(PricingName(d.facts.pricing))
  {
  }

  predicate ModesUnmoved(r: Payload, f: Facts, v: Facts) {
    && (r.category.Absent? ==> v.category == f.category) && (r.itemType.Absent? ==> v.itemType == f.itemType)
    && (r.pricing.Absent? ==> v.pricing == f.pricing) && (r.stockMode.Absent? ==> v.stockMode == f.stockMode)
  }

  predicate AmountsUnmoved(r: Payload, f: Facts, v: Facts) {
    && (r.metal.Absent? ==> v.metal == f.metal) && (r.purity.Absent? ==> v.purity == f.purity)
    && v.netWeight == f.netWeight
    && (r.making.Absent? ==> v.making == f.making) && (r.fixedRate.Absent? ==> v.fixedRate == f.fixedRate)
    && (r.stockWeight.Absent? ==> v.stockWeight == f.stockWeight)
    && (r.ratti.Absent? ==> v.ratti == f.ratti) && (r.ratePerRatti.Absent? ==> v.ratePerRatti == f.ratePerRatti)
    && (r.quantity.Absent? ==> v.quantity == f.quantity)
  }

  predicate TextUnmoved(r: Payload, d: Data, v: Data) {
    && (r.sku.Absent? ==> v.facts.sku == d.facts.sku) && (r.barcode.Absent? ==> v.barcode == d.barcode)
    && (r.name.Absent? ==> v.name == d.name) && (r.notes.Absent? ==> v.notes == d.notes)
  }

  /** Normalisation and coercion leave the free text alone. */
  lemma AcceptedTextIs(p: Payload)
    requires Accepted(p).Ok?
    ensures var v := Accepted(p).value;
      p.sku == Given(v.facts.sku) && p.name == Given(v.name) && v.barcode == Maybe(p.barcode) && v.notes == Maybe(p.notes)
  {
    assert Normalized(p).sku == p.sku && Normalized(p).name == p.name;
    assert Normalized(p).barcode == p.barcode && Normalized(p).notes == p.notes;
  }

  lemma UnrequestedTextKept(d: Data, r: Payload)
    requires Accepted(Overlay(PayloadOf(d), r)).Ok?
    ensures TextUnmoved(r, d, Accepted(Overlay(PayloadOf(d), r)).value)
  {
    AcceptedTextIs(Overlay(PayloadOf(d), r));
  }

  lemma UntouchedModesStand(d: Data, r: Payload)
    requires Storable(d) && !TouchesModes(r)
    ensures var p := Overlay(PayloadOf(d), r); WithModes(p) == p && !LacksPricing(p)
  {
    NamesAreNormal(d.facts.itemType);
  }

  lemma UntouchedAmountsStand(d: Data, r: Payload)
    requires Storable(d) && !TouchesModes(r) && d.facts.stockMode == ByQuantity
    requires var p := Overlay(PayloadOf(d), r); WithModes(p) == p && !LacksPricing(p)
    ensures var p, n := Overlay(PayloadOf(d), r), Normalized(Overlay(PayloadOf(d), r));
      && n.netWeight == p.netWeight && (r.metal.Absent? ==> n.metal == p.metal) && (r.purity.Absent? ==> n.purity == p.purity)
      && (r.making.Absent? ==> n.making == p.making) && (r.fixedRate.Absent? ==> n.fixedRate == p.fixedRate)
      && (r.stockWeight.Absent? ==> n.stockWeight == p.stockWeight) && n.ratti == p.ratti
      && n.ratePerRatti == p.ratePerRatti && n.quantity == p.quantity
  {
  }

  /** When no mode is touched and stock is counted, unrequested amounts come out as they went in. */
  lemma UnrequestedAmountsKept(d: Data, r: Payload)
    requires Storable(d) && Accepted(Overlay(PayloadOf(d), r)).Ok?
    requires !TouchesModes(r) && d.facts.stockMode == ByQuantity
    ensures AmountsUnmoved(r, d.facts, Accepted(Overlay(PayloadOf(d), r)).value.facts)
  {
    UntouchedModesStand(d, r);
    UntouchedAmountsStand(d, r);
  }

  lemma UnmovedFieldsNeedNoWriting(d: Data, r: Payload, v: Data)
    requires ModesUnmoved(r, d.facts, v.facts) && TextUnmoved(r, d, v)
    requires TouchesModes(r) || AmountsUnmoved(r, d.facts, v.facts)
    ensures Written(d, r, v) == v
  {
  }

  /**
   * Writing only the fields of fields_to_update gives the row that writing the whole validated
   * item would: no field left alone would have changed.
   */
  lemma PartialWriteIsWhole(d: Data, r: Payload)
    requires Storable(d) && Accepted(Overlay(PayloadOf(d), r)).Ok?
    requires d.facts.stockMode == ByWeight ==> TouchesModes(r)
    ensures var v := Accepted(Overlay(PayloadOf(d), r)).value; Written(d, r, v) == v
  {
    UnrequestedModesKept(d, r);
    UnrequestedTextKept(d, r);
    if !TouchesModes(r) { UnrequestedAmountsKept(d, r); }
    UnmovedFieldsNeedNoWriting(d, r, Accepted(Overlay(PayloadOf(d), r)).value);
  }
  /**
   * What a new item must say besides: a jewellery payload names its metal and purity, and a weighed item starts with
   * its whole weight, so a remaining weight may not differ from a total that is given too.
   */
  lemma AcceptedNewExactly(p: Payload)
    ensures AcceptedNew(p).Ok? <==>
      && Accepted(p).Ok? && (SaysStone(p) || (!p.metal.Absent? && !p.purity.Absent?))
      && (p.stockMode == Given("weight") && p.stockWeight.Given? && Amount(p.netWeight) > 0 ==> p.stockWeight == p.netWeight)
    ensures AcceptedNew(p).Ok? ==> AcceptedNew(p).value == Described(p)
    ensures AcceptedNew(p).Ok? && p.stockMode == Given("weight") ==>
      AcceptedNew(p).value.facts.stockWeight == Some(AcceptedNew(p).value.facts.netWeight)
  {
    AcceptedExactly(p);
  }

  // ---- what an edit stores ----

  /** A text an edit leaves alone stays, one it names is stored. */
  predicate Stores(r: Field<string>, before: string, after: string) {
    match r case Absent => after == before case Null => false case Given(text) => after == text
  }

  predicate StoresOptional<T(==)>(r: Field<T>, before: Option<T>, after: Option<T>) {
    match r case Absent => after == before case Null => after == None case Given(value) => after == Some(value)
  }

  /** An amount an edit leaves alone stays, one it names is stored. */
  predicate StoresAmount(r: Field<int>, before: int, after: int) {
    match r case Absent => after == before case Null => false case Given(amount) => after == amount
  }

  predicate TextStored(r: Payload, before: Data, after: Data) {
    && Stores(r.sku, before.facts.sku, after.facts.sku) && Stores(r.name, before.name, after.name)
    && StoresOptional(r.barcode, before.barcode, after.barcode) && StoresOptional(r.notes, before.notes, after.notes)
  }

  /** The category is stored in its normal form, and a missing pricing method is chosen by it. */
  predicate ModesStored(r: Payload, before: Facts, after: Facts) {
    && CategoryStored(r.category, before.category, after.category)
    && PricingStored(r.pricing, before, after)
    && (match r.stockMode
        case Absent => after.stockMode == before.stockMode
        case Null => false
        case Given(name) => name == if after.stockMode == ByWeight then "weight" else "quantity")
  }

  predicate CategoryStored(r: Field<string>, before: string, after: string) {
    match r case Absent => after == before case Null => after == "none" case Given(category) => after == NormalCategory(category)
  }

  predicate PricingStored(r: Field<string>, before: Facts, after: Facts) {
    if r.Absent? then after.pricing == before.pricing
    else if r == Null || r == Given("") then after.pricing == (if after.itemType == Stone then RatePerRatti else UsualPricing(after.category))
    else ParsePricing(r.value) == Some(after.pricing)
  }

  /** The amounts of a stone are its Ratti terms; those of jewellery follow the request where its pricing does not fix them. */
  predicate AmountsStored(r: Payload, before: Facts, after: Facts) {
    && StoresOptional(r.ratti, before.ratti, after.ratti) && StoresOptional(r.ratePerRatti, before.ratePerRatti, after.ratePerRatti)
    && (if after.itemType == Stone then
          after.metal == "stone" && after.purity == 0 && after.netWeight == 0 && after.making == 0 && after.fixedRate == 0
        else
          && Stores(r.metal, before.metal, after.metal) && StoresAmount(r.purity, before.purity, after.purity)
          && (if after.pricing == FixedRate then
                && after.making == 0
                && (if r.fixedRate.Null? then after.fixedRate == Amount(Pick(r.making, Given(before.making)))
                    else StoresAmount(r.fixedRate, before.fixedRate, after.fixedRate))
              else after.fixedRate == 0 && StoresAmount(r.making, before.making, after.making)))
  }

  /** The weight and the number of pieces of an item that is counted; the weight of a unique piece may be dropped. */
  predicate CountStored(r: Payload, before: Facts, after: Facts) {
    after.stockMode == ByQuantity ==>
      && after.stockWeight == None && StoresAmount(r.quantity, before.quantity, after.quantity)
      && (after.itemType == Jewellery ==>
            if after.pricing == FixedRate && (r.pricing == Null || r.pricing == Given("")) then after.netWeight == 0
            else StoresAmount(r.netWeight, before.netWeight, after.netWeight))
  }

  /** The payload keeps the type of the stored item. */
  predicate KeepsType(r: Payload, f: Facts) {
    r.itemType.Absent? || r.itemType == Given(TypeName(f.itemType))
  }

  lemma MergedType(d: Data, r: Payload)
    requires KeepsType(r, d.facts)
    ensures var p := Overlay(PayloadOf(d), r); (SaysStone(p) <==> d.facts.itemType == Stone) && (SaysJewellery(p) <==> d.facts.itemType == Jewellery)
  {
    NamesAreNormal(d.facts.itemType);
    assert "jewellery"[0] != "stone"[0];
  }

  lemma MergedText(d: Data, r: Payload)
    requires Complete(Overlay(PayloadOf(d), r))
    ensures TextStored(r, d, Described(Overlay(PayloadOf(d), r)))
  {
  }

  lemma MergedCategory(d: Data, r: Payload)
    requires IsNormalCategory(d.facts.category)
    ensures CategoryStored(r.category, d.facts.category, Described(Overlay(PayloadOf(d), r)).facts.category)
  {
  }

  lemma NameSaysPricing(p: Payload)
    requires p.pricing.Given? && p.pricing.value in {"fixed_rate", "fixed_making_charge", "making_charge_per_gram", "rate_per_ratti"}
    ensures ParsePricing(p.pricing.value) == Some(SaidPricing(p))
  {
  }

  lemma NameOfPricing(m: PricingMethod)
    ensures PricingName(m) in {"fixed_rate", "fixed_making_charge", "making_charge_per_gram", "rate_per_ratti"}
    ensures ParsePricing(PricingName(m)) == Some(m)
  {
  }

  lemma MergedPricing(d: Data, r: Payload)
    requires KeepsType(r, d.facts) && Complete(Overlay(PayloadOf(d), r))
    ensures PricingStored(r.pricing, d.facts, Described(Overlay(PayloadOf(d), r)).facts)
  {
    var p := Overlay(PayloadOf(d), r);
    MergedType(d, r);
    if r.pricing == Null || r.pricing == Given("") {
      UnnamedPricing(p);
    } else {
      if r.pricing.Absent? { NameOfPricing(d.facts.pricing); }
      NameSaysPricing(p);
    }
  }

  lemma MergedModes(d: Data, r: Payload)
    requires KeepsType(r, d.facts) && IsNormalCategory(d.facts.category) && Complete(Overlay(PayloadOf(d), r))
    ensures ModesStored(r, d.facts, Described(Overlay(PayloadOf(d), r)).facts)
    ensures Described(Overlay(PayloadOf(d), r)).facts.itemType == d.facts.itemType
  {
    MergedType(d, r);
    MergedCategory(d, r);
    MergedPricing(d, r);
  }

  lemma MergedAmounts(d: Data, r: Payload)
    requires KeepsType(r, d.facts) && Complete(Overlay(PayloadOf(d), r))
    ensures AmountsStored(r, d.facts, Described(Overlay(PayloadOf(d), r)).facts)
    ensures CountStored(r, d.facts, Described(Overlay(PayloadOf(d), r)).facts)
  {
    MergedType(d, r);
  }

  /** An edit of a stored item that is accepted stores what it requests, and leaves the rest as it was. */
  lemma MergedStores(d: Data, r: Payload)
    requires Storable(d) && KeepsType(r, d.facts) && Accepted(Overlay(PayloadOf(d), r)).Ok?
    ensures var v := Accepted(Overlay(PayloadOf(d), r)).value;
      && TextStored(r, d, v) && v.facts.itemType == d.facts.itemType && ModesStored(r, d.facts, v.facts)
      && AmountsStored(r, d.facts, v.facts) && CountStored(r, d.facts, v.facts)
  {
    AcceptedExactly(Overlay(PayloadOf(d), r));
    MergedText(d, r);
    MergedModes(d, r);
    MergedAmounts(d, r);
  }
}
