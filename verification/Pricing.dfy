/**
 * Prices in whole paise. Weights are in milligrams, rates in paise per gram, purities in
 * hundredths of a percent, Ratti in thousandths. Exact amounts are kept in units of 10^-7 paise,
 * fine enough to hold weight * rate * purity without rounding.
 */
module Pricing {
  datatype ItemType = Jewellery | Stone
  datatype PricingMethod = FixedRate | FixedMaking | MakingPerGram | RatePerRatti

  const UNIT: nat := 10_000_000
  const FULL_PURITY: nat := 10_000
  const GST_RATE: nat := 300

  /** Round half up of n/d. */
  function HalfUp(n: nat, d: nat): nat
    requires d > 0
  {
    (2 * n + d) / (2 * d)
  }

  lemma HalfUpIsNearest(n: nat, d: nat)
    requires d > 0
    ensures 2 * d * HalfUp(n, d) <= 2 * n + d < 2 * d * HalfUp(n, d) + 2 * d
  {
    DivisionBounds(2 * n + d, 2 * d);
  }

  lemma DivisionBounds(a: nat, b: nat)
    requires b > 0
    ensures b * (a / b) <= a < b * (a / b) + b
  {
  }

  lemma HalfUpMonotone(m: nat, n: nat, d: nat)
    requires d > 0 && m <= n
    ensures HalfUp(m, d) <= HalfUp(n, d)
  {
    HalfUpIsNearest(m, d);
    HalfUpIsNearest(n, d);
    QuotientsInOrder(d, HalfUp(m, d), HalfUp(n, d), 2 * m + d, 2 * n + d);
  }

  lemma QuotientsInOrder(d: nat, h: nat, k: nat, x: nat, y: nat)
    requires d > 0 && x <= y
    requires 2 * d * h <= x < 2 * d * h + 2 * d
    requires 2 * d * k <= y < 2 * d * k + 2 * d
    ensures h <= k
  {
    var e: int := h - k;
    var dh, dk := d * h, d * k;
    assert 2 * d * h == 2 * dh && 2 * d * k == 2 * dk;
    assert d * e == dh - dk;
    assert e >= 1 ==> d * e >= d;
  }

  /** What a price depends on. */
  datatype Quote = Quote(
    itemType: ItemType, pricing: PricingMethod, weight: nat, rate: nat, purity: nat, isSilver: bool,
    making: nat, fixedRate: nat, ratti: nat, ratePerRatti: nat)

  /** Paise per gram times 10^4: silver is sold at the base rate, other metals at their purity. */
  function EffectiveRate(q: Quote): nat {
    if q.isSilver then q.rate * FULL_PURITY else q.rate * q.purity
  }

  function IsStonePriced(q: Quote): bool {
    q.itemType == Stone || q.pricing == RatePerRatti
  }

  function MetalValue(q: Quote): nat {
    if IsStonePriced(q) then q.ratti * q.ratePerRatti * 10_000
    else if q.pricing == FixedRate then 0
    else q.weight * EffectiveRate(q)
  }

  function MakingValue(q: Quote): nat {
    if IsStonePriced(q) || q.pricing == FixedRate then 0
    else if q.pricing == FixedMaking then q.making * UNIT
    else q.making * q.weight * 10_000
  }

  function FixedValue(q: Quote): nat {
    if q.pricing == FixedRate then q.fixedRate * UNIT else 0
  }

  /** The exact price before tax, in units of 10^-7 paise. */
  function ExactPrice(q: Quote): nat {
    MetalValue(q) + MakingValue(q) + FixedValue(q)
  }

  datatype Breakdown = Breakdown(
    metalValue: nat, makingCharge: nat, fixedRate: nat, subtotal: nat, gstRate: nat, gst: nat, finalPrice: nat)

  function LockPrice(q: Quote): Breakdown {
    var subtotal := HalfUp(ExactPrice(q), UNIT);
    var gst := HalfUp(subtotal * GST_RATE, FULL_PURITY);
    Breakdown(
      HalfUp(MetalValue(q), UNIT), HalfUp(MakingValue(q), UNIT), HalfUp(FixedValue(q), UNIT),
      subtotal, GST_RATE, gst, subtotal + gst)
  }

  /**
   * The locked price is within 1.015 paise of the exact price with 3% tax: both sides are
   * in units of 10^-7 / 1000 paise, where 1.015 paise is 1015 * UNIT.
   */
  lemma FinalPriceIsClose(q: Quote)
    ensures -1015 * UNIT <= 1000 * UNIT * LockPrice(q).finalPrice - 1030 * ExactPrice(q) <= 1015 * UNIT
  {
    var x := ExactPrice(q);
    var s := HalfUp(x, UNIT);
    HalfUpIsNearest(x, UNIT);
    HalfUpIsNearest(s * GST_RATE, FULL_PURITY);
  }

  lemma FinalPriceMonotone(p: Quote, q: Quote)
    requires ExactPrice(p) <= ExactPrice(q)
    ensures LockPrice(p).finalPrice <= LockPrice(q).finalPrice
  {
    HalfUpMonotone(ExactPrice(p), ExactPrice(q), UNIT);
    HalfUpMonotone(LockPrice(p).subtotal * GST_RATE, LockPrice(q).subtotal * GST_RATE, FULL_PURITY);
  }

  lemma ProductMonotone(a: nat, b: nat, c: nat)
    requires a <= b
    ensures a * c <= b * c
  {
  }

  lemma ExactPriceMonotone(q: Quote, w: nat)
    requires q.weight <= w
    ensures ExactPrice(q) <= ExactPrice(q.(weight := w))
  {
    ProductMonotone(q.weight, w, EffectiveRate(q));
    ProductMonotone(q.weight, w, q.making);
    assert q.making * q.weight == q.weight * q.making && q.making * w == w * q.making;
  }

  /** A heavier piece never costs less. */
  lemma PriceMonotoneInWeight(q: Quote, w: nat)
    requires q.weight <= w
    ensures LockPrice(q).finalPrice <= LockPrice(q.(weight := w)).finalPrice
  {
    ExactPriceMonotone(q, w);
    FinalPriceMonotone(q, q.(weight := w));
  }

  /** Per-gram prices are additive in the weight before rounding. */
  lemma ExactPriceAdditive(q: Quote, v: nat, w: nat)
    requires !IsStonePriced(q) && q.pricing == MakingPerGram
    ensures ExactPrice(q.(weight := v)) + ExactPrice(q.(weight := w)) == ExactPrice(q.(weight := v + w))
  {
    var e := EffectiveRate(q);
    assert v * e + w * e == (v + w) * e;
    assert q.making * v * 10_000 + q.making * w * 10_000 == q.making * (v + w) * 10_000;
  }

  lemma SmallMultiple(d: nat, e: int)
    requires d > 0 && -3 * d < 2 * (d * e) < 3 * d
    ensures -1 <= e <= 1
  {
    assert e >= 2 ==> d * e >= d * 2;
    assert e <= -2 ==> d * e <= d * -2;
  }

  /** Rounding two parts and the whole separately differs by at most one. */
  lemma HalfUpSplits(a: nat, b: nat, d: nat)
    requires d > 0
    ensures -1 <= HalfUp(a, d) + HalfUp(b, d) - HalfUp(a + b, d) <= 1
  {
    HalfUpIsNearest(a, d);
    HalfUpIsNearest(b, d);
    HalfUpIsNearest(a + b, d);
    Spread(d, HalfUp(a, d), HalfUp(b, d), HalfUp(a + b, d), a, b);
  }

  lemma Spread(d: nat, x: nat, y: nat, z: nat, a: nat, b: nat)
    requires d > 0
    requires 2 * d * x <= 2 * a + d < 2 * d * x + 2 * d
    requires 2 * d * y <= 2 * b + d < 2 * d * y + 2 * d
    requires 2 * d * z <= 2 * (a + b) + d < 2 * d * z + 2 * d
    ensures -1 <= x + y - z <= 1
  {
    var dx, dy, dz := d * x, d * y, d * z;
    assert 2 * d * x == 2 * dx && 2 * d * y == 2 * dy && 2 * d * z == 2 * dz;
    assert d * (x + y - z) == dx + dy - dz;
    SmallMultiple(d, x + y - z);
  }

  /** Selling a weight in two parts changes the final price by at most two paise. */
  lemma SplitSaleWithinTwoPaise(q: Quote, v: nat, w: nat)
    requires !IsStonePriced(q) && q.pricing == MakingPerGram
    ensures -2 <= LockPrice(q.(weight := v)).finalPrice + LockPrice(q.(weight := w)).finalPrice
                  - LockPrice(q.(weight := v + w)).finalPrice <= 2
  {
    var a, b := ExactPrice(q.(weight := v)), ExactPrice(q.(weight := w));
    ExactPriceAdditive(q, v, w);
    HalfUpSplits(a, b, UNIT);
    var s, t, u := HalfUp(a, UNIT), HalfUp(b, UNIT), HalfUp(a + b, UNIT);
    HalfUpIsNearest(s * GST_RATE, FULL_PURITY);
    HalfUpIsNearest(t * GST_RATE, FULL_PURITY);
    HalfUpIsNearest(u * GST_RATE, FULL_PURITY);
  }

  lemma HalfUpIs(n: nat, d: nat, h: nat)
    requires d > 0 && 2 * d * h <= 2 * n + d < 2 * d * h + 2 * d
    ensures HalfUp(n, d) == h
  {
    HalfUpIsNearest(n, d);
    QuotientsInOrder(d, h, HalfUp(n, d), 2 * n + d, 2 * n + d);
    QuotientsInOrder(d, HalfUp(n, d), h, 2 * n + d, 2 * n + d);
  }

  function PerGram(rate: nat, purity: nat, making: nat): Quote {
    Quote(Jewellery, MakingPerGram, 0, rate, purity, false, making, 0, 0, 0)
  }

  lemma PriceIs(rate: nat, purity: nat, making: nat, w: nat, metal: nat, subtotal: nat, gst: nat)
    requires metal == rate * purity
    requires var exact := w * metal + making * w * 10_000;
      20_000_000 * subtotal <= 2 * exact + 10_000_000 < 20_000_000 * subtotal + 20_000_000
    requires 20_000 * gst <= 600 * subtotal + 10_000 < 20_000 * gst + 20_000
    ensures LockPrice(PerGram(rate, purity, making).(weight := w)).finalPrice == subtotal + gst
  {
    HalfUpIs(w * metal + making * w * 10_000, UNIT, subtotal);
    HalfUpIs(subtotal * GST_RATE, FULL_PURITY, gst);
  }

  /** The two-paise bound is reached in both directions. */
  lemma SplitBoundIsTight(dearer: bool) returns (q: Quote, v: nat, w: nat)
    ensures !IsStonePriced(q) && q.pricing == MakingPerGram
    ensures LockPrice(q.(weight := v)).finalPrice + LockPrice(q.(weight := w)).finalPrice
         == LockPrice(q.(weight := v + w)).finalPrice + (if dearer then 2 else -2)
  {
    if dearer {
      q, v, w := PerGram(2599, 6690, 4), 720, 1541;
      PriceIs(2599, 6690, 4, 720, 17_387_310, 1255, 38);
      PriceIs(2599, 6690, 4, 1541, 17_387_310, 2686, 81);
      PriceIs(2599, 6690, 4, 2261, 17_387_310, 3940, 118);
    } else {
      q, v, w := PerGram(711, 5503, 11), 1351, 1186;
      PriceIs(711, 5503, 11, 1351, 3_912_633, 543, 16);
      PriceIs(711, 5503, 11, 1186, 3_912_633, 477, 14);
      PriceIs(711, 5503, 11, 2537, 3_912_633, 1021, 31);
    }
  }

  /** The three printed components differ from the printed subtotal by at most one paisa. */
  lemma ComponentsWithinOnePaisa(q: Quote)
    ensures var b := LockPrice(q);
      -1 <= b.metalValue + b.fixedRate + b.makingCharge - b.subtotal <= 1
  {
    assert HalfUp(0, UNIT) == 0;
    if FixedValue(q) > 0 {
      HalfUpSplits(MetalValue(q), FixedValue(q), UNIT);
      assert MakingValue(q) == 0;
    } else {
      HalfUpSplits(MetalValue(q), MakingValue(q), UNIT);
    }
  }
}
