/** The legacy rounding and the tax inside a tax-inclusive price (packages/domain/src/rounding.ts, tax.ts).
    Amounts are cents: a real before it is rounded, an int after. */
module Tax {
  /** Decimal fractions: 0.18 is 18%. */
  datatype TaxRates = TaxRates(serviceCharge: real, nbt: real, vat: real)

  predicate NonNegativeRates(rates: TaxRates) {
    rates.serviceCharge >= 0.0 && rates.nbt >= 0.0 && rates.vat >= 0.0
  }

  /** round2: to the nearest cent, a half going up. */
  function Round(x: real): (cents: int)
    ensures x - 0.5 < cents as real <= x + 0.5
  {
    (x + 0.5).Floor
  }

  /** round_up: the next whole cent. */
  function RoundUp(x: real): (cents: int)
    ensures x <= cents as real < x + 1.0
  {
    -((-x).Floor)
  }

  /** The price without its taxes: VAT, then NBT, then the service charge divided out. */
  function Net(selling: real, rates: TaxRates): real
    requires NonNegativeRates(rates)
  {
    selling / (1.0 + rates.vat) / (1.0 + rates.nbt) / (1.0 + rates.serviceCharge)
  }

  function TaxFromSelling(selling: int, rates: TaxRates): int
    requires NonNegativeRates(rates)
  {
    Round(selling as real - Net(selling as real, rates))
  }

  function GrossedUp(commissionable: real, rates: TaxRates): real {
    commissionable * (1.0 + rates.serviceCharge) * (1.0 + rates.nbt) * (1.0 + rates.vat)
  }

  function SellingFromCommissionable(commissionable: int, rates: TaxRates): int {
    Round(GrossedUp(commissionable as real, rates))
  }

  // ---- one undoes the other ----

  function Factor(rates: TaxRates): real {
    (1.0 + rates.serviceCharge) * (1.0 + rates.nbt) * (1.0 + rates.vat)
  }

  lemma GrowsBy(x: real, r: real)
    requires x >= 1.0 && r >= 0.0
    ensures x * (1.0 + r) >= 1.0
  {
    assert x * (1.0 + r) == x + x * r;
    assert x * r >= 0.0;
  }

  lemma FactorAtLeastOne(rates: TaxRates)
    requires NonNegativeRates(rates)
    ensures Factor(rates) >= 1.0
  {
    GrowsBy(1.0 + rates.serviceCharge, rates.nbt);
    GrowsBy((1.0 + rates.serviceCharge) * (1.0 + rates.nbt), rates.vat);
  }

  lemma DivideTwice(x: real, a: real, b: real)
    requires a > 0.0 && b > 0.0
    ensures x / a / b == x / (b * a)
  {
    var y := x / a / b;
    assert y * b == x / a;
    assert y * b * a == x;
    assert y * (b * a) == x;
  }

  lemma NetIsQuotient(selling: real, rates: TaxRates)
    requires NonNegativeRates(rates)
    ensures Factor(rates) >= 1.0 && Net(selling, rates) == selling / Factor(rates)
  {
    FactorAtLeastOne(rates);
    var s, n, v := 1.0 + rates.serviceCharge, 1.0 + rates.nbt, 1.0 + rates.vat;
    assert n * v > 0.0 && n * v == v * n;
    DivideTwice(selling, v, n);
    DivideTwice(selling, n * v, s);
    assert s * (n * v) == s * n * v;
  }

  lemma GrossIsProduct(c: real, rates: TaxRates)
    ensures GrossedUp(c, rates) == c * Factor(rates)
  {
    var s, n, v := 1.0 + rates.serviceCharge, 1.0 + rates.nbt, 1.0 + rates.vat;
    assert c * s * n == c * (s * n);
    assert c * (s * n) * v == c * (s * n * v);
  }

  lemma NetGrossesBack(selling: real, rates: TaxRates)
    requires NonNegativeRates(rates)
    ensures GrossedUp(Net(selling, rates), rates) == selling
  {
    NetIsQuotient(selling, rates);
    var net := Net(selling, rates);
    GrossIsProduct(net, rates);
    assert net * Factor(rates) == selling;
  }

  /** Half a cent in the price is at most half a cent in the net. */
  lemma QuotientNear(s: real, c: real, f: real)
    requires f >= 1.0 && c * f - 0.5 < s <= c * f + 0.5
    ensures -0.5 <= c - s / f < 0.5
  {
    var d := c - s / f;
    assert d * f == c * f - s;
    Stretches(d, f);
  }

  lemma Stretches(d: real, f: real)
    requires f >= 1.0
    ensures d <= 0.0 ==> d * f <= d
    ensures d >= 0.0 ==> d * f >= d
  {
    if d >= 0.0 { assert d * f - d == d * (f - 1.0); } else { assert d - d * f == -d * (f - 1.0); }
  }

  /** Whatever the rates, taking the tax back out of the grossed-up price returns the amount exactly,
      although both steps round. */
  lemma GrossUpUndone(commissionable: int, rates: TaxRates)
    requires NonNegativeRates(rates)
    ensures var selling := SellingFromCommissionable(commissionable, rates);
            selling - TaxFromSelling(selling, rates) == commissionable
  {
    var selling := SellingFromCommissionable(commissionable, rates);
    NetIsQuotient(selling as real, rates);
    GrossIsProduct(commissionable as real, rates);
    QuotientNear(selling as real, commissionable as real, Factor(rates));
  }

  /** The tax is a charge, never a discount. */
  lemma TaxNonNegative(commissionable: int, rates: TaxRates)
    requires NonNegativeRates(rates) && commissionable >= 0
    ensures TaxFromSelling(SellingFromCommissionable(commissionable, rates), rates) >= 0
  {
    GrossUpUndone(commissionable, rates);
    GrossIsProduct(commissionable as real, rates);
    FactorAtLeastOne(rates);
    Stretches(commissionable as real, Factor(rates));
  }

  /** The tax in a price is part of it. */
  lemma TaxWithinPrice(selling: int, rates: TaxRates)
    requires NonNegativeRates(rates) && selling >= 0
    ensures 0 <= TaxFromSelling(selling, rates) <= selling
  {
    NetIsQuotient(selling as real, rates);
    var net := Net(selling as real, rates);
    assert net * Factor(rates) == selling as real;
    Stretches(net, Factor(rates));
  }

  /** The other way round it is not an inverse: at 18% VAT, 3 cents hold no tax, and grossing them up
      again asks for 4. */
  lemma NotInverseBothWays()
    ensures var vat := TaxRates(0.0, 0.0, 0.18);
            TaxFromSelling(3, vat) == 0 && SellingFromCommissionable(3 - TaxFromSelling(3, vat), vat) == 4
  {
    var vat := TaxRates(0.0, 0.0, 0.18);
    var net := Net(3.0, vat);
    assert net * 1.18 == 3.0;
    assert 2.5 < net < 3.0;
  }

  /** The price that comes out when its tax is taken out and the rest is grossed up again. */
  function ThereAndBack(selling: int, rates: TaxRates): int
    requires NonNegativeRates(rates)
  {
    SellingFromCommissionable(selling - TaxFromSelling(selling, rates), rates)
  }

  lemma DivideBelow(x: real, y: real, f: real)
    requires f >= 1.0
    ensures x / f <= y <==> x <= y * f
    ensures y < x / f <==> y * f < x
  {
    var q := x / f;
    assert q * f == x;
    if q <= y { assert (y - q) * f >= 0.0; } else { assert (q - y) * f > 0.0; }
  }

  /** An amount grosses up to a price exactly when it lies in an interval a cent wide divided by the factor. */
  lemma GrossesUpIff(c: int, selling: int, rates: TaxRates)
    requires NonNegativeRates(rates) && Factor(rates) >= 1.0
    ensures var f := Factor(rates);
            SellingFromCommissionable(c, rates) == selling <==>
              (selling as real - 0.5) / f <= c as real && c as real < (selling as real + 0.5) / f
  {
    GrossIsProduct(c as real, rates);
    DivideBelow(selling as real - 0.5, c as real, Factor(rates));
    DivideBelow(selling as real + 0.5, c as real, Factor(rates));
  }

  lemma FirstWhole(x: real, c: int)
    requires x <= c as real
    ensures RoundUp(x) <= c
  {}

  /** A price comes back exactly when there is a whole cent from (price - 1/2)/F up to, but not at,
      (price + 1/2)/F, F being the factor of the rates: when the first whole cent at or above the one is
      below the other. */
  lemma PriceComesBackIff(selling: int, rates: TaxRates)
    requires NonNegativeRates(rates)
    ensures Factor(rates) >= 1.0
    ensures ThereAndBack(selling, rates) == selling <==>
              RoundUp((selling as real - 0.5) / Factor(rates)) as real < (selling as real + 0.5) / Factor(rates)
  {
    FactorAtLeastOne(rates);
    var lo, hi := (selling as real - 0.5) / Factor(rates), (selling as real + 0.5) / Factor(rates);
    var first := RoundUp(lo);
    var c := selling - TaxFromSelling(selling, rates);
    GrossesUpIff(c, selling, rates);
    if ThereAndBack(selling, rates) == selling {
      FirstWhole(lo, c);
    } else if first as real < hi {
      GrossesUpIff(first, selling, rates);
      GrossUpUndone(first, rates);
    }
  }

  /** Going up cent by cent from an amount that keeps its value to one that gains a cent, a price is skipped. */
  lemma {:induction false} SkipsOne(low: int, high: int, rates: TaxRates) returns (lost: int)
    requires NonNegativeRates(rates) && low < high
    requires SellingFromCommissionable(low, rates) == low && SellingFromCommissionable(high, rates) > high
    ensures ThereAndBack(lost, rates) != lost
    decreases high - low
  {
    FactorAtLeastOne(rates);
    var mid := high - 1;
    GrossIsProduct(mid as real, rates);
    GrossIsProduct(high as real, rates);
    if SellingFromCommissionable(mid, rates) > mid && mid > low {
      lost := SkipsOne(low, mid, rates);
    } else {
      lost := high;
      NothingBetween(mid, high, rates);
    }
  }

  lemma NothingBetween(mid: int, high: int, rates: TaxRates)
    requires NonNegativeRates(rates) && mid + 1 == high
    requires SellingFromCommissionable(mid, rates) <= mid && SellingFromCommissionable(high, rates) > high
    ensures ThereAndBack(high, rates) != high
  {
    var c := high - TaxFromSelling(high, rates);
    if c <= mid { GrossesMonotone(c, mid, rates); } else { GrossesMonotone(high, c, rates); }
  }

  lemma GrossesMonotone(a: int, b: int, rates: TaxRates)
    requires NonNegativeRates(rates) && a <= b
    ensures SellingFromCommissionable(a, rates) <= SellingFromCommissionable(b, rates)
  {
    FactorAtLeastOne(rates);
    GrossIsProduct(a as real, rates);
    GrossIsProduct(b as real, rates);
    assert (b - a) as real * Factor(rates) >= 0.0;
  }

  /** Every price comes back exactly when nothing is taxed. */
  lemma AllComeBackIff(rates: TaxRates)
    requires NonNegativeRates(rates)
    ensures (forall selling: int :: ThereAndBack(selling, rates) == selling) <==> Factor(rates) == 1.0
  {
    FactorAtLeastOne(rates);
    if Factor(rates) == 1.0 {
      forall selling: int ensures ThereAndBack(selling, rates) == selling {
        GrossesUpIff(selling, selling, rates);
        GrossUpUndone(selling, rates);
      }
    } else {
      var over := Factor(rates) - 1.0;
      var high := RoundUp(1.0 / over);
      assert over * (1.0 / over) == 1.0;
      assert over * high as real >= 1.0 && high >= 1;
      GrossIsProduct(0.0, rates);
      GrossIsProduct(high as real, rates);
      assert high as real * Factor(rates) == high as real + over * high as real;
      var lost := SkipsOne(0, high, rates);
    }
  }
}
