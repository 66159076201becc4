/** What a room-night costs once the desk has had its say (packages/domain/src/rate-policy.ts). */
module RatePolicy {
  import opened Tables
  import opened Wrappers
  import opened Money
  import opened Tax
  import opened TaxSplit
  import opened Settlement

  datatype RateOverride =
    | Nightly(amount: real)
    | StayTotal(amount: real)
    | PerNight(amounts: map<Date, real>)
    | DiscountPct(pct: real)

  /** A night's stored economics, per room. */
  datatype NightEconomics = NightEconomics(base: int, commission: int, selling: int, tax: int)
  datatype DistributionMode = Yoho | Standalone

  function Reals(prices: seq<int>): (r: seq<real>)
    ensures |r| == |prices| && forall i :: 0 <= i < |prices| ==> r[i] == prices[i] as real
  {
    seq(|prices|, i requires 0 <= i < |prices| => prices[i] as real)
  }

  function Discounted(price: int, pct: real): real {
    price as real * (1.0 - pct / 100.0)
  }

  /** A discount takes off its hundredths of the price: nothing at 0, all of it at 100. */
  lemma DiscountTakesOff(price: int, pct: real)
    ensures 100.0 * (price as real - Discounted(price, pct)) == pct * price as real
  {
    var off := pct / 100.0;
    assert price as real - Discounted(price, pct) == price as real * off;
    assert 100.0 * off == pct;
    assert 100.0 * (price as real * off) == (100.0 * off) * price as real;
  }

  /** The price of every night; None where the source raises, for a date with no rate. */
  method OverridePrices(override: RateOverride, dates: seq<Date>, listPrices: seq<int>)
      returns (prices: Option<seq<int>>)
    requires |dates| == |listPrices|
    ensures prices.None? <==> override.PerNight? && exists i :: 0 <= i < |dates| && dates[i] !in override.amounts
    ensures prices.Some? ==> |prices.value| == |dates|
    ensures override.StayTotal? && dates != [] ==> Sum(prices.value) == ToCents(override.amount)
    ensures override.StayTotal? && dates != [] && ToCents(override.amount) >= 0 ==>
      Proportion(Shares(Reals(listPrices)))
      && IsSplit(ToCents(override.amount), Shares(Reals(listPrices)), prices.value)
    ensures override.StayTotal? && dates != [] && ToCents(override.amount) < 0 ==>
      Proportion(Shares(Reals(listPrices)))
      && IsSplit(-ToCents(override.amount), Shares(Reals(listPrices)), Negated(prices.value))
    ensures override.Nightly? ==> forall i :: 0 <= i < |dates| ==> prices.value[i] == ToCents(override.amount)
    ensures override.PerNight? && prices.Some? ==> forall i :: 0 <= i < |dates| ==>
              prices.value[i] == ToCents(override.amounts[dates[i]])
    ensures override.DiscountPct? ==> forall i :: 0 <= i < |dates| ==>
      AbsReal(prices.value[i] as real - Discounted(listPrices[i], override.pct)) <= 0.5
  {
    match override {
      case Nightly(amount) =>
        prices := Some(seq(|dates|, _ => ToCents(amount)));
      case StayTotal(amount) =>
        var parts := SplitProportional(amount, Reals(listPrices));
        NegatedSum(parts, |parts|);
        prices := Some(parts);
      case PerNight(amounts) =>
        if exists i :: 0 <= i < |dates| && dates[i] !in amounts { return None; }
        prices := Some(seq(|dates|, i requires 0 <= i < |dates| && dates[i] in amounts => ToCents(amounts[dates[i]])));
      case DiscountPct(pct) =>
        prices := Some(seq(|dates|, i requires 0 <= i < |dates| => ToCents(Discounted(listPrices[i], pct))));
    }
  }

  function Min(a: int, b: int): int { if a < b then a else b }

  function Max(a: int, b: int): int { if a < b then b else a }

  function InProportion(amount: int, exclusive: int, listExclusive: int): real
    requires listExclusive > 0
  {
    amount as real * (exclusive as real / listExclusive as real)
  }

  /** An amount of the list night, scaled with the price. */
  function Scaled(amount: int, exclusive: int, listExclusive: int): int
    requires listExclusive > 0
  {
    ToCents(InProportion(amount, exclusive, listExclusive))
  }

  function OverrideNight(list: NightEconomics, newSelling: int, newTax: int, mode: DistributionMode): NightEconomics {
    var exclusive := newSelling - newTax;
    var listExclusive := list.selling - list.tax;
    if mode == Standalone || listExclusive <= 0 then
      NightEconomics(exclusive, 0, newSelling, newTax)
    else
      var base := Min(Scaled(list.base, exclusive, listExclusive), exclusive);
      var commission := Max(0, Min(Scaled(list.commission, exclusive, listExclusive), exclusive - base));
      NightEconomics(base, commission, newSelling, newTax)
  }

  function Exemptible(lines: seq<TaxLine>): int {
    if lines == [] then 0 else (if lines[0].exemptible then lines[0].amount else 0) + Exemptible(lines[1..])
  }

  function Kept(lines: seq<TaxLine>): seq<TaxLine> {
    if lines == [] then [] else (if lines[0].exemptible then [] else [lines[0]]) + Kept(lines[1..])
  }

  datatype Exemption = Exemption(selling: int, tax: int, lines: seq<TaxLine>, exempted: int)

  function ExemptNight(selling: int, tax: int, lines: seq<TaxLine>): Exemption {
    var exempted := Exemptible(lines);
    if exempted == 0 then Exemption(selling, tax, lines, 0)
    else Exemption(selling - exempted, tax - exempted, Kept(lines), exempted)
  }

  // ---- nobody is promised more than the untaxed price ----

  predicate Solvent(n: NightEconomics) {
    0 <= n.base && 0 <= n.commission && n.base + n.commission <= n.selling - n.tax
  }

  lemma ScaledNonNegative(amount: int, exclusive: int, listExclusive: int)
    requires listExclusive > 0 && amount >= 0 && exclusive >= 0
    ensures Scaled(amount, exclusive, listExclusive) >= 0
  {
    var r := exclusive as real / listExclusive as real;
    assert r >= 0.0;
    assert amount as real * r >= 0.0;
  }

  /** However the desk prices it, a night pays out no more than its untaxed price; with no commission to
      scale, the property keeps all of that. */
  lemma OverrideSolvent(list: NightEconomics, newSelling: int, newTax: int, mode: DistributionMode)
    requires list.base >= 0 && newTax <= newSelling
    ensures Solvent(OverrideNight(list, newSelling, newTax, mode))
    ensures mode == Standalone || list.selling <= list.tax ==>
              OverrideNight(list, newSelling, newTax, mode).base == newSelling - newTax
  {
    if list.selling > list.tax { ScaledNonNegative(list.base, newSelling - newTax, list.selling - list.tax); }
  }

  /** From a solvent list night the property's base scales exactly, to the nearest cent, and the
      commission does too or, when both would round up, gives up one cent. */
  lemma OverrideScales(list: NightEconomics, newSelling: int, newTax: int)
    requires Solvent(list) && list.selling > list.tax && newTax <= newSelling
    ensures var n := OverrideNight(list, newSelling, newTax, Yoho);
            var exclusive, listExclusive := newSelling - newTax, list.selling - list.tax;
            && n.base == Scaled(list.base, exclusive, listExclusive)
            && Scaled(list.commission, exclusive, listExclusive) - 1 <= n.commission
               <= Scaled(list.commission, exclusive, listExclusive)
  {
    ScaledFit(list.base, list.commission, newSelling - newTax, list.selling - list.tax);
  }

  lemma ScaledFit(base: int, commission: int, e: int, l: int)
    requires 0 <= base && 0 <= commission && base + commission <= l && 0 < l && 0 <= e
    ensures 0 <= Scaled(base, e, l) <= e && 0 <= Scaled(commission, e, l)
    ensures Scaled(commission, e, l) - 1 <= e - Scaled(base, e, l)
  {
    SharesWithin(base, commission, e, l);
    WholeSplit(InProportion(base, e, l), InProportion(commission, e, l), e);
  }

  /** A scaled amount is to the new untaxed price as the amount is to the old, to the nearest cent. */
  lemma ScaledNearest(amount: int, e: int, l: int)
    requires l > 0
    ensures AbsReal(Scaled(amount, e, l) as real * l as real - amount as real * e as real) <= 0.5 * l as real
  {
    Crossed(Scaled(amount, e, l) as real, amount as real, e as real, l as real);
  }

  lemma Crossed(n: real, a: real, e: real, l: real)
    requires l > 0.0 && AbsReal(n - a * (e / l)) <= 0.5
    ensures AbsReal(n * l - a * e) <= 0.5 * l
  {
    var r := e / l;
    var d := n - a * r;
    assert r * l == e;
    assert a * r * l == a * (r * l);
    assert d * l == n * l - a * e;
    Widens(d, l);
  }

  lemma Widens(d: real, l: real)
    requires l > 0.0 && AbsReal(d) <= 0.5
    ensures AbsReal(d * l) <= 0.5 * l
  {
    assert (0.5 - d) * l >= 0.0 && (d + 0.5) * l >= 0.0;
  }

  lemma SharesWithin(base: int, commission: int, e: int, l: int)
    requires 0 <= base && 0 <= commission && base + commission <= l && 0 < l && 0 <= e
    ensures 0.0 <= InProportion(base, e, l) && 0.0 <= InProportion(commission, e, l)
    ensures InProportion(base, e, l) + InProportion(commission, e, l) <= e as real
  {
    var r := e as real / l as real;
    assert r >= 0.0 && l as real * r == e as real;
    assert (l - base - commission) as real * r >= 0.0;
  }

  lemma WholeSplit(b: real, c: real, e: int)
    requires b >= 0.0 && c >= 0.0 && b + c <= e as real
    ensures 0 <= ToCents(b) <= e && 0 <= ToCents(c) && ToCents(c) - 1 <= e - ToCents(b)
  {}

  /** Typing the list price back in changes nothing. */
  lemma OverrideIdentity(list: NightEconomics)
    requires Solvent(list) && list.selling > list.tax
    ensures OverrideNight(list, list.selling, list.tax, Yoho) == list
  {
    var l := (list.selling - list.tax) as real;
    assert l / l == 1.0;
    WholeCents(list.base);
    WholeCents(list.commission);
  }

  lemma WholeCents(n: int)
    ensures ToCents(n as real * 1.0) == n
  {}

  lemma {:induction false} KeptTotal(lines: seq<TaxLine>)
    ensures LineTotal(Kept(lines)) == LineTotal(lines) - Exemptible(lines)
  {
    if lines == [] {
    } else {
      KeptTotal(lines[1..]);
      LineTotalJoins(if lines[0].exemptible then [] else [lines[0]], Kept(lines[1..]));
    }
  }

  lemma {:induction false} ExemptibleWithin(lines: seq<TaxLine>)
    requires forall i :: 0 <= i < |lines| ==> lines[i].amount >= 0
    ensures 0 <= Exemptible(lines) <= LineTotal(lines)
  {
    if lines == [] {
    } else {
      ExemptibleWithin(lines[1..]);
    }
  }

  /** An override and then an exemption: the guest's price falls by exactly the tax excused, the untaxed
      price does not move, the lines left are the tax left, and the margin left to the OTA is not negative. */
  lemma PolicyNightSettles(list: NightEconomics, newSelling: int, newTax: int, mode: DistributionMode, rates: TaxRates,
                           lines: seq<TaxLine>)
    requires list.base >= 0 && newSelling >= 0 && NonNegativeRates(rates) && newTax == TaxFromSelling(newSelling, rates)
    requires LineTotal(lines) == newTax && forall i :: 0 <= i < |lines| ==> lines[i].amount >= 0
    ensures var n := OverrideNight(list, newSelling, newTax, mode);
            var x := ExemptNight(n.selling, n.tax, lines);
            var e := DecomposeBooking(x.selling as real, x.tax as real, n.base as real, n.commission as real);
            && x.selling - x.tax == newSelling - newTax && 0 <= x.tax <= x.selling <= newSelling
            && LineTotal(x.lines) == x.tax == newTax - x.exempted
            && Solvent(n.(selling := x.selling, tax := x.tax))
            && e.otaCommission >= 0 && e.propertyBase == n.base && e.yohoCommission == n.commission
            && e.propertyBase + e.yohoCommission + e.otaCommission + e.taxes == x.selling
  {
    TaxWithinPrice(newSelling, rates);
    OverrideSolvent(list, newSelling, newTax, mode);
    KeptTotal(lines);
    ExemptibleWithin(lines);
    var n := OverrideNight(list, newSelling, newTax, mode);
    var x := ExemptNight(n.selling, n.tax, lines);
    WholeCentsReconcile(x.selling, x.tax, n.base, n.commission);
  }

  /** An exempt guest's lines hold no exemptible tax. */
  lemma {:induction false} NothingExemptibleLeft(lines: seq<TaxLine>, l: TaxLine)
    ensures l in Kept(lines) <==> l in lines && !l.exemptible
  {
    if lines == [] {
    } else {
      NothingExemptibleLeft(lines[1..], l);
    }
  }

  // ---- one night, from its list price to its lines ----

  /** What the guest is asked before any exemption. */
  function AskedPrice(listSelling: int, target: Option<int>, complimentary: bool): int {
    if complimentary then 0 else if target.Some? then target.value else listSelling
  }

  /** The desk typed a price that is not the list price. */
  predicate Overridden(listSelling: int, target: Option<int>, complimentary: bool) {
    !complimentary && target.Some? && target.value != listSelling
  }

  lemma NothingLiveNothingTaxed(selling: int, components: seq<TaxComponent>)
    requires Live(components) == []
    ensures TaxFromSelling(selling, Slots(Live(components))) == 0
  {
    var rates := Slots(Live(components));
    assert SlotRate([], 1, 0) == SlotRate([], 2, 0) == SlotRate([], 3, 0) == 0.0;
    NetIsQuotient(selling as real, rates);
    assert Factor(rates) == 1.0;
  }

  lemma WholeIsItself(n: int)
    ensures ToCents(n as real) == n
  {}

  /** The lines of a night's own tax add up to it, whatever is live. */
  method NightLines(selling: int, tax: int, components: seq<TaxComponent>) returns (lines: seq<TaxLine>)
    requires tax == 0 || tax == TaxFromSelling(selling, Slots(Live(components)))
    ensures LineTotal(lines) == tax && (tax == 0 ==> lines == [])
    ensures tax >= 0 ==> forall i :: 0 <= i < |lines| ==> lines[i].amount >= 0
    ensures forall i :: 0 <= i < |lines| ==> |lines| == |Live(components)| && LineFor(lines[i], Live(components)[i])
  {
    lines := SplitInclusiveTax(selling as real, components, tax as real);
    WholeIsItself(tax);
    if Live(components) == [] { NothingLiveNothingTaxed(selling, components); }
  }

  /** The economics a night starts from: free, as the calendar has them, or scaled to the typed price. */
  function BeforeExemption(list: NightEconomics, target: Option<int>, complimentary: bool, mode: DistributionMode,
                           rates: TaxRates): NightEconomics
    requires NonNegativeRates(rates)
  {
    if complimentary then NightEconomics(0, 0, 0, 0)
    else if !Overridden(list.selling, target, complimentary) then list
    else OverrideNight(list, target.value, TaxFromSelling(target.value, rates), mode)
  }

  /** A night as the calendar has it. */
  function ListNight(base: int, commission: int, selling: int, components: seq<TaxComponent>): NightEconomics {
    NightEconomics(base, commission, selling, TaxFromSelling(selling, Slots(Live(components))))
  }

  /** A night of a tax-inclusive stay, from the calendar's price and the stay's policy to the price, the tax and
      the lines that are stored. */
  method PriceNight(base: int, commission: int, listSelling: int, target: Option<int>, complimentary: bool,
                    taxExempt: bool, mode: DistributionMode, components: seq<TaxComponent>)
      returns (night: NightEconomics, lines: seq<TaxLine>, ghost full: seq<TaxLine>)
    ensures LineTotal(lines) == night.tax
    ensures LineTotal(full) == TaxFromSelling(AskedPrice(listSelling, target, complimentary), Slots(Live(components)))
    ensures forall i :: 0 <= i < |full| ==> |full| == |Live(components)| && LineFor(full[i], Live(components)[i])
    ensures lines == if taxExempt && !complimentary && Exemptible(full) != 0 then Kept(full) else full
    ensures var price := AskedPrice(listSelling, target, complimentary);
            night.selling - night.tax == price - TaxFromSelling(price, Slots(Live(components)))
    ensures AskedPrice(listSelling, target, complimentary) >= 0 ==>
              0 <= night.tax <= night.selling <= AskedPrice(listSelling, target, complimentary)
    ensures !taxExempt ==> night.selling == AskedPrice(listSelling, target, complimentary)
    ensures taxExempt ==> Exemptible(lines) == 0
    ensures var scaled := if complimentary then NightEconomics(0, 0, 0, 0)
                          else if Overridden(listSelling, target, complimentary) then
                            OverrideNight(ListNight(base, commission, listSelling, components), target.value,
                              TaxFromSelling(target.value, Slots(Live(components))), mode)
                          else ListNight(base, commission, listSelling, components);
            night.base == scaled.base && night.commission == scaled.commission
    ensures Overridden(listSelling, target, complimentary) && base >= 0 && target.value >= 0 ==>
              Solvent(night) && Reconciles(night)
  {
    var rates := Slots(Live(components));
    var list := ListNight(base, commission, listSelling, components);
    var price := AskedPrice(listSelling, target, complimentary);
    night := BeforeExemption(list, target, complimentary, mode, rates);
    BeforeExemptionPrice(list, target, complimentary, mode, rates);
    lines := NightLines(night.selling, night.tax, components);
    full := lines;
    ExemptKeeps(night, lines);
    if taxExempt && !complimentary {
      var exempt := ExemptNight(night.selling, night.tax, lines);
      night := night.(selling := exempt.selling, tax := exempt.tax);
      lines := exempt.lines;
    }
    WholeCentsReconcile(night.selling, night.tax, night.base, night.commission);
  }

  /** The booking decomposes into its parts without losing a cent, and none of them is negative. */
  predicate Reconciles(n: NightEconomics) {
    var e := DecomposeBooking(n.selling as real, n.tax as real, n.base as real, n.commission as real);
    && e.propertyBase == n.base && e.yohoCommission == n.commission && e.otaCommission >= 0
    && e.propertyBase + e.yohoCommission + e.otaCommission + e.taxes == n.selling
  }

  lemma BeforeExemptionPrice(list: NightEconomics, target: Option<int>, complimentary: bool, mode: DistributionMode,
                             rates: TaxRates)
    requires NonNegativeRates(rates) && list.tax == TaxFromSelling(list.selling, rates)
    ensures var n := BeforeExemption(list, target, complimentary, mode, rates);
            var price := AskedPrice(list.selling, target, complimentary);
            && n.selling == price && n.tax == TaxFromSelling(price, rates)
            && (price >= 0 ==> 0 <= n.tax <= price)
            && (Overridden(list.selling, target, complimentary) && list.base >= 0 && price >= 0 ==> Solvent(n))
  {
    var price := AskedPrice(list.selling, target, complimentary);
    if price >= 0 {
      TaxWithinPrice(price, rates);
      if Overridden(list.selling, target, complimentary) && list.base >= 0 {
        OverrideSolvent(list, price, TaxFromSelling(price, rates), mode);
      }
    }
  }

  lemma {:induction false} KeptHasNone(lines: seq<TaxLine>)
    ensures Exemptible(Kept(lines)) == 0
  {
    if lines == [] {
    } else {
      KeptHasNone(lines[1..]);
      var rest := Kept(lines[1..]);
      assert ([lines[0]] + rest)[1..] == rest && [] + rest == rest;
    }
  }

  /** Excusing a night moves its price and its tax by the same amount, leaves the lines of what is left, and
      nothing exemptible on them. */
  lemma ExemptKeeps(n: NightEconomics, lines: seq<TaxLine>)
    requires LineTotal(lines) == n.tax
    ensures var x := ExemptNight(n.selling, n.tax, lines);
            && x.selling - x.tax == n.selling - n.tax && LineTotal(x.lines) == x.tax && Exemptible(x.lines) == 0
            && ((forall i :: 0 <= i < |lines| ==> lines[i].amount >= 0) ==> 0 <= x.tax <= n.tax)
  {
    KeptTotal(lines);
    KeptHasNone(lines);
    if forall i :: 0 <= i < |lines| ==> lines[i].amount >= 0 { ExemptibleWithin(lines); }
  }
}
