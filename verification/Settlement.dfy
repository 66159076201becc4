/** A night's price from its base, and a booking's charge back into who gets what
    (packages/domain/src/commission.ts, pricing.ts, finance.ts). */
module Settlement {
  import opened Tax
  import opened Wrappers

  /** Rates here are percentages: 18.0 is 18%. */
  datatype CommissionSlab = CommissionSlab(slabStart: int, slabEnd: int, commission: int)
  datatype CommissionStructure = Percentage(percentage: real) | Slabs(slabs: seq<CommissionSlab>)

  /** The first slab that covers the base; None where the source raises CommissionSlabNotFoundError. */
  function SlabCommission(base: int, slabs: seq<CommissionSlab>): Option<int> {
    if slabs == [] then None
    else if slabs[0].slabStart <= base <= slabs[0].slabEnd then Some(slabs[0].commission)
    else SlabCommission(base, slabs[1..])
  }

  function ComputeCommission(base: int, structure: CommissionStructure): Option<int>
    requires structure.Percentage? ==> structure.percentage != 100.0
  {
    match structure
    case Percentage(p) => Some(RoundUp(base as real / (1.0 - p / 100.0) - base as real))
    case Slabs(slabs) => SlabCommission(base, slabs)
  }

  /** The price before tax that leaves base + commission once the OTA has its percentage. */
  function SellingPrice(base: int, commission: int, otaRate: real): int
    requires otaRate != 100.0
  {
    RoundUp((base + commission) as real / (1.0 - otaRate / 100.0))
  }

  datatype PricedDay = PricedDay(base: int, commission: int, selling: int)

  function PriceDay(base: int, structure: CommissionStructure, otaRate: real): Option<PricedDay>
    requires otaRate != 100.0 && (structure.Percentage? ==> structure.percentage != 100.0)
  {
    match ComputeCommission(base, structure)
    case None => None
    case Some(commission) => Some(PricedDay(base, commission, SellingPrice(base, commission, otaRate)))
  }

  datatype Economics = Economics(
    grossSelling: int, taxes: int, commissionable: int, propertyBase: int, yohoCommission: int, otaCommission: int)

  function DecomposeBooking(gross: real, taxes: real, base: real, yoho: real): Economics {
    var commissionable := Round(gross - taxes);
    Economics(Round(gross), Round(taxes), commissionable, Round(base), Round(yoho),
        Round(commissionable as real - base - yoho))
  }

  datatype Payout = Payout(grossSelling: int, propertyBase: int, yohoCommission: int, otaCommission: int,
      platformMargin: int)

  function ComputeSettlement(gross: real, base: real, yoho: real): Payout {
    var margin := Round(gross - base);
    Payout(Round(gross), Round(base), Round(yoho), Round(margin as real - yoho), margin)
  }

  lemma RoundWhole(n: int)
    ensures Round(n as real) == n
  {}

  /** Whole cents: the parts are the charge, and the OTA's is negative only when the property and the
      platform were promised more than the untaxed price. */
  lemma WholeCentsReconcile(gross: int, taxes: int, base: int, yoho: int)
    ensures DecomposeBooking(gross as real, taxes as real, base as real, yoho as real)
         == Economics(gross, taxes, gross - taxes, base, yoho, gross - taxes - base - yoho)
  {
    RoundWhole(gross);
    RoundWhole(taxes);
    RoundWhole(base);
    RoundWhole(yoho);
    assert gross as real - taxes as real == (gross - taxes) as real;
    RoundWhole(gross - taxes);
    assert (gross - taxes) as real - base as real - yoho as real == (gross - taxes - base - yoho) as real;
    RoundWhole(gross - taxes - base - yoho);
  }

  /** With no tax the two settlements are one. */
  lemma UntaxedSettlement(gross: real, base: int, yoho: real)
    ensures var e, p := DecomposeBooking(gross, 0.0, base as real, yoho), ComputeSettlement(gross, base as real, yoho);
            && p.otaCommission == e.otaCommission && p.platformMargin == e.commissionable - base
            && p.grossSelling == e.grossSelling && p.yohoCommission == e.yohoCommission
            && p.propertyBase == e.propertyBase
  {
    MarginShift(gross, base);
  }

  lemma MarginShift(gross: real, base: int)
    ensures Round(gross - base as real) == Round(gross) - base
  {}

  /** The first slab whose two ends, both included, have the base between them. */
  predicate FirstCovering(base: int, slabs: seq<CommissionSlab>, i: nat) {
    && i < |slabs| && slabs[i].slabStart <= base <= slabs[i].slabEnd
    && forall k :: 0 <= k < i ==> !(slabs[k].slabStart <= base <= slabs[k].slabEnd)
  }

  /** A commission is that of the first slab that covers the base, and there is none when no slab does. */
  lemma {:induction false} SlabFound(base: int, slabs: seq<CommissionSlab>)
    ensures SlabCommission(base, slabs).None? <==> forall i :: 0 <= i < |slabs| ==>
              !(slabs[i].slabStart <= base <= slabs[i].slabEnd)
    ensures forall i: nat :: FirstCovering(base, slabs, i) ==> SlabCommission(base, slabs) == Some(slabs[i].commission)
  {
    if slabs == [] {
    } else {
      SlabFound(base, slabs[1..]);
      assert forall i :: 1 <= i < |slabs| ==> slabs[i] == slabs[1..][i - 1];
      forall i: nat | FirstCovering(base, slabs, i) ensures SlabCommission(base, slabs) == Some(slabs[i].commission) {
        if i > 0 {
          assert !(slabs[0].slabStart <= base <= slabs[0].slabEnd);
          assert FirstCovering(base, slabs[1..], i - 1);
        }
      }
    }
  }

  lemma CeilingOverRate(take: real, rate: real, price: int)
    requires take >= 0.0 && 0.0 <= rate < 1.0 && price == RoundUp(take / (1.0 - rate))
    ensures price as real >= take
    ensures price as real * rate <= price as real - take < price as real * rate + 1.0
  {
    var x := take / (1.0 - rate);
    assert x * (1.0 - rate) == take;
    var over := price as real - x;
    assert 0.0 <= over < 1.0;
    assert price as real * (1.0 - rate) == take + over * (1.0 - rate);
    Shrinks(over, 1.0 - rate);
    assert price as real * rate == price as real - price as real * (1.0 - rate);
    Shrinks(x, rate);
    assert x >= take by { assert x - take == x * rate; }
  }

  lemma Shrinks(x: real, f: real)
    requires 0.0 <= f <= 1.0
    ensures x >= 0.0 ==> 0.0 <= x * f <= x
  {
    if x >= 0.0 { assert x - x * f == x * (1.0 - f); }
  }

  /** The commission is the percentage of the price it makes, and under a cent more. */
  lemma CommissionCovers(base: int, percentage: real)
    requires base >= 0 && 0.0 <= percentage < 100.0
    ensures var commission := ComputeCommission(base, Percentage(percentage)).value;
            && commission >= 0
            && (base + commission) as real * (percentage / 100.0)
                <= commission as real < (base + commission) as real * (percentage / 100.0) + 1.0
  {
    var commission := ComputeCommission(base, Percentage(percentage)).value;
    var grown := base as real / (1.0 - percentage / 100.0);
    assert RoundUp(grown) == base + commission;
    CeilingOverRate(base as real, percentage / 100.0, base + commission);
  }

  /** From the base to the guest's price and back, through two gross-ups and three roundings: the property
      and the platform get exactly what they were priced at, no part is negative, the parts are the
      charge, and the OTA's part is its percentage of the untaxed price and under a cent more. */
  lemma SettlesAsPriced(base: int, commission: int, otaRate: real, rates: TaxRates)
    requires base >= 0 && commission >= 0 && 0.0 <= otaRate < 100.0 && NonNegativeRates(rates)
    ensures var gross := SellingFromCommissionable(SellingPrice(base, commission, otaRate), rates);
            var e := DecomposeBooking(gross as real, TaxFromSelling(gross, rates) as real, base as real,
                commission as real);
            && e.propertyBase == base && e.yohoCommission == commission
            && e.commissionable == SellingPrice(base, commission, otaRate)
            && e.taxes >= 0 && e.otaCommission >= 0
            && e.propertyBase + e.yohoCommission + e.otaCommission + e.taxes == e.grossSelling == gross
            && e.commissionable as real * (otaRate / 100.0) <= e.otaCommission as real
            && (e.otaCommission as real) < e.commissionable as real * (otaRate / 100.0) + 1.0
  {
    var price := SellingPrice(base, commission, otaRate);
    var gross := SellingFromCommissionable(price, rates);
    CeilingOverRate((base + commission) as real, otaRate / 100.0, price);
    GrossUpUndone(price, rates);
    TaxNonNegative(price, rates);
    WholeCentsReconcile(gross, TaxFromSelling(gross, rates), base, commission);
  }

  /** The whole chain from a percentage structure, as a calendar night is priced. */
  lemma PricedDaySettles(base: int, percentage: real, otaRate: real, rates: TaxRates)
    requires base >= 0 && 0.0 <= percentage < 100.0 && 0.0 <= otaRate < 100.0 && NonNegativeRates(rates)
    ensures var day := PriceDay(base, Percentage(percentage), otaRate).value;
            var gross := SellingFromCommissionable(day.selling, rates);
            var e := DecomposeBooking(gross as real, TaxFromSelling(gross, rates) as real, day.base as real,
                day.commission as real);
            && e.propertyBase == base && e.yohoCommission == day.commission
            && 0 <= e.otaCommission && 0 <= e.yohoCommission && 0 <= e.taxes
            && base + e.yohoCommission + e.otaCommission + e.taxes == gross
  {
    CommissionCovers(base, percentage);
    SettlesAsPriced(base, ComputeCommission(base, Percentage(percentage)).value, otaRate, rates);
  }
}
