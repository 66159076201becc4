/** The tax inside a tax-inclusive price, one line per tax (packages/domain/src/tax-split.ts). */
module TaxSplit {
  import opened Money
  import opened Tax

  datatype TaxComponent = TaxComponent(key: string, name: string, priority: int, rate: real, exemptible: bool)
  datatype TaxLine = TaxLine(
    key: string, name: string, priority: int, rate: real, amount: int, exemptible: bool, gstSplit: bool)

  function LineTotal(lines: seq<TaxLine>): int {
    if lines == [] then 0 else lines[0].amount + LineTotal(lines[1..])
  }

  lemma {:induction false} LineTotalJoins(a: seq<TaxLine>, b: seq<TaxLine>)
    ensures LineTotal(a + b) == LineTotal(a) + LineTotal(b)
  {
    if a == [] {
      assert a + b == b;
    } else {
      LineTotalJoins(a[1..], b);
      assert (a + b)[1..] == a[1..] + b;
    }
  }

  predicate IsLive(c: TaxComponent) {
    c.rate > 0.0 && 1 <= c.priority <= 3
  }

  function Live(components: seq<TaxComponent>): (live: seq<TaxComponent>)
    ensures forall i :: 0 <= i < |live| ==> IsLive(live[i]) && live[i] in components
    ensures forall c :: c in components && IsLive(c) ==> c in live
  {
    if components == [] then [] else (if IsLive(components[0]) then [components[0]] else []) + Live(components[1..])
  }

  /** The rates of one slot, over the first n components. */
  function SlotRate(live: seq<TaxComponent>, p: int, n: nat): real
    requires n <= |live|
  {
    if n == 0 then 0.0 else SlotRate(live, p, n - 1) + if live[n - 1].priority == p then live[n - 1].rate else 0.0
  }

  lemma {:induction false} SlotRateGrows(live: seq<TaxComponent>, p: int, n: nat, m: nat)
    requires n <= m <= |live| && forall i :: 0 <= i < |live| ==> IsLive(live[i])
    ensures 0.0 <= SlotRate(live, p, n) <= SlotRate(live, p, m)
    ensures n < m && live[n].priority == p ==> SlotRate(live, p, m) > 0.0
    decreases m
  {
    if n < m {
      SlotRateGrows(live, p, n, m - 1);
    } else if n > 0 {
      SlotRateGrows(live, p, n - 1, n - 1);
    }
  }

  /** The rates the legacy engine sees: each slot's, summed. */
  function Slots(live: seq<TaxComponent>): (rates: TaxRates)
    requires forall i :: 0 <= i < |live| ==> IsLive(live[i])
    ensures NonNegativeRates(rates)
  {
    SlotRateGrows(live, 1, 0, |live|);
    SlotRateGrows(live, 2, 0, |live|);
    SlotRateGrows(live, 3, 0, |live|);
    TaxRates(SlotRate(live, 1, |live|), SlotRate(live, 2, |live|), SlotRate(live, 3, |live|))
  }

  /** What a slot is charged on: the net, with the slots before it. */
  function SlotBase(net: real, rates: TaxRates, p: int): real {
    if p == 1 then net
    else if p == 2 then net * (1.0 + rates.serviceCharge)
    else net * (1.0 + rates.serviceCharge) * (1.0 + rates.nbt)
  }

  function SlotAmount(base: real, slotRate: real): real {
    base * slotRate
  }

  function ShareOfSlot(amount: real, rate: real, slotRate: real): real
    requires slotRate > 0.0
  {
    amount * rate / slotRate
  }

  /** A component's exact share: its slot's amount, in proportion to its rate within the slot. */
  function ExactTax(selling: real, live: seq<TaxComponent>, i: nat): real
    requires i < |live| && forall j :: 0 <= j < |live| ==> IsLive(live[j])
  {
    SlotRateGrows(live, live[i].priority, i, |live|);
    var slotRate := SlotRate(live, live[i].priority, |live|);
    var rates := Slots(live);
    ShareOfSlot(SlotAmount(SlotBase(Net(selling, rates), rates, live[i].priority), slotRate), live[i].rate, slotRate)
  }

  function ExactTaxes(selling: real, live: seq<TaxComponent>): (r: seq<real>)
    requires forall j :: 0 <= j < |live| ==> IsLive(live[j])
    ensures |r| == |live| && forall i :: 0 <= i < |r| ==> r[i] == ExactTax(selling, live, i)
  {
    seq(|live|, i requires 0 <= i < |live| => ExactTax(selling, live, i))
  }

  function Amounts(lines: seq<TaxLine>): (r: seq<int>)
    ensures |r| == |lines| && forall i :: 0 <= i < |lines| ==> r[i] == lines[i].amount
  {
    seq(|lines|, i requires 0 <= i < |lines| => lines[i].amount)
  }

  /** A component's line, but for the amount. */
  predicate LineFor(l: TaxLine, c: TaxComponent) {
    l.key == c.key && l.name == c.name && l.priority == c.priority && l.rate == c.rate && l.exemptible == c.exemptible
    && !l.gstSplit
  }

  /** A tax is live with a rate, in one of the three slots; live ones are charged as often as they are stored. */
  lemma {:induction false} LiveCounts(components: seq<TaxComponent>, c: TaxComponent)
    ensures multiset(Live(components))[c] ==
              if c.rate > 0.0 && (c.priority == 1 || c.priority == 2 || c.priority == 3) then multiset(components)[c]
              else 0
  {
    if components == [] {
    } else {
      LiveCounts(components[1..], c);
      assert components == [components[0]] + components[1..];
    }
  }

  method SplitInclusiveTax(selling: real, components: seq<TaxComponent>, totalTax: real) returns (lines: seq<TaxLine>)
    ensures Live(components) == [] || ToCents(totalTax) == 0 ==> lines == []
    ensures Live(components) != [] && ToCents(totalTax) != 0 ==> LineTotal(lines) == ToCents(totalTax)
    ensures Live(components) != [] && ToCents(totalTax) > 0 ==>
      Proportion(Shares(ExactTaxes(selling, Live(components))))
      && IsSplit(ToCents(totalTax), Shares(ExactTaxes(selling, Live(components))), Amounts(lines))
    ensures ToCents(totalTax) >= 0 ==> forall i :: 0 <= i < |lines| ==> lines[i].amount >= 0
    ensures forall i :: 0 <= i < |lines| ==> |lines| == |Live(components)| && LineFor(lines[i], Live(components)[i])
  {
    var live := Live(components);
    if |live| == 0 || ToCents(totalTax) == 0 { return []; }
    var exact := ExactTaxes(selling, live);
    var amounts := SplitProportional(totalTax, exact);
    lines := seq(|live|, i requires 0 <= i < |live| =>
      TaxLine(live[i].key, live[i].name, live[i].priority, live[i].rate, amounts[i], live[i].exemptible, false));
    assert Amounts(lines) == amounts;
    LineTotalIsSum(lines, |lines|);
    NegatedSum(amounts, |amounts|);
    if ToCents(totalTax) > 0 { SplitNonNegative(ToCents(totalTax), Shares(exact), amounts); }
    assert lines[..|lines|] == lines;
  }

  lemma {:induction false} LineTotalIsSum(lines: seq<TaxLine>, n: nat)
    requires n <= |lines|
    ensures LineTotal(lines[..n]) == SumFirst(Amounts(lines), n)
  {
    if n == 0 {
    } else {
      LineTotalIsSum(lines, n - 1);
      LineTotalJoins(lines[..n - 1], [lines[n - 1]]);
      assert lines[..n] == lines[..n - 1] + [lines[n - 1]];
      assert [lines[n - 1]][1..] == [];
    }
  }

  // ---- the exact shares are the tax in the price ----

  lemma CancelFactor(a: real, d: real, r: real)
    requires d > 0.0
    ensures ShareOfSlot(SlotAmount(a, d), r, d) == SlotAmount(a, r)
  {
    assert a * d * r == (a * r) * d;
  }

  lemma ExactIsRateOnBase(selling: real, live: seq<TaxComponent>, i: nat)
    requires i < |live| && forall j :: 0 <= j < |live| ==> IsLive(live[j])
    ensures ExactTax(selling, live, i)
              == SlotAmount(SlotBase(Net(selling, Slots(live)), Slots(live), live[i].priority), live[i].rate)
  {
    SlotRateGrows(live, live[i].priority, i, |live|);
    CancelFactor(SlotBase(Net(selling, Slots(live)), Slots(live), live[i].priority),
        SlotRate(live, live[i].priority, |live|), live[i].rate);
  }

  /** Rates charged on the base of their slot: b1, b2 and b3. */
  function OnBase(b1: real, b2: real, b3: real, p: int): real {
    if p == 1 then b1 else if p == 2 then b2 else b3
  }

  lemma Distributes(a: real, x: real, y: real)
    ensures a * (x + y) == a * x + a * y
  {}

  function AllSlots(b1: real, b2: real, b3: real, r1: real, r2: real, r3: real): real {
    b1 * r1 + b2 * r2 + b3 * r3
  }

  lemma SlotStep(b1: real, b2: real, b3: real, r1: real, r2: real, r3: real, p: int, r: real)
    requires 1 <= p <= 3
    ensures AllSlots(b1, b2, b3, r1, r2, r3) + SlotAmount(OnBase(b1, b2, b3, p), r)
         == AllSlots(b1, b2, b3, r1 + if p == 1 then r else 0.0, r2 + if p == 2 then r else 0.0,
                     r3 + if p == 3 then r else 0.0)
  {
    Distributes(b1, r1, r);
    Distributes(b2, r2, r);
    Distributes(b3, r3, r);
  }

  lemma {:induction false} SumBySlot(w: seq<real>, live: seq<TaxComponent>, b1: real, b2: real, b3: real, n: nat)
    requires n <= |live| == |w| && forall i :: 0 <= i < |live| ==> IsLive(live[i])
    requires forall i :: 0 <= i < |live| ==> w[i] == SlotAmount(OnBase(b1, b2, b3, live[i].priority), live[i].rate)
    ensures TotalFirst(w, n) == AllSlots(b1, b2, b3, SlotRate(live, 1, n), SlotRate(live, 2, n), SlotRate(live, 3, n))
  {
    if n == 0 {
    } else {
      SumBySlot(w, live, b1, b2, b3, n - 1);
      assert IsLive(live[n - 1]);
      SlotStep(b1, b2, b3, SlotRate(live, 1, n - 1), SlotRate(live, 2, n - 1), SlotRate(live, 3, n - 1),
               live[n - 1].priority, live[n - 1].rate);
    }
  }

  function TaxBySlot(net: real, rates: TaxRates): real {
    AllSlots(SlotBase(net, rates, 1), SlotBase(net, rates, 2), SlotBase(net, rates, 3), rates.serviceCharge, rates.nbt,
        rates.vat)
  }

  lemma ExactBySlot(selling: real, live: seq<TaxComponent>)
    requires forall j :: 0 <= j < |live| ==> IsLive(live[j])
    ensures Total(ExactTaxes(selling, live)) == TaxBySlot(Net(selling, Slots(live)), Slots(live))
  {
    var rates := Slots(live);
    var net := Net(selling, rates);
    var b1, b2, b3 := SlotBase(net, rates, 1), SlotBase(net, rates, 2), SlotBase(net, rates, 3);
    forall i | 0 <= i < |live|
      ensures ExactTax(selling, live, i) == SlotAmount(OnBase(b1, b2, b3, live[i].priority), live[i].rate)
    {
      ExactIsRateOnBase(selling, live, i);
      assert IsLive(live[i]);
    }
    SumBySlot(ExactTaxes(selling, live), live, b1, b2, b3, |live|);
  }

  lemma SlotsCompound(net: real, rates: TaxRates)
    ensures net + TaxBySlot(net, rates) == GrossedUp(net, rates)
  {
    Distributes(net, 1.0, rates.serviceCharge);
    Distributes(net * (1.0 + rates.serviceCharge), 1.0, rates.nbt);
    Distributes(net * (1.0 + rates.serviceCharge) * (1.0 + rates.nbt), 1.0, rates.vat);
  }

  /** The shares of all the taxes are exactly what the legacy engine takes out of the price. */
  lemma ExactAddUpToTax(selling: real, live: seq<TaxComponent>)
    requires forall j :: 0 <= j < |live| ==> IsLive(live[j])
    ensures Total(ExactTaxes(selling, live)) == selling - Net(selling, Slots(live))
  {
    var rates := Slots(live);
    ExactBySlot(selling, live);
    SlotsCompound(Net(selling, rates), rates);
    NetGrossesBack(selling, rates);
  }

  lemma SlotBasePositive(net: real, rates: TaxRates, p: int)
    requires net > 0.0 && NonNegativeRates(rates)
    ensures SlotBase(net, rates, p) > 0.0
  {
    assert net * (1.0 + rates.serviceCharge) > 0.0;
    assert net * (1.0 + rates.serviceCharge) * (1.0 + rates.nbt) > 0.0;
  }

  lemma ExactPositive(selling: real, live: seq<TaxComponent>, i: nat)
    requires selling > 0.0 && i < |live| && forall j :: 0 <= j < |live| ==> IsLive(live[j])
    ensures ExactTax(selling, live, i) > 0.0
  {
    ExactIsRateOnBase(selling, live, i);
    NetIsQuotient(selling, Slots(live));
    SlotBasePositive(Net(selling, Slots(live)), Slots(live), live[i].priority);
  }

  lemma {:induction false} PartOfTotal(s: seq<real>, n: nat, i: nat)
    requires i < n <= |s| && forall j :: 0 <= j < n ==> s[j] >= 0.0
    ensures s[i] <= TotalFirst(s, n)
  {
    if i == n - 1 { TotalNonNegative(s, n - 1); } else { PartOfTotal(s, n - 1, i); }
  }

  /** q is e scaled by whole over total, which are half a cent apart at most. */
  lemma ScaledNear(whole: real, e: real, total: real, q: real)
    requires 0.0 < e <= total && AbsReal(whole - total) <= 0.5 && q * total == whole * e
    ensures AbsReal(q - e) <= 0.5
  {
    var k := e / total;
    assert k * total == e;
    assert 0.0 <= k <= 1.0;
    Shrink(AbsReal(whole - total), k);
    var moved := (whole - total) * k;
    assert moved * total == (whole - total) * e == (q - e) * total;
    Cancel(moved, q - e, total);
    assert AbsReal(moved) == AbsReal(whole - total) * k;
  }

  lemma Cancel(a: real, b: real, d: real)
    requires d > 0.0 && a * d == b * d
    ensures a == b
  {
    assert (a - b) * d == 0.0;
  }

  lemma Shrink(x: real, k: real)
    requires 0.0 <= x && 0.0 <= k <= 1.0
    ensures 0.0 <= x * k <= x
  {
    assert x - x * k == x * (1.0 - k);
  }

  /** Splitting the tax of a price gives every tax its own compounded amount to within a cent and a half. */
  lemma LinesNearExact(selling: int, live: seq<TaxComponent>, amounts: seq<int>, i: nat)
    requires selling > 0 && i < |live| && forall j :: 0 <= j < |live| ==> IsLive(live[j])
    requires TaxFromSelling(selling, Slots(live)) > 0 && Proportion(Shares(ExactTaxes(selling as real, live)))
    requires IsSplit(TaxFromSelling(selling, Slots(live)), Shares(ExactTaxes(selling as real, live)), amounts)
    ensures AbsReal(amounts[i] as real - ExactTax(selling as real, live, i)) < 1.5
    ensures Sum(amounts) == TaxFromSelling(selling, Slots(live))
  {
    var exact := ExactTaxes(selling as real, live);
    forall j: nat | j < |live| ensures exact[j] > 0.0 { ExactPositive(selling as real, live, j); }
    TotalPositive(exact, |exact|, i);
    PositiveShares(exact);
    ExactAddUpToTax(selling as real, live);
    SplitNear(TaxFromSelling(selling, Slots(live)), exact, amounts, i);
  }

  lemma SplitNear(whole: nat, exact: seq<real>, amounts: seq<int>, i: nat)
    requires i < |exact| && (forall j :: 0 <= j < |exact| ==> exact[j] > 0.0) && Total(exact) > 0.0
    requires AbsReal(whole as real - Total(exact)) <= 0.5 && IsSplit(whole, exact, amounts)
    ensures AbsReal(amounts[i] as real - exact[i]) < 1.5
  {
    FloorOrCeiling(whole, exact, amounts, i);
    PartOfTotal(exact, |exact|, i);
    var e := exact[i];
    assert 0.0 < e <= Total(exact);
    var q := Exact(whole, exact, i);
    assert q * Total(exact) == whole as real * e;
    ScaledNear(whole as real, e, Total(exact), q);
  }

  lemma PositiveShares(weights: seq<real>)
    requires (forall i :: 0 <= i < |weights| ==> weights[i] > 0.0) && Total(weights) > 0.0
    ensures Shares(weights) == weights
  {
    var positive := seq(|weights|, i requires 0 <= i < |weights| => if weights[i] > 0.0 then weights[i] else 0.0);
    assert positive == weights;
  }
}
