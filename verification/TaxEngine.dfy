/** Taxes charged on top of a pre-tax price (packages/domain/src/tax-engine.ts). */
module TaxEngine {
  import opened Wrappers
  import opened Money
  import opened Sorting
  import opened TaxSplit

  datatype ForwardTax = ForwardTax(
    key: string, name: string, priority: int, rate: real, exemptible: bool, compound: bool, gstSplit: bool,
    minAmount: Option<real>, maxAmount: Option<real>)

  function Bound(amount: Option<real>): Option<int> {
    if amount.None? then None else Some(ToCents(amount.value))
  }

  /** Both ends of a slab belong to it. */
  predicate SlabCovers(t: ForwardTax, net: real) {
    var v := ToCents(net);
    (t.minAmount.None? || ToCents(t.minAmount.value) <= v) && (t.maxAmount.None? || v <= ToCents(t.maxAmount.value))
  }

  predicate Applies(t: ForwardTax, net: real) {
    t.rate > 0.0 && SlabCovers(t, net)
  }

  function Applying(taxes: seq<ForwardTax>, net: real): seq<ForwardTax> {
    if taxes == [] then [] else (if Applies(taxes[0], net) then [taxes[0]] else []) + Applying(taxes[1..], net)
  }

  predicate NameBefore(a: string, b: string) {
    a == [] || (b != [] && (a[0] < b[0] || (a[0] == b[0] && NameBefore(a[1..], b[1..]))))
  }

  /** By priority, then by name. */
  predicate Sooner(a: ForwardTax, b: ForwardTax) {
    a.priority < b.priority || (a.priority == b.priority && NameBefore(a.name, b.name))
  }

  function Ordered(taxes: seq<ForwardTax>, net: real): seq<ForwardTax> {
    Sort(Applying(taxes, net), Sooner)
  }

  /** A compound tax is charged on everything before it. */
  function ExactAmount(net: real, t: ForwardTax, before: real): real {
    (if t.compound then net + before else net) * t.rate
  }

  function AmountOf(net: real, t: ForwardTax, before: int): int {
    ToCents(ExactAmount(net, t, before as real))
  }

  function LineOf(net: real, t: ForwardTax, before: int): TaxLine {
    TaxLine(t.key, t.name, t.priority, t.rate, AmountOf(net, t, before), t.exemptible, t.gstSplit)
  }

  /** The lines of the taxes left to charge, when `before` has been charged already. */
  function LinesFrom(net: real, taxes: seq<ForwardTax>, before: int): seq<TaxLine> {
    if taxes == [] then []
    else [LineOf(net, taxes[0], before)] + LinesFrom(net, taxes[1..], before + AmountOf(net, taxes[0], before))
  }

  function Lines(net: real, taxes: seq<ForwardTax>): seq<TaxLine> {
    if net > 0.0 then LinesFrom(net, Ordered(taxes, net), 0) else []
  }

  method ForwardTaxLines(net: real, taxes: seq<ForwardTax>) returns (lines: seq<TaxLine>)
    ensures lines == Lines(net, taxes)
  {
    if net <= 0.0 { return []; }
    var ordered := Ordered(taxes, net);
    lines := [];
    var before := 0;
    var i := 0;
    while i < |ordered|
      invariant 0 <= i <= |ordered|
      invariant lines + LinesFrom(net, ordered[i..], before) == LinesFrom(net, ordered, 0)
    {
      var t := ordered[i];
      var amount := ToCents(ExactAmount(net, t, before as real));
      assert ordered[i..][0] == t && ordered[i..][1..] == ordered[i + 1..];
      lines := lines + [TaxLine(t.key, t.name, t.priority, t.rate, amount, t.exemptible, t.gstSplit)];
      before := before + amount;
      i := i + 1;
    }
  }

  datatype ForwardPrice = ForwardPrice(net: int, tax: int, selling: int, lines: seq<TaxLine>)

  function Selling(net: real, taxes: seq<ForwardTax>): int {
    ToCents(net) + LineTotal(Lines(ToCents(net) as real, taxes))
  }

  method ForwardNight(net: real, taxes: seq<ForwardTax>) returns (night: ForwardPrice)
    ensures night.net == ToCents(net) && night.lines == Lines(ToCents(net) as real, taxes)
    ensures night.net + LineTotal(night.lines) == night.selling == Selling(net, taxes)
    ensures night.tax == LineTotal(night.lines)
  {
    var n := ToCents(net);
    var lines := ForwardTaxLines(n as real, taxes);
    night := ForwardPrice(n, LineTotal(lines), n + LineTotal(lines), lines);
  }

  // ---- charging in the order the taxes apply ----

  function Charged(net: real, taxes: seq<ForwardTax>, before: int): int {
    if taxes == [] then before else Charged(net, taxes[1..], before + AmountOf(net, taxes[0], before))
  }

  lemma {:induction false} LinesAddUp(net: real, taxes: seq<ForwardTax>, before: int)
    ensures before + LineTotal(LinesFrom(net, taxes, before)) == Charged(net, taxes, before)
  {
    if taxes == [] {
    } else {
      LinesAddUp(net, taxes[1..], before + AmountOf(net, taxes[0], before));
    }
  }

  lemma {:induction false} ChargedJoins(net: real, a: seq<ForwardTax>, b: seq<ForwardTax>, before: int)
    ensures Charged(net, a + b, before) == Charged(net, b, Charged(net, a, before))
  {
    if a == [] {
      assert a + b == b;
    } else {
      assert (a + b)[1..] == a[1..] + b;
      ChargedJoins(net, a[1..], b, before + AmountOf(net, a[0], before));
    }
  }

  // ---- compound rounding drifts slowly ----

  /** The taxes without any rounding. */
  function ExactCharged(net: real, taxes: seq<ForwardTax>, before: real): real {
    if taxes == [] then before
    else ExactCharged(net, taxes[1..], before + ExactAmount(net, taxes[0], before))
  }

  /** Half a cent, plus what it grows to: half the sum of (1 + r)^k for k below n. */
  function Drift(r: real, n: nat): real {
    if n == 0 then 0.0 else Drift(r, n - 1) + 0.5 * Power(1.0 + r, n - 1)
  }

  function Power(x: real, n: nat): real {
    if n == 0 then 1.0 else x * Power(x, n - 1)
  }

  /** A total off by d, and then n taxes: each grows what is off and rounds once. */
  function OffBy(d: real, r: real, n: nat): real
    decreases n
  {
    if n == 0 then d else OffBy(d + d * r + 0.5, r, n - 1)
  }

  lemma {:induction false} OffByDrift(d: real, r: real, n: nat)
    ensures OffBy(d, r, n) == d * Power(1.0 + r, n) + Drift(r, n)
    decreases n
  {
    if n == 0 {
    } else {
      OffByDrift(d + d * r + 0.5, r, n - 1);
      GrowthStep(d, r, Power(1.0 + r, n - 1));
    }
  }

  lemma GrowthStep(d: real, r: real, p: real)
    ensures (d + d * r + 0.5) * p == d * ((1.0 + r) * p) + 0.5 * p
  {}

  lemma ProductBound(x: real, y: real, d: real, r: real)
    requires AbsReal(x) <= d && 0.0 <= y <= r
    ensures AbsReal(x * y) <= d * r
  {
    assert AbsReal(x) * y <= d * y by { assert (d - AbsReal(x)) * y >= 0.0; }
    assert d * y <= d * r by { assert d * (r - y) >= 0.0; }
    assert x >= 0.0 ==> x * y == AbsReal(x) * y;
    assert x < 0.0 ==> -(x * y) == AbsReal(x) * y;
    assert AbsReal(x) * y >= 0.0;
  }

  lemma AmountMoves(net: real, t: ForwardTax, x: real, y: real, d: real, r: real)
    requires AbsReal(x - y) <= d && 0.0 <= t.rate <= r
    ensures AbsReal(ExactAmount(net, t, x) - ExactAmount(net, t, y)) <= d * r
  {
    ProductBound(x - y, t.rate, d, r);
    assert (net + x) * t.rate - (net + y) * t.rate == (x - y) * t.rate;
  }

  lemma {:induction false} DriftBound(net: real, taxes: seq<ForwardTax>, before: int, exact: real, d: real, r: real)
    requires AbsReal(before as real - exact) <= d
    requires forall i :: 0 <= i < |taxes| ==> 0.0 <= taxes[i].rate <= r
    ensures AbsReal(Charged(net, taxes, before) as real - ExactCharged(net, taxes, exact)) <= OffBy(d, r, |taxes|)
  {
    if taxes == [] {
    } else {
      var t := taxes[0];
      AmountMoves(net, t, before as real, exact, d, r);
      DriftBound(net, taxes[1..], before + AmountOf(net, t, before), exact + ExactAmount(net, t, exact),
                 d + d * r + 0.5, r);
    }
  }

  lemma DriftFromNothing(net: real, taxes: seq<ForwardTax>, r: real)
    requires forall i :: 0 <= i < |taxes| ==> 0.0 <= taxes[i].rate <= r
    ensures AbsReal(Charged(net, taxes, 0) as real - ExactCharged(net, taxes, 0.0)) <= Drift(r, |taxes|)
  {
    DriftBound(net, taxes, 0, 0.0, 0.0, r);
    OffByDrift(0.0, r, |taxes|);
  }

  /** What the compound taxes make of one unit charged before them. */
  function Growth(taxes: seq<ForwardTax>): real {
    if taxes == [] then 1.0
    else if taxes[0].compound then (1.0 + taxes[0].rate) * Growth(taxes[1..])
    else Growth(taxes[1..])
  }

  /** The exact tax per unit of the net: each rate, grown by the compound taxes after it. */
  function Burden(taxes: seq<ForwardTax>): real {
    if taxes == [] then 0.0 else taxes[0].rate * Growth(taxes[1..]) + Burden(taxes[1..])
  }

  lemma GrownCompound(net: real, before: real, r: real, g: real, b: real)
    ensures (before + (net + before) * r) * g + net * b == before * ((1.0 + r) * g) + net * (r * g + b)
  {}

  lemma GrownSimple(net: real, before: real, r: real, g: real, b: real)
    ensures (before + net * r) * g + net * b == before * g + net * (r * g + b)
  {}

  function Grown(net: real, taxes: seq<ForwardTax>, before: real): real {
    before * Growth(taxes) + net * Burden(taxes)
  }

  lemma CompoundGrows(net: real, taxes: seq<ForwardTax>, before: real)
    requires taxes != [] && taxes[0].compound
    ensures Grown(net, taxes[1..], before + ExactAmount(net, taxes[0], before)) == Grown(net, taxes, before)
  {
    GrownCompound(net, before, taxes[0].rate, Growth(taxes[1..]), Burden(taxes[1..]));
  }

  lemma SimpleGrows(net: real, taxes: seq<ForwardTax>, before: real)
    requires taxes != [] && !taxes[0].compound
    ensures Grown(net, taxes[1..], before + ExactAmount(net, taxes[0], before)) == Grown(net, taxes, before)
  {
    GrownSimple(net, before, taxes[0].rate, Growth(taxes[1..]), Burden(taxes[1..]));
  }

  lemma {:induction false} ExactIsBurden(net: real, taxes: seq<ForwardTax>, before: real)
    ensures ExactCharged(net, taxes, before) == Grown(net, taxes, before)
  {
    if taxes == [] {
    } else {
      ExactIsBurden(net, taxes[1..], before + ExactAmount(net, taxes[0], before));
      if taxes[0].compound {
        CompoundGrows(net, taxes, before);
      } else {
        SimpleGrows(net, taxes, before);
      }
    }
  }

  lemma NothingGrows(net: real, taxes: seq<ForwardTax>)
    ensures Grown(net, taxes, 0.0) == net * Burden(taxes)
  {}

  /** The distance of a rounded total from the net times a burden. */
  function Gap(total: int, net: real, burden: real): real {
    AbsReal(total as real - net * burden)
  }

  lemma GapFromExact(total: int, net: real, taxes: seq<ForwardTax>)
    ensures Gap(total, net, Burden(taxes)) == AbsReal(total as real - ExactCharged(net, taxes, 0.0))
  {
    ExactIsBurden(net, taxes, 0.0);
    NothingGrows(net, taxes);
  }

  lemma BurdenRounding(net: real, taxes: seq<ForwardTax>, r: real)
    requires forall i :: 0 <= i < |taxes| ==> 0.0 <= taxes[i].rate <= r
    ensures Gap(Charged(net, taxes, 0), net, Burden(taxes)) <= Drift(r, |taxes|)
  {
    DriftFromNothing(net, taxes, r);
    GapFromExact(Charged(net, taxes, 0), net, taxes);
  }

  function RateSum(taxes: seq<ForwardTax>): real {
    if taxes == [] then 0.0 else taxes[0].rate + RateSum(taxes[1..])
  }

  function RateProduct(taxes: seq<ForwardTax>): real {
    if taxes == [] then 1.0 else (1.0 + taxes[0].rate) * RateProduct(taxes[1..])
  }

  /** Simple taxes come to the sum of their rates. */
  lemma {:induction false} SimpleBurden(taxes: seq<ForwardTax>)
    requires forall t :: t in taxes ==> !t.compound
    ensures Growth(taxes) == 1.0 && Burden(taxes) == RateSum(taxes)
  {
    if taxes == [] {
    } else {
      SimpleBurden(taxes[1..]);
    }
  }

  lemma Shared(p: real, x: real, y: real)
    ensures (x + y) * p == x * p + y * p
  {}

  /** Compound taxes come to the product of one plus each rate, less one. */
  lemma {:induction false} CompoundBurden(taxes: seq<ForwardTax>)
    requires forall t :: t in taxes ==> t.compound
    ensures Growth(taxes) == RateProduct(taxes) && Burden(taxes) == RateProduct(taxes) - 1.0
  {
    if taxes == [] {
    } else {
      CompoundBurden(taxes[1..]);
      Shared(RateProduct(taxes[1..]), 1.0, taxes[0].rate);
    }
  }

  /** n taxes with rates of at most r: the rounded tax is within half a cent times the sum of (1 + r)^k,
      k < n, of the net times each rate grown by the compound taxes after it. */
  lemma CompoundRounding(net: real, taxes: seq<ForwardTax>, r: real)
    requires net > 0.0 && forall i :: 0 <= i < |taxes| ==> taxes[i].rate <= r
    ensures var ordered := Ordered(taxes, net);
            Gap(LineTotal(Lines(net, taxes)), net, Burden(ordered)) <= Drift(r, |ordered|)
  {
    var ordered := Ordered(taxes, net);
    forall i | 0 <= i < |ordered| ensures 0.0 <= ordered[i].rate <= r { OrderedApplies(taxes, net, i); }
    LinesAddUp(net, ordered, 0);
    BurdenRounding(net, ordered, r);
  }

  // ---- which taxes, in which order, on what ----

  /** The taxes charged are those with a rate whose slab has the net, each as often as it is stored. */
  lemma {:induction false} ChargedTaxes(taxes: seq<ForwardTax>, net: real, t: ForwardTax)
    ensures multiset(Ordered(taxes, net))[t] ==
              if t.rate > 0.0 && (t.minAmount.Some? ==> ToCents(t.minAmount.value) <= ToCents(net))
                 && (t.maxAmount.Some? ==> ToCents(net) <= ToCents(t.maxAmount.value))
              then multiset(taxes)[t] else 0
  {
    SortKeepsElements(Applying(taxes, net), Sooner);
    ApplyingCounts(taxes, net, t);
  }

  /** The first name ends, or has a smaller character, where the two part. */
  ghost predicate Precedes(a: string, b: string) {
    exists k :: 0 <= k <= |a| && k <= |b| && a[..k] == b[..k] && (k == |a| || (k < |b| && a[k] < b[k]))
  }

  lemma {:induction false} SameStart(a: string, b: string)
    requires a != [] && b != [] && a[0] == b[0]
    ensures Precedes(a, b) <==> Precedes(a[1..], b[1..])
  {
    if Precedes(a[1..], b[1..]) {
      var k :| 0 <= k <= |a| - 1 && k <= |b| - 1 && a[1..][..k] == b[1..][..k]
        && (k == |a| - 1 || (k < |b| - 1 && a[1..][k] < b[1..][k]));
      assert a[..k + 1] == [a[0]] + a[1..][..k] && b[..k + 1] == [b[0]] + b[1..][..k];
    }
    if Precedes(a, b) {
      var k :| 0 <= k <= |a| && k <= |b| && a[..k] == b[..k] && (k == |a| || (k < |b| && a[k] < b[k]));
      assert k > 0;
      assert a[1..][..k - 1] == a[..k][1..] && b[1..][..k - 1] == b[..k][1..];
    }
  }

  lemma {:induction false} OtherStart(a: string, b: string)
    requires a != [] && b != [] && a[0] != b[0]
    ensures Precedes(a, b) <==> a[0] < b[0]
  {
    if a[0] < b[0] { assert a[..0] == b[..0]; }
    if Precedes(a, b) {
      var k :| 0 <= k <= |a| && k <= |b| && a[..k] == b[..k] && (k == |a| || (k < |b| && a[k] < b[k]));
      assert k == 0 || a[..k][0] == b[..k][0];
    }
  }

  lemma {:induction false} NamesByCharacter(a: string, b: string)
    ensures NameBefore(a, b) <==> Precedes(a, b)
  {
    if a == [] {
      assert a[..0] == b[..0];
    } else if b == [] {
    } else if a[0] == b[0] {
      SameStart(a, b);
      NamesByCharacter(a[1..], b[1..]);
    } else {
      OtherStart(a, b);
    }
  }

  /** They are charged by priority, and by name where it is the same. */
  lemma {:induction false} ChargedInOrder(taxes: seq<ForwardTax>, net: real, i: nat, j: nat)
    requires i < j < |Ordered(taxes, net)|
    ensures var a, b := Ordered(taxes, net)[i], Ordered(taxes, net)[j];
            a.priority < b.priority || (a.priority == b.priority && Precedes(a.name, b.name))
  {
    SoonerIsOrder();
    SortSorted(Applying(taxes, net), Sooner);
    NamesByCharacter(Ordered(taxes, net)[i].name, Ordered(taxes, net)[j].name);
  }

  /** A simple tax is charged on the net whatever stands before it; a compound one on the net and the lines before
      it. Either is rounded on its own, and the line is the tax's in everything else. */
  predicate LineSays(l: TaxLine, t: ForwardTax, net: real, before: int) {
    && l.amount == (if t.compound then ToCents((net + before as real) * t.rate) else ToCents(net * t.rate))
    && l == TaxLine(t.key, t.name, t.priority, t.rate, l.amount, t.exemptible, t.gstSplit)
  }

  lemma {:induction false} LineCharges(net: real, taxes: seq<ForwardTax>, k: nat)
    requires net > 0.0 && k < |Ordered(taxes, net)|
    ensures |Lines(net, taxes)| == |Ordered(taxes, net)|
    ensures LineSays(Lines(net, taxes)[k], Ordered(taxes, net)[k], net, LineTotal(Lines(net, taxes)[..k]))
  {
    LineFromCharges(net, Ordered(taxes, net), 0, k);
  }

  lemma LineSaysSo(net: real, t: ForwardTax, before: int)
    ensures LineSays(LineOf(net, t, before), t, net, before)
  {
    if t.compound {
      assert ExactAmount(net, t, before as real) == (net + before as real) * t.rate;
    } else {
      assert ExactAmount(net, t, before as real) == net * t.rate;
    }
  }

  lemma {:induction false} LineFromCharges(net: real, taxes: seq<ForwardTax>, before: int, k: nat)
    requires k < |taxes|
    ensures |LinesFrom(net, taxes, before)| == |taxes|
    ensures var lines := LinesFrom(net, taxes, before);
            LineSays(lines[k], taxes[k], net, before + LineTotal(lines[..k]))
  {
    var first := LineOf(net, taxes[0], before);
    var rest := LinesFrom(net, taxes[1..], before + first.amount);
    LinesFromCount(net, taxes[1..], before + first.amount);
    if k == 0 {
      LineSaysSo(net, taxes[0], before);
    } else {
      LineFromCharges(net, taxes[1..], before + first.amount, k - 1);
      assert ([first] + rest)[..k] == [first] + rest[..k - 1];
      assert ([first] + rest[..k - 1])[1..] == rest[..k - 1];
      assert before + first.amount + LineTotal(rest[..k - 1]) == before + LineTotal(([first] + rest)[..k]);
    }
  }

  lemma {:induction false} LinesFromCount(net: real, taxes: seq<ForwardTax>, before: int)
    ensures |LinesFrom(net, taxes, before)| == |taxes|
  {
    if taxes == [] {
    } else {
      LinesFromCount(net, taxes[1..], before + AmountOf(net, taxes[0], before));
    }
  }

  lemma OrderedApplies(taxes: seq<ForwardTax>, net: real, i: nat)
    requires i < |Ordered(taxes, net)|
    ensures Ordered(taxes, net)[i] in taxes && Applies(Ordered(taxes, net)[i], net)
  {
    var t := Ordered(taxes, net)[i];
    SortKeepsElements(Applying(taxes, net), Sooner);
    assert t in multiset(Ordered(taxes, net));
    ApplyingCounts(taxes, net, t);
    assert t in multiset(taxes);
  }

  lemma {:induction false} ApplyingCounts(taxes: seq<ForwardTax>, net: real, t: ForwardTax)
    ensures multiset(Applying(taxes, net))[t] == if Applies(t, net) then multiset(taxes)[t] else 0
  {
    if taxes == [] {
    } else {
      ApplyingCounts(taxes[1..], net, t);
      assert taxes == [taxes[0]] + taxes[1..];
    }
  }

  // ---- a higher net never gives a lower selling price ----

  /** One tax in slabs: from lo upwards every cent value is in exactly one slab, and the rate never falls. */
  predicate Ladder(slabs: seq<ForwardTax>, lo: Option<int>) {
    && slabs != [] && Bound(slabs[0].minAmount) == lo && slabs[0].rate >= 0.0
    && if |slabs| == 1 then slabs[0].maxAmount.None?
       else
         && slabs[0].maxAmount.Some? && (lo.None? || lo.value <= ToCents(slabs[0].maxAmount.value))
         && SameTax(slabs[0], slabs[1]) && slabs[0].rate <= slabs[1].rate
         && Ladder(slabs[1..], Some(ToCents(slabs[0].maxAmount.value) + 1))
  }

  predicate SameTax(a: ForwardTax, b: ForwardTax) {
    a.priority == b.priority && a.name == b.name && a.compound == b.compound
  }

  /** A ladder that covers every positive amount. */
  predicate FullLadder(slabs: seq<ForwardTax>) {
    slabs != [] && (slabs[0].minAmount.None? || ToCents(slabs[0].minAmount.value) <= 1)
    && Ladder(slabs, Bound(slabs[0].minAmount))
  }

  function SlabAt(slabs: seq<ForwardTax>, v: int): (t: ForwardTax)
    requires slabs != []
    ensures t in slabs
  {
    if |slabs| == 1 || slabs[0].maxAmount.None? || v <= ToCents(slabs[0].maxAmount.value) then slabs[0]
    else SlabAt(slabs[1..], v)
  }

  lemma {:induction false} LadderPicks(slabs: seq<ForwardTax>, lo: Option<int>, net: real)
    requires Ladder(slabs, lo)
    ensures var t := SlabAt(slabs, ToCents(net));
            Applying(slabs, net) == if (lo.Some? && ToCents(net) < lo.value) || t.rate == 0.0 then [] else [t]
    ensures SameTax(slabs[0], SlabAt(slabs, ToCents(net))) && SlabAt(slabs, ToCents(net)).rate >= slabs[0].rate
  {
    if |slabs| == 1 {
      assert slabs[1..] == [];
    } else {
      LadderPicks(slabs[1..], Some(ToCents(slabs[0].maxAmount.value) + 1), net);
    }
  }

  lemma {:induction false} LadderClimbs(slabs: seq<ForwardTax>, lo: Option<int>, v: int, w: int)
    requires Ladder(slabs, lo) && v <= w
    ensures SlabAt(slabs, v).rate <= SlabAt(slabs, w).rate && SameTax(slabs[0], SlabAt(slabs, v))
  {
    if |slabs| == 1 {
    } else {
      LadderClimbs(slabs[1..], Some(ToCents(slabs[0].maxAmount.value) + 1), v, w);
      if v <= ToCents(slabs[0].maxAmount.value) < w {
        LadderPicks(slabs[1..], Some(ToCents(slabs[0].maxAmount.value) + 1), w as real);
        ToCentsWhole(w);
      }
    }
  }

  lemma ToCentsWhole(n: int)
    ensures ToCents(n as real) == n
  {}

  function Flat(ladders: seq<seq<ForwardTax>>): seq<ForwardTax> {
    if ladders == [] then [] else ladders[0] + Flat(ladders[1..])
  }

  lemma {:induction false} ApplyingJoins(a: seq<ForwardTax>, b: seq<ForwardTax>, net: real)
    ensures Applying(a + b, net) == Applying(a, net) + Applying(b, net)
  {
    if a == [] {
      assert a + b == b;
    } else {
      var here := if Applies(a[0], net) then [a[0]] else [];
      assert (a + b)[0] == a[0] && (a + b)[1..] == a[1..] + b;
      ApplyingJoins(a[1..], b, net);
      assert Applying(a + b, net) == here + (Applying(a[1..], net) + Applying(b, net));
      assert Applying(a, net) == here + Applying(a[1..], net);
    }
  }

  lemma ExactAmountMonotone(n: real, m: real, s: ForwardTax, t: ForwardTax, x: real, y: real)
    requires 0.0 <= n <= m && 0.0 <= x <= y && s.compound == t.compound && 0.0 <= s.rate <= t.rate
    ensures 0.0 <= ExactAmount(n, s, x) <= ExactAmount(m, t, y)
  {
    var a, b := (if s.compound then n + x else n), if t.compound then m + y else m;
    assert a * s.rate <= b * s.rate by { assert (b - a) * s.rate >= 0.0; }
    assert b * s.rate <= b * t.rate by { assert b * (t.rate - s.rate) >= 0.0; }
    assert a * s.rate >= 0.0;
  }

  lemma LadderCharges(slabs: seq<ForwardTax>, n: int, m: int, x: int, y: int)
    requires FullLadder(slabs) && 0 < n <= m && 0 <= x <= y
    ensures 0 <= Charged(n as real, Applying(slabs, n as real), x) <= Charged(m as real, Applying(slabs, m as real), y)
  {
    var lo := Bound(slabs[0].minAmount);
    ToCentsWhole(n);
    ToCentsWhole(m);
    LadderPicks(slabs, lo, n as real);
    LadderPicks(slabs, lo, m as real);
    LadderClimbs(slabs, lo, n, m);
    var s, t := SlabAt(slabs, n), SlabAt(slabs, m);
    ExactAmountMonotone(n as real, m as real, s, t, x as real, y as real);
    ToCentsMonotone(ExactAmount(n as real, s, x as real), ExactAmount(m as real, t, y as real));
    ToCentsMonotone(0.0, ExactAmount(n as real, s, x as real));
    ChargeAtMostOne(n as real, Applying(slabs, n as real), x);
    ChargeAtMostOne(m as real, Applying(slabs, m as real), y);
  }

  lemma ChargeAtMostOne(net: real, taxes: seq<ForwardTax>, x: int)
    requires |taxes| <= 1
    ensures Charged(net, taxes, x) == if taxes == [] then x else x + AmountOf(net, taxes[0], x)
  {
    if taxes != [] { assert taxes[1..] == []; }
  }

  lemma {:induction false} LaddersCharge(ladders: seq<seq<ForwardTax>>, n: int, m: int, x: int, y: int)
    requires (forall i :: 0 <= i < |ladders| ==> FullLadder(ladders[i])) && 0 < n <= m && 0 <= x <= y
    ensures 0 <= Charged(n as real, Applying(Flat(ladders), n as real), x)
              <= Charged(m as real, Applying(Flat(ladders), m as real), y)
    decreases |ladders|
  {
    if ladders == [] {
    } else {
      var first, rest := ladders[0], Flat(ladders[1..]);
      LadderCharges(first, n, m, x, y);
      ApplyingJoins(first, rest, n as real);
      ApplyingJoins(first, rest, m as real);
      ChargedJoins(n as real, Applying(first, n as real), Applying(rest, n as real), x);
      ChargedJoins(m as real, Applying(first, m as real), Applying(rest, m as real), y);
      LaddersCharge(ladders[1..], n, m, Charged(n as real, Applying(first, n as real), x),
          Charged(m as real, Applying(first, m as real), y));
    }
  }

  // ---- whatever order the rates are stored in ----

  lemma {:induction false} NamesTotal(a: string, b: string)
    ensures NameBefore(a, b) || NameBefore(b, a)
  {
    if a == [] || b == [] || a[0] != b[0] {
    } else {
      NamesTotal(a[1..], b[1..]);
    }
  }

  lemma {:induction false} NamesTransitive(a: string, b: string, c: string)
    requires NameBefore(a, b) && NameBefore(b, c)
    ensures NameBefore(a, c)
  {
    if a == [] || a[0] != b[0] || b[0] != c[0] {
    } else {
      NamesTransitive(a[1..], b[1..], c[1..]);
    }
  }

  lemma SoonerIsOrder()
    ensures TotalOrder(Sooner)
  {
    forall x, y ensures Sooner(x, y) || Sooner(y, x) { NamesTotal(x.name, y.name); }
    forall x, y, z | Sooner(x, y) && Sooner(y, z) ensures Sooner(x, z) {
      if x.priority == y.priority == z.priority { NamesTransitive(x.name, y.name, z.name); }
    }
  }

  predicate StrictlySorted(taxes: seq<ForwardTax>) {
    forall i, j :: 0 <= i < j < |taxes| ==> !Sooner(taxes[j], taxes[i])
  }

  /** The slabs of one tax share its place in the order, and no two taxes share a place. */
  predicate InOrder(ladders: seq<seq<ForwardTax>>) {
    && (forall i :: 0 <= i < |ladders| ==> FullLadder(ladders[i]))
    && forall i, j :: 0 <= i < j < |ladders| ==>
        ladders[i] != [] && ladders[j] != [] && !Sooner(ladders[j][0], ladders[i][0])
  }

  predicate Places(ladder: seq<ForwardTax>, t: ForwardTax) {
    ladder != [] && SameTax(ladder[0], t)
  }

  lemma {:induction false} AppliedPlace(ladders: seq<seq<ForwardTax>>, net: real, k: nat) returns (i: nat)
    requires (forall j :: 0 <= j < |ladders| ==> FullLadder(ladders[j])) && ToCents(net) >= 1
    requires k < |Applying(Flat(ladders), net)|
    ensures i < |ladders| && Places(ladders[i], Applying(Flat(ladders), net)[k])
    decreases |ladders|
  {
    var first := ladders[0];
    LadderPicks(first, Bound(first[0].minAmount), net);
    ApplyingJoins(first, Flat(ladders[1..]), net);
    var n := |Applying(first, net)|;
    if k < n {
      i := 0;
    } else {
      var j := AppliedPlace(ladders[1..], net, k - n);
      i := j + 1;
    }
  }

  lemma {:induction false} AppliedStrictly(ladders: seq<seq<ForwardTax>>, net: real)
    requires InOrder(ladders) && ToCents(net) >= 1
    ensures StrictlySorted(Applying(Flat(ladders), net))
    decreases |ladders|
  {
    if ladders == [] {
    } else {
      var first, rest := ladders[0], ladders[1..];
      AppliedStrictly(rest, net);
      LadderPicks(first, Bound(first[0].minAmount), net);
      ApplyingJoins(first, Flat(rest), net);
      var here, later := Applying(first, net), Applying(Flat(rest), net);
      forall k: nat | here != [] && k < |later| ensures !Sooner(later[k], here[0]) {
        AppliedLater(ladders, net, k);
      }
      StrictlyJoins(here, later);
    }
  }

  /** What applies of a later tax does not come sooner than what applies of the first. */
  lemma {:induction false} AppliedLater(ladders: seq<seq<ForwardTax>>, net: real, k: nat)
    requires InOrder(ladders) && ladders != [] && ToCents(net) >= 1
    requires Applying(ladders[0], net) != [] && k < |Applying(Flat(ladders[1..]), net)|
    ensures !Sooner(Applying(Flat(ladders[1..]), net)[k], Applying(ladders[0], net)[0])
  {
    var first, rest := ladders[0], ladders[1..];
    LadderPicks(first, Bound(first[0].minAmount), net);
    var i := AppliedPlace(rest, net, k);
    assert rest[i] == ladders[i + 1] && !Sooner(ladders[i + 1][0], ladders[0][0]);
  }

  lemma StrictlyJoins(here: seq<ForwardTax>, later: seq<ForwardTax>)
    requires |here| <= 1 && StrictlySorted(later)
    requires forall k :: here != [] && 0 <= k < |later| ==> !Sooner(later[k], here[0])
    ensures StrictlySorted(here + later)
  {}

  lemma StrictIsSorted(taxes: seq<ForwardTax>)
    requires StrictlySorted(taxes) && TotalOrder(Sooner)
    ensures Sorted(taxes, Sooner)
    ensures forall x, y :: x in taxes && y in taxes && Sooner(x, y) && Sooner(y, x) ==> x == y
  {
    forall i, j | 0 <= i < j < |taxes| ensures Sooner(taxes[i], taxes[j]) { assert !Sooner(taxes[j], taxes[i]); }
  }

  lemma OrderedIsFlat(taxes: seq<ForwardTax>, ladders: seq<seq<ForwardTax>>, net: real)
    requires multiset(taxes) == multiset(Flat(ladders)) && InOrder(ladders) && ToCents(net) >= 1
    ensures Ordered(taxes, net) == Applying(Flat(ladders), net)
  {
    var flat := Applying(Flat(ladders), net);
    SoonerIsOrder();
    AppliedStrictly(ladders, net);
    StrictIsSorted(flat);
    SortSorted(Applying(taxes, net), Sooner);
    SortKeepsElements(Applying(taxes, net), Sooner);
    forall t ensures multiset(Applying(taxes, net))[t] == multiset(flat)[t] {
      ApplyingCounts(taxes, net, t);
      ApplyingCounts(Flat(ladders), net, t);
    }
    SortedUnique(flat, Ordered(taxes, net), Sooner);
  }

  /** For taxes whose slabs partition the cents with non-falling rates, stored in any order, charging more
      before tax never makes the night cheaper. */
  lemma SellingMonotone(taxes: seq<ForwardTax>, ladders: seq<seq<ForwardTax>>, a: real, b: real)
    requires multiset(taxes) == multiset(Flat(ladders)) && InOrder(ladders) && a <= b
    ensures Selling(a, taxes) <= Selling(b, taxes)
  {
    var n, m := ToCents(a), ToCents(b);
    ToCentsMonotone(a, b);
    ToCentsWhole(n);
    ToCentsWhole(m);
    if n > 0 {
      OrderedIsFlat(taxes, ladders, n as real);
      LinesAddUp(n as real, Ordered(taxes, n as real), 0);
    }
    if m > 0 {
      OrderedIsFlat(taxes, ladders, m as real);
      LinesAddUp(m as real, Ordered(taxes, m as real), 0);
      LaddersCharge(ladders, if n > 0 then n else m, m, 0, 0);
    }
  }

  /** The slabs do have to meet: past the top of the only slab, one cent more before tax costs 17 less. The
      exact condition is SellingMonotoneIff. */
  lemma GapMakesItCheaper()
    ensures var gst := ForwardTax("gst", "GST", 1, 0.18, true, false, true, None, Some(100.0));
            Selling(100.0, [gst]) == 118 && Selling(101.0, [gst]) == 101
  {
    var gst := ForwardTax("gst", "GST", 1, 0.18, true, false, true, None, Some(100.0));
    assert [gst][1..] == [];
    ToCentsWhole(100);
    ToCentsWhole(101);
    assert Applying([], 100.0) == [] == Applying([], 101.0);
    assert Sort([], Sooner) == [] && Insert(gst, [], Sooner) == [gst];
    LinesAddUp(100.0, [gst], 0);
    ChargeAtMostOne(100.0, [gst], 0);
  }

  // ---- exactly when any list of taxes is safe ----

  /** What is charged on a whole-cent net. */
  function TaxAt(taxes: seq<ForwardTax>, n: int): int {
    Charged(n as real, Ordered(taxes, n as real), 0)
  }

  /** Past this cent the tax falls by at most the one cent the net rises. */
  predicate Meets(taxes: seq<ForwardTax>, top: int) {
    TaxAt(taxes, top) <= TaxAt(taxes, top + 1) + 1
  }

  /** The last cent of a slab that charges something, if it has one. */
  predicate IsTop(t: ForwardTax, top: int) {
    t.rate > 0.0 && t.maxAmount.Some? && top == ToCents(t.maxAmount.value) && top >= 1
  }

  predicate Charging(taxes: seq<ForwardTax>) {
    forall i :: 0 <= i < |taxes| ==> taxes[i].rate > 0.0
  }

  lemma {:induction false} OrderedCharges(taxes: seq<ForwardTax>, net: real)
    ensures Charging(Ordered(taxes, net))
  {
    var ordered := Ordered(taxes, net);
    SortKeepsElements(Applying(taxes, net), Sooner);
    forall i | 0 <= i < |ordered| ensures ordered[i].rate > 0.0 {
      assert ordered[i] in multiset(ordered);
      ApplyingCounts(taxes, net, ordered[i]);
    }
  }

  lemma AmountMonotone(n: real, m: real, t: ForwardTax, x: int, y: int)
    requires 0.0 <= n <= m && 0 <= x <= y && t.rate > 0.0
    ensures 0 <= AmountOf(n, t, x) <= AmountOf(m, t, y)
  {
    ExactAmountMonotone(n, m, t, t, x as real, y as real);
    ToCentsMonotone(0.0, ExactAmount(n, t, x as real));
    ToCentsMonotone(ExactAmount(n, t, x as real), ExactAmount(m, t, y as real));
  }

  /** More taxes on more are never less, compound ones included. */
  lemma {:induction false} ChargedWithin(n: real, m: real, r: seq<ForwardTax>, s: seq<ForwardTax>, x: int, y: int)
    requires 0.0 <= n <= m && 0 <= x <= y && Within(r, s) && Charging(s)
    ensures x <= Charged(n, r, x) <= Charged(m, s, y)
    decreases |s|
  {
    if s == [] {
    } else {
      var z := y + AmountOf(m, s[0], y);
      AmountMonotone(m, m, s[0], y, y);
      if r != [] && r[0] == s[0] && Within(r[1..], s[1..]) {
        AmountMonotone(n, m, s[0], x, y);
        ChargedWithin(n, m, r[1..], s[1..], x + AmountOf(n, s[0], x), z);
      } else {
        ChargedWithin(n, m, r, s[1..], x, z);
      }
    }
  }

  lemma TaxNonNegative(taxes: seq<ForwardTax>, n: int)
    requires n >= 0
    ensures TaxAt(taxes, n) >= 0
  {
    OrderedCharges(taxes, n as real);
    ChargedWithin(n as real, n as real, [], Ordered(taxes, n as real), 0, 0);
  }

  /** Some tax charged on a cent is not charged on the next one: the cent is the top of its slab. */
  lemma {:induction false} Stops(taxes: seq<ForwardTax>, n: int) returns (t: ForwardTax)
    requires n >= 1 && !Within(Applying(taxes, n as real), Applying(taxes, (n + 1) as real))
    ensures t in taxes && IsTop(t, n)
  {
    ToCentsWhole(n);
    ToCentsWhole(n + 1);
    if Applies(taxes[0], n as real) && !Applies(taxes[0], (n + 1) as real) {
      t := taxes[0];
    } else {
      if Within(Applying(taxes[1..], n as real), Applying(taxes[1..], (n + 1) as real)) { StillWithin(taxes, n); }
      t := Stops(taxes[1..], n);
    }
  }

  lemma StillWithin(taxes: seq<ForwardTax>, n: int)
    requires taxes != [] && (Applies(taxes[0], n as real) ==> Applies(taxes[0], (n + 1) as real))
    requires Within(Applying(taxes[1..], n as real), Applying(taxes[1..], (n + 1) as real))
    ensures Within(Applying(taxes, n as real), Applying(taxes, (n + 1) as real))
  {
    var t, r, s := taxes[0], Applying(taxes[1..], n as real), Applying(taxes[1..], (n + 1) as real);
    assert ([t] + r)[1..] == r && ([t] + s)[1..] == s && [] + r == r && [] + s == s;
  }

  /** One cent more before tax is never less after it, unless the cent leaves a slab that does not meet. */
  lemma CentByCent(taxes: seq<ForwardTax>, n: int)
    requires n >= 1 && forall t, top :: t in taxes && IsTop(t, top) ==> Meets(taxes, top)
    ensures Meets(taxes, n)
  {
    var here, next := Applying(taxes, n as real), Applying(taxes, (n + 1) as real);
    if Within(here, next) {
      SoonerIsOrder();
      SortWithin(here, next, Sooner);
      OrderedCharges(taxes, (n + 1) as real);
      ChargedWithin(n as real, (n + 1) as real, Ordered(taxes, n as real), Ordered(taxes, (n + 1) as real), 0, 0);
    } else {
      var t := Stops(taxes, n);
    }
  }

  lemma {:induction false} Climbs(taxes: seq<ForwardTax>, n: int, m: int)
    requires 1 <= n <= m && forall t, top :: t in taxes && IsTop(t, top) ==> Meets(taxes, top)
    ensures n + TaxAt(taxes, n) <= m + TaxAt(taxes, m)
    decreases m - n
  {
    if n == m {
    } else {
      CentByCent(taxes, n);
      Climbs(taxes, n + 1, m);
    }
  }

  lemma SellingIsNetAndTax(taxes: seq<ForwardTax>, a: real)
    ensures Selling(a, taxes) == ToCents(a) + if ToCents(a) > 0 then TaxAt(taxes, ToCents(a)) else 0
  {
    var n := ToCents(a);
    if n > 0 { LinesAddUp(n as real, Ordered(taxes, n as real), 0); }
  }

  /** For any taxes, slabs that overlap or leave gaps, simple or compound: charging more before tax never makes
      the night cheaper if and only if, at the top of every slab, the tax is at most one cent above the tax on
      the next cent. */
  lemma SellingMonotoneIff(taxes: seq<ForwardTax>)
    ensures (forall a: real, b: real :: a <= b ==> Selling(a, taxes) <= Selling(b, taxes)) <==>
              forall t, top :: t in taxes && IsTop(t, top) ==> Meets(taxes, top)
  {
    if forall t, top :: t in taxes && IsTop(t, top) ==> Meets(taxes, top) {
      forall a: real, b: real | a <= b ensures Selling(a, taxes) <= Selling(b, taxes) {
        ToCentsMonotone(a, b);
        SellingIsNetAndTax(taxes, a);
        SellingIsNetAndTax(taxes, b);
        if ToCents(a) >= 1 {
          Climbs(taxes, ToCents(a), ToCents(b));
        } else if ToCents(b) >= 1 {
          TaxNonNegative(taxes, ToCents(b));
        }
      }
    } else {
      var t, top :| t in taxes && IsTop(t, top) && !Meets(taxes, top);
      ToCentsWhole(top);
      ToCentsWhole(top + 1);
      SellingIsNetAndTax(taxes, top as real);
      SellingIsNetAndTax(taxes, (top + 1) as real);
    }
  }

  // ---- how the lines print ----

  datatype Halves = Halves(cgst: int, sgst: int)

  function GstHalves(amount: int): (h: Halves)
    ensures h.cgst + h.sgst == amount && 0 <= Abs(h.cgst) - Abs(h.sgst) <= 1
  {
    var cgst := ToCents(amount as real / 2.0);
    Halves(cgst, amount - cgst)
  }

  /** A document's lines: each GST line gives way to its two halves. */
  function Displayed(lines: seq<TaxLine>): seq<TaxLine> {
    if lines == [] then [] else Shown(lines[0]) + Displayed(lines[1..])
  }

  function Shown(l: TaxLine): seq<TaxLine> {
    if !l.gstSplit then [l]
    else
      var halves := GstHalves(l.amount);
      [l.(key := l.key + ":cgst", name := "CGST", rate := l.rate / 2.0, amount := halves.cgst, gstSplit := false),
       l.(key := l.key + ":sgst", name := "SGST", rate := l.rate / 2.0, amount := halves.sgst, gstSplit := false)]
  }

  lemma {:induction false} DisplayedJoins(a: seq<TaxLine>, l: TaxLine)
    ensures Displayed(a + [l]) == Displayed(a) + Shown(l)
  {
    if a == [] {
      assert [l][1..] == [];
    } else {
      assert (a + [l])[1..] == a[1..] + [l];
      DisplayedJoins(a[1..], l);
    }
  }

  method DisplayTaxLines(lines: seq<TaxLine>) returns (out: seq<TaxLine>)
    ensures out == Displayed(lines)
  {
    out := [];
    var i := 0;
    while i < |lines|
      invariant 0 <= i <= |lines| && out == Displayed(lines[..i])
    {
      var l := lines[i];
      DisplayedJoins(lines[..i], l);
      assert lines[..i + 1] == lines[..i] + [l];
      if !l.gstSplit {
        out := out + [l];
      } else {
        var halves := GstHalves(l.amount);
        var half := l.rate / 2.0;
        var part := l.(rate := half, gstSplit := false);
        out := out + [part.(key := l.key + ":cgst", name := "CGST", amount := halves.cgst),
                      part.(key := l.key + ":sgst", name := "SGST", amount := halves.sgst)];
      }
      i := i + 1;
    }
    assert lines[..|lines|] == lines;
  }

  function GstLines(lines: seq<TaxLine>): nat {
    if lines == [] then 0 else (if lines[0].gstSplit then 1 else 0) + GstLines(lines[1..])
  }

  function RateTotal(lines: seq<TaxLine>): real {
    if lines == [] then 0.0 else lines[0].rate + RateTotal(lines[1..])
  }

  lemma {:induction false} RateTotalJoins(a: seq<TaxLine>, b: seq<TaxLine>)
    ensures RateTotal(a + b) == RateTotal(a) + RateTotal(b)
  {
    if a == [] {
      assert a + b == b;
    } else {
      assert (a + b)[1..] == a[1..] + b;
      RateTotalJoins(a[1..], b);
    }
  }

  /** Printing keeps every cent and every percent, adds one line for each GST, and leaves none to split. */
  lemma {:induction false} DisplayConserves(lines: seq<TaxLine>)
    ensures LineTotal(Displayed(lines)) == LineTotal(lines) && RateTotal(Displayed(lines)) == RateTotal(lines)
    ensures |Displayed(lines)| == |lines| + GstLines(lines)
    ensures forall i :: 0 <= i < |Displayed(lines)| ==> !Displayed(lines)[i].gstSplit
  {
    if lines == [] {
    } else {
      DisplayConserves(lines[1..]);
      LineTotalJoins(Shown(lines[0]), Displayed(lines[1..]));
      RateTotalJoins(Shown(lines[0]), Displayed(lines[1..]));
      ShownConserves(lines[0]);
    }
  }

  lemma ShownConserves(l: TaxLine)
    ensures LineTotal(Shown(l)) == l.amount && RateTotal(Shown(l)) == l.rate
    ensures |Shown(l)| == if l.gstSplit then 2 else 1
  {
    var s := Shown(l);
    if l.gstSplit {
      assert s[1..] == [s[1]] && [s[1]][1..] == [];
      assert LineTotal([s[1]]) == s[1].amount && RateTotal([s[1]]) == s[1].rate;
      assert LineTotal(s) == s[0].amount + LineTotal(s[1..]) && RateTotal(s) == s[0].rate + RateTotal(s[1..]);
    } else {
      assert s[1..] == [];
    }
  }

  predicate HalfOf(l: TaxLine, half: TaxLine, suffix: string, name: string) {
    half == TaxLine(l.key + suffix, name, l.priority, l.rate / 2.0, half.amount, l.exemptible, false)
  }

  /** A line as it prints: itself, or the central half and then the state half of its tax at half its rate, the odd
      cent on the central one. */
  predicate PrintsAs(l: TaxLine, printed: seq<TaxLine>) {
    if !l.gstSplit then printed == [l]
    else
      && |printed| == 2 && printed[0].amount + printed[1].amount == l.amount
      && 0 <= Abs(printed[0].amount) - Abs(printed[1].amount) <= 1
      && HalfOf(l, printed[0], ":cgst", "CGST") && HalfOf(l, printed[1], ":sgst", "SGST")
  }

  lemma ShownPrints(l: TaxLine)
    ensures PrintsAs(l, Shown(l))
  {
  }

  lemma {:induction false} DisplayedCuts(a: seq<TaxLine>, b: seq<TaxLine>)
    ensures Displayed(a + b) == Displayed(a) + Displayed(b)
  {
    if a == [] {
      assert a + b == b;
    } else {
      assert (a + b)[1..] == a[1..] + b;
      DisplayedCuts(a[1..], b);
    }
  }

  /** Every line prints between what the lines before it print and what those after it do. */
  lemma PrintedBetween(lines: seq<TaxLine>, i: nat) returns (printed: seq<TaxLine>)
    requires i < |lines|
    ensures PrintsAs(lines[i], printed)
    ensures Displayed(lines) == Displayed(lines[..i]) + (printed + Displayed(lines[i + 1..]))
  {
    printed := Shown(lines[i]);
    ShownPrints(lines[i]);
    var rest := lines[i..];
    assert lines == lines[..i] + rest && rest[1..] == lines[i + 1..];
    DisplayedCuts(lines[..i], rest);
  }
}
