/** Whole-cent money (packages/domain/src/money.ts). An amount is held in cents: a real before it is
    rounded, an int after. */
module Money {
  import opened Sorting

  function Abs(x: int): nat {
    if x < 0 then -x else x
  }

  function AbsReal(x: real): real {
    if x < 0.0 then -x else x
  }

  /** Half away from zero. */
  function ToCents(amount: real): (cents: int)
    ensures AbsReal(cents as real - amount) <= 0.5
    ensures AbsReal(cents as real - amount) == 0.5 ==> AbsReal(amount) < AbsReal(cents as real)
  {
    var cents := (AbsReal(amount) + 0.5).Floor;
    if amount < 0.0 then -cents else cents
  }

  lemma ToCentsMonotone(a: real, b: real)
    requires a <= b
    ensures ToCents(a) <= ToCents(b)
  {}

  function SumFirst(s: seq<int>, n: nat): int
    requires n <= |s|
  {
    if n == 0 then 0 else SumFirst(s, n - 1) + s[n - 1]
  }

  function Sum(s: seq<int>): int {
    SumFirst(s, |s|)
  }

  function TotalFirst(s: seq<real>, n: nat): real
    requires n <= |s|
  {
    if n == 0 then 0.0 else TotalFirst(s, n - 1) + s[n - 1]
  }

  function Total(s: seq<real>): real {
    TotalFirst(s, |s|)
  }

  // ---- the largest-remainder split ----

  /** What the parts are in proportion to: the positive weights, or one each when there are none. */
  function Shares(weights: seq<real>): (shares: seq<real>)
    ensures |shares| == |weights|
  {
    var positive := seq(|weights|, i requires 0 <= i < |weights| => if weights[i] > 0.0 then weights[i] else 0.0);
    if Total(positive) > 0.0 then positive else seq(|weights|, _ => 1.0)
  }

  ghost predicate Proportion(shares: seq<real>) {
    (forall i :: 0 <= i < |shares| ==> shares[i] >= 0.0) && Total(shares) > 0.0
  }

  function Exact(whole: nat, shares: seq<real>, i: nat): real
    requires i < |shares| && Total(shares) > 0.0
  {
    whole as real * shares[i] / Total(shares)
  }

  function Remainder(x: real): (r: real)
    ensures 0.0 <= r < 1.0
  {
    x - x.Floor as real
  }

  /** Between two shares, which is topped up first: the one cut the most, then the earlier. */
  predicate CutMore(whole: nat, shares: seq<real>, i: nat, j: nat)
    requires i < |shares| && j < |shares| && Total(shares) > 0.0
  {
    var a, b := Remainder(Exact(whole, shares, i)), Remainder(Exact(whole, shares, j));
    a > b || (a == b && i < j)
  }

  predicate Raised(whole: nat, shares: seq<real>, parts: seq<int>, i: nat)
    requires i < |shares| == |parts| && Total(shares) > 0.0
  {
    parts[i] == Exact(whole, shares, i).Floor + 1
  }

  /** What the split promises: whole cents that add up, each share's floor or one more, the extra cents
      going to the shares cut the most. */
  ghost predicate IsSplit(whole: nat, shares: seq<real>, parts: seq<int>)
    requires Total(shares) > 0.0
  {
    && |parts| == |shares|
    && Sum(parts) == whole
    && (forall i :: 0 <= i < |parts| ==> parts[i] == Exact(whole, shares, i).Floor || Raised(whole, shares, parts, i))
    && forall i: nat, j: nat :: i < |parts| && j < |parts| ==> TopUpFair(whole, shares, parts, i, j)
  }

  predicate TopUpFair(whole: nat, shares: seq<real>, parts: seq<int>, i: nat, j: nat)
    requires i < |shares| == |parts| && j < |parts| && Total(shares) > 0.0
  {
    Raised(whole, shares, parts, i) && !Raised(whole, shares, parts, j) ==> CutMore(whole, shares, i, j)
  }

  /** A share and its index, as the order the leftover cents go out in holds them. */
  datatype Cut = Cut(index: nat, rem: real)

  predicate First(a: Cut, b: Cut) {
    a.rem > b.rem || (a.rem == b.rem && a.index <= b.index)
  }

  function Negated(parts: seq<int>): (r: seq<int>)
    ensures |r| == |parts|
  {
    seq(|parts|, i requires 0 <= i < |parts| => -parts[i])
  }

  lemma {:induction false} NegatedSum(s: seq<int>, n: nat)
    requires n <= |s|
    ensures SumFirst(Negated(s), n) == -SumFirst(s, n)
  {
    if n == 0 {
    } else {
      NegatedSum(s, n - 1);
    }
  }

  /** The leftover loop: one cent each, in order. It goes round again only past the last part. */
  method HandOut(floors: seq<int>, order: seq<Cut>, leftover: nat) returns (parts: seq<int>)
    requires leftover < |floors| == |order| && forall m :: 0 <= m < |order| ==> order[m].index < |floors|
    requires forall a, b :: 0 <= a < b < |order| ==> order[a].index != order[b].index
    ensures |parts| == |floors| && Sum(parts) == Sum(floors) + leftover
    ensures forall m :: 0 <= m < |order| ==> TopsUp(floors, parts, order[m].index, m < leftover)
  {
    var n := |floors|;
    parts := floors;
    var left := leftover;
    var k := 0;
    while left > 0
      invariant 0 <= left <= leftover && k == leftover - left
      invariant |parts| == n && Sum(parts) + left == Sum(floors) + leftover
      invariant forall m :: 0 <= m < n ==> TopsUp(floors, parts, order[m].index, m < k)
    {
      ghost var before := parts;
      SumUpdate(parts, order[k].index, parts[order[k].index] + 1, n);
      parts := parts[order[k].index := parts[order[k].index] + 1];
      forall m | 0 <= m < n ensures TopsUp(floors, parts, order[m].index, m < k + 1) {
        assert TopsUp(floors, before, order[m].index, m < k);
      }
      left := left - 1;
      k := (k + 1) % n;
    }
  }

  method SplitProportional(total: real, weights: seq<real>) returns (parts: seq<int>)
    ensures |parts| == |weights|
    ensures weights != [] ==> Proportion(Shares(weights))
    ensures weights != [] && ToCents(total) >= 0 ==> IsSplit(ToCents(total), Shares(weights), parts)
    ensures weights != [] && ToCents(total) < 0 ==> IsSplit(-ToCents(total), Shares(weights), Negated(parts))
  {
    var n := |weights|;
    if n == 0 { return []; }
    var totalCents := ToCents(total);
    var sign := if totalCents < 0 then -1 else 1;
    var whole := Abs(totalCents);
    var shares := Shares(weights);
    SharesProportion(weights);
    var exact := seq(n, i requires 0 <= i < n => Exact(whole, shares, i));
    var floors := seq(n, i requires 0 <= i < n => exact[i].Floor);
    var left := whole - Sum(floors);
    LeftoverWithinOnePass(whole, shares, floors);
    var cuts := seq(n, i requires 0 <= i < n => Cut(i, exact[i] - floors[i] as real));
    var order := Sort(cuts, First);
    OrderIsQueue(whole, shares, cuts);
    parts := HandOut(floors, order, left);
    RaisedInOrder(whole, shares, floors, parts, order, left);
    ghost var magnitudes := parts;
    parts := seq(n, i requires 0 <= i < n => sign * parts[i]);
    assert sign == 1 ==> parts == magnitudes;
    assert sign == -1 ==> Negated(parts) == magnitudes;
  }

  // ---- why the loop works ----

  lemma {:induction false} SumUpdate(s: seq<int>, i: nat, x: int, n: nat)
    requires i < |s| && n <= |s|
    ensures SumFirst(s[i := x], n) == SumFirst(s, n) + if i < n then x - s[i] else 0
  {
    if n == 0 {
    } else {
      SumUpdate(s, i, x, n - 1);
    }
  }

  lemma {:induction false} TotalNonNegative(s: seq<real>, n: nat)
    requires n <= |s| && forall i :: 0 <= i < n ==> s[i] >= 0.0
    ensures TotalFirst(s, n) >= 0.0
  {
    if n == 0 {
    } else {
      TotalNonNegative(s, n - 1);
    }
  }

  lemma {:induction false} TotalOfOnes(s: seq<real>, n: nat)
    requires n <= |s| && forall i :: 0 <= i < n ==> s[i] == 1.0
    ensures TotalFirst(s, n) == n as real
  {
    if n == 0 {
    } else {
      TotalOfOnes(s, n - 1);
    }
  }

  lemma SharesProportion(weights: seq<real>)
    requires weights != []
    ensures Proportion(Shares(weights))
  {
    var positive := seq(|weights|, i requires 0 <= i < |weights| => if weights[i] > 0.0 then weights[i] else 0.0);
    if Total(positive) <= 0.0 { TotalOfOnes(Shares(weights), |weights|); }
  }

  /** The first n exact shares add up to their part of the whole. */
  lemma {:induction false} ExactAddUp(whole: nat, shares: seq<real>, exact: seq<real>, n: nat)
    requires n <= |shares| == |exact| && Total(shares) > 0.0
    requires forall i :: 0 <= i < |shares| ==> exact[i] == Exact(whole, shares, i)
    ensures TotalFirst(exact, n) == whole as real * TotalFirst(shares, n) / Total(shares)
  {
    if n == 0 {
    } else {
      ExactAddUp(whole, shares, exact, n - 1);
    }
  }

  lemma {:induction false} FloorsBehind(exact: seq<real>, floors: seq<int>, n: nat)
    requires n <= |exact| == |floors| && forall i :: 0 <= i < n ==> floors[i] == exact[i].Floor
    ensures 0.0 <= TotalFirst(exact, n) - SumFirst(floors, n) as real
    ensures n > 0 ==> TotalFirst(exact, n) - (SumFirst(floors, n) as real) < n as real
  {
    if n == 0 {
    } else {
      FloorsBehind(exact, floors, n - 1);
    }
  }

  /** Fewer cents are left over than there are parts, so handing them out takes less than one pass. */
  lemma LeftoverWithinOnePass(whole: nat, shares: seq<real>, floors: seq<int>)
    requires shares != [] && |floors| == |shares| && Total(shares) > 0.0
    requires forall i :: 0 <= i < |shares| ==> floors[i] == Exact(whole, shares, i).Floor
    ensures 0 <= whole - Sum(floors) < |shares|
  {
    var exact := seq(|shares|, i requires 0 <= i < |shares| => Exact(whole, shares, i));
    ExactAddUp(whole, shares, exact, |shares|);
    assert Total(exact) == whole as real;
    FloorsBehind(exact, floors, |shares|);
  }

  predicate TopsUp(floors: seq<int>, parts: seq<int>, i: nat, raised: bool) {
    i < |floors| == |parts| && parts[i] == floors[i] + if raised then 1 else 0
  }

  predicate IsCutOf(whole: nat, shares: seq<real>, c: Cut)
    requires Total(shares) > 0.0
  {
    c.index < |shares| && c.rem == Remainder(Exact(whole, shares, c.index))
  }

  predicate Listed(order: seq<Cut>, i: nat) {
    exists m :: 0 <= m < |order| && order[m].index == i
  }

  /** Every share once, most cut first. */
  ghost predicate IsQueue(whole: nat, shares: seq<real>, order: seq<Cut>)
    requires Total(shares) > 0.0
  {
    && |order| == |shares| && Sorted(order, First)
    && (forall m :: 0 <= m < |order| ==> IsCutOf(whole, shares, order[m]))
    && (forall a, b :: 0 <= a < b < |order| ==> order[a].index != order[b].index)
    && forall i: nat :: i < |shares| ==> Listed(order, i)
  }

  lemma OrderIsQueue(whole: nat, shares: seq<real>, cuts: seq<Cut>)
    requires |cuts| == |shares| && Total(shares) > 0.0
    requires forall i :: 0 <= i < |cuts| ==> cuts[i].index == i && IsCutOf(whole, shares, cuts[i])
    ensures IsQueue(whole, shares, Sort(cuts, First))
  {
    SortKeepsElements(cuts, First);
    SortSorted(cuts, First);
    SortNoRepeats(cuts, First);
    var order := Sort(cuts, First);
    forall m | 0 <= m < |cuts| ensures IsCutOf(whole, shares, order[m]) && order[m] == cuts[order[m].index] {
      assert order[m] in multiset(cuts);
    }
    forall i: nat | i < |shares| ensures Listed(order, i) {
      assert cuts[i] in multiset(order);
    }
  }

  lemma RaisedInOrder(whole: nat, shares: seq<real>, floors: seq<int>, parts: seq<int>, order: seq<Cut>, k: nat)
    requires |floors| == |parts| == |shares| && Total(shares) > 0.0
    requires forall i :: 0 <= i < |shares| ==> floors[i] == Exact(whole, shares, i).Floor
    requires Sum(parts) == whole && IsQueue(whole, shares, order)
    requires forall m :: 0 <= m < |order| ==> TopsUp(floors, parts, order[m].index, m < k)
    ensures IsSplit(whole, shares, parts)
  {
    forall i: nat | i < |shares|
      ensures parts[i] == Exact(whole, shares, i).Floor || Raised(whole, shares, parts, i)
    {
      assert Listed(order, i);
    }
    forall i: nat, j: nat | i < |parts| && j < |parts| ensures TopUpFair(whole, shares, parts, i, j) {
      assert Listed(order, i) && Listed(order, j);
      var a :| 0 <= a < |order| && order[a].index == i;
      var b :| 0 <= b < |order| && order[b].index == j;
      assert TopsUp(floors, parts, order[a].index, a < k) && TopsUp(floors, parts, order[b].index, b < k);
      if a < k <= b {
        assert First(order[a], order[b]) && IsCutOf(whole, shares, order[a]) && IsCutOf(whole, shares, order[b]);
      }
    }
  }

  // ---- what the split promises ----

  /** How far a part is past its exact share. */
  function Excess(whole: nat, shares: seq<real>, parts: seq<int>, i: nat): real
    requires i < |shares| == |parts| && Total(shares) > 0.0
  {
    parts[i] as real - Exact(whole, shares, i)
  }

  function Excesses(whole: nat, shares: seq<real>, parts: seq<int>): (r: seq<real>)
    requires |shares| == |parts| && Total(shares) > 0.0
    ensures |r| == |parts| && forall i :: 0 <= i < |r| ==> r[i] == Excess(whole, shares, parts, i)
  {
    seq(|parts|, i requires 0 <= i < |parts| => Excess(whole, shares, parts, i))
  }

  lemma {:induction false} ExcessesAddUp(whole: nat, shares: seq<real>, parts: seq<int>, n: nat)
    requires n <= |shares| == |parts| && Total(shares) > 0.0
    ensures TotalFirst(Excesses(whole, shares, parts), n)
         == SumFirst(parts, n) as real - whole as real * TotalFirst(shares, n) / Total(shares)
  {
    if n == 0 {
    } else {
      ExcessesAddUp(whole, shares, parts, n - 1);
    }
  }

  lemma SplitBalances(whole: nat, shares: seq<real>, parts: seq<int>)
    requires Total(shares) > 0.0 && |parts| == |shares| && Sum(parts) == whole
    ensures Total(Excesses(whole, shares, parts)) == 0.0
  {
    ExcessesAddUp(whole, shares, parts, |shares|);
  }

  lemma {:induction false} TotalPositive(s: seq<real>, n: nat, i: nat)
    requires i < n <= |s| && s[i] > 0.0 && forall j :: 0 <= j < n ==> s[j] >= 0.0
    ensures TotalFirst(s, n) > 0.0
  {
    if i == n - 1 { TotalNonNegative(s, n - 1); } else { TotalPositive(s, n - 1, i); }
  }

  lemma {:induction false} TotalOfNothing(s: seq<real>, n: nat)
    requires n <= |s| && forall i :: 0 <= i < n ==> s[i] == 0.0
    ensures TotalFirst(s, n) == 0.0
  {
    if n == 0 {
    } else {
      TotalOfNothing(s, n - 1);
    }
  }

  /** With a positive weight, the positive ones are the shares and the others count as nothing; with none, every part
      has the same share. */
  lemma {:induction false} SharesAre(weights: seq<real>, i: nat)
    requires i < |weights|
    ensures (exists j :: 0 <= j < |weights| && weights[j] > 0.0) ==>
              Shares(weights)[i] == if weights[i] > 0.0 then weights[i] else 0.0
    ensures (forall j :: 0 <= j < |weights| ==> weights[j] <= 0.0) ==> Shares(weights)[i] == 1.0
  {
    var positive := seq(|weights|, k requires 0 <= k < |weights| => if weights[k] > 0.0 then weights[k] else 0.0);
    if j :| 0 <= j < |weights| && weights[j] > 0.0 {
      TotalPositive(positive, |positive|, j);
    } else {
      TotalOfNothing(positive, |positive|);
    }
  }

  /** Only a share that was cut is topped up, so a part is the floor or the ceiling of its exact share. */
  lemma {:induction false} FloorOrCeiling(whole: nat, shares: seq<real>, parts: seq<int>, i: nat)
    requires Proportion(shares) && IsSplit(whole, shares, parts) && i < |parts|
    ensures AbsReal(parts[i] as real - Exact(whole, shares, i)) < 1.0
  {
    if Raised(whole, shares, parts, i) && Remainder(Exact(whole, shares, i)) == 0.0 {
      var past := Excesses(whole, shares, parts);
      forall j: nat | j < |parts| ensures past[j] >= 0.0 {
        assert TopUpFair(whole, shares, parts, i, j);
      }
      TotalPositive(past, |past|, i);
      SplitBalances(whole, shares, parts);
    }
  }

  /** A zero weight gets nothing; with no positive weight at all the split is even to the cent. */
  lemma {:induction false} ZeroWeightGetsNothing(whole: nat, weights: seq<real>, parts: seq<int>, i: nat)
    requires i < |weights| && Proportion(Shares(weights)) && IsSplit(whole, Shares(weights), parts) && weights[i] <= 0.0
    ensures (exists j :: 0 <= j < |weights| && weights[j] > 0.0) ==> parts[i] == 0
    ensures (forall j :: 0 <= j < |weights| ==> weights[j] <= 0.0) ==>
      parts[i] == whole / |weights| || parts[i] == whole / |weights| + 1
  {
    FloorOrCeiling(whole, Shares(weights), parts, i);
    var positive := seq(|weights|, k requires 0 <= k < |weights| => if weights[k] > 0.0 then weights[k] else 0.0);
    if exists j :: 0 <= j < |weights| && weights[j] > 0.0 {
      var j :| 0 <= j < |weights| && weights[j] > 0.0;
      TotalPositive(positive, |positive|, j);
    } else {
      AllZero(positive, |positive|);
      TotalOfOnes(Shares(weights), |weights|);
      var n := |weights|;
      assert Exact(whole, Shares(weights), i) == whole as real / n as real;
      EvenShare(whole, n);
    }
  }

  lemma {:induction false} AllZero(s: seq<real>, n: nat)
    requires n <= |s| && forall i :: 0 <= i < n ==> s[i] == 0.0
    ensures TotalFirst(s, n) == 0.0
  {
    if n == 0 {
    } else {
      AllZero(s, n - 1);
    }
  }

  lemma EvenShare(whole: nat, n: nat)
    requires n > 0
    ensures (whole as real / n as real).Floor == whole / n
  {
    var q, r := whole / n, whole % n;
    assert whole == q * n + r && 0 <= r < n;
    assert whole as real / n as real == q as real + r as real / n as real;
  }

  /** A larger weight never gets less. */
  lemma {:induction false} LargerShareNeverLess(whole: nat, shares: seq<real>, parts: seq<int>, i: nat, j: nat)
    requires Proportion(shares) && IsSplit(whole, shares, parts) && i < |parts| && j < |parts| && shares[i] > shares[j]
    ensures parts[i] >= parts[j]
  {
    FloorOrCeiling(whole, shares, parts, j);
    assert TopUpFair(whole, shares, parts, j, i);
    LargerExact(whole, shares, i, j);
    KeepsOrder(Exact(whole, shares, i), Exact(whole, shares, j), parts[i], parts[j]);
  }

  lemma KeepsOrder(a: real, b: real, p: int, q: int)
    requires a > b || a == b == 0.0
    requires p == a.Floor || p == a.Floor + 1
    requires q == b.Floor || (q == b.Floor + 1 && AbsReal(q as real - b) < 1.0)
    requires q == b.Floor + 1 && p != a.Floor + 1 ==> Remainder(b) >= Remainder(a)
    ensures p >= q
  {}

  lemma LargerExact(whole: nat, shares: seq<real>, i: nat, j: nat)
    requires i < |shares| && j < |shares| && shares[i] > shares[j] && Total(shares) > 0.0
    ensures var a, b := Exact(whole, shares, i), Exact(whole, shares, j); a > b || a == b == 0.0
  {
    if whole > 0 { RatioStrict(whole as real, shares[j], shares[i], Total(shares)); }
  }

  lemma RatioStrict(c: real, x: real, y: real, d: real)
    requires c > 0.0 && d > 0.0 && x < y
    ensures c * x / d < c * y / d
  {
    assert c * y - c * x == c * (y - x) > 0.0;
  }

  lemma {:induction false} SumStrict(a: seq<int>, b: seq<int>, n: nat, i: nat)
    requires n <= |a| == |b| && forall j :: 0 <= j < n ==> a[j] >= b[j]
    ensures SumFirst(a, n) >= SumFirst(b, n)
    ensures i < n && a[i] > b[i] ==> SumFirst(a, n) > SumFirst(b, n)
  {
    if n == 0 {
    } else {
      SumStrict(a, b, n - 1, i);
    }
  }

  /** The promise leaves no choice: two splits of the same cents in the same proportion are the same. */
  lemma {:induction false} SplitUnique(whole: nat, shares: seq<real>, p: seq<int>, q: seq<int>)
    requires Proportion(shares) && IsSplit(whole, shares, p) && IsSplit(whole, shares, q)
    ensures p == q
  {
    if i: nat :| i < |p| && p[i] > q[i] {
      forall j: nat | j < |p| ensures p[j] >= q[j] {
        if p[j] < q[j] { OnlyOneRaised(whole, shares, p, q, i, j); }
      }
      SumStrict(p, q, |p|, i);
    } else if i: nat :| i < |p| && p[i] < q[i] {
      SumStrict(q, p, |p|, i);
    }
  }

  lemma OnlyOneRaised(whole: nat, shares: seq<real>, p: seq<int>, q: seq<int>, i: nat, j: nat)
    requires Total(shares) > 0.0 && IsSplit(whole, shares, p) && IsSplit(whole, shares, q)
    requires i < |p| && j < |p| && p[i] > q[i]
    ensures p[j] >= q[j]
  {
    assert TopUpFair(whole, shares, p, i, j) && TopUpFair(whole, shares, q, j, i);
  }

  lemma SplitNonNegative(whole: nat, shares: seq<real>, parts: seq<int>)
    requires Proportion(shares) && IsSplit(whole, shares, parts)
    ensures forall i :: 0 <= i < |parts| ==> parts[i] >= 0
  {
    forall i: nat | i < |parts| ensures Exact(whole, shares, i) >= 0.0 {
      assert whole as real * shares[i] >= 0.0;
    }
  }

  // ---- no whole-cent split is nearer to the exact shares ----

  function Deviations(whole: nat, shares: seq<real>, parts: seq<int>): (r: seq<real>)
    requires |shares| == |parts| && Total(shares) > 0.0
  {
    seq(|parts|, i requires 0 <= i < |parts| => AbsReal(Excess(whole, shares, parts, i)))
  }

  /** The remainder of the last share topped up: nothing topped up was cut less, nothing else was cut more. */
  ghost predicate Threshold(whole: nat, shares: seq<real>, parts: seq<int>, t: real)
    requires |shares| == |parts| && Total(shares) > 0.0
  {
    && 0.0 <= t <= 1.0
    && forall i: nat :: i < |parts| ==> OnItsSide(whole, shares, parts, t, i)
  }

  predicate OnItsSide(whole: nat, shares: seq<real>, parts: seq<int>, t: real, i: nat)
    requires i < |shares| == |parts| && Total(shares) > 0.0
  {
    var rem := Remainder(Exact(whole, shares, i));
    if Raised(whole, shares, parts, i) then rem >= t else parts[i] == Exact(whole, shares, i).Floor && rem <= t
  }

  lemma {:induction false} LeastRaised(whole: nat, shares: seq<real>, parts: seq<int>, n: nat) returns (t: real)
    requires n <= |shares| == |parts| && Total(shares) > 0.0
    ensures 0.0 <= t <= 1.0
    ensures forall i: nat :: i < n && Raised(whole, shares, parts, i) ==> Remainder(Exact(whole, shares, i)) >= t
    ensures t == 1.0 || exists i: nat ::
              i < n && Raised(whole, shares, parts, i) && Remainder(Exact(whole, shares, i)) == t
  {
    if n == 0 { return 1.0; }
    t := LeastRaised(whole, shares, parts, n - 1);
    var rem := Remainder(Exact(whole, shares, n - 1));
    if Raised(whole, shares, parts, n - 1) && rem < t { t := rem; }
  }

  lemma {:induction false} HasThreshold(whole: nat, shares: seq<real>, parts: seq<int>) returns (t: real)
    requires Total(shares) > 0.0 && IsSplit(whole, shares, parts)
    ensures Threshold(whole, shares, parts, t)
  {
    t := LeastRaised(whole, shares, parts, |parts|);
    forall j: nat | j < |parts| ensures OnItsSide(whole, shares, parts, t, j) {
      if !Raised(whole, shares, parts, j) && t < 1.0 {
        var i: nat :| i < |parts| && Raised(whole, shares, parts, i) && Remainder(Exact(whole, shares, i)) == t;
        assert TopUpFair(whole, shares, parts, i, j);
      }
    }
  }

  /** Moving one part d cents away from where the split put it costs at least (1 - 2t) a cent. */
  lemma MoveCosts(f: real, x: int, d: int, t: real)
    requires 0.0 <= f < 1.0 && 0.0 <= t <= 1.0
    requires (x == 1 && f >= t) || (x == 0 && f <= t)
    ensures AbsReal(d as real - f) >= AbsReal(x as real - f) + (d - x) as real * (1.0 - 2.0 * t)
  {
    if d >= 1 {
      Product((d - 1) as real, t);
    } else {
      Product((-d) as real, 1.0 - t);
    }
  }

  lemma Product(a: real, b: real)
    requires a >= 0.0 && b >= 0.0
    ensures a * b >= 0.0
  {}

  lemma PartCosts(whole: nat, shares: seq<real>, parts: seq<int>, other: seq<int>, t: real, i: nat)
    requires i < |shares| == |parts| == |other| && Total(shares) > 0.0 && 0.0 <= t <= 1.0
    requires OnItsSide(whole, shares, parts, t, i)
    ensures AbsReal(Excess(whole, shares, other, i))
         >= AbsReal(Excess(whole, shares, parts, i)) + (other[i] - parts[i]) as real * (1.0 - 2.0 * t)
  {
    var e := Exact(whole, shares, i);
    MoveCosts(Remainder(e), parts[i] - e.Floor, other[i] - e.Floor, t);
  }

  lemma {:induction false} MovesCost(mine: seq<real>, theirs: seq<real>, parts: seq<int>, other: seq<int>, c: real,
                                     n: nat)
    requires n <= |parts| == |other| == |mine| == |theirs|
    requires forall i :: 0 <= i < |parts| ==> theirs[i] >= mine[i] + (other[i] - parts[i]) as real * c
    ensures TotalFirst(theirs, n) >= TotalFirst(mine, n) + (SumFirst(other, n) - SumFirst(parts, n)) as real * c
  {
    if n == 0 {
    } else {
      MovesCost(mine, theirs, parts, other, c, n - 1);
      var a, b := SumFirst(other, n - 1) - SumFirst(parts, n - 1), other[n - 1] - parts[n - 1];
      assert (a + b) as real * c == a as real * c + b as real * c;
    }
  }

  /** No other whole-cent split of the same total is closer to the exact shares. */
  lemma LeastDeviation(whole: nat, shares: seq<real>, parts: seq<int>, other: seq<int>)
    requires Proportion(shares) && IsSplit(whole, shares, parts)
    requires |other| == |shares| && Sum(other) == whole
    ensures Total(Deviations(whole, shares, parts)) <= Total(Deviations(whole, shares, other))
  {
    var t := HasThreshold(whole, shares, parts);
    var slope := 1.0 - 2.0 * t;
    var mine, theirs := Deviations(whole, shares, parts), Deviations(whole, shares, other);
    forall i | 0 <= i < |parts| ensures theirs[i] >= mine[i] + (other[i] - parts[i]) as real * slope {
      PartCosts(whole, shares, parts, other, t, i);
    }
    MovesCost(mine, theirs, parts, other, slope, |parts|);
  }
}
