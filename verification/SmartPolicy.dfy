/** A room's smart policy and when it is valid (packages/domain/src/smart-property.ts). Amounts are whole
    minor units. */
module SmartPolicy {
  import opened Wrappers
  import opened Text

  datatype Supplement = Fixed(amountMinor: int) | Percent(basisPoints: int)
  datatype ChildBand = ChildBand(id: string, name: string, minAge: int, maxAge: int, accommodation: Supplement)
  datatype RoomCapacity = RoomCapacity(
    maxAdults: int, maxChildren: int, normalGuests: int, absoluteGuests: int, maxExtraBeds: int, maxCots: int)
  datatype RoomPolicy = RoomPolicy(
    capacity: RoomCapacity, includedAdults: int, includedChildren: int, childUsesAdultPlace: bool,
    extraAdultMinor: int, extraBedMinor: int, cotMinor: int, childBands: seq<ChildBand>)
  datatype MealCode = RO | BB | HB | FB | AI
  datatype MealMode = Derived | Independent
  datatype MealPolicy = MealPolicy(
    code: MealCode, mode: MealMode, adultMealMinor: int, childMeals: map<string, Supplement>, minimumNetMinor: int)
  datatype Issue = Issue(field: string, code: string)
  // ---- a valid policy ----

  predicate ValidCount(n: int) { 0 <= n <= 100 }

  predicate ValidMoney(n: int) { 0 <= n <= 10_000_000_000 }

  predicate SupplementValid(s: Supplement) {
    match s
    case Fixed(amount) => ValidMoney(amount)
    case Percent(points) => 0 <= points <= 100_000
  }

  predicate Covers(b: ChildBand, age: int) {
    b.minAge <= age <= b.maxAge
  }

  predicate BandValid(b: ChildBand) {
    !Blank(b.id) && !Blank(b.name) && 0 <= b.minAge <= b.maxAge <= 17 && SupplementValid(b.accommodation)
  }

  /** Two bands of one policy: different ids, and no age in both. */
  predicate Apart(a: ChildBand, b: ChildBand) {
    a.id != b.id && (a.maxAge < b.minAge || b.maxAge < a.minAge)
  }

  ghost predicate BandsValid(bands: seq<ChildBand>) {
    && (forall i :: 0 <= i < |bands| ==> BandValid(bands[i]))
    && forall i, j :: 0 <= i < j < |bands| ==> Apart(bands[i], bands[j])
  }

  ghost predicate HasBand(bands: seq<ChildBand>, age: int) {
    exists i :: 0 <= i < |bands| && Covers(bands[i], age)
  }

  predicate CountsValid(c: RoomCapacity) {
    && ValidCount(c.maxAdults) && ValidCount(c.maxChildren) && ValidCount(c.normalGuests)
    && ValidCount(c.absoluteGuests) && ValidCount(c.maxExtraBeds) && ValidCount(c.maxCots)
  }

  predicate CapacityValid(c: RoomCapacity) {
    && CountsValid(c)
    && 1 <= c.normalGuests <= c.absoluteGuests
    && c.maxAdults <= c.absoluteGuests && c.maxChildren <= c.absoluteGuests
    && c.normalGuests <= c.maxAdults + c.maxChildren
  }

  predicate IncludedFit(room: RoomPolicy) {
    && ValidCount(room.includedAdults) && ValidCount(room.includedChildren)
    && room.includedAdults <= room.capacity.maxAdults && room.includedChildren <= room.capacity.maxChildren
    && room.includedAdults + room.includedChildren <= room.capacity.normalGuests
  }

  ghost predicate RoomValid(room: RoomPolicy) {
    && CapacityValid(room.capacity) && IncludedFit(room)
    && ValidMoney(room.extraAdultMinor) && ValidMoney(room.extraBedMinor) && ValidMoney(room.cotMinor)
    && BandsValid(room.childBands)
    && (room.capacity.maxChildren > 0 ==>
          forall age {:trigger HasBand(room.childBands, age)} :: 0 <= age <= 17 ==> HasBand(room.childBands, age))
  }

  predicate MealPriced(meal: MealPolicy, b: ChildBand) {
    meal.code == RO || (b.id in meal.childMeals && SupplementValid(meal.childMeals[b.id]))
  }

  ghost predicate MealValid(meal: MealPolicy, bands: seq<ChildBand>) {
    && ValidMoney(meal.adultMealMinor) && ValidMoney(meal.minimumNetMinor)
    && (meal.code == RO ==> meal.adultMealMinor == 0)
    && forall i :: 0 <= i < |bands| ==> MealPriced(meal, bands[i])
  }

  function Policy(field: string): Issue {
    Issue(field, "invalid_policy")
  }

  predicate Aged(age: int, lo: int, hi: int) {
    lo <= age < hi
  }

  function AgesFrom(lo: int, hi: int): set<int> {
    set age | lo <= age < hi && Aged(age, lo, hi)
  }

  ghost predicate CoveredExactly(covered: set<int>, bands: seq<ChildBand>) {
    forall age :: age in covered <==> HasBand(bands, age)
  }

  /** The ages of one band, against the ages already covered. */
  method CoverAges(band: ChildBand, before: set<int>) returns (covered: set<int>, issues: seq<Issue>)
    ensures covered == before + AgesFrom(band.minAge, band.maxAge + 1)
    ensures issues == [] <==> before !! AgesFrom(band.minAge, band.maxAge + 1)
  {
    covered, issues := before, [];
    var age := band.minAge;
    while age <= band.maxAge
      invariant age <= band.maxAge + 1 || age == band.minAge
      invariant band.minAge <= age
      invariant covered == before + AgesFrom(band.minAge, age)
      invariant issues == [] <==> before !! AgesFrom(band.minAge, age)
    {
      if age in covered { issues := issues + [Policy("childBands." + band.id)]; }
      covered := covered + {age};
      assert AgesFrom(band.minAge, age + 1) == AgesFrom(band.minAge, age) + {age};
      age := age + 1;
    }
  }

  method ValidateBands(bands: seq<ChildBand>) returns (issues: seq<Issue>, covered: set<int>)
    ensures issues == [] <==> BandsValid(bands)
    ensures issues == [] ==> CoveredExactly(covered, bands)
    ensures covered <= AgesFrom(0, 18)
  {
    issues, covered := [], {};
    var ids: set<string> := {};
    var i := 0;
    while i < |bands|
      invariant 0 <= i <= |bands|
      invariant forall id :: id in ids <==> exists j :: 0 <= j < i && bands[j].id == id
      invariant issues == [] <==> BandsValid(bands[..i])
      invariant issues == [] ==> CoveredExactly(covered, bands[..i])
      invariant covered <= AgesFrom(0, 18)
    {
      var band := bands[i];
      ghost var clean := issues == [];
      if Blank(band.id) || Blank(band.name) || band.id in ids { issues := issues + [Policy("childBands")]; }
      ids := ids + {band.id};
      assert bands[..i + 1] == bands[..i] + [band];
      if band.minAge < 0 || band.maxAge > 17 || band.maxAge < band.minAge {
        issues := issues + [Policy("childBands." + band.id)];
        assert !BandValid(bands[..i + 1][i]);
      } else {
        var more;
        ghost var before := covered;
        covered, more := CoverAges(band, covered);
        issues := issues + more;
        if !SupplementValid(band.accommodation) { issues := issues + [Policy("childBands." + band.id)]; }
        BandsGrow(bands[..i], band, before);
      }
      i := i + 1;
    }
    assert bands[..|bands|] == bands;
  }

  lemma BandsGrow(bands: seq<ChildBand>, b: ChildBand, covered: set<int>)
    requires 0 <= b.minAge <= b.maxAge <= 17
    ensures BandsValid(bands + [b]) ==> BandsValid(bands)
    ensures BandsValid(bands) && CoveredExactly(covered, bands) ==>
              (BandsValid(bands + [b]) <==> Fits(bands, b, covered))
    ensures CoveredExactly(covered, bands) ==> CoveredExactly(covered + AgesFrom(b.minAge, b.maxAge + 1), bands + [b])
  {
    var all := bands + [b];
    if BandsValid(all) { BandsShrink(bands, b); }
    if CoveredExactly(covered, bands) {
      forall age ensures age in covered + AgesFrom(b.minAge, b.maxAge + 1) <==> HasBand(all, age) {
        if HasBand(bands, age) {
          var i :| 0 <= i < |bands| && Covers(bands[i], age);
          assert Covers(all[i], age);
        }
        assert all[|bands|] == b;
      }
      if BandsValid(bands) { FitsIff(bands, b, covered); }
    }
  }

  predicate Fits(bands: seq<ChildBand>, b: ChildBand, covered: set<int>) {
    BandValid(b) && (forall j :: 0 <= j < |bands| ==> bands[j].id != b.id)
    && covered !! AgesFrom(b.minAge, b.maxAge + 1)
  }

  lemma BandsShrink(bands: seq<ChildBand>, b: ChildBand)
    requires BandsValid(bands + [b])
    ensures BandsValid(bands) && BandValid(b) && forall i :: 0 <= i < |bands| ==> Apart(bands[i], b)
  {
    var all := bands + [b];
    assert forall i :: 0 <= i < |bands| ==> all[i] == bands[i];
    assert all[|bands|] == b;
  }

  lemma FitsIff(bands: seq<ChildBand>, b: ChildBand, covered: set<int>)
    requires 0 <= b.minAge <= b.maxAge <= 17 && BandsValid(bands) && CoveredExactly(covered, bands)
    ensures BandsValid(bands + [b]) <==> Fits(bands, b, covered)
  {
    var ages := AgesFrom(b.minAge, b.maxAge + 1);
    if BandsValid(bands + [b]) {
      BandsShrink(bands, b);
      forall age | age in covered ensures age !in ages {
        var i :| 0 <= i < |bands| && Covers(bands[i], age);
      }
    }
    if Fits(bands, b, covered) {
      forall i | 0 <= i < |bands| ensures Apart(bands[i], b) {
        var age := if bands[i].minAge < b.minAge then b.minAge else bands[i].minAge;
        assert Covers(bands[i], age) ==> HasBand(bands, age);
        assert age <= b.maxAge ==> age in ages;
      }
    }
  }

  method ValidateCapacity(c: RoomCapacity) returns (issues: seq<Issue>)
    ensures issues == [] <==> CapacityValid(c)
  {
    issues := [];
    var entries := [("maxAdults", c.maxAdults), ("maxChildren", c.maxChildren), ("normalGuests", c.normalGuests),
                    ("absoluteGuests", c.absoluteGuests), ("maxExtraBeds", c.maxExtraBeds), ("maxCots", c.maxCots)];
    var i := 0;
    while i < |entries|
      invariant 0 <= i <= |entries|
      invariant issues == [] <==> forall j :: 0 <= j < i ==> ValidCount(entries[j].1)
    {
      if !ValidCount(entries[i].1) { issues := issues + [Policy("capacity." + entries[i].0)]; }
      i := i + 1;
    }
    ghost var counted := issues;
    assert counted == [] <==> CountsValid(c) by {
      assert entries[0].1 == c.maxAdults && entries[1].1 == c.maxChildren && entries[2].1 == c.normalGuests;
      assert entries[3].1 == c.absoluteGuests && entries[4].1 == c.maxExtraBeds && entries[5].1 == c.maxCots;
    }
    if c.normalGuests < 1
        || c.absoluteGuests < c.normalGuests { issues := issues + [Policy("capacity.absoluteGuests")]; }
    if c.maxAdults > c.absoluteGuests || c.maxChildren > c.absoluteGuests { issues := issues + [Policy("capacity")]; }
    if c.normalGuests > c.maxAdults + c.maxChildren { issues := issues + [Policy("capacity.normalGuests")]; }
  }

  method ValidateMeal(meal: MealPolicy, bands: seq<ChildBand>) returns (issues: seq<Issue>)
    ensures issues == [] <==> MealValid(meal, bands)
  {
    issues := [];
    if !ValidMoney(meal.adultMealMinor) || !ValidMoney(meal.minimumNetMinor) { issues := issues + [Policy("meal")]; }
    if meal.code == RO && meal.adultMealMinor != 0 { issues := issues + [Policy("meal.adultMealMinor")]; }
    ghost var before := issues;
    var i := 0;
    while i < |bands|
      invariant 0 <= i <= |bands|
      invariant issues == [] <==> before == [] && forall j :: 0 <= j < i ==> MealPriced(meal, bands[j])
    {
      if !MealPriced(meal, bands[i]) { issues := issues + [Policy("meal.childMeals." + bands[i].id)]; }
      i := i + 1;
    }
  }

  /** A policy is accepted exactly when it is valid: in particular, when a room takes children, its bands
      give every age from 0 to 17 exactly one charge. */
  method ValidateSmartPolicy(room: RoomPolicy, meal: Option<MealPolicy>) returns (issues: seq<Issue>)
    ensures issues == [] <==> RoomValid(room) && (meal.Some? ==> MealValid(meal.value, room.childBands))
  {
    issues := ValidateCapacity(room.capacity);
    if !IncludedFit(room) { issues := issues + [Policy("includedGuests")]; }
    if !ValidMoney(room.extraAdultMinor) { issues := issues + [Policy("extraAdultMinor")]; }
    if !ValidMoney(room.extraBedMinor) { issues := issues + [Policy("extraBedMinor")]; }
    if !ValidMoney(room.cotMinor) { issues := issues + [Policy("cotMinor")]; }
    var more, covered := ValidateBands(room.childBands);
    issues := issues + more;
    if more == [] { AllAgesIffEighteen(covered, room.childBands); }
    if room.capacity.maxChildren > 0 && |covered| != 18 { issues := issues + [Policy("childBands")]; }
    if meal.Some? {
      more := ValidateMeal(meal.value, room.childBands);
      issues := issues + more;
    }
  }

  lemma {:induction false} CountAges(lo: int, hi: int)
    requires lo <= hi
    ensures |AgesFrom(lo, hi)| == hi - lo
    decreases hi - lo
  {
    if lo < hi {
      CountAges(lo, hi - 1);
      assert AgesFrom(lo, hi) == AgesFrom(lo, hi - 1) + {hi - 1};
    } else {
      assert AgesFrom(lo, hi) == {};
    }
  }

  lemma SubsetCounts(a: set<int>, b: set<int>)
    requires a <= b
    ensures |a| <= |b| && (|a| == |b| <==> a == b)
  {
    assert b == a + (b - a);
  }

  lemma AllAgesIffEighteen(covered: set<int>, bands: seq<ChildBand>)
    requires CoveredExactly(covered, bands) && covered <= AgesFrom(0, 18)
    ensures |covered| == 18 <==> forall age {:trigger HasBand(bands, age)} :: 0 <= age <= 17 ==> HasBand(bands, age)
  {
    var ages := AgesFrom(0, 18);
    CountAges(0, 18);
    SubsetCounts(covered, ages);
    if |covered| == 18 {
      forall age | 0 <= age <= 17 ensures HasBand(bands, age) { assert age in ages; }
    }
    assert (forall age :: age in ages ==> HasBand(bands, age)) ==> ages <= covered;
  }
}
