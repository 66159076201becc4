/** One room-night quoted from a smart policy (packages/domain/src/smart-property.ts). */
module SmartQuote {
  import opened Sorting
  import opened Money
  import opened SmartPolicy
  import opened Wrappers
  import opened Text

  datatype GuestMix = GuestMix(adults: int, childAges: seq<int>, extraBeds: int, cots: int)
  datatype LineKind = Accommodation | ExtraAdults | Children | Meals | Adjustment | ExtraBeds | Cots
  datatype Line = Line(kind: LineKind, amountMinor: int)
  datatype NightQuote = NightQuote(
    eligible: bool, issues: seq<Issue>, lines: seq<Line>, roomMealNetMinor: int, bedNetMinor: int,
    totalNetMinor: int, minimumNetMinor: int, belowMinimum: bool, exceptionReason: Option<string>)
  datatype Request = Request(
    room: RoomPolicy, meal: MealPolicy, guests: GuestMix, baseNetMinor: int, roomMealOverrideMinor: Option<int>,
    mayOverrideMinimum: bool, overrideReason: Option<string>)

  // ---- the least a group of children can be charged when some of them use included places ----

  function Cheaper(a: int, b: int): int {
    if a < b then a else b
  }

  /** Decided child by child: the first either pays or takes a place. */
  function LeastCharge(charges: seq<int>, places: nat): int {
    if charges == [] then 0
    else
      var pays := charges[0] + LeastCharge(charges[1..], places);
      if places == 0 then pays else Cheaper(LeastCharge(charges[1..], places - 1), pays)
  }

  predicate NonNegative(charges: seq<int>) {
    forall i :: 0 <= i < |charges| ==> charges[i] >= 0
  }

  /** What is left to pay when the children marked in `placed` use places. */
  function Uncovered(charges: seq<int>, placed: seq<bool>): int
    requires |placed| == |charges|
  {
    if charges == [] then 0 else (if placed[0] then 0 else charges[0]) + Uncovered(charges[1..], placed[1..])
  }

  function Placed(placed: seq<bool>): nat {
    if placed == [] then 0 else (if placed[0] then 1 else 0) + Placed(placed[1..])
  }

  /** No choice of which children use the places costs less. */
  lemma {:induction false} LeastIsLeast(charges: seq<int>, places: nat, placed: seq<bool>)
    requires |placed| == |charges| && Placed(placed) <= places && NonNegative(charges)
    ensures LeastCharge(charges, places) <= Uncovered(charges, placed)
  {
    if charges == [] {
    } else {
      LeastIsLeast(charges[1..], if placed[0] then places - 1 else places, placed[1..]);
    }
  }

  /** And some choice costs exactly that. */
  lemma {:induction false} LeastIsReached(charges: seq<int>, places: nat) returns (placed: seq<bool>)
    requires NonNegative(charges)
    ensures |placed| == |charges| && Placed(placed) <= places
    ensures Uncovered(charges, placed) == LeastCharge(charges, places)
  {
    if charges == [] { return []; }
    var pays := charges[0] + LeastCharge(charges[1..], places);
    if places > 0 && LeastCharge(charges[1..], places - 1) < pays {
      var rest := LeastIsReached(charges[1..], places - 1);
      placed := [true] + rest;
    } else {
      var rest := LeastIsReached(charges[1..], places);
      placed := [false] + rest;
    }
    assert placed[1..] == placed[1..];
  }

  /** A place fewer never lowers the charge. */
  lemma {:induction false} FewerPlaces(charges: seq<int>, places: nat)
    requires NonNegative(charges)
    ensures LeastCharge(charges, places + 1) <= LeastCharge(charges, places)
  {
    if charges == [] {
    } else {
      FewerPlaces(charges[1..], places);
      if places > 0 { FewerPlaces(charges[1..], places - 1); }
    }
  }

  // ---- the code sorts and cuts: it covers the dearest children ----

  predicate Dearer(a: int, b: int) { a >= b }

  function Slice(s: seq<int>, k: nat): seq<int> {
    if k <= |s| then s[k..] else []
  }

  lemma {:induction false} SumSplits(s: seq<int>, n: nat)
    requires s != [] && 1 <= n <= |s|
    ensures SumFirst(s, n) == s[0] + SumFirst(s[1..], n - 1)
  {
    if n == 1 {
    } else {
      SumSplits(s, n - 1);
    }
  }

  lemma {:induction false} SliceSteps(s: seq<int>, k: nat)
    requires k < |s|
    ensures Sum(Slice(s, k)) == s[k] + Sum(Slice(s, k + 1))
  {
    var c := Slice(s, k);
    SumSplits(c, |c|);
    assert c[1..] == Slice(s, k + 1);
  }

  lemma SliceAfter(h: int, s: seq<int>, k: nat)
    ensures Sum(Slice([h] + s, k)) == if k == 0 then h + Sum(Slice(s, 0)) else Sum(Slice(s, k - 1))
  {
    if k == 0 {
      SliceSteps([h] + s, 0);
      assert Slice([h] + s, 1) == Slice(s, 0);
    } else {
      assert Slice([h] + s, k) == Slice(s, k - 1);
    }
  }

  /** What t owes past its first k charges, when t is s with one more charge of x. */
  ghost predicate PaysFor(t: seq<int>, x: int, s: seq<int>, k: nat) {
    Sum(Slice(t, k)) == if k == 0 then x + Sum(Slice(s, 0)) else Cheaper(Sum(Slice(s, k - 1)), x + Sum(Slice(s, k)))
  }

  lemma FirstPays(x: int, s: seq<int>, k: nat)
    requires x >= 0 && (0 < k <= |s| ==> x >= s[k - 1])
    ensures PaysFor([x] + s, x, s, k)
  {
    SliceAfter(x, s, k);
    if 0 < k <= |s| { SliceSteps(s, k - 1); }
  }

  lemma LaterPays(h: int, t: seq<int>, x: int, s: seq<int>, k: nat)
    requires h >= x && PaysFor(t, x, s, if k == 0 then 0 else k - 1)
    ensures PaysFor([h] + t, x, [h] + s, k)
  {
    SliceAfter(h, t, k);
    SliceAfter(h, s, k);
    if k > 0 { SliceAfter(h, s, k - 1); }
  }

  /** In descending order, adding one more charge follows the same recurrence as choosing the cheapest. */
  lemma {:induction false} InsertPays(x: int, s: seq<int>, k: nat)
    requires Sorted(s, Dearer) && x >= 0
    ensures PaysFor(Insert(x, s, Dearer), x, s, k)
  {
    if s == [] || Dearer(x, s[0]) {
      FirstIsDearest(s, k);
      FirstPays(x, s, k);
      assert Insert(x, s, Dearer) == [x] + s;
    } else {
      var h, rest := s[0], s[1..];
      assert s == [h] + rest;
      assert Insert(x, s, Dearer) == [h] + Insert(x, rest, Dearer);
      InsertPays(x, rest, if k == 0 then 0 else k - 1);
      LaterPays(h, Insert(x, rest, Dearer), x, rest, k);
    }
  }

  lemma FirstIsDearest(s: seq<int>, k: nat)
    requires Sorted(s, Dearer)
    ensures 0 < k <= |s| ==> s[0] >= s[k - 1]
  {
    if 1 < k <= |s| { assert Dearer(s[0], s[k - 1]); }
  }

  lemma {:induction false} DearestCovered(charges: seq<int>, places: nat)
    requires NonNegative(charges)
    ensures Sum(Slice(Sort(charges, Dearer), places)) == LeastCharge(charges, places)
  {
    if charges == [] {
    } else {
      DearestCovered(charges[1..], places);
      if places > 0 { DearestCovered(charges[1..], places - 1); }
      SortSorted(charges[1..], Dearer);
      InsertPays(charges[0], Sort(charges[1..], Dearer), places);
    }
  }

  /** So the order the children are given in cannot change the charge. */
  lemma ChargeOrderFree(a: seq<int>, b: seq<int>, places: nat)
    requires multiset(a) == multiset(b) && NonNegative(a) && NonNegative(b)
    ensures LeastCharge(a, places) == LeastCharge(b, places)
  {
    SortKeepsElements(a, Dearer);
    SortKeepsElements(b, Dearer);
    SortSorted(a, Dearer);
    SortSorted(b, Dearer);
    SortedUnique(Sort(a, Dearer), Sort(b, Dearer), Dearer);
    DearestCovered(a, places);
    DearestCovered(b, places);
  }

  // ---- a night's charges ----

  /** Math.round of the share, which for these amounts is half up. */
  function SupplementMinor(rule: Supplement, adultMinor: int): int {
    match rule
    case Fixed(amount) => amount
    case Percent(points) => (adultMinor * points + 5_000) / 10_000
  }

  /** The first band that takes the age. */
  function BandOf(bands: seq<ChildBand>, age: int): Option<ChildBand> {
    if bands == [] then None else if Covers(bands[0], age) then Some(bands[0]) else BandOf(bands[1..], age)
  }

  function BandCharge(room: RoomPolicy, age: int): int {
    match BandOf(room.childBands, age)
    case None => 0
    case Some(b) => SupplementMinor(b.accommodation, room.extraAdultMinor)
  }

  function MealCharge(room: RoomPolicy, meal: MealPolicy, age: int): int {
    match BandOf(room.childBands, age)
    case None => 0
    case Some(b) =>
      if meal.code == RO || b.id !in meal.childMeals then 0
      else SupplementMinor(meal.childMeals[b.id], meal.adultMealMinor)
  }

  function ChildCharges(room: RoomPolicy, ages: seq<int>): (r: seq<int>)
    ensures |r| == |ages|
  {
    seq(|ages|, i requires 0 <= i < |ages| => BandCharge(room, ages[i]))
  }

  function MealCharges(room: RoomPolicy, meal: MealPolicy, ages: seq<int>): (r: seq<int>)
    ensures |r| == |ages|
  {
    seq(|ages|, i requires 0 <= i < |ages| => MealCharge(room, meal, ages[i]))
  }

  function Above(n: int, limit: int): nat {
    if n > limit then n - limit else 0
  }

  /** The included places children may use: their own, and those the adults leave when the policy lets them. */
  function Places(room: RoomPolicy, adults: int): int {
    room.includedChildren + if room.childUsesAdultPlace then Above(room.includedAdults, adults) else 0
  }

  ghost predicate AgesCovered(q: Request) {
    forall i :: 0 <= i < |q.guests.childAges| ==> HasBand(q.room.childBands, q.guests.childAges[i])
  }

  /** What a request must meet to be priced at all. */
  ghost predicate Priced(q: Request) {
    && RoomValid(q.room) && MealValid(q.meal, q.room.childBands)
    && ValidMoney(q.baseNetMinor) && (q.roomMealOverrideMinor.Some? ==> ValidMoney(q.roomMealOverrideMinor.value))
    && GuestsValid(q.guests) && GuestsFit(q.room.capacity, q.guests) && AgesCovered(q)
  }

  predicate GuestsValid(g: GuestMix) {
    && ValidCount(g.adults) && ValidCount(g.extraBeds) && ValidCount(g.cots) && ValidCount(|g.childAges|)
    && forall i :: 0 <= i < |g.childAges| ==> 0 <= g.childAges[i] <= 17
  }

  predicate GuestsFit(c: RoomCapacity, g: GuestMix) {
    var total := g.adults + |g.childAges|;
    && 0 < total <= c.absoluteGuests && total <= c.normalGuests + g.extraBeds + g.cots
    && g.adults <= c.maxAdults && |g.childAges| <= c.maxChildren
    && g.extraBeds <= c.maxExtraBeds && g.cots <= c.maxCots
  }

  function ExtraChildren(q: Request): int
    requires 0 <= Places(q.room, q.guests.adults)
  {
    LeastCharge(ChildCharges(q.room, q.guests.childAges), Places(q.room, q.guests.adults))
  }

  function AdultMeals(q: Request): int {
    (if q.meal.mode == Derived then q.guests.adults
     else Above(q.guests.adults, q.room.includedAdults)) * q.meal.adultMealMinor
  }

  function ChildMeals(q: Request): int
    requires 0 <= q.room.includedChildren
  {
    LeastCharge(MealCharges(q.room, q.meal, q.guests.childAges),
                if q.meal.mode == Derived then 0 else q.room.includedChildren)
  }

  /** Room and meals, before any adjustment. */
  function Core(q: Request): int
    requires 0 <= q.room.includedChildren
  {
    q.baseNetMinor + Above(q.guests.adults, q.room.includedAdults) * q.room.extraAdultMinor + ExtraChildren(q)
      + AdultMeals(q) + ChildMeals(q)
  }

  function RoomMealNet(q: Request): int
    requires 0 <= q.room.includedChildren
  {
    if q.roomMealOverrideMinor.Some? then q.roomMealOverrideMinor.value else Core(q)
  }

  function BedNet(q: Request): int {
    q.guests.extraBeds * q.room.extraBedMinor + q.guests.cots * q.room.cotMinor
  }

  function LinesTotal(lines: seq<Line>): int {
    if lines == [] then 0 else LinesTotal(lines[..|lines| - 1]) + lines[|lines| - 1].amountMinor
  }

  /** The quote's lines: a rate typed over the night shows as an adjustment. */
  function QuoteLines(q: Request): seq<Line>
    requires 0 <= q.room.includedChildren
  {
    [Line(Accommodation, q.baseNetMinor),
     Line(ExtraAdults, Above(q.guests.adults, q.room.includedAdults) * q.room.extraAdultMinor),
     Line(Children, ExtraChildren(q)), Line(Meals, AdultMeals(q) + ChildMeals(q))]
    + (if q.roomMealOverrideMinor.Some? then [Line(Adjustment, q.roomMealOverrideMinor.value - Core(q))] else [])
    + [Line(ExtraBeds, q.guests.extraBeds * q.room.extraBedMinor), Line(Cots, q.guests.cots * q.room.cotMinor)]
  }

  function Reason(q: Request): Option<string> {
    if q.overrideReason.Some? && Trimmed(q.overrideReason.value) != ""
    then Some(Trimmed(q.overrideReason.value))
    else None
  }

  /** A request priced: what its quote says. */
  ghost predicate IsQuote(q: Request, n: NightQuote)
    requires 0 <= q.room.includedChildren
  {
    && n.roomMealNetMinor == RoomMealNet(q) && n.bedNetMinor == BedNet(q)
    && n.totalNetMinor == RoomMealNet(q) + BedNet(q) && n.lines == QuoteLines(q)
    && n.minimumNetMinor == q.meal.minimumNetMinor && n.belowMinimum == (RoomMealNet(q) < q.meal.minimumNetMinor)
    && n.eligible == (!n.belowMinimum || (q.mayOverrideMinimum && Reason(q).Some?))
    && n.issues == (if n.eligible then [] else [Issue("price", "minimum_net_rate")])
    && n.exceptionReason == if n.belowMinimum && q.mayOverrideMinimum then Reason(q) else None
  }

  function Refusal(issues: seq<Issue>, minimum: int): NightQuote {
    NightQuote(false, issues, [], 0, 0, 0, minimum, false, None)
  }

  /** The policy, the prices and the guests' numbers are in order, whether or not the guests fit. */
  ghost predicate MayAsk(q: Request) {
    && RoomValid(q.room) && MealValid(q.meal, q.room.childBands) && GuestsValid(q.guests)
    && ValidMoney(q.baseNetMinor) && (q.roomMealOverrideMinor.Some? ==> ValidMoney(q.roomMealOverrideMinor.value))
  }

  function Fault(wrong: bool, field: string, code: string): (issues: seq<Issue>)
    ensures issues == [] <==> !wrong
  {
    if wrong then [Issue(field, code)] else []
  }

  /** What is wrong with the guests of a request, each fault under its own code: who they are, where they would
      sleep, and an age without a band. */
  ghost function GuestFaults(q: Request): (issues: seq<Issue>)
    requires GuestsValid(q.guests)
    ensures issues == [] <==> GuestsFit(q.room.capacity, q.guests) && AgesCovered(q)
  {
    PartyFaults(q.guests, q.room.capacity) + PlaceFaults(q.guests, q.room.capacity)
    + Fault(!AgesCovered(q), "childAges", "missing_age_rule")
  }

  function PartyFaults(g: GuestMix, c: RoomCapacity): seq<Issue> {
    Fault(g.adults + |g.childAges| == 0, "guests", "empty_room")
    + Fault(g.adults > c.maxAdults, "adults", "adult_limit")
    + Fault(|g.childAges| > c.maxChildren, "childAges", "child_limit")
  }

  function PlaceFaults(g: GuestMix, c: RoomCapacity): seq<Issue> {
    Fault(g.extraBeds > c.maxExtraBeds || g.cots > c.maxCots, "beds", "bed_limit")
    + Fault(g.adults + |g.childAges| > c.absoluteGuests, "guests", "absolute_capacity")
    + Fault(g.adults + |g.childAges| > c.normalGuests + g.extraBeds + g.cots, "beds", "additional_bed_required")
  }

  method CheckParty(g: GuestMix, c: RoomCapacity) returns (issues: seq<Issue>)
    ensures issues == PartyFaults(g, c)
  {
    issues := [];
    if g.adults + |g.childAges| == 0 { issues := issues + [Issue("guests", "empty_room")]; }
    if g.adults > c.maxAdults { issues := issues + [Issue("adults", "adult_limit")]; }
    if |g.childAges| > c.maxChildren { issues := issues + [Issue("childAges", "child_limit")]; }
  }

  method CheckPlaces(g: GuestMix, c: RoomCapacity) returns (issues: seq<Issue>)
    ensures issues == PlaceFaults(g, c)
  {
    var total := g.adults + |g.childAges|;
    issues := [];
    if g.extraBeds > c.maxExtraBeds || g.cots > c.maxCots { issues := issues + [Issue("beds", "bed_limit")]; }
    if total > c.absoluteGuests { issues := issues + [Issue("guests", "absolute_capacity")]; }
    if total > c.normalGuests + g.extraBeds + g.cots { issues := issues + [Issue("beds", "additional_bed_required")]; }
  }

  method CheckGuests(q: Request) returns (issues: seq<Issue>)
    requires GuestsValid(q.guests)
    ensures issues == GuestFaults(q)
  {
    var g := q.guests;
    issues := CheckParty(g, q.room.capacity);
    var places := CheckPlaces(g, q.room.capacity);
    issues := issues + places;
    forall i | 0 <= i < |g.childAges|
      ensures BandOf(q.room.childBands, g.childAges[i]).Some? <==> HasBand(q.room.childBands, g.childAges[i])
    {
      BandFound(q.room.childBands, g.childAges[i]);
    }
    if exists i :: 0 <= i < |g.childAges| && BandOf(q.room.childBands, g.childAges[i]).None? {
      issues := issues + [Issue("childAges", "missing_age_rule")];
    }
  }

  method QuoteSmartNight(q: Request) returns (quote: NightQuote)
    ensures Priced(q) ==> IsQuote(q, quote)
    ensures !Priced(q) ==> quote.issues != [] && quote == Refusal(quote.issues, q.meal.minimumNetMinor)
    ensures MayAsk(q) && !Priced(q) ==> quote.issues == GuestFaults(q)
  {
    var room, meal, guests := q.room, q.meal, q.guests;
    var issues := ValidateSmartPolicy(room, Some(meal));
    if !ValidMoney(q.baseNetMinor) || (q.roomMealOverrideMinor.Some? && !ValidMoney(q.roomMealOverrideMinor.value)) {
      issues := issues + [Issue("price", "invalid_amount")];
    }
    if !GuestsValid(guests) { issues := issues + [Issue("guests", "invalid_guests")]; }
    if issues != [] { return Refusal(issues, meal.minimumNetMinor); }
    issues := CheckGuests(q);
    if issues != [] { return Refusal(issues, meal.minimumNetMinor); }
    var childCharges := Sort(ChildCharges(room, guests.childAges), Dearer);
    var extraChildren := Sum(Slice(childCharges, Places(room, guests.adults)));
    var extraAdults := Above(guests.adults, room.includedAdults) * room.extraAdultMinor;
    var allChildMeals := Sort(MealCharges(room, meal, guests.childAges), Dearer);
    var adultMeals :=
      (if meal.mode == Derived then guests.adults
       else Above(guests.adults, room.includedAdults)) * meal.adultMealMinor;
    var childMeals := Sum(if meal.mode == Derived then allChildMeals else Slice(allChildMeals, room.includedChildren));
    ChargesNonNegative(q);
    DearestCovered(ChildCharges(room, guests.childAges), Places(room, guests.adults));
    assert Slice(allChildMeals, 0) == allChildMeals;
    DearestCovered(MealCharges(room, meal, guests.childAges),
                   if meal.mode == Derived then 0 else room.includedChildren);
    quote := Assemble(q, extraAdults, extraChildren, adultMeals + childMeals);
  }

  method Assemble(q: Request, extraAdults: int, extraChildren: int, meals: int) returns (quote: NightQuote)
    requires 0 <= q.room.includedChildren
    requires extraAdults == Above(q.guests.adults, q.room.includedAdults) * q.room.extraAdultMinor
    requires extraChildren == ExtraChildren(q) && meals == AdultMeals(q) + ChildMeals(q)
    ensures IsQuote(q, quote)
  {
    var issues: seq<Issue> := [];
    var lines := [Line(Accommodation, q.baseNetMinor), Line(ExtraAdults, extraAdults), Line(Children, extraChildren),
        Line(Meals, meals)];
    var core := q.baseNetMinor + extraAdults + extraChildren + meals;
    if q.roomMealOverrideMinor.Some? {
      lines := lines + [Line(Adjustment, q.roomMealOverrideMinor.value - core)];
      core := q.roomMealOverrideMinor.value;
    }
    var beds, cots := q.guests.extraBeds * q.room.extraBedMinor, q.guests.cots * q.room.cotMinor;
    lines := lines + [Line(ExtraBeds, beds), Line(Cots, cots)];
    var belowMinimum := core < q.meal.minimumNetMinor;
    var reason := Reason(q);
    if belowMinimum && (!q.mayOverrideMinimum || reason.None?) { issues := [Issue("price", "minimum_net_rate")]; }
    quote := NightQuote(issues == [], issues, lines, core, beds + cots, core + beds + cots, q.meal.minimumNetMinor,
                        belowMinimum, if belowMinimum && q.mayOverrideMinimum then reason else None);
  }

  lemma {:induction false} LinesJoin(a: seq<Line>, b: seq<Line>)
    ensures LinesTotal(a + b) == LinesTotal(a) + LinesTotal(b)
  {
    if b == [] {
      assert a + b == a;
    } else {
      LinesJoin(a, b[..|b| - 1]);
      assert (a + b)[..|a + b| - 1] == a + b[..|b| - 1];
    }
  }

  /** The lines account for every unit of the total, whether the rate was typed over or not. */
  lemma LinesAddUp(q: Request)
    requires 0 <= q.room.includedChildren
    ensures LinesTotal(QuoteLines(q)) == RoomMealNet(q) + BedNet(q)
  {
    var head := QuoteLines(q)[..4];
    var beds := QuoteLines(q)[|QuoteLines(q)| - 2..];
    var mid :=
      if q.roomMealOverrideMinor.Some? then [Line(Adjustment, q.roomMealOverrideMinor.value - Core(q))] else [];
    LinesJoin(head[..2], head[2..]);
    assert head == head[..2] + head[2..];
    LinesJoin(head, mid);
    LinesJoin(head + mid, beds);
    assert QuoteLines(q) == head + mid + beds;
    assert LinesTotal(head[..2]) == head[0].amountMinor + head[1].amountMinor;
    assert LinesTotal(head[2..]) == head[2].amountMinor + head[3].amountMinor;
    assert LinesTotal(beds) == beds[0].amountMinor + beds[1].amountMinor;
  }

  lemma {:induction false} BandFound(bands: seq<ChildBand>, age: int)
    ensures BandOf(bands, age).Some? <==> HasBand(bands, age)
    ensures BandOf(bands, age).Some? ==> BandOf(bands, age).value in bands && Covers(BandOf(bands, age).value, age)
  {
    if bands == [] {
    } else {
      BandFound(bands[1..], age);
      if HasBand(bands, age) && !Covers(bands[0], age) {
        var i :| 0 <= i < |bands| && Covers(bands[i], age);
        assert Covers(bands[1..][i - 1], age);
      }
      if HasBand(bands[1..], age) {
        var i :| 0 <= i < |bands| - 1 && Covers(bands[1..][i], age);
        assert Covers(bands[i + 1], age);
      }
    }
  }

  lemma SupplementNonNegative(rule: Supplement, adultMinor: int)
    requires SupplementValid(rule) && adultMinor >= 0
    ensures SupplementMinor(rule, adultMinor) >= 0
  {
    if rule.Percent? { assert adultMinor * rule.basisPoints >= 0; }
  }

  lemma ChargesNonNegative(q: Request)
    requires RoomValid(q.room) && MealValid(q.meal, q.room.childBands)
    ensures NonNegative(ChildCharges(q.room, q.guests.childAges))
    ensures NonNegative(MealCharges(q.room, q.meal, q.guests.childAges))
  {
    forall i | 0 <= i < |q.guests.childAges|
      ensures BandCharge(q.room, q.guests.childAges[i]) >= 0 && MealCharge(q.room, q.meal, q.guests.childAges[i]) >= 0
    {
      ChargeNonNegative(q, q.guests.childAges[i]);
    }
  }

  lemma ChargeNonNegative(q: Request, age: int)
    requires RoomValid(q.room) && MealValid(q.meal, q.room.childBands)
    ensures BandCharge(q.room, age) >= 0 && MealCharge(q.room, q.meal, age) >= 0
  {
    BandFound(q.room.childBands, age);
    var found := BandOf(q.room.childBands, age);
    if found.Some? {
      SupplementNonNegative(found.value.accommodation, q.room.extraAdultMinor);
      if q.meal.code != RO { SupplementNonNegative(q.meal.childMeals[found.value.id], q.meal.adultMealMinor); }
    }
  }

  // ---- what a quote promises ----

  /** The children's accommodation is the least any choice of who uses the included places would cost. */
  lemma {:induction false} ChildrenPayLeast(q: Request, placed: seq<bool>) returns (best: seq<bool>)
    requires Priced(q) && |placed| == |q.guests.childAges| && Placed(placed) <= Places(q.room, q.guests.adults)
    ensures ExtraChildren(q) <= Uncovered(ChildCharges(q.room, q.guests.childAges), placed)
    ensures |best| == |q.guests.childAges| && Placed(best) <= Places(q.room, q.guests.adults)
    ensures ExtraChildren(q) == Uncovered(ChildCharges(q.room, q.guests.childAges), best)
  {
    ChargesNonNegative(q);
    LeastIsLeast(ChildCharges(q.room, q.guests.childAges), Places(q.room, q.guests.adults), placed);
    best := LeastIsReached(ChildCharges(q.room, q.guests.childAges), Places(q.room, q.guests.adults));
  }

  function WithAges(q: Request, ages: seq<int>): Request {
    q.(guests := q.guests.(childAges := ages))
  }

  function WithBands(q: Request, bands: seq<ChildBand>): Request {
    q.(room := q.room.(childBands := bands))
  }

  function Mapped(f: int -> int, s: seq<int>): (r: seq<int>)
    ensures |r| == |s|
  {
    seq(|s|, i requires 0 <= i < |s| => f(s[i]))
  }

  lemma MappedJoins(f: int -> int, a: seq<int>, b: seq<int>)
    ensures Mapped(f, a + b) == Mapped(f, a) + Mapped(f, b)
  {}

  lemma IndexIn(b: seq<int>, x: int) returns (k: nat)
    requires x in multiset(b)
    ensures k < |b| && b[k] == x
  {
    k :| k < |b| && b[k] == x;
  }

  lemma TakeOut(s: seq<int>, k: nat)
    requires k < |s|
    ensures multiset(s[..k] + s[k + 1..]) == multiset(s) - multiset{s[k]}
  {
    assert s == s[..k] + [s[k]] + s[k + 1..];
  }

  lemma TakeFirst(s: seq<int>)
    requires s != []
    ensures multiset(s[1..]) == multiset(s) - multiset{s[0]}
  {
    assert s == [s[0]] + s[1..];
  }

  lemma WithoutFirst(a: seq<int>, b: seq<int>) returns (k: nat)
    requires a != [] && multiset(a) == multiset(b)
    ensures k < |b| && b[k] == a[0] && multiset(a[1..]) == multiset(b[..k] + b[k + 1..])
  {
    k := IndexIn(b, a[0]);
    TakeFirst(a);
    TakeOut(b, k);
  }

  lemma {:induction false} MappedPermutes(f: int -> int, a: seq<int>, b: seq<int>)
    requires multiset(a) == multiset(b)
    ensures multiset(Mapped(f, a)) == multiset(Mapped(f, b))
  {
    if a == [] {
      assert |b| == |multiset(b)| == 0;
    } else {
      var k := WithoutFirst(a, b);
      var left, right := b[..k], b[k + 1..];
      MappedPermutes(f, a[1..], left + right);
      MappedJoins(f, [a[0]], a[1..]);
      MappedJoins(f, left, right);
      MappedJoins(f, left, [a[0]] + right);
      MappedJoins(f, [a[0]], right);
      assert a == [a[0]] + a[1..] && b == left + ([a[0]] + right);
    }
  }

  lemma ChargesPermute(q: Request, ages: seq<int>)
    requires multiset(ages) == multiset(q.guests.childAges)
    ensures multiset(ChildCharges(q.room, ages)) == multiset(ChildCharges(q.room, q.guests.childAges))
    ensures multiset(MealCharges(q.room, q.meal, ages)) == multiset(MealCharges(q.room, q.meal, q.guests.childAges))
  {
    var stay, meal := (age => BandCharge(q.room, age)), (age => MealCharge(q.room, q.meal, age));
    MappedPermutes(stay, ages, q.guests.childAges);
    MappedPermutes(meal, ages, q.guests.childAges);
    assert Mapped(stay, ages) == ChildCharges(q.room, ages);
    assert Mapped(stay, q.guests.childAges) == ChildCharges(q.room, q.guests.childAges);
    assert Mapped(meal, ages) == MealCharges(q.room, q.meal, ages);
    assert Mapped(meal, q.guests.childAges) == MealCharges(q.room, q.meal, q.guests.childAges);
  }

  lemma SameMembers<T>(a: seq<T>, b: seq<T>)
    requires multiset(a) == multiset(b)
    ensures |a| == |b| && (forall i :: 0 <= i < |a| ==> a[i] in b) && forall i :: 0 <= i < |b| ==> b[i] in a
  {
    assert |a| == |multiset(a)| && |b| == |multiset(b)|;
    forall i | 0 <= i < |a| ensures a[i] in b { assert a[i] in multiset(b); }
    forall i | 0 <= i < |b| ensures b[i] in a { assert b[i] in multiset(a); }
  }

  /** The order the children are entered in changes nothing a quote says. */
  lemma EntryOrderFree(q: Request, ages: seq<int>, n: NightQuote)
    requires multiset(ages) == multiset(q.guests.childAges)
    ensures Priced(q) <==> Priced(WithAges(q, ages))
    ensures Priced(q) ==> (IsQuote(q, n) <==> IsQuote(WithAges(q, ages), n))
  {
    var r := WithAges(q, ages);
    if Priced(q) {
      AgesStillPrice(q, ages);
      ChargesOrderFree(q, ages);
      SameNumbers(q, r, n);
    }
    if Priced(r) {
      assert WithAges(r, q.guests.childAges) == q;
      AgesStillPrice(r, q.guests.childAges);
    }
  }

  lemma ChargesOrderFree(q: Request, ages: seq<int>)
    requires multiset(ages) == multiset(q.guests.childAges)
    requires RoomValid(q.room) && MealValid(q.meal, q.room.childBands)
    ensures ExtraChildren(WithAges(q, ages)) == ExtraChildren(q) && ChildMeals(WithAges(q, ages)) == ChildMeals(q)
  {
    ChargesPermute(q, ages);
    ChargesNonNegative(q);
    ChargesNonNegative(WithAges(q, ages));
    ChargeOrderFree(ChildCharges(q.room, ages), ChildCharges(q.room, q.guests.childAges),
        Places(q.room, q.guests.adults));
    ChargeOrderFree(MealCharges(q.room, q.meal, ages), MealCharges(q.room, q.meal, q.guests.childAges),
                    if q.meal.mode == Derived then 0 else q.room.includedChildren);
  }

  lemma AgesStillPrice(q: Request, ages: seq<int>)
    requires multiset(ages) == multiset(q.guests.childAges) && Priced(q)
    ensures Priced(WithAges(q, ages))
  {
    SameMembers(ages, q.guests.childAges);
    forall i | 0 <= i < |ages| ensures 0 <= ages[i] <= 17 && HasBand(q.room.childBands, ages[i]) {
      assert ages[i] in q.guests.childAges;
    }
  }

  /** In a valid policy one band at most takes an age, so the order of the bands does not matter. */
  lemma OneBand(bands: seq<ChildBand>, a: ChildBand, b: ChildBand, age: int)
    requires BandsValid(bands) && a in bands && b in bands && Covers(a, age) && Covers(b, age)
    ensures a == b
  {
    var i :| 0 <= i < |bands| && bands[i] == a;
    var j :| 0 <= j < |bands| && bands[j] == b;
    assert !Apart(bands[i], bands[j]) && !Apart(bands[j], bands[i]);
  }

  lemma BandOrder(bands: seq<ChildBand>, other: seq<ChildBand>, age: int)
    requires BandsValid(bands) && multiset(bands) == multiset(other)
    ensures BandOf(bands, age) == BandOf(other, age) && (HasBand(bands, age) <==> HasBand(other, age))
  {
    SameMembers(bands, other);
    BandFound(bands, age);
    BandFound(other, age);
    var a, b := BandOf(bands, age), BandOf(other, age);
    if a.Some? {
      var i :| 0 <= i < |other| && other[i] == a.value;
      assert Covers(other[i], age);
    }
    if b.Some? {
      var i :| 0 <= i < |bands| && bands[i] == b.value;
      assert Covers(bands[i], age);
    }
    if a.Some? && b.Some? { OneBand(bands, a.value, b.value, age); }
  }

  lemma BandsStayValid(bands: seq<ChildBand>, other: seq<ChildBand>)
    requires BandsValid(bands) && multiset(bands) == multiset(other)
    ensures BandsValid(other)
  {
    SameMembers(bands, other);
    assert NoRepeats(bands);
    forall i, j | 0 <= i < j < |other| ensures Apart(other[i], other[j]) {
      assert other[i] in bands && other[j] in bands;
      NoRepeatsCounts(bands, other[i]);
      if other[i] == other[j] { RepeatCounts(other, i, j); }
      var k :| 0 <= k < |bands| && bands[k] == other[i];
      var l :| 0 <= l < |bands| && bands[l] == other[j];
      assert k < l ==> Apart(bands[k], bands[l]);
      assert l < k ==> Apart(bands[l], bands[k]);
    }
    forall i | 0 <= i < |other| ensures BandValid(other[i]) { assert other[i] in bands; }
  }

  lemma BandsStillPrice(q: Request, bands: seq<ChildBand>)
    requires Priced(q) && multiset(bands) == multiset(q.room.childBands)
    ensures Priced(WithBands(q, bands))
  {
    BandsStayValid(q.room.childBands, bands);
    SameMembers(q.room.childBands, bands);
    forall age ensures HasBand(q.room.childBands, age) <==> HasBand(bands, age) {
      BandOrder(q.room.childBands, bands, age);
    }
    forall i | 0 <= i < |bands| ensures MealPriced(q.meal, bands[i]) {
      assert bands[i] in q.room.childBands;
    }
  }

  /** Nor does the order the policy lists its age bands in. */
  lemma BandOrderFree(q: Request, bands: seq<ChildBand>, n: NightQuote)
    requires Priced(q) && multiset(bands) == multiset(q.room.childBands)
    ensures Priced(WithBands(q, bands))
    ensures IsQuote(q, n) <==> IsQuote(WithBands(q, bands), n)
  {
    var r := WithBands(q, bands);
    BandsStillPrice(q, bands);
    BandsStillCharge(q, bands);
    SameNumbers(q, r, n);
  }

  /** A quote says nothing about the children but what they are charged. */
  lemma SameNumbers(q: Request, r: Request, n: NightQuote)
    requires 0 <= q.room.includedChildren
    requires r.(guests := q.guests, room := q.room) == q
    requires r.room.(childBands := q.room.childBands) == q.room
    requires r.guests.(childAges := q.guests.childAges) == q.guests
    requires ExtraChildren(r) == ExtraChildren(q) && ChildMeals(r) == ChildMeals(q)
    ensures IsQuote(q, n) <==> IsQuote(r, n)
  {
    assert Core(q) == Core(r) && BedNet(q) == BedNet(r);
    assert QuoteLines(q) == QuoteLines(r);
  }

  lemma BandsStillCharge(q: Request, bands: seq<ChildBand>)
    requires BandsValid(q.room.childBands) && multiset(bands) == multiset(q.room.childBands)
    ensures ChildCharges(WithBands(q, bands).room, q.guests.childAges) == ChildCharges(q.room, q.guests.childAges)
    ensures MealCharges(WithBands(q, bands).room, q.meal, q.guests.childAges)
              == MealCharges(q.room, q.meal, q.guests.childAges)
  {
    var ages := q.guests.childAges;
    forall i | 0 <= i < |ages| ensures BandOf(bands, ages[i]) == BandOf(q.room.childBands, ages[i]) {
      BandOrder(q.room.childBands, bands, ages[i]);
    }
  }

  lemma OneMoreCharge(charges: seq<int>, x: int, places: nat)
    requires NonNegative(charges) && x >= 0
    ensures LeastCharge(charges, places) <= LeastCharge([x] + charges, places)
  {
    assert ([x] + charges)[1..] == charges;
    if places > 0 { FewerPlaces(charges, places - 1); }
  }

  /** One more child in the same beds never lowers the price, wherever the child is listed. */
  lemma {:induction false} MoreChildren(q: Request, age: int, ages: seq<int>)
    requires q.roomMealOverrideMinor.None? && Priced(q) && Priced(WithAges(q, ages))
    requires multiset(ages) == multiset([age] + q.guests.childAges)
    ensures RoomMealNet(q) + BedNet(q) <= RoomMealNet(WithAges(q, ages)) + BedNet(WithAges(q, ages))
    ensures RoomMealNet(q) >= q.meal.minimumNetMinor ==> RoomMealNet(WithAges(q, ages)) >= q.meal.minimumNetMinor
  {
    var first := WithAges(q, [age] + q.guests.childAges);
    assert WithAges(first, ages) == WithAges(q, ages);
    ChargesOrderFree(first, ages);
    FirstChildCharged(q, age);
  }

  lemma FirstChildCharged(q: Request, age: int)
    requires RoomValid(q.room) && MealValid(q.meal, q.room.childBands)
    ensures var first := WithAges(q, [age] + q.guests.childAges);
            ExtraChildren(q) <= ExtraChildren(first) && ChildMeals(q) <= ChildMeals(first)
  {
    ChargesNonNegative(q);
    ChargeNonNegative(q, age);
    var charges, meals := ChildCharges(q.room, q.guests.childAges), MealCharges(q.room, q.meal, q.guests.childAges);
    assert ChildCharges(q.room, [age] + q.guests.childAges) == [BandCharge(q.room, age)] + charges;
    assert MealCharges(q.room, q.meal, [age] + q.guests.childAges) == [MealCharge(q.room, q.meal, age)] + meals;
    OneMoreCharge(charges, BandCharge(q.room, age), Places(q.room, q.guests.adults));
    OneMoreCharge(meals, MealCharge(q.room, q.meal, age),
                  if q.meal.mode == Derived then 0 else q.room.includedChildren);
  }

  /** One more adult never lowers it either, even one who takes a place a child was using. */
  lemma {:induction false} MoreAdults(q: Request)
    requires q.roomMealOverrideMinor.None? && Priced(q)
    requires Priced(q.(guests := q.guests.(adults := q.guests.adults + 1)))
    ensures var r := q.(guests := q.guests.(adults := q.guests.adults + 1));
            && RoomMealNet(q) + BedNet(q) <= RoomMealNet(r) + BedNet(r)
            && (RoomMealNet(q) >= q.meal.minimumNetMinor ==> RoomMealNet(r) >= q.meal.minimumNetMinor)
  {
    var r := q.(guests := q.guests.(adults := q.guests.adults + 1));
    ChargesNonNegative(q);
    var fewer, more := Places(r.room, r.guests.adults), Places(q.room, q.guests.adults);
    if fewer < more { FewerPlaces(ChildCharges(q.room, q.guests.childAges), fewer); }
    AboveGrows(q.guests.adults, q.room.includedAdults, q.room.extraAdultMinor);
    AboveGrows(q.guests.adults, q.room.includedAdults, q.meal.adultMealMinor);
  }

  lemma AboveGrows(n: int, limit: int, each: int)
    requires each >= 0
    ensures Above(n, limit) * each <= Above(n + 1, limit) * each
    ensures n * each <= (n + 1) * each
  {
    if n >= limit { assert Above(n + 1, limit) == Above(n, limit) + 1; }
    assert (n + 1) * each == n * each + each;
  }
}
