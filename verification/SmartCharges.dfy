/** What a smart quote charges, guest by guest, in terms of the policy alone
    (packages/domain/src/smart-property.ts). */
module SmartCharges {
  import opened Money
  import opened SmartPolicy
  import opened SmartQuote
  import opened Wrappers
  import opened Text

  // ---- one supplement ----

  /** A fixed supplement is its amount; a share of the adult's charge, in hundredths of a percent, is the nearest
      whole unit, a half going up. */
  predicate Charges(rule: Supplement, adultMinor: int, charge: int) {
    match rule
    case Fixed(amount) => charge == amount
    case Percent(points) => 10_000 * charge - 5_000 <= adultMinor * points < 10_000 * charge + 5_000
  }

  lemma SupplementCharges(rule: Supplement, adultMinor: int, charge: int)
    ensures Charges(rule, adultMinor, charge) <==> SupplementMinor(rule, adultMinor) == charge
  {
    if rule.Percent? {
      var x := adultMinor * rule.basisPoints;
      assert Charges(rule, adultMinor, charge) <==> 10_000 * charge <= x + 5_000 < 10_000 * charge + 10_000;
    }
  }

  /** A whole share is the adult's charge, and a larger share never charges less. */
  lemma ShareGrows(points: int, more: int, adultMinor: int)
    requires adultMinor >= 0 && points <= more
    ensures SupplementMinor(Percent(10_000), adultMinor) == adultMinor
    ensures SupplementMinor(Percent(points), adultMinor) <= SupplementMinor(Percent(more), adultMinor)
  {
    SupplementCharges(Percent(10_000), adultMinor, adultMinor);
    var less, other := SupplementMinor(Percent(points), adultMinor), SupplementMinor(Percent(more), adultMinor);
    SupplementCharges(Percent(points), adultMinor, less);
    SupplementCharges(Percent(more), adultMinor, other);
    assert adultMinor * points <= adultMinor * more;
  }

  // ---- one child ----

  /** What the band of an age charges for the bed, and what the plan charges for its meals. */
  ghost predicate BedCharge(room: RoomPolicy, age: int, charge: int) {
    exists i :: 0 <= i < |room.childBands| && room.childBands[i].minAge <= age <= room.childBands[i].maxAge
      && Charges(room.childBands[i].accommodation, room.extraAdultMinor, charge)
  }

  ghost predicate BoardCharge(room: RoomPolicy, meal: MealPolicy, age: int, charge: int) {
    if meal.code == RO then charge == 0
    else
      exists i :: 0 <= i < |room.childBands| && room.childBands[i].minAge <= age <= room.childBands[i].maxAge
        && room.childBands[i].id in meal.childMeals
        && Charges(meal.childMeals[room.childBands[i].id], meal.adultMealMinor, charge)
  }

  lemma BandIs(bands: seq<ChildBand>, i: nat, age: int)
    requires BandsValid(bands) && i < |bands| && bands[i].minAge <= age <= bands[i].maxAge
    ensures BandOf(bands, age) == Some(bands[i])
  {
    BandFound(bands, age);
    assert Covers(bands[i], age);
    OneBand(bands, BandOf(bands, age).value, bands[i], age);
  }

  lemma BedCharged(room: RoomPolicy, age: int, charge: int)
    requires BandsValid(room.childBands) && HasBand(room.childBands, age)
    ensures BedCharge(room, age, charge) <==> BandCharge(room, age) == charge
  {
    var i :| 0 <= i < |room.childBands| && Covers(room.childBands[i], age);
    BandIs(room.childBands, i, age);
    SupplementCharges(room.childBands[i].accommodation, room.extraAdultMinor, charge);
    if BedCharge(room, age, charge) {
      var k :| 0 <= k < |room.childBands| && room.childBands[k].minAge <= age <= room.childBands[k].maxAge
        && Charges(room.childBands[k].accommodation, room.extraAdultMinor, charge);
      BandIs(room.childBands, k, age);
    }
  }

  lemma BoardCharged(room: RoomPolicy, meal: MealPolicy, age: int, charge: int)
    requires BandsValid(room.childBands) && HasBand(room.childBands, age) && MealValid(meal, room.childBands)
    ensures BoardCharge(room, meal, age, charge) <==> MealCharge(room, meal, age) == charge
  {
    var i :| 0 <= i < |room.childBands| && Covers(room.childBands[i], age);
    BandIs(room.childBands, i, age);
    if meal.code != RO {
      assert MealPriced(meal, room.childBands[i]);
      SupplementCharges(meal.childMeals[room.childBands[i].id], meal.adultMealMinor, charge);
      if BoardCharge(room, meal, age, charge) {
        var k :| 0 <= k < |room.childBands| && room.childBands[k].minAge <= age <= room.childBands[k].maxAge
          && room.childBands[k].id in meal.childMeals
          && Charges(meal.childMeals[room.childBands[k].id], meal.adultMealMinor, charge);
        BandIs(room.childBands, k, age);
      }
    }
  }

  // ---- a whole night ----

  /** The least these children pay when as many of them as there are places pay nothing. */
  ghost predicate LeastPaid(charges: seq<int>, places: nat, paid: int) {
    && (forall placed: seq<bool> :: |placed| == |charges| && Placed(placed) <= places ==>
          paid <= Uncovered(charges, placed))
    && exists placed: seq<bool> ::
         |placed| == |charges| && Placed(placed) <= places && paid == Uncovered(charges, placed)
  }

  lemma {:induction false} LeastChargePaid(charges: seq<int>, places: nat, paid: int)
    requires NonNegative(charges)
    ensures LeastPaid(charges, places, paid) <==> LeastCharge(charges, places) == paid
  {
    var best := LeastIsReached(charges, places);
    forall placed: seq<bool> | |placed| == |charges| && Placed(placed) <= places
      ensures LeastCharge(charges, places) <= Uncovered(charges, placed)
    {
      LeastIsLeast(charges, places, placed);
    }
  }

  /** The places children may use: the children's own and, where the policy lets them, those the adults leave. */
  function ChildPlaces(q: Request): nat
    requires 0 <= q.room.includedChildren
  {
    if q.room.childUsesAdultPlace && q.guests.adults < q.room.includedAdults
    then q.room.includedChildren + (q.room.includedAdults - q.guests.adults)
    else q.room.includedChildren
  }

  function AdultsBeyond(q: Request): nat {
    if q.guests.adults > q.room.includedAdults then q.guests.adults - q.room.includedAdults else 0
  }

  /** Every guest of a night and what they are charged: the extra adults each the adult's charge; the children what
      their bands charge, the included places covering whichever make it least; meals for every adult, or, in a plan
      that includes them, for the extra ones, and for the children likewise. */
  ghost predicate ChargedTo(q: Request, beds: seq<int>, boards: seq<int>, children: int, meals: int)
    requires 0 <= q.room.includedChildren
  {
    && |beds| == |q.guests.childAges| == |boards|
    && (forall i :: 0 <= i < |beds| ==> BedCharge(q.room, q.guests.childAges[i], beds[i]))
    && (forall i :: 0 <= i < |boards| ==> BoardCharge(q.room, q.meal, q.guests.childAges[i], boards[i]))
    && LeastPaid(beds, ChildPlaces(q), children)
    && LeastPaid(boards, if q.meal.mode == Derived then 0 else q.room.includedChildren,
                 meals - Fed(q) * q.meal.adultMealMinor)
  }

  lemma {:induction false} ChargesAre(q: Request, beds: seq<int>, boards: seq<int>)
    requires Priced(q) && |beds| == |q.guests.childAges| == |boards|
    ensures (forall i :: 0 <= i < |beds| ==> BedCharge(q.room, q.guests.childAges[i], beds[i])) <==>
              ChildCharges(q.room, q.guests.childAges) == beds
    ensures (forall i :: 0 <= i < |boards| ==> BoardCharge(q.room, q.meal, q.guests.childAges[i], boards[i])) <==>
              MealCharges(q.room, q.meal, q.guests.childAges) == boards
  {
    var ages := q.guests.childAges;
    forall i | 0 <= i < |ages|
      ensures BedCharge(q.room, ages[i], beds[i]) <==> BandCharge(q.room, ages[i]) == beds[i]
      ensures BoardCharge(q.room, q.meal, ages[i], boards[i]) <==> MealCharge(q.room, q.meal, ages[i]) == boards[i]
    {
      BedCharged(q.room, ages[i], beds[i]);
      BoardCharged(q.room, q.meal, ages[i], boards[i]);
    }
  }

  /** The children's line and the meals' line of a night are what the guests are charged, and nothing else. */
  lemma {:induction false} ChargedExactly(q: Request, beds: seq<int>, boards: seq<int>, children: int, meals: int)
    requires Priced(q) && |beds| == |q.guests.childAges| == |boards|
    ensures ChargedTo(q, beds, boards, children, meals) <==>
              && beds == ChildCharges(q.room, q.guests.childAges)
              && boards == MealCharges(q.room, q.meal, q.guests.childAges)
              && children == ExtraChildren(q) && meals == AdultMeals(q) + ChildMeals(q)
  {
    ChargesAre(q, beds, boards);
    if beds == ChildCharges(q.room, q.guests.childAges) && boards == MealCharges(q.room, q.meal, q.guests.childAges) {
      BedsPaid(q, children);
      BoardsPaid(q, meals);
    }
  }

  lemma {:induction false} BedsPaid(q: Request, children: int)
    requires Priced(q)
    ensures LeastPaid(ChildCharges(q.room, q.guests.childAges), ChildPlaces(q), children) <==>
              children == ExtraChildren(q)
  {
    ChargesNonNegative(q);
    LeastChargePaid(ChildCharges(q.room, q.guests.childAges), ChildPlaces(q), children);
  }

  function Fed(q: Request): int {
    if q.meal.mode == Derived then q.guests.adults else AdultsBeyond(q)
  }

  lemma {:induction false} BoardsPaid(q: Request, meals: int)
    requires Priced(q)
    ensures LeastPaid(MealCharges(q.room, q.meal, q.guests.childAges),
                      if q.meal.mode == Derived then 0 else q.room.includedChildren,
                      meals - Fed(q) * q.meal.adultMealMinor) <==>
              meals == AdultMeals(q) + ChildMeals(q)
  {
    ChargesNonNegative(q);
    LeastChargePaid(MealCharges(q.room, q.meal, q.guests.childAges),
                    if q.meal.mode == Derived then 0 else q.room.includedChildren,
                    meals - Fed(q) * q.meal.adultMealMinor);
  }

  /** The quote of a night, line by line: its base, the extra adults, the children, the meals, whatever a typed-over
      rate takes off or puts on, the beds and the cots. What is compared with the minimum is the room and its meals;
      below it, only someone allowed to, with a reason that is not blank, may sell. */
  lemma {:induction false} QuoteSays(q: Request, n: NightQuote)
      returns (beds: seq<int>, boards: seq<int>, children: int, meals: int)
    requires Priced(q) && IsQuote(q, n)
    ensures ChargedTo(q, beds, boards, children, meals)
    ensures var extra := AdultsBeyond(q) * q.room.extraAdultMinor;
            var core := q.baseNetMinor + extra + children + meals;
            var typed := q.roomMealOverrideMinor;
            && n.roomMealNetMinor == (if typed.Some? then typed.value else core)
            && n.bedNetMinor == q.guests.extraBeds * q.room.extraBedMinor + q.guests.cots * q.room.cotMinor
            && n.totalNetMinor == n.roomMealNetMinor + n.bedNetMinor
            && n.lines == [Line(Accommodation, q.baseNetMinor), Line(ExtraAdults, extra), Line(Children, children),
                           Line(Meals, meals)]
                          + (if typed.Some? then [Line(Adjustment, typed.value - core)] else [])
                          + [Line(ExtraBeds, q.guests.extraBeds * q.room.extraBedMinor),
                             Line(Cots, q.guests.cots * q.room.cotMinor)]
    ensures var reasoned := q.mayOverrideMinimum && q.overrideReason.Some? && !Blank(q.overrideReason.value);
            && n.minimumNetMinor == q.meal.minimumNetMinor
            && (n.belowMinimum <==> n.roomMealNetMinor < q.meal.minimumNetMinor)
            && (n.eligible <==> n.roomMealNetMinor >= q.meal.minimumNetMinor || reasoned)
            && n.issues == (if n.eligible then [] else [Issue("price", "minimum_net_rate")])
            && n.exceptionReason == (if n.belowMinimum && reasoned then Some(Trimmed(q.overrideReason.value)) else None)
  {
    beds, boards := ChildCharges(q.room, q.guests.childAges), MealCharges(q.room, q.meal, q.guests.childAges);
    children, meals := ExtraChildren(q), AdultMeals(q) + ChildMeals(q);
    ChargedExactly(q, beds, boards, children, meals);
  }

  // ---- the limits, in numbers ----

  /** A room whose policy may be sold: counts of at most a hundred, capacities and included guests that fit within
      one another, amounts of at most ten thousand million units, and bands of ages from 0 to 17 that, if children
      are taken, have every such age. */
  lemma RoomLimits(room: RoomPolicy)
    ensures var c := room.capacity;
            RoomValid(room) <==>
              && 0 <= c.maxAdults <= 100 && 0 <= c.maxChildren <= 100 && 0 <= c.maxExtraBeds <= 100
              && 0 <= c.maxCots <= 100 && 1 <= c.normalGuests <= c.absoluteGuests <= 100
              && c.maxAdults <= c.absoluteGuests && c.maxChildren <= c.absoluteGuests
              && c.normalGuests <= c.maxAdults + c.maxChildren
              && 0 <= room.includedAdults <= c.maxAdults && 0 <= room.includedChildren <= c.maxChildren
              && room.includedAdults + room.includedChildren <= c.normalGuests
              && 0 <= room.extraAdultMinor <= 10_000_000_000 && 0 <= room.extraBedMinor <= 10_000_000_000
              && 0 <= room.cotMinor <= 10_000_000_000 && BandsValid(room.childBands)
              && (c.maxChildren > 0 ==> forall age {:trigger HasBand(room.childBands, age)} ::
                    0 <= age <= 17 ==> HasBand(room.childBands, age))
  {
  }

  lemma BandLimits(b: ChildBand)
    ensures BandValid(b) <==>
              && Trimmed(b.id) != "" && Trimmed(b.name) != "" && 0 <= b.minAge <= b.maxAge <= 17
              && match b.accommodation
                 case Fixed(amount) => 0 <= amount <= 10_000_000_000
                 case Percent(points) => 0 <= points <= 100_000
  {
  }

  /** A room-only plan charges adults nothing for meals; any other has a rule for every band. */
  lemma MealLimits(meal: MealPolicy, bands: seq<ChildBand>)
    ensures MealValid(meal, bands) <==>
              && 0 <= meal.adultMealMinor <= 10_000_000_000 && 0 <= meal.minimumNetMinor <= 10_000_000_000
              && if meal.code == RO then meal.adultMealMinor == 0
                 else forall i :: 0 <= i < |bands| ==>
                        bands[i].id in meal.childMeals && SupplementValid(meal.childMeals[bands[i].id])
  {
    assert meal.code != RO ==> forall i :: 0 <= i < |bands| ==>
        (MealPriced(meal, bands[i]) <==>
           bands[i].id in meal.childMeals && SupplementValid(meal.childMeals[bands[i].id]));
  }

  /** Guests who may be quoted for: someone, no more than the limits of each kind, all of them in the room, and in its
      normal places and the beds and cots asked for. */
  lemma GuestLimits(c: RoomCapacity, g: GuestMix)
    requires 0 <= g.adults <= 100 && 0 <= g.extraBeds <= 100 && 0 <= g.cots <= 100 && |g.childAges| <= 100
    requires forall i :: 0 <= i < |g.childAges| ==> 0 <= g.childAges[i] <= 17
    ensures GuestsValid(g)
    ensures GuestsFit(c, g) <==>
              && g.adults + |g.childAges| >= 1 && g.adults <= c.maxAdults && |g.childAges| <= c.maxChildren
              && g.extraBeds <= c.maxExtraBeds && g.cots <= c.maxCots && g.adults + |g.childAges| <= c.absoluteGuests
              && g.adults + |g.childAges| <= c.normalGuests + g.extraBeds + g.cots
  {
  }
}
