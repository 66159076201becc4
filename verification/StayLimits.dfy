/** Where the code and its promises part: each promise with the exact condition under which it holds,
    and an input on which it fails. */
module StayLimits {
  import opened Tables
  import opened Wrappers
  import opened Inventory
  import opened RoomLegs
  import opened Lifecycle
  import opened Folio
  import opened BookingRules
  import opened StayInvariant
  import opened StayKeeps
  import opened ChangeKeeps
  import opened StayRuns

  // ---- reinstating a cancellation ----

  /** A cancelled booking comes back exactly when it was confirmed, its stay is not over, it was not
      voided and every night is free. One cancelled while unconfirmed is refused by the row's own
      constraint, so no inquiry is ever reinstated into a status that releases rooms it never took. */
  lemma {:induction false} ReinstateCancelledIff(s: Db, opening: Calendar, tiled: bool, id: BookingId, today: Date,
                                                 keep: set<LegId>)
    requires Inv(s, opening, tiled) && id < |s.bookings| && s.bookings[id].status == Cancelled
    requires FairVerdict(s.legs, Restore(s.legs, id, keep))
    ensures var b := s.bookings[id];
            Reinstate(s, id, today, keep).Done? <==>
              b.kind in {Confirm, HoldConfirm} && today < b.checkout && !b.voided
              && CanTake(s.calendar, b.checkin, b.checkout, b.rooms)
  {
    assert BookingOk(s, id, tiled);
  }

  /** Whatever its status, a reachable booking that can be marked a no-show or checked out holds rooms,
      so those paths never release rooms that were not taken. */
  lemma {:induction false} UnguardedReleasesAreHeld(s: Db, opening: Calendar, id: BookingId)
    requires Sound(opening) && Reachable(s, opening) && id < |s.bookings|
    requires s.bookings[id].status in {Approved, CheckedIn}
    ensures InventoryHeld(s.bookings[id]) && HasLive(s.legs, id) && s.bookings[id].releasedFrom == None
    ensures forall d :: s.bookings[id].checkin <= d < s.bookings[id].checkout ==> Held(s, id, d) == s.bookings[id].rooms
  {
    ReachableInv(s, opening);
    assert BookingOk(s, id, false);
    SettledLive(s, opening, false, id);
  }

  // ---- the recount ----

  /** What openAvailability counts as booked: held inventory up to the date nights were given back from. */
  function Counted(b: Booking, d: Date): int {
    var until := if b.releasedFrom.Some? then b.releasedFrom.value else b.checkout;
    if InventoryHeld(b) && b.checkin <= d < until then b.rooms else 0
  }

  function CountedFirst(bookings: seq<Booking>, n: nat, d: Date): int
    requires n <= |bookings|
  {
    if n == 0 then 0 else CountedFirst(bookings, n - 1, d) + Counted(bookings[n - 1], d)
  }

  /** The counter openAvailability writes for a night it opens with the given number of rooms. */
  function Recount(s: Db, sellable: int, d: Date): int {
    var left := sellable - CountedFirst(s.bookings, |s.bookings|, d);
    if left < 0 then 0 else left
  }

  /** A guest who checked out on or before the arrival day gave the whole stay back without the marker
      that says so. */
  ghost predicate LeftOnArrival(s: Db, id: BookingId, d: Date) {
    id < |s.bookings| && InventoryHeld(s.bookings[id]) && !HasLive(s.legs, id)
    && s.bookings[id].checkin <= d < s.bookings[id].checkout
  }

  lemma {:induction false} CountsLeavers(s: Db, opening: Calendar, tiled: bool, n: nat, d: Date)
    requires Inv(s, opening, tiled) && n <= |s.bookings|
    ensures CountedFirst(s.bookings, n, d) >= HeldByFirst(s, n, d)
    ensures CountedFirst(s.bookings, n, d) == HeldByFirst(s, n, d) <==> forall id :: 0 <= id < n ==>
              !LeftOnArrival(s, id, d)
  {
    if n == 0 {
    } else {
      CountsLeavers(s, opening, tiled, n - 1, d);
      assert BookingOk(s, n - 1, tiled);
      var b := s.bookings[n - 1];
      if Running(s, n - 1, tiled) { LaidIsAnchored(s.legs, n - 1, None, b.rooms, b.checkin, HeldUntil(b), tiled); }
      assert Counted(s.bookings[n - 1], d) == Held(s, n - 1, d) <==> !LeftOnArrival(s, n - 1, d);
    }
  }

  /** Re-opening a night with its own allotment leaves the live counter as it is exactly when nobody who
      left on arrival had that night, or there was nothing left to sell anyway. It never oversells. */
  lemma {:induction false} RecountIff(s: Db, opening: Calendar, tiled: bool, d: Date)
    requires Inv(s, opening, tiled) && d in opening
    ensures Recount(s, opening[d].toSell, d) <= s.calendar[d].toSell
    ensures Recount(s, opening[d].toSell, d) == s.calendar[d].toSell <==>
              (forall id :: 0 <= id < |s.bookings| ==> !LeftOnArrival(s, id, d)) || s.calendar[d].toSell == 0
  {
    CountsLeavers(s, opening, tiled, |s.bookings|, d);
  }

  // ---- the inputs, each a run from the empty house ----

  /** The states a run goes through, one per operation, each of them safe. */
  ghost predicate Goes(states: seq<Db>, ops: seq<Op>) {
    && |states| == |ops| + 1
    && forall k :: 0 <= k < |ops| ==> Safe(states[k], ops[k]) && Step(states[k], ops[k]) == states[k + 1]
  }

  lemma {:induction false} GoesFrom(states: seq<Db>, ops: seq<Op>, k: nat)
    requires Goes(states, ops) && k <= |ops|
    ensures SafeRun(states[k], ops[k..]) && Run(states[k], ops[k..]) == states[|ops|]
    decreases |ops| - k
  {
    if k == |ops| {
      assert ops[k..] == [];
    } else {
      GoesFrom(states, ops, k + 1);
      assert ops[k..][1..] == ops[k + 1..];
    }
  }

  /** A run known by its states ends in the last of them. */
  lemma {:induction false} GoesThrough(states: seq<Db>, ops: seq<Op>)
    requires Goes(states, ops)
    ensures SafeRun(states[0], ops) && Run(states[0], ops) == states[|ops|]
  {
    GoesFrom(states, ops, 0);
    assert ops[0..] == ops;
  }

  lemma {:induction false} RunsOn(s: Db, first: seq<Op>, rest: seq<Op>)
    ensures Run(s, first + rest) == Run(Run(s, first), rest)
    ensures SafeRun(s, first) && SafeRun(Run(s, first), rest) ==> SafeRun(s, first + rest)
    decreases |first|
  {
    if first == [] {
      assert first + rest == rest;
    } else {
      RunsOn(Step(s, first[0]), first[1..], rest);
      assert (first + rest)[1..] == first[1..] + rest;
    }
  }

  /** A move that splits a released segment breaks the tiling of a state every safe run to it keeps. */
  lemma {:induction false} UnsafeMoveBreaks(opening: Calendar, ops: seq<Op>, s: Db, m: nat, date: Date)
    requires Sound(opening) && SafeRun(Empty(opening), ops) && Run(Empty(opening), ops) == s
    requires Moves(s, m, date) && SplitsReleased(s, m)
    ensures Inv(s, opening, true) && !Inv(Step(s, OpMove(m, date)), opening, true)
  {
    EmptyInv(opening, true);
    RunKeeps(Empty(opening), opening, true, ops);
    MoveKeepsIff(s, opening, true, m, date);
  }

  const FREE := Day(1, 1, true)
  const SOLD := Day(1, 0, true)

  function Unpriced(nights: nat): seq<Night> {
    seq(nights, i => Night(0, 0, 0, 0))
  }

  /** A stay of the one room at no charge. */
  function Stay(checkin: Date, nights: nat, status: Status, kind: Kind): Booking {
    var priced := Priced(checkin, Unpriced(nights));
    Booking(checkin, checkin + nights, 1, status, kind, None, None, false, false, TotalsOf(priced, 1), priced, [])
  }

  function Opening(kind: Kind, nights: nat): Op {
    OpOpen(kind, 1, 1 + nights, 1, None, false, Unpriced(nights))
  }

  // A guest of two nights who checks out on the arrival day.

  const TWO_NIGHTS: Calendar := map[1 := FREE, 2 := FREE]
  const RESERVED2 := Reserve(Nights(1, 3), 1)
  const BOOKED := Db(map[1 := SOLD, 2 := SOLD], [Stay(1, 2, Approved, Confirm)], map[0 := Leg(0, 0, None, 1, 3, None)],
                     1, [], [RESERVED2], 1)
  const ARRIVED := BOOKED.(bookings := [Stay(1, 2, CheckedIn, Confirm)], now := 2)
  const LEFT := Db(TWO_NIGHTS, [Stay(1, 2, CheckedOut, Confirm)], map[0 := Leg(0, 0, None, 1, 3, Some(2))], 1, [],
                   [RESERVED2, Release(Nights(1, 3), 1)], 3)
  const LEAVING := [Opening(Confirm, 2), OpCheckIn(0, true, Unnumbered), OpCheckOut(0, 1, true)]

  lemma {:induction false} BookedStep()
    ensures Step(Empty(TWO_NIGHTS), Opening(Confirm, 2)) == BOOKED
  {
    var s := Empty(TWO_NIGHTS);
    assert CanTake(s.calendar, 1, 3, 1) && Take(s.calendar, 1, 3, 1) == BOOKED.calendar;
    assert Create(s.legs, 0, 1, 1, 3, 0) == BOOKED.legs;
  }

  lemma {:induction false} ArrivedStep()
    ensures Step(BOOKED, OpCheckIn(0, true, Unnumbered)) == ARRIVED
  {
  }

  lemma {:induction false} LeftStep()
    ensures Step(ARRIVED, OpCheckOut(0, 1, true)) == LEFT
  {
    assert Give(ARRIVED.calendar, 1, 3, 1) == LEFT.calendar;
    assert ReleaseAll(ARRIVED.legs, 0, 2) == LEFT.legs;
  }

  /** The guest leaves on the arrival day, both nights are free again, but a recount would close the hotel on
      them. */
  lemma {:induction false} RecountLosesNights()
    ensures SafeRun(Empty(TWO_NIGHTS), LEAVING) && Run(Empty(TWO_NIGHTS), LEAVING) == LEFT
    ensures LEFT.calendar[2].toSell == 1 && Recount(LEFT, 1, 2) == 0
  {
    BookedStep();
    ArrivedStep();
    LeftStep();
    GoesThrough([Empty(TWO_NIGHTS), BOOKED, ARRIVED, LEFT], LEAVING);
    var b := LEFT.bookings[0];
    assert CountedFirst(LEFT.bookings, 1, 2) == CountedFirst(LEFT.bookings, 0, 2) + Counted(b, 2);
  }

  // An inquiry, cancelled.

  const ONE_NIGHT: Calendar := map[1 := FREE]
  const ASKED := Db(ONE_NIGHT, [Stay(1, 1, Pending, Inquiry)], map[0 := Leg(0, 0, None, 1, 2, None)], 1, [], [], 1)
  const DECLINED :=
      Db(ONE_NIGHT, [Stay(1, 1, Cancelled, Inquiry)], map[0 := Leg(0, 0, None, 1, 2, Some(1))], 1, [], [], 2)
  const DECLINING := [Opening(Inquiry, 1), OpCancel(0)]

  lemma {:induction false} AskedStep()
    ensures Step(Empty(ONE_NIGHT), Opening(Inquiry, 1)) == ASKED
  {
    assert Create(map[], 0, 1, 1, 2, 0) == ASKED.legs;
  }

  lemma {:induction false} DeclinedStep()
    ensures Step(ASKED, OpCancel(0)) == DECLINED
  {
    assert ReleaseAll(ASKED.legs, 0, 1) == DECLINED.legs;
  }

  /** A cancelled inquiry with every night free is still refused: its row would break a constraint. */
  lemma {:induction false} InquiryStaysCancelled(today: Date, keep: set<LegId>)
    ensures SafeRun(Empty(ONE_NIGHT), DECLINING) && Run(Empty(ONE_NIGHT), DECLINING) == DECLINED
    ensures CanTake(DECLINED.calendar, 1, 2, 1) && Reinstate(DECLINED, 0, today, keep) == Refused
  {
    AskedStep();
    DeclinedStep();
    GoesThrough([Empty(ONE_NIGHT), ASKED, DECLINED], DECLINING);
  }

  // Two guests of one night in two rooms, one of whom is released twice.

  const TWO_ROOMS: Calendar := map[1 := Day(2, 2, true)]
  const RESERVED1 := Reserve(Nights(1, 2), 1)
  const ONE_GUEST := Db(map[1 := Day(2, 1, true)], [Stay(1, 1, Approved, Confirm)],
                        map[0 := Leg(0, 0, None, 1, 2, None)], 1, [], [RESERVED1], 1)
  const TWO_GUESTS := Db(map[1 := Day(2, 0, true)], [Stay(1, 1, Approved, Confirm), Stay(1, 1, Approved, Confirm)],
                         map[0 := Leg(0, 0, None, 1, 2, None), 1 := Leg(1, 0, None, 1, 2, None)], 2, [],
                         [RESERVED1, RESERVED1], 2)
  const BOOKING_TWO := [Opening(Confirm, 1), Opening(Confirm, 1)]

  lemma {:induction false} OneGuestStep()
    ensures Step(Empty(TWO_ROOMS), Opening(Confirm, 1)) == ONE_GUEST
  {
    assert Take(TWO_ROOMS, 1, 2, 1) == ONE_GUEST.calendar && CanTake(TWO_ROOMS, 1, 2, 1);
    assert Create(map[], 0, 1, 1, 2, 0) == ONE_GUEST.legs;
  }

  lemma {:induction false} TwoGuestsStep()
    ensures Step(ONE_GUEST, Opening(Confirm, 1)) == TWO_GUESTS
  {
    assert Take(ONE_GUEST.calendar, 1, 2, 1) == TWO_GUESTS.calendar && CanTake(ONE_GUEST.calendar, 1, 2, 1);
    assert Create(ONE_GUEST.legs, 1, 1, 1, 2, 1) == TWO_GUESTS.legs;
  }

  lemma {:induction false} TwoGuestsRun()
    ensures Run(Empty(TWO_ROOMS), BOOKING_TWO) == TWO_GUESTS
  {
    OneGuestStep();
    TwoGuestsStep();
    GoesThrough([Empty(TWO_ROOMS), ONE_GUEST, TWO_GUESTS], BOOKING_TWO);
  }

  /** Released whole twice, one guest's room is counted back twice: both rooms are for sale while the other
      guest still has one. */
  lemma {:induction false} WholeReleaseGivesTwice()
    ensures Run(Empty(TWO_ROOMS), BOOKING_TWO) == TWO_GUESTS
    ensures var t := ReleaseInventory(TWO_GUESTS, 0, TWO_GUESTS.bookings[0], None);
            var u := ReleaseInventory(t, 0, t.bookings[0], None);
            TWO_GUESTS.calendar[1].toSell == 0 && t.calendar[1].toSell == 1 && u.calendar[1].toSell == 2
            && HasLive(u.legs, 1)
  {
    TwoGuestsRun();
    var t := ReleaseInventory(TWO_GUESTS, 0, TWO_GUESTS.bookings[0], None);
    var u := ReleaseInventory(t, 0, t.bookings[0], None);
    assert Live(u.legs[1], 1);
  }

  // A guest of four nights in room 1 who moves to room 2 on day 3, has a move to room 3 planned for day 4,
  // and then leaves on day 3.

  const FOUR_NIGHTS: Calendar := map[1 := FREE, 2 := FREE, 3 := FREE, 4 := FREE]
  const RESERVED4 := Reserve(Nights(1, 5), 1)
  const M0 := Db(map[1 := SOLD, 2 := SOLD, 3 := SOLD, 4 := SOLD], [Stay(1, 4, Approved, Confirm)],
                 map[0 := Leg(0, 0, None, 1, 5, None)], 1, [], [RESERVED4], 1)
  const M1 := M0.(legs := map[0 := Leg(0, 0, Some(1), 1, 5, None)], now := 2)
  const M2 := M1.(bookings := [Stay(1, 4, CheckedIn, Confirm)], now := 3)
  const DONE_MOVE := Move(0, 0, 1, 2, 3, Completed, Some(1))
  const PLAN := Move(0, 1, 2, 3, 4, Planned, None)
  const M3 := M2.(legs := map[0 := Leg(0, 0, Some(1), 1, 3, None), 1 := Leg(0, 0, Some(2), 3, 5, None)], nextLeg := 2,
                  moves := [DONE_MOVE], now := 4)
  const M4 := M3.(moves := [DONE_MOVE, PLAN], now := 5)
  const STALE_MOVE := Db(map[1 := SOLD, 2 := SOLD, 3 := FREE, 4 := FREE], [Stay(1, 2, CheckedIn, Confirm)],
                         map[0 := Leg(0, 0, Some(1), 1, 3, None), 1 := Leg(0, 0, Some(2), 3, 5, Some(5))], 2,
                         [DONE_MOVE, PLAN], [RESERVED4, Release(Nights(3, 5), 1)], 6)
  const ARRIVING := [Opening(Confirm, 4), OpAssign(0, Some(1), 0, true), OpCheckIn(0, true, Unnumbered)]
  const MOVING := [OpMoveRoom(0, 2, None, 3, true), OpMoveRoom(1, 3, Some(4), 3, true), OpDeparture(0, 3, 3, [])]

  lemma {:induction false} FourNightsTaken()
    ensures CanTake(FOUR_NIGHTS, 1, 5, 1) && Take(FOUR_NIGHTS, 1, 5, 1) == M0.calendar
    ensures Create(map[], 0, 1, 1, 5, 0) == M0.legs
  {
  }

  lemma {:induction false} StaleOpens()
    ensures Step(Empty(FOUR_NIGHTS), ARRIVING[0]) == M0
  {
    FourNightsTaken();
  }

  lemma {:induction false} StaleArrives()
    ensures Step(M0, ARRIVING[1]) == M1 && Step(M1, ARRIVING[2]) == M2
  {
  }

  lemma {:induction false} StaleMoves()
    ensures Step(M2, MOVING[0]) == M3 && Safe(M2, MOVING[0])
  {
    assert MovedTo(M2, 0, 2, 3) == M3.legs;
  }

  lemma {:induction false} StalePlans()
    ensures Step(M3, MOVING[1]) == M4 && Safe(M3, MOVING[1])
  {
  }

  lemma {:induction false} ShortenedStay()
    ensures Without(Priced(1, Unpriced(4)), 3, 5) == Priced(1, Unpriced(2))
  {
    var nights := Priced(1, Unpriced(4));
    WithoutEnd(nights, 1, 3, 5, 4);
    assert nights[..4] == nights && nights[..2] == Priced(1, Unpriced(2));
  }

  lemma {:induction false} ShortenedTables()
    ensures Give(M4.calendar, 3, 5, 1) == STALE_MOVE.calendar && CutAt(M4.legs, 0, 3, 5) == STALE_MOVE.legs
  {
  }

  lemma {:induction false} StaleShortens()
    ensures Step(M4, MOVING[2]) == STALE_MOVE
  {
    ShortenedStay();
    ShortenedTables();
    assert VoidFrom([], 3, 5) == [];
  }

  lemma {:induction false} ArrivingRun()
    ensures SafeRun(Empty(FOUR_NIGHTS), ARRIVING) && Run(Empty(FOUR_NIGHTS), ARRIVING) == M2
  {
    StaleOpens();
    StaleArrives();
    GoesThrough([Empty(FOUR_NIGHTS), M0, M1, M2], ARRIVING);
  }

  lemma {:induction false} MovingRun()
    ensures SafeRun(M2, MOVING) && Run(M2, MOVING) == STALE_MOVE
  {
    StaleMoves();
    StalePlans();
    StaleShortens();
    GoesThrough([M2, M3, M4, STALE_MOVE], MOVING);
  }

  lemma {:induction false} StaleRuns()
    ensures SafeRun(Empty(FOUR_NIGHTS), ARRIVING + MOVING) && Run(Empty(FOUR_NIGHTS), ARRIVING + MOVING) == STALE_MOVE
  {
    ArrivingRun();
    MovingRun();
    RunsOn(Empty(FOUR_NIGHTS), ARRIVING, MOVING);
  }

  lemma {:induction false} StaleMoveApplies()
    ensures Moves(STALE_MOVE, 1, 4) && SplitsReleased(STALE_MOVE, 1)
    ensures var t := ApplyMove(STALE_MOVE, 1, 4).db;
            2 in t.legs && Live(t.legs[2], 0) && Covers(t.legs[2], 4) && t.bookings[0].checkout == 3
  {
    var s := STALE_MOVE;
    var legs := MovedLegs(s, 1);
    assert legs == map[0 := s.legs[0], 1 := s.legs[1].(checkout := 4), 2 := Leg(0, 0, Some(3), 4, 5, None)];
    assert NoDoubleBooking(legs) && KeysUnique(legs);
  }

  // The desk does the same to that segment on day 4, when the guest moves there and then.

  lemma {:induction false} StaleDeskMoves()
    ensures MoveRoom(STALE_MOVE, 1, 3, Some(4), 4, true).Done?
  {
    var s := STALE_MOVE;
    var legs := MovedTo(s, 1, 3, 4);
    assert legs == map[0 := s.legs[0], 1 := s.legs[1].(checkout := 4), 2 := Leg(0, 0, Some(3), 4, 5, None)];
    assert NoDoubleBooking(legs) && KeysUnique(legs);
  }

  lemma {:induction false} StaleDeskSplits()
    ensures MovesNow(STALE_MOVE, 1, 3, Some(4), 4, true) && ReleasedSplit(STALE_MOVE, 1, 4)
  {
    StaleDeskMoves();
    assert 2 in MovedTo(STALE_MOVE, 1, 3, 4);
  }

  lemma {:induction false} UnsafeDeskBreaks(opening: Calendar, ops: seq<Op>, s: Db, leg: LegId, target: UnitId,
                                            date: Option<Date>, today: Date, allowed: bool)
    requires Sound(opening) && SafeRun(Empty(opening), ops) && Run(Empty(opening), ops) == s
    requires MovesNow(s, leg, target, date, today, allowed) && ReleasedSplit(s, leg, MoveDate(s, leg, date, today))
    ensures !Inv(Step(s, OpMoveRoom(leg, target, date, today, allowed)), opening, true)
  {
    EmptyInv(opening, true);
    RunKeeps(Empty(opening), opening, true, ops);
    MoveRoomKeepsIff(s, opening, true, leg, target, date, today, allowed);
  }

  /** The same safe run, and then a move made at the desk: it breaks the tiling too. */
  lemma {:induction false} StaleDeskRevives()
    ensures SafeRun(Empty(FOUR_NIGHTS), ARRIVING + MOVING) && Run(Empty(FOUR_NIGHTS), ARRIVING + MOVING) == STALE_MOVE
    ensures MovesNow(STALE_MOVE, 1, 3, Some(4), 4, true) && ReleasedSplit(STALE_MOVE, 1, 4)
    ensures !Inv(Step(STALE_MOVE, OpMoveRoom(1, 3, Some(4), 4, true)), FOUR_NIGHTS, true)
  {
    StaleRuns();
    StaleDeskSplits();
    UnsafeDeskBreaks(FOUR_NIGHTS, ARRIVING + MOVING, STALE_MOVE, 1, 3, Some(4), 4, true);
  }

  /** A safe run of ordinary operations leaves a planned move of a released segment, and the sweep then breaks
      the tiling: the shortened stay gets a live segment over a night it no longer has. */
  lemma {:induction false} StaleMoveRevives()
    ensures SafeRun(Empty(FOUR_NIGHTS), ARRIVING + MOVING) && Run(Empty(FOUR_NIGHTS), ARRIVING + MOVING) == STALE_MOVE
    ensures !Inv(Step(STALE_MOVE, OpMove(1, 4)), FOUR_NIGHTS, true)
    ensures Moves(STALE_MOVE, 1, 4) && SplitsReleased(STALE_MOVE, 1)
    ensures var t := ApplyMove(STALE_MOVE, 1, 4).db;
            2 in t.legs && Live(t.legs[2], 0) && Covers(t.legs[2], 4) && t.bookings[0].checkout == 3
  {
    StaleRuns();
    StaleMoveApplies();
    UnsafeMoveBreaks(FOUR_NIGHTS, ARRIVING + MOVING, STALE_MOVE, 1, 4);
  }
}
