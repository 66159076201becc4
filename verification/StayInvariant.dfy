/** What is true of the tables between any two transactions: rooms are conserved on every night and
    the outbox replays to the calendar, every booking's segments tile the nights it holds, no physical
    room is double-booked, and every bill agrees with its stay. */
module StayInvariant {
  import opened Tables
  import opened Wrappers
  import opened Inventory
  import opened RoomLegs
  import opened Lifecycle
  import opened Folio
  import opened BookingRules

  // ---- rooms held and events sent ----

  /** The rooms a booking has out of inventory on a night: all of them from its arrival to the date it
      holds its nights to, as long as it holds inventory and has a live segment. */
  ghost function Held(s: Db, id: BookingId, d: Date): int
    requires id < |s.bookings|
  {
    var b := s.bookings[id];
    if InventoryHeld(b) && HasLive(s.legs, id) && b.checkin <= d < HeldUntil(b) then b.rooms else 0
  }

  ghost function HeldByFirst(s: Db, n: nat, d: Date): int
    requires n <= |s.bookings|
  {
    if n == 0 then 0 else HeldByFirst(s, n - 1, d) + Held(s, n - 1, d)
  }

  ghost function TotalHeld(s: Db, d: Date): int {
    HeldByFirst(s, |s.bookings|, d)
  }

  function OnNight(nights: seq<Date>, rooms: int, d: Date): int {
    if d in nights then rooms else 0
  }

  /** What an event tells the channel to add to a night's rooms to sell. */
  function Effect(e: Event, d: Date): int {
    match e
    case Reserve(nights, rooms) => -OnNight(nights, rooms, d)
    case Release(nights, rooms) => OnNight(nights, rooms, d)
    case Amended(released, were, reserved, are) => OnNight(released, were, d) - OnNight(reserved, are, d)
    case NoShowNotice(_) => 0
  }

  function Net(outbox: seq<Event>, d: Date): int {
    if outbox == [] then 0 else Net(outbox[..|outbox| - 1], d) + Effect(outbox[|outbox| - 1], d)
  }

  /** On every night: rooms to sell plus rooms held is the opening allotment, at most the physical
      quantity; and the events, replayed over the opening calendar, give the rooms to sell. */
  ghost predicate Conserved(s: Db, opening: Calendar) {
    && s.calendar.Keys == opening.Keys
    && (forall d :: d in opening ==>
          && s.calendar[d] == opening[d].(toSell := s.calendar[d].toSell)
          && 0 <= s.calendar[d].toSell
          && s.calendar[d].toSell + TotalHeld(s, d) == opening[d].toSell
          && s.calendar[d].toSell == opening[d].toSell + Net(s.outbox, d)
          && opening[d].toSell <= opening[d].physical)
    && (forall d :: d !in opening ==> TotalHeld(s, d) == 0)
  }

  // ---- one booking ----

  // tiled says how much is claimed of the segments: that they tile the stay, or only that the stay has
  // one from its start, which is all that rooms, channel and bills turn on.

  /** Whole, or kept up to the date its later nights were given back from. */
  ghost predicate Running(s: Db, id: BookingId, tiled: bool)
    requires id < |s.bookings|
  {
    var b := s.bookings[id];
    && b.status !in {Cancelled, Rejected}
    && Laid(s.legs, id, None, b.rooms, b.checkin, HeldUntil(b), tiled)
  }

  /** Ended with everything given back: its latest released segments are those of the whole stay. */
  ghost predicate Closed(s: Db, id: BookingId, tiled: bool)
    requires id < |s.bookings|
  {
    var b := s.bookings[id];
    && b.status in {Cancelled, Rejected, CheckedOut} && b.releasedFrom == None
    && !HasLive(s.legs, id)
    && exists at :: Laid(s.legs, id, Some(at), b.rooms, b.checkin, b.checkout, tiled) && StampedBy(s.legs, id, at)
  }

  ghost predicate LegsOk(s: Db, id: BookingId, tiled: bool)
    requires id < |s.bookings|
  {
    (Running(s, id, tiled) || Closed(s, id, tiled)) && StampedBy(s.legs, id, s.now - 1)
  }

  ghost predicate BillOk(b: Booking) {
    && |b.nights| == b.checkout - b.checkin && Dated(b.nights, b.checkin)
    && b.totals == TotalsOf(b.nights, b.rooms)
    && ChargesAgree(b.charges, b.checkin, b.nights, b.rooms)
  }

  /** The row's own constraints; a partial release is only ever on a no-show or a departed guest. */
  ghost predicate RowInv(b: Booking) {
    && b.checkin < b.checkout && b.rooms >= 1 && RowOk(b)
    && (b.releasedFrom.Some? ==> b.status in {NoShow, CheckedOut} && b.releasedFrom.value < b.checkout)
  }

  ghost predicate BookingOk(s: Db, id: BookingId, tiled: bool)
    requires id < |s.bookings|
  {
    RowInv(s.bookings[id]) && BillOk(s.bookings[id]) && LegsOk(s, id, tiled)
  }

  // ---- the tables ----

  ghost predicate LegIds(s: Db) {
    && (forall i :: i in s.legs ==>
          i < s.nextLeg && s.legs[i].booking < |s.bookings| && s.legs[i].checkin < s.legs[i].checkout)
    && (forall m :: 0 <= m < |s.moves| ==> MoveOk(s, s.moves[m]))
  }

  /** A move is of a segment of its own booking, if the segment is still there. */
  predicate MoveOk(s: Db, v: Move) {
    v.leg < s.nextLeg && (v.leg in s.legs ==> s.legs[v.leg].booking == v.booking)
  }

  /** Old segments stay their booking's; new ones have new ids. */
  ghost predicate LegsGrow(s: Db, t: Db) {
    && s.nextLeg <= t.nextLeg
    && forall i :: i in t.legs && i < s.nextLeg ==> i in s.legs && t.legs[i].booking == s.legs[i].booking
  }

  lemma {:induction false} MovesStillOk(s: Db, t: Db)
    requires LegIds(s) && t.moves == s.moves && LegsGrow(s, t)
    ensures forall m :: 0 <= m < |t.moves| ==> MoveOk(t, t.moves[m])
  {
    forall m | 0 <= m < |t.moves| ensures MoveOk(t, t.moves[m]) {
      assert MoveOk(s, s.moves[m]);
    }
  }

  ghost predicate Inv(s: Db, opening: Calendar, tiled: bool) {
    && Conserved(s, opening)
    && (forall id :: 0 <= id < |s.bookings| ==> BookingOk(s, id, tiled))
    && LegIds(s) && NoDoubleBooking(s.legs)
  }

  // ---- what a change to one booking has to show ----

  /** Nothing but this booking's row, its segments, and new segments of it. */
  ghost predicate OnlyTouches(s: Db, t: Db, id: BookingId) {
    && |t.bookings| == |s.bookings| && id < |s.bookings|
    && (forall k :: 0 <= k < |s.bookings| && k != id ==> t.bookings[k] == s.bookings[k])
    && SameElsewhere(s.legs, t.legs, id)
    && t.now >= s.now
  }

  /** On this night the calendar and the outbox moved by exactly what the booking gave back. */
  ghost predicate NightBalanced(s: Db, t: Db, id: BookingId, d: Date)
    requires id < |s.bookings| && id < |t.bookings|
  {
    var back := Held(s, id, d) - Held(t, id, d);
    if d in s.calendar
    then d in t.calendar && t.calendar[d] == s.calendar[d].(toSell := s.calendar[d].toSell + back)
         && 0 <= t.calendar[d].toSell && Net(t.outbox, d) == Net(s.outbox, d) + back
    else d !in t.calendar && back == 0
  }

  ghost predicate Balanced(s: Db, t: Db, id: BookingId)
    requires id < |s.bookings| && id < |t.bookings|
  {
    forall d :: NightBalanced(s, t, id, d)
  }

  lemma {:induction false} LiveElsewhere(s: Db, t: Db, id: BookingId, k: BookingId)
    requires SameElsewhere(s.legs, t.legs, id) && k != id
    ensures HasLive(t.legs, k) == HasLive(s.legs, k)
  {
  }

  lemma {:induction false} HeldDelta(s: Db, t: Db, id: BookingId, n: nat, d: Date)
    requires OnlyTouches(s, t, id) && n <= |s.bookings|
    ensures HeldByFirst(t, n, d) == HeldByFirst(s, n, d) + if id < n then Held(t, id, d) - Held(s, id, d) else 0
  {
    if n == 0 {
    } else {
      HeldDelta(s, t, id, n - 1, d);
      if n - 1 != id { LiveElsewhere(s, t, id, n - 1); }
    }
  }

  lemma {:induction false} LaidElsewhere(s: Db, t: Db, id: BookingId, k: BookingId, stamp: Option<int>, rooms: int,
                                         lo: Date, hi: Date, tiled: bool)
    requires SameElsewhere(s.legs, t.legs, id) && k != id && Laid(s.legs, k, stamp, rooms, lo, hi, tiled)
    ensures Laid(t.legs, k, stamp, rooms, lo, hi, tiled)
  {
    if tiled {
      forall p: nat, d | p < rooms && lo <= d < hi ensures Covered(t.legs, k, stamp, p, d) {
        assert Covered(s.legs, k, stamp, p, d);
      }
    } else {
      assert Anchored(s.legs, k, stamp, lo);
    }
  }

  lemma {:induction false} OthersOk(s: Db, t: Db, id: BookingId, k: BookingId, tiled: bool)
    requires OnlyTouches(s, t, id) && k < |s.bookings| && k != id && BookingOk(s, k, tiled)
    ensures BookingOk(t, k, tiled)
  {
    var b := s.bookings[k];
    LiveElsewhere(s, t, id, k);
    if Running(s, k, tiled) {
      LaidElsewhere(s, t, id, k, None, b.rooms, b.checkin, HeldUntil(b), tiled);
    } else {
      var at :| Laid(s.legs, k, Some(at), b.rooms, b.checkin, b.checkout, tiled) && StampedBy(s.legs, k, at);
      LaidElsewhere(s, t, id, k, Some(at), b.rooms, b.checkin, b.checkout, tiled);
      assert StampedBy(t.legs, k, at);
    }
  }

  /** A change that touches one booking, leaves it sound and balances its rooms keeps the invariant. */
  lemma {:induction false} KeepsInv(s: Db, t: Db, opening: Calendar, tiled: bool, id: BookingId)
    requires Inv(s, opening, tiled) && OnlyTouches(s, t, id) && Balanced(s, t, id)
    requires BookingOk(t, id, tiled) && LegIds(t) && NoDoubleBooking(t.legs)
    ensures Inv(t, opening, tiled)
  {
    forall k | 0 <= k < |t.bookings| ensures BookingOk(t, k, tiled) {
      if k != id { OthersOk(s, t, id, k, tiled); }
    }
    forall d
      ensures TotalHeld(t, d) == TotalHeld(s, d) + Held(t, id, d) - Held(s, id, d) && NightBalanced(s, t, id, d)
    {
      HeldDelta(s, t, id, |s.bookings|, d);
    }
    forall d ensures d in t.calendar.Keys <==> d in s.calendar.Keys {
      assert NightBalanced(s, t, id, d);
    }
  }

  /** A booking holds at most what the night's allotment lacks, so giving back never passes the cap. */
  lemma {:induction false} HeldWithin(s: Db, opening: Calendar, tiled: bool, id: BookingId, n: nat, d: Date)
    requires Inv(s, opening, tiled) && n <= |s.bookings|
    ensures 0 <= HeldByFirst(s, n, d) && (id < n ==> Held(s, id, d) <= HeldByFirst(s, n, d))
  {
    if n == 0 {
    } else {
      HeldWithin(s, opening, tiled, id, n - 1, d);
      assert BookingOk(s, n - 1, tiled);
    }
  }

  lemma {:induction false} NetOne(outbox: seq<Event>, e: Event, d: Date)
    ensures Net(outbox + [e], d) == Net(outbox, d) + Effect(e, d)
  {
    assert (outbox + [e])[..|outbox|] == outbox;
  }
}
