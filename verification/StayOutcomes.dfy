/** When each operation of a sound house goes through, exactly, and what the booking holds after it. */
module StayOutcomes {
  import opened Tables
  import opened Wrappers
  import opened Inventory
  import opened RoomLegs
  import opened Lifecycle
  import opened Folio
  import opened BookingRules
  import opened StayInvariant
  import opened StayKeeps
  import opened ChangeKeeps
  import opened StayPrices

  /** The rooms are held already, or every night of the stay is free. */
  predicate RoomsFor(s: Db, b: Booking) {
    InventoryHeld(b) || CanTake(s.calendar, b.checkin, b.checkout, b.rooms)
  }

  /** What a booking holds: its rooms from its arrival up to a date. */
  ghost predicate HoldsUntil(s: Db, id: BookingId, until: Date) {
    id < |s.bookings| && forall d ::
        Held(s, id, d) == if s.bookings[id].checkin <= d < until then s.bookings[id].rooms else 0
  }

  ghost predicate HoldsNothing(s: Db, id: BookingId) {
    id < |s.bookings| && forall d :: Held(s, id, d) == 0
  }

  lemma {:induction false} SoundHolds(s: Db, opening: Calendar, tiled: bool, id: BookingId)
    requires Inv(s, opening, tiled) && id < |s.bookings|
    ensures InventoryHeld(s.bookings[id]) && s.bookings[id].status !in {CheckedOut} ==>
              HoldsUntil(s, id, HeldUntil(s.bookings[id]))
    ensures s.bookings[id].status in {Cancelled, Rejected} ==> HoldsNothing(s, id)
  {
    SettledLive(s, opening, tiled, id);
  }

  /** A sound booking of a kind that holds rooms, not yet over, holds its whole stay. */
  lemma {:induction false} WholeStayHeld(s: Db, opening: Calendar, tiled: bool, id: BookingId)
    requires Inv(s, opening, tiled) && id < |s.bookings| && s.bookings[id].kind != Inquiry
    requires s.bookings[id].status in {Pending, Approved, CheckedIn}
    ensures HoldsUntil(s, id, s.bookings[id].checkout)
  {
    SettledLive(s, opening, tiled, id);
  }

  /** A pending booking is approved exactly when it has its rooms or can have them; it then holds its whole
      stay, and a release time survives only on a hold. */
  lemma {:induction false} ApproveIff(s: Db, opening: Calendar, tiled: bool, id: BookingId)
    requires Inv(s, opening, tiled) && id < |s.bookings|
    ensures Approve(s, id).Done? <==> s.bookings[id].status == Pending && RoomsFor(s, s.bookings[id])
    ensures Approve(s, id).Done? ==>
              var t := Tick(Approve(s, id).db); var was, b := s.bookings[id], t.bookings[id];
              t.bookings == s.bookings[id := was.(status := Approved, kind := b.kind, holdUntil := b.holdUntil)]
              && b.kind == (if was.kind == HoldUnconfirm && was.holdUntil.Some? then HoldConfirm else Confirm)
              && b.holdUntil == (if b.kind == HoldConfirm then was.holdUntil else None)
              && HoldsUntil(t, id, was.checkout) && t.legs == s.legs && t.moves == s.moves
  {
    assert BookingOk(s, id, tiled);
    if Approve(s, id).Done? {
      ApproveKeeps(s, opening, tiled, id);
      SettledLive(s, opening, tiled, id);
      SoundHolds(Tick(Approve(s, id).db), opening, tiled, id);
    }
  }

  /** Rejecting and cancelling always go through for the statuses they are for, and leave nothing held. */
  lemma {:induction false} GivingUpIff(s: Db, opening: Calendar, tiled: bool, id: BookingId)
    requires Inv(s, opening, tiled) && id < |s.bookings|
    ensures Reject(s, id).Done? <==> s.bookings[id].status == Pending
    ensures Cancel(s, id).Done? <==> s.bookings[id].status in {Pending, Approved}
    ensures Reject(s, id).Done? ==> HoldsNothing(Tick(Reject(s, id).db), id)
    ensures Cancel(s, id).Done? ==> HoldsNothing(Tick(Cancel(s, id).db), id)
  {
    assert RowInv(s.bookings[id]) by { assert BookingOk(s, id, tiled); }
    if Reject(s, id).Done? { RejectedHoldsNothing(s, opening, tiled, id); }
    if Cancel(s, id).Done? { CancelledHoldsNothing(s, opening, tiled, id); }
  }

  lemma {:induction false} RejectedHoldsNothing(s: Db, opening: Calendar, tiled: bool, id: BookingId)
    requires Inv(s, opening, tiled) && Reject(s, id).Done?
    ensures HoldsNothing(Tick(Reject(s, id).db), id)
  {
    RejectKeeps(s, opening, tiled, id);
    SoundHolds(Tick(Reject(s, id).db), opening, tiled, id);
  }

  lemma {:induction false} CancelledHoldsNothing(s: Db, opening: Calendar, tiled: bool, id: BookingId)
    requires Inv(s, opening, tiled) && Cancel(s, id).Done?
    ensures HoldsNothing(Tick(Cancel(s, id).db), id)
  {
    CancelKeeps(s, opening, tiled, id);
    SoundHolds(Tick(Cancel(s, id).db), opening, tiled, id);
  }

  /** A no-show is marked exactly on an approved booking; it then holds the nights up to the later of its
      arrival and the day it was marked, and no more. */
  lemma {:induction false} NoShowIff(s: Db, opening: Calendar, tiled: bool, id: BookingId, markedOn: Date)
    requires Inv(s, opening, tiled) && id < |s.bookings|
    ensures MarkNoShow(s, id, markedOn).Done? <==> s.bookings[id].status == Approved
    ensures MarkNoShow(s, id, markedOn).Done? ==>
              var b := s.bookings[id]; var last := if markedOn > b.checkin then markedOn else b.checkin;
              HoldsUntil(Tick(MarkNoShow(s, id, markedOn).db), id,
                         if last + 1 < b.checkout then last + 1 else b.checkout)
  {
    assert BookingOk(s, id, tiled);
    SettledLive(s, opening, tiled, id);
    if MarkNoShow(s, id, markedOn).Done? {
      NoShowKeeps(s, opening, tiled, id, markedOn);
      SoundHolds(Tick(MarkNoShow(s, id, markedOn).db), opening, tiled, id);
    }
  }

  /** Nobody who had a physical room is moved, no other booking's segment is touched, and the nights of every
      segment stay as they were. */
  ghost predicate OnlySeated(legs: Legs, next: Legs, id: BookingId) {
    && SameShape(legs, next) && SameElsewhere(legs, next, id)
    && forall i :: i in legs && legs[i].unit.Some? ==> next[i] == legs[i]
  }

  /** A ready guest of an approved booking arrives, where rooms are numbered exactly when every segment can be
      given one; a hold ends with it, and nothing held changes. */
  lemma {:induction false} CheckInIff(s: Db, opening: Calendar, tiled: bool, id: BookingId, ready: bool,
                                      seating: Seating)
    requires Inv(s, opening, tiled) && id < |s.bookings|
    ensures CheckIn(s, id, ready, seating).Done? <==>
              s.bookings[id].status == Approved && ready
              && (seating.Picked? ==> AllSeated(SeatEach(s.legs, id, seating.picks), id))
    ensures CheckIn(s, id, ready, seating).Done? ==>
              var t := Tick(CheckIn(s, id, ready, seating).db);
              t == s.(legs := t.legs, now := s.now + 1,
                      bookings := s.bookings[id :=
                        s.bookings[id].(status := CheckedIn, kind := Confirm, holdUntil := None)])
              && HoldsUntil(t, id, s.bookings[id].checkout) && OnlySeated(s.legs, t.legs, id)
              && t.legs == if seating.Picked? then SeatEach(s.legs, id, seating.picks) else s.legs
  {
    assert RowInv(s.bookings[id]) by { assert BookingOk(s, id, tiled); }
    if CheckIn(s, id, ready, seating).Done? {
      ArrivedHolds(s, opening, tiled, id, ready, seating);
      if seating.Picked? { SeatEachKeeps(s.legs, id, seating.picks); }
    }
  }

  lemma {:induction false} ArrivedHolds(s: Db, opening: Calendar, tiled: bool, id: BookingId, ready: bool,
                                        seating: Seating)
    requires Inv(s, opening, tiled) && CheckIn(s, id, ready, seating).Done?
    ensures HoldsUntil(Tick(CheckIn(s, id, ready, seating).db), id, s.bookings[id].checkout)
  {
    CheckInKeeps(s, opening, tiled, id, ready, seating);
    assert BookingOk(s, id, tiled);
    WholeStayHeld(Tick(CheckIn(s, id, ready, seating).db), opening, tiled, id);
  }

  /** A settled in-house guest leaves; the nights from the operating date on are given back. */
  lemma {:induction false} CheckOutIff(s: Db, opening: Calendar, tiled: bool, id: BookingId, operating: Date,
                                       settled: bool)
    requires Inv(s, opening, tiled) && id < |s.bookings|
    ensures CheckOut(s, id, operating, settled).Done? <==> s.bookings[id].status == CheckedIn && settled
    ensures CheckOut(s, id, operating, settled).Done? ==>
              HoldsUntil(Tick(CheckOut(s, id, operating, settled).db), id,
                         if operating < s.bookings[id].checkout then operating else s.bookings[id].checkout)
  {
    assert RowInv(s.bookings[id]) by { assert BookingOk(s, id, tiled); }
    if CheckOut(s, id, operating, settled).Done? { LeftHolds(s, opening, tiled, id, operating, settled); }
  }

  lemma {:induction false} LeftHolds(s: Db, opening: Calendar, tiled: bool, id: BookingId, operating: Date,
                                     settled: bool)
    requires Inv(s, opening, tiled) && CheckOut(s, id, operating, settled).Done?
    ensures HoldsUntil(Tick(CheckOut(s, id, operating, settled).db), id,
                       if operating < s.bookings[id].checkout then operating else s.bookings[id].checkout)
  {
    var b := s.bookings[id];
    var t := Tick(CheckOut(s, id, operating, settled).db);
    SettledLive(s, opening, tiled, id);
    assert RowInv(b) by { assert BookingOk(s, id, tiled); }
    if operating <= b.checkin {
      assert !HasLive(t.legs, id);
    } else {
      assert HeldUntil(t.bookings[id]) == if operating < b.checkout then operating else b.checkout;
      StillLives(s, t, opening, tiled, id, operating);
    }
  }

  lemma {:induction false} StillLives(s: Db, t: Db, opening: Calendar, tiled: bool, id: BookingId, operating: Date)
    requires Inv(s, opening, tiled) && id < |s.bookings| && s.bookings[id].checkin < operating && HasLive(s.legs, id)
    requires t.legs == s.legs || t.legs == CutAt(s.legs, id, operating, s.now)
    ensures HasLive(t.legs, id)
  {
    var b := s.bookings[id];
    assert BookingOk(s, id, tiled) && Running(s, id, tiled);
    LaidIsAnchored(s.legs, id, None, b.rooms, b.checkin, HeldUntil(b), tiled);
    var i :| i in s.legs && On(s.legs[i], id, None) && s.legs[i].index == 0 && s.legs[i].checkin <= b.checkin;
    assert Live(t.legs[i], id);
  }

  /** Confirming goes through exactly for a booking not yet confirmed that has, or can have, its rooms. */
  lemma {:induction false} ConfirmIff(s: Db, opening: Calendar, tiled: bool, id: BookingId, picks: seq<Pick>)
    requires Inv(s, opening, tiled) && id < |s.bookings|
    ensures ConfirmBooking(s, id, picks).Done? <==>
              s.bookings[id].status in {Pending, Approved} && s.bookings[id].kind != Confirm
              && RoomsFor(s, s.bookings[id])
    ensures ConfirmBooking(s, id, picks).Done? ==>
              var t := Tick(ConfirmBooking(s, id, picks).db);
              t.bookings == s.bookings[id := s.bookings[id].(kind := Confirm, status := Approved, holdUntil := None)]
              && HoldsUntil(t, id, s.bookings[id].checkout) && OnlySeated(s.legs, t.legs, id) && t.moves == s.moves
              && t.legs == if InventoryHeld(s.bookings[id]) then s.legs else SeatEach(s.legs, id, picks)
  {
    assert RowInv(s.bookings[id]) by { assert BookingOk(s, id, tiled); }
    if ConfirmBooking(s, id, picks).Done? {
      ConfirmedHolds(s, opening, tiled, id, picks);
      SeatEachKeeps(s.legs, id, picks);
    }
  }

  lemma {:induction false} ConfirmedHolds(s: Db, opening: Calendar, tiled: bool, id: BookingId, picks: seq<Pick>)
    requires Inv(s, opening, tiled) && ConfirmBooking(s, id, picks).Done?
    ensures HoldsUntil(Tick(ConfirmBooking(s, id, picks).db), id, s.bookings[id].checkout)
  {
    ConfirmKeeps(s, opening, tiled, id, picks);
    WholeStayHeld(Tick(ConfirmBooking(s, id, picks).db), opening, tiled, id);
  }

  /** A hold is put on exactly when the booking has, or can have, its rooms, and never un-confirms it. */
  lemma {:induction false} HoldIff(s: Db, opening: Calendar, tiled: bool, id: BookingId, requested: Option<Kind>,
                                   until: Option<int>, picks: seq<Pick>)
    requires Inv(s, opening, tiled) && id < |s.bookings|
    ensures var b := s.bookings[id];
            Hold(s, id, requested, until, picks).Done? <==>
              b.status in {Pending, Approved} && RoomsFor(s, b)
              && if b.kind == Confirm || b.kind == HoldConfirm then requested != Some(HoldUnconfirm)
                 else requested == None || requested == Some(HoldConfirm) || requested == Some(HoldUnconfirm)
    ensures Hold(s, id, requested, until, picks).Done? ==>
              var t, was := Tick(Hold(s, id, requested, until, picks).db), s.bookings[id];
              var firm := was.kind == Confirm || was.kind == HoldConfirm || requested == Some(HoldConfirm);
              t.bookings == s.bookings[id :=
                was.(kind := if firm then HoldConfirm else HoldUnconfirm, status := if firm then Approved else Pending,
                     holdUntil := until)]
              && HoldsUntil(t, id, was.checkout) && OnlySeated(s.legs, t.legs, id) && t.moves == s.moves
              && t.legs == if InventoryHeld(was) then s.legs else SeatEach(s.legs, id, picks)
  {
    assert RowInv(s.bookings[id]) by { assert BookingOk(s, id, tiled); }
    if Hold(s, id, requested, until, picks).Done? {
      HeldHolds(s, opening, tiled, id, requested, until, picks);
      HoldSeats(s, opening, tiled, id, requested, until, picks);
    }
  }

  lemma {:induction false} HeldHolds(s: Db, opening: Calendar, tiled: bool, id: BookingId, requested: Option<Kind>,
                                     until: Option<int>, picks: seq<Pick>)
    requires Inv(s, opening, tiled) && Hold(s, id, requested, until, picks).Done?
    ensures HoldsUntil(Tick(Hold(s, id, requested, until, picks).db), id, s.bookings[id].checkout)
  {
    HoldKeeps(s, opening, tiled, id, requested, until, picks);
    WholeStayHeld(Tick(Hold(s, id, requested, until, picks).db), opening, tiled, id);
  }

  lemma {:induction false} HoldSeats(s: Db, opening: Calendar, tiled: bool, id: BookingId, requested: Option<Kind>,
                                     until: Option<int>, picks: seq<Pick>)
    requires Inv(s, opening, tiled) && Hold(s, id, requested, until, picks).Done?
    ensures OnlySeated(s.legs, Tick(Hold(s, id, requested, until, picks).db).legs, id)
  {
    SeatEachKeeps(s.legs, id, picks);
  }

  /** A no-show comes back exactly when its stay is not over and every night it gave back is free. */
  lemma {:induction false} ReinstateNoShowIff(s: Db, opening: Calendar, tiled: bool, id: BookingId, today: Date,
                                              keep: set<LegId>)
    requires Inv(s, opening, tiled) && id < |s.bookings| && s.bookings[id].status == NoShow
    requires FairVerdict(s.legs, Stretch(s.legs, id, HeldUntil(s.bookings[id]), s.bookings[id].checkout, keep))
    ensures var b := s.bookings[id];
            Reinstate(s, id, today, keep).Done? <==>
                today < b.checkout && CanTake(s.calendar, HeldUntil(b), b.checkout, b.rooms)
  {
    assert BookingOk(s, id, tiled);
  }

  /** Shortening an in-house stay always goes through; extending it does exactly when the new nights are
      free, priced, and free in the rooms the guest is in. */
  lemma {:induction false} ChangeDepartureIff(s: Db, opening: Calendar, tiled: bool, id: BookingId, departure: Date,
                                              today: Date, prices: seq<Night>)
    requires Inv(s, opening, tiled) && id < |s.bookings|
    ensures var b := s.bookings[id];
            ChangeDeparture(s, id, departure, today, prices).Done? <==>
              b.status == CheckedIn && departure != b.checkout && departure >= today && departure > b.checkin
              && (departure > b.checkout ==>
                    |prices| == departure - b.checkout && RoomsFree(s.legs, id, b.checkout, departure)
                    && forall d :: b.checkout <= d < departure ==>
                         d in s.calendar && s.calendar[d].open && s.calendar[d].toSell >= b.rooms)
    ensures ChangeDeparture(s, id, departure, today, prices).Done? ==>
              HoldsUntil(Tick(ChangeDeparture(s, id, departure, today, prices).db), id, departure)
  {
    RowsSound(s, opening, tiled, id);
    SettledLive(s, opening, tiled, id);
    if departure > s.bookings[id].checkout {
      FreeNights(s.calendar, s.bookings[id].checkout, departure, s.bookings[id].rooms);
      StretchFits(s.legs, id, s.bookings[id].checkout, departure);
    }
    if ChangeDeparture(s, id, departure, today, prices).Done? {
      ChangedHolds(s, opening, tiled, id, departure, today, prices);
    }
  }

  lemma {:induction false} ChangedHolds(s: Db, opening: Calendar, tiled: bool, id: BookingId, departure: Date,
                                        today: Date, prices: seq<Night>)
    requires Inv(s, opening, tiled) && ChangeDeparture(s, id, departure, today, prices).Done?
    ensures HoldsUntil(Tick(ChangeDeparture(s, id, departure, today, prices).db), id, departure)
  {
    RowsSound(s, opening, tiled, id);
    SettledLive(s, opening, tiled, id);
    ChangeDepartureKeeps(s, opening, tiled, id, departure, today, prices);
    WholeStayHeld(Tick(ChangeDeparture(s, id, departure, today, prices).db), opening, tiled, id);
  }
}
