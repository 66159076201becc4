/** What each transition, undo, hold and sweep writes: the booking's row, its segments, and nothing else. */
module StayEffects {
  import opened Tables
  import opened Wrappers
  import opened Inventory
  import opened RoomLegs
  import opened Lifecycle
  import opened Folio
  import opened BookingRules
  import opened StayInvariant
  import opened StayKeeps
  import opened StayPrices
  import opened StayOutcomes

  /** The tables after, but for calendar, channel and clock: this row, and segments that are the old ones changed. */
  ghost predicate Writes(s: Db, t: Db, id: BookingId, b: Booking) {
    && id < |s.bookings| && t.bookings == s.bookings[id := b] && t.moves == s.moves && t.nextLeg == s.nextLeg
    && t.now == s.now && t.legs.Keys == s.legs.Keys
  }

  /** A segment before and after: released if it is the booking's and live, and still in its room. */
  predicate LetGo(was: Leg, now: Leg, id: BookingId, at: int) {
    now == if was.booking == id && was.releasedAt == None then was.(releasedAt := Some(at)) else was
  }

  ghost predicate AllLetGo(s: Db, t: Db, id: BookingId) {
    t.legs.Keys == s.legs.Keys && forall i :: i in s.legs ==> LetGo(s.legs[i], t.legs[i], id, s.now)
  }

  ghost predicate AllStopBy(s: Db, t: Db, id: BookingId, end: Date) {
    t.legs.Keys == s.legs.Keys && forall i :: i in s.legs ==> StopsBy(s.legs[i], t.legs[i], id, end, s.now)
  }

  // ---- transitions ----

  /** A rejected or cancelled booking is the one it was but for that, and all its segments are let go. */
  lemma {:induction false} GivenUpRow(s: Db, opening: Calendar, tiled: bool, id: BookingId)
    requires Inv(s, opening, tiled) && id < |s.bookings|
    ensures Reject(s, id).Done? ==>
              Writes(s, Reject(s, id).db, id, s.bookings[id].(status := Rejected)) && AllLetGo(s, Reject(s, id).db, id)
    ensures Cancel(s, id).Done? ==>
              Writes(s, Cancel(s, id).db, id, s.bookings[id].(status := Cancelled)) && AllLetGo(s, Cancel(s, id).db, id)
  {
  }

  /** A no-show keeps the nights up to the later of its arrival and the day it is marked; the row says from when it
      does not, if it does not, and the provider hears of it if the booking came from one. */
  lemma {:induction false} NoShowRow(s: Db, opening: Calendar, tiled: bool, id: BookingId, markedOn: Date)
    requires Inv(s, opening, tiled) && MarkNoShow(s, id, markedOn).Done?
    ensures var b, t := s.bookings[id], MarkNoShow(s, id, markedOn).db;
            var next := (if markedOn > b.checkin then markedOn else b.checkin) + 1;
            && Writes(s, t, id, b.(status := NoShow, releasedFrom := if next < b.checkout then Some(next) else None))
            && (if next < b.checkout then AllStopBy(s, t, id, next) else t.legs == s.legs)
            && t.outbox == s.outbox + (if next < b.checkout then [Release(Nights(next, b.checkout), b.rooms)] else [])
                           + (if b.ota then [NoShowNotice(id)] else [])
  {
    SettledLive(s, opening, tiled, id);
  }

  /** A departed guest's row says from when nights were given back, if any were kept; leaving on the arrival day or
      before gives the whole stay back. */
  lemma {:induction false} CheckOutRow(s: Db, opening: Calendar, tiled: bool, id: BookingId, operating: Date,
                                       settled: bool)
    requires Inv(s, opening, tiled) && CheckOut(s, id, operating, settled).Done?
    ensures var b, t := s.bookings[id], CheckOut(s, id, operating, settled).db;
            && Writes(s, t, id, b.(status := CheckedOut, releasedFrom :=
                 if b.checkin < operating < b.checkout then Some(operating) else None))
            && (if operating <= b.checkin then AllLetGo(s, t, id)
                else if operating < b.checkout then AllStopBy(s, t, id, operating)
                else t.legs == s.legs)
  {
    SettledLive(s, opening, tiled, id);
    RowsSound(s, opening, tiled, id);
  }

  // ---- taking back ----

  /** A check-in is undone exactly where it may be, and only the status goes back. */
  lemma {:induction false} UndoCheckInIff(s: Db, opening: Calendar, tiled: bool, id: BookingId, allowed: bool)
    requires Inv(s, opening, tiled) && id < |s.bookings|
    ensures UndoCheckIn(s, id, allowed).Done? <==> s.bookings[id].status == CheckedIn && allowed
    ensures UndoCheckIn(s, id, allowed).Done? ==>
              UndoCheckIn(s, id, allowed).db == s.(bookings := s.bookings[id := s.bookings[id].(status := Approved)])
  {
    RowsSound(s, opening, tiled, id);
  }

  /** A segment taken back keeps its room if that is free, and has none otherwise. */
  function InRoom(l: Leg, free: bool): Leg {
    if free then l else l.(unit := None)
  }

  /** A check-out is undone exactly where it may be and the nights given back can be had again: from the date on the
      row or, when the whole stay was given back, all of them. */
  lemma {:induction false} UndoCheckOutIff(s: Db, opening: Calendar, tiled: bool, id: BookingId, allowed: bool,
                                           keep: set<LegId>)
    requires Inv(s, opening, tiled) && id < |s.bookings| && s.bookings[id].status == CheckedOut
    requires FairVerdict(s.legs, Stretch(s.legs, id, HeldUntil(s.bookings[id]), s.bookings[id].checkout, keep))
    requires FairVerdict(s.legs, Restore(s.legs, id, keep))
    ensures var b := s.bookings[id];
            UndoCheckOut(s, id, allowed, keep).Done? <==>
              allowed && var from := if b.releasedFrom.Some? then b.releasedFrom.value
                                     else if HasLive(s.legs, id) then b.checkout else b.checkin;
                         forall d :: from <= d < b.checkout ==>
                           d in s.calendar && s.calendar[d].open && s.calendar[d].toSell >= b.rooms
  {
    var b := s.bookings[id];
    RowsSound(s, opening, tiled, id);
    FreeNights(s.calendar, b.checkin, b.checkout, b.rooms);
    if b.releasedFrom.Some? { FreeNights(s.calendar, b.releasedFrom.value, b.checkout, b.rooms); }
  }

  lemma {:induction false} UndoCheckOutRow(s: Db, opening: Calendar, tiled: bool, id: BookingId, allowed: bool,
                                           keep: set<LegId>)
    requires Inv(s, opening, tiled) && UndoCheckOut(s, id, allowed, keep).Done?
    ensures Writes(s, UndoCheckOut(s, id, allowed, keep).db, id,
                   s.bookings[id].(status := CheckedIn, releasedFrom := None))
  {
    RowsSound(s, opening, tiled, id);
  }

  /** A cut segment runs on to the departure again. */
  predicate ResumedTo(was: Leg, now: Leg, id: BookingId, from: Date, end: Date, free: bool) {
    now == if was.booking == id && was.releasedAt == None && was.checkout == from
           then InRoom(was.(checkout := end), free) else was
  }

  /** A segment the booking's latest release let go is live again. */
  ghost predicate Revived(legs: Legs, i: LegId, now: Leg, id: BookingId, free: bool)
    requires i in legs
  {
    now == if legs[i].booking == id && legs[i].releasedAt.Some?
              && (forall j :: j in legs && legs[j].booking == id && legs[j].releasedAt.Some? ==>
                    legs[j].releasedAt.value <= legs[i].releasedAt.value)
           then InRoom(legs[i].(releasedAt := None), free) else legs[i]
  }

  /** The segments of a stay taken back: those cut run on, or those let go are live; each in its room, unless another
      live segment has that room on one of its nights. */
  ghost predicate TakenBack(s: Db, t: Db, id: BookingId, keep: set<LegId>)
    requires id < |s.bookings|
  {
    var b := s.bookings[id];
    && t.legs.Keys == s.legs.Keys && NoDoubleBooking(t.legs)
    && (forall i :: i in s.legs && s.legs[i].unit.Some? && t.legs[i].unit == None ==>
          exists j :: j in t.legs && j != i && Clash(t.legs[i].(unit := s.legs[i].unit), t.legs[j]))
    && if b.releasedFrom.Some?
       then forall i :: i in s.legs ==>
              ResumedTo(s.legs[i], t.legs[i], id, b.releasedFrom.value, b.checkout, i in keep)
       else if HasLive(s.legs, id) then t.legs == s.legs
       else forall i :: i in s.legs ==> Revived(s.legs, i, t.legs[i], id, i in keep)
  }

  lemma {:induction false} UndoCheckOutSegments(s: Db, opening: Calendar, tiled: bool, id: BookingId, allowed: bool,
                                                keep: set<LegId>)
    requires Inv(s, opening, tiled) && UndoCheckOut(s, id, allowed, keep).Done?
    ensures TakenBack(s, UndoCheckOut(s, id, allowed, keep).db, id, keep)
  {
    RowsSound(s, opening, tiled, id);
  }

  /** A reinstated booking is approved, keeps no trace of a release, and is otherwise the one it was. */
  lemma {:induction false} ReinstatedRow(s: Db, opening: Calendar, tiled: bool, id: BookingId, today: Date,
                                         keep: set<LegId>)
    requires Inv(s, opening, tiled) && Reinstate(s, id, today, keep).Done?
    ensures Writes(s, Reinstate(s, id, today, keep).db, id,
                   s.bookings[id].(status := Approved, releasedFrom := None))
  {
    RowsSound(s, opening, tiled, id);
  }

  lemma {:induction false} ReinstatedSegments(s: Db, opening: Calendar, tiled: bool, id: BookingId, today: Date,
                                              keep: set<LegId>)
    requires Inv(s, opening, tiled) && Reinstate(s, id, today, keep).Done?
    ensures TakenBack(s, Reinstate(s, id, today, keep).db, id, keep)
  {
    SettledLive(s, opening, tiled, id);
    RowsSound(s, opening, tiled, id);
    if s.bookings[id].status == NoShow {
      NoShowTakenBack(s, id, today, keep);
    } else {
      CancelledTakenBack(s, id, today, keep);
    }
  }

  lemma {:induction false} NoShowTakenBack(s: Db, id: BookingId, today: Date, keep: set<LegId>)
    requires NoDoubleBooking(s.legs) && Reinstate(s, id, today, keep).Done? && s.bookings[id].status == NoShow
    requires RowInv(s.bookings[id]) && HasLive(s.legs, id)
    ensures TakenBack(s, Reinstate(s, id, today, keep).db, id, keep)
  {
  }

  lemma {:induction false} CancelledTakenBack(s: Db, id: BookingId, today: Date, keep: set<LegId>)
    requires Reinstate(s, id, today, keep).Done? && s.bookings[id].status == Cancelled
    requires s.bookings[id].releasedFrom == None && !HasLive(s.legs, id)
    ensures TakenBack(s, Reinstate(s, id, today, keep).db, id, keep)
  {
  }

  /** A booking still to come is voided exactly where it may be, once; it is then cancelled and voided, holds nothing
      and has no live segment. */
  lemma {:induction false} VoidIff(s: Db, opening: Calendar, tiled: bool, id: BookingId, allowed: bool)
    requires Inv(s, opening, tiled) && id < |s.bookings|
    ensures Void(s, id, allowed).Done? <==>
              (s.bookings[id].status == Pending || s.bookings[id].status == Approved) && !s.bookings[id].voided
              && allowed
    ensures Void(s, id, allowed).Done? ==>
              && Writes(s, Void(s, id, allowed).db, id, s.bookings[id].(status := Cancelled, voided := true))
              && AllLetGo(s, Void(s, id, allowed).db, id) && HoldsNothing(Tick(Void(s, id, allowed).db), id)
  {
    RowsSound(s, opening, tiled, id);
    if Void(s, id, allowed).Done? { VoidedHoldsNothing(s, opening, tiled, id, allowed); }
  }

  lemma {:induction false} VoidedHoldsNothing(s: Db, opening: Calendar, tiled: bool, id: BookingId, allowed: bool)
    requires Inv(s, opening, tiled) && Void(s, id, allowed).Done?
    ensures HoldsNothing(Tick(Void(s, id, allowed).db), id)
  {
    VoidKeeps(s, opening, tiled, id, allowed);
    SoundHolds(Tick(Void(s, id, allowed).db), opening, tiled, id);
  }

  // ---- holds ----

  /** The booking cancelled: its row but for that as it was, its segments let go, and nothing held. */
  ghost predicate CancelledWhole(s: Db, t: Db, id: BookingId)
    requires id < |s.bookings|
  {
    Writes(s, t, id, s.bookings[id].(status := Cancelled)) && AllLetGo(s, t, id) && HoldsNothing(Tick(t), id)
  }

  lemma {:induction false} CancelledWholly(s: Db, opening: Calendar, tiled: bool, id: BookingId)
    requires Inv(s, opening, tiled) && id < |s.bookings| && s.bookings[id].status in {Pending, Approved}
    requires s.bookings[id].kind != Inquiry
    ensures CancelAndRelease(s, id).Done? && CancelledWhole(s, CancelAndRelease(s, id).db, id)
  {
    RowsSound(s, opening, tiled, id);
    SettledLive(s, opening, tiled, id);
    CancelAndReleaseKeeps(s, opening, tiled, id);
    SoundHolds(Tick(CancelAndRelease(s, id).db), opening, tiled, id);
  }

  /** A hold is released by hand exactly while it is one. */
  lemma {:induction false} ReleaseHoldIff(s: Db, opening: Calendar, tiled: bool, id: BookingId)
    requires Inv(s, opening, tiled) && id < |s.bookings|
    ensures ReleaseHold(s, id).Done? <==>
              (s.bookings[id].status == Pending || s.bookings[id].status == Approved)
              && (s.bookings[id].kind == HoldConfirm || s.bookings[id].kind == HoldUnconfirm)
    ensures ReleaseHold(s, id).Done? ==> CancelledWhole(s, ReleaseHold(s, id).db, id)
  {
    if s.bookings[id].status in {Pending, Approved} && s.bookings[id].kind != Inquiry {
      CancelledWholly(s, opening, tiled, id);
    }
  }

  /** And by the sweep exactly once its release time has come. */
  lemma {:induction false} ReleaseDueIff(s: Db, opening: Calendar, tiled: bool, id: BookingId, clock: int)
    requires Inv(s, opening, tiled) && id < |s.bookings|
    ensures ReleaseDueHold(s, id, clock).Done? <==>
              (s.bookings[id].status == Pending || s.bookings[id].status == Approved)
              && s.bookings[id].holdUntil.Some? && s.bookings[id].holdUntil.value <= clock
    ensures ReleaseDueHold(s, id, clock).Done? ==> CancelledWhole(s, ReleaseDueHold(s, id, clock).db, id)
  {
    RowsSound(s, opening, tiled, id);
    if s.bookings[id].status in {Pending, Approved} && s.bookings[id].kind != Inquiry {
      CancelledWholly(s, opening, tiled, id);
    }
  }

  /** A booking still unconfirmed is expired exactly once its arrival day is over. */
  lemma {:induction false} ExpireIff(s: Db, opening: Calendar, tiled: bool, id: BookingId, today: Date)
    requires Inv(s, opening, tiled) && id < |s.bookings|
    ensures ExpireUnconfirmed(s, id, today).Done? <==>
              s.bookings[id].status == Pending && s.bookings[id].checkin < today
    ensures ExpireUnconfirmed(s, id, today).Done? ==> CancelledWhole(s, ExpireUnconfirmed(s, id, today).db, id)
  {
    RowsSound(s, opening, tiled, id);
    if s.bookings[id].status == Pending && s.bookings[id].kind != Inquiry {
      CancelledWholly(s, opening, tiled, id);
    } else if ExpireUnconfirmed(s, id, today).Done? {
      ExpireKeeps(s, opening, tiled, id, today);
      SoundHolds(Tick(ExpireUnconfirmed(s, id, today).db), opening, tiled, id);
    }
  }

  // ---- rooms picked, and rooms swapped ----

  /** A segment's room is the one it had or, if it had none, one picked for it. */
  lemma {:induction false} SeatedAsPicked(legs: Legs, id: BookingId, picks: seq<Pick>, i: LegId)
    requires i in legs
    ensures i in SeatEach(legs, id, picks)
    ensures var unit := SeatEach(legs, id, picks)[i].unit;
            unit == legs[i].unit
            || (legs[i].unit == None && Live(legs[i], id)
                && exists k :: 0 <= k < |picks| && picks[k].leg == i && unit == Some(picks[k].unit))
    ensures SeatEach(legs, id, picks)[i].(unit := legs[i].unit) == legs[i]
  {
    if picks == [] {
    } else {
      var front := picks[..|picks| - 1];
      SeatedAsPicked(legs, id, front, i);
      var unit := SeatEach(legs, id, front)[i].unit;
      if unit != legs[i].unit {
        var k :| 0 <= k < |front| && front[k].leg == i && unit == Some(front[k].unit);
        assert picks[k] == front[k];
      }
    }
  }

  /** A live segment of the booking in a room that is dirty. */
  predicate InDirtyRoom(l: Leg, id: BookingId, dirty: set<UnitId>) {
    l.booking == id && l.releasedAt == None && l.unit.Some? && l.unit.value in dirty
  }

  /** Rooms are swapped for an approved booking only. With none of its rooms dirty nothing changes; otherwise only
      segments in dirty rooms lose theirs, and it goes through only if no room of tonight is dirty or missing. */
  lemma {:induction false} SwitchSays(s: Db, id: BookingId, today: Date, dirty: set<UnitId>, seating: Seating, i: LegId)
    requires i in s.legs
    ensures SwitchRooms(s, id, today, dirty, seating).Done? ==> id < |s.bookings| && s.bookings[id].status == Approved
    ensures id < |s.bookings| && s.bookings[id].status == Approved
            && (forall k :: k in s.legs ==> !InDirtyRoom(s.legs[k], id, dirty)) ==>
              SwitchRooms(s, id, today, dirty, seating) == Done(s)
    ensures SwitchRooms(s, id, today, dirty, seating).Done? && InDirtyRoom(s.legs[i], id, dirty) ==>
              var t := SwitchRooms(s, id, today, dirty, seating).db;
              && t == s.(legs := t.legs) && i in t.legs
              && t.legs[i] == s.legs[i].(unit := t.legs[i].unit)
              && (t.legs[i].unit.Some? ==>
                    seating.Picked?
                    && exists k :: 0 <= k < |seating.picks| && seating.picks[k].leg == i
                                   && t.legs[i].unit == Some(seating.picks[k].unit))
              && (s.legs[i].checkin <= today < s.legs[i].checkout ==>
                    t.legs[i].unit.Some? && t.legs[i].unit.value !in dirty)
    ensures SwitchRooms(s, id, today, dirty, seating).Done? && s.legs[i].unit.Some?
            && !InDirtyRoom(s.legs[i], id, dirty) ==>
              i in SwitchRooms(s, id, today, dirty, seating).db.legs
              && SwitchRooms(s, id, today, dirty, seating).db.legs[i] == s.legs[i]
  {
    if seating.Picked? { SeatedAsPicked(OutOfDirty(s.legs, id, dirty), id, seating.picks, i); }
  }
}
