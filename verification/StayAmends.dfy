/** Amending a stay: exactly when it goes through, and what the stay is afterwards. */
module StayAmends {
  import opened Tables
  import opened Wrappers
  import opened Money
  import opened Inventory
  import opened RoomLegs
  import opened Lifecycle
  import opened Folio
  import opened BookingRules
  import opened StayInvariant
  import opened StayKeeps
  import opened ChangeKeeps
  import opened StayPrices
  import opened StayOutcomes

  // ---- when it goes through ----

  /** Once the booking's own rooms are back, the night has the rooms asked for. */
  predicate FreeOnceBack(c: Calendar, b: Booking, p: Proposal, d: Date) {
    d in c && c[d].open && c[d].toSell + (if b.checkin <= d < b.checkout then b.rooms else 0) >= p.rooms
  }

  predicate FreeForStay(c: Calendar, b: Booking, p: Proposal) {
    forall d :: p.checkin <= d < p.checkout ==> FreeOnceBack(c, b, p, d)
  }

  /** Over the new dates the segment, in its room, meets the other one. */
  predicate MeetsAmended(l: Leg, other: Leg, id: BookingId, p: Proposal) {
    && l.booking == id && l.releasedAt == None && l.index < p.rooms && l.unit.Some?
    && other.releasedAt == None && other.unit == l.unit
    && if other.booking == id then other.index < p.rooms else other.checkin < p.checkout && p.checkin < other.checkout
  }

  predicate RoomsFreeForStay(legs: Legs, id: BookingId, p: Proposal) {
    forall i, j {:trigger MeetsAmended(legs[i], legs[j], id, p)} :: i in legs && j in legs && i != j ==>
      !MeetsAmended(legs[i], legs[j], id, p)
  }

  /** The positions to be added are not taken, and no segment once released has the key of one that stays or comes. */
  ghost predicate PositionsFree(legs: Legs, id: BookingId, p: Proposal) {
    var count := |LiveIds(legs, id)|;
    forall j :: j in legs && legs[j].booking == id ==>
      && (legs[j].releasedAt == None || legs[j].checkin == p.checkin ==> !(count <= legs[j].index < p.rooms))
      && (legs[j].releasedAt.Some? && legs[j].checkin == p.checkin && legs[j].index < p.rooms ==>
            !HasPosition(legs, LiveIds(legs, id), legs[j].index))
  }

  /** No position of the booking has two live segments. */
  predicate Unsplit(legs: Legs, id: BookingId) {
    forall i, j :: i in legs && j in legs && i != j && Live(legs[i], id) && Live(legs[j], id) ==>
      legs[i].index != legs[j].index
  }

  /** Exactly one live segment, in a room that it can keep until the new departure. */
  predicate OneRoomTo(legs: Legs, id: BookingId, later: Date) {
    exists i :: i in legs && Live(legs[i], id) && legs[i].unit.Some?
        && (forall j :: j in legs && Live(legs[j], id) ==> j == i)
        && forall j :: j in legs && j != i && legs[j].releasedAt == None && legs[j].unit == legs[i].unit ==>
             legs[j].checkout <= legs[i].checkin || later <= legs[j].checkin
  }

  lemma {:induction false} SwapIff(s: Db, opening: Calendar, tiled: bool, id: BookingId, p: Proposal)
    requires Inv(s, opening, tiled) && id < |s.bookings| && s.bookings[id].kind != Inquiry
    requires s.bookings[id].status in {Pending, Approved, CheckedIn}
    ensures Swap(s.calendar, s.bookings[id], p).Some? <==> FreeForStay(s.calendar, s.bookings[id], p)
  {
    var b := s.bookings[id];
    SettledLive(s, opening, tiled, id);
    var given := Give(s.calendar, b.checkin, b.checkout, b.rooms);
    forall d ensures HasRoom(given, d, p.rooms) <==> FreeOnceBack(s.calendar, b, p, d) {
      HeldWithin(s, opening, tiled, id, |s.bookings|, d);
    }
  }

  lemma {:induction false} RunToFits(legs: Legs, id: BookingId, later: Date)
    requires NoDoubleBooking(legs)
    ensures OneAssignedLeg(legs, id) && NoDoubleBooking(RunTo(legs, id, later)) <==> OneRoomTo(legs, id, later)
  {
    var next := RunTo(legs, id, later);
    if OneAssignedLeg(legs, id) && NoDoubleBooking(next) {
      var i :| i in LiveIds(legs, id);
      OnlyLive(legs, id, i);
      forall j | j in legs && j != i && legs[j].releasedAt == None && legs[j].unit == legs[i].unit
        ensures legs[j].checkout <= legs[i].checkin || later <= legs[j].checkin
      {
        assert !Clash(next[i], next[j]);
      }
    }
    if OneRoomTo(legs, id, later) { OneRoomFits(legs, id, later); }
  }

  lemma {:induction false} OneRoomFits(legs: Legs, id: BookingId, later: Date)
    requires NoDoubleBooking(legs) && OneRoomTo(legs, id, later)
    ensures OneAssignedLeg(legs, id) && NoDoubleBooking(RunTo(legs, id, later))
  {
    var next := RunTo(legs, id, later);
    var i :| i in legs && Live(legs[i], id) && legs[i].unit.Some?
        && (forall j :: j in legs && Live(legs[j], id) ==> j == i)
        && forall j :: j in legs && j != i && legs[j].releasedAt == None && legs[j].unit == legs[i].unit ==>
             legs[j].checkout <= legs[i].checkin || later <= legs[j].checkin;
    assert LiveIds(legs, id) == {i};
    forall a, c | a in next && c in next && a != c ensures !Clash(next[a], next[c]) {
      assert !Clash(legs[a], legs[c]);
    }
  }

  lemma {:induction false} ReshapeFits(legs: Legs, id: BookingId, count: nat, p: Proposal, next: LegId)
    requires NoDoubleBooking(legs) && p.checkin < p.checkout && p.rooms >= 1 && forall i :: i in legs ==> i < next
    ensures NoDoubleBooking(Reshape(legs, id, count, p.rooms, p.checkin, p.checkout, next)) <==>
              RoomsFreeForStay(legs, id, p)
  {
    var t := Reshape(legs, id, count, p.rooms, p.checkin, p.checkout, next);
    if RoomsFreeForStay(legs, id, p) {
      forall i, j | i in t && j in t && i != j ensures !Clash(t[i], t[j]) {
        if i in legs && j in legs {
          assert !Clash(legs[i], legs[j]);
          assert !MeetsAmended(legs[i], legs[j], id, p) && !MeetsAmended(legs[j], legs[i], id, p);
        }
      }
    }
    if NoDoubleBooking(t) {
      forall i, j | i in legs && j in legs && i != j ensures !MeetsAmended(legs[i], legs[j], id, p) {
        if i in t && j in t { assert !Clash(t[i], t[j]); }
      }
    }
  }

  lemma {:induction false} ReshapeKeys(legs: Legs, id: BookingId, p: Proposal, next: LegId)
    requires KeysUnique(legs) && Unsplit(legs, id) && p.rooms >= 1 && forall i :: i in legs ==> i < next
    ensures KeysUnique(Reshape(legs, id, |LiveIds(legs, id)|, p.rooms, p.checkin, p.checkout, next)) <==>
              PositionsFree(legs, id, p)
  {
    if PositionsFree(legs, id, p) {
      FreePositionsUnique(legs, id, p, next);
    }
    if KeysUnique(Reshape(legs, id, |LiveIds(legs, id)|, p.rooms, p.checkin, p.checkout, next)) {
      forall j | j in legs && legs[j].booking == id
        ensures legs[j].releasedAt == None || legs[j].checkin == p.checkin ==>
                  !(|LiveIds(legs, id)| <= legs[j].index < p.rooms)
        ensures legs[j].releasedAt.Some? && legs[j].checkin == p.checkin && legs[j].index < p.rooms ==>
                  !HasPosition(legs, LiveIds(legs, id), legs[j].index)
      {
        UniquePositionFree(legs, id, p, next, j);
      }
    }
  }

  lemma {:induction false} FreePositionsUnique(legs: Legs, id: BookingId, p: Proposal, next: LegId)
    requires KeysUnique(legs) && Unsplit(legs, id) && p.rooms >= 1 && forall i :: i in legs ==> i < next
    requires PositionsFree(legs, id, p)
    ensures KeysUnique(Reshape(legs, id, |LiveIds(legs, id)|, p.rooms, p.checkin, p.checkout, next))
  {
    var t := Reshape(legs, id, |LiveIds(legs, id)|, p.rooms, p.checkin, p.checkout, next);
    forall i, j | i in t && j in t && i != j ensures !SameKey(t[i], t[j]) {
      if i in legs && j in legs {
        assert !SameKey(legs[i], legs[j]);
        assert Live(legs[i], id) ==> i in LiveIds(legs, id);
        assert Live(legs[j], id) ==> j in LiveIds(legs, id);
      }
    }
  }

  lemma {:induction false} UniquePositionFree(legs: Legs, id: BookingId, p: Proposal, next: LegId, j: LegId)
    requires p.rooms >= 1 && (forall i :: i in legs ==> i < next) && j in legs && legs[j].booking == id
    requires KeysUnique(Reshape(legs, id, |LiveIds(legs, id)|, p.rooms, p.checkin, p.checkout, next))
    ensures legs[j].releasedAt == None || legs[j].checkin == p.checkin ==>
              !(|LiveIds(legs, id)| <= legs[j].index < p.rooms)
    ensures legs[j].releasedAt.Some? && legs[j].checkin == p.checkin && legs[j].index < p.rooms ==>
              !HasPosition(legs, LiveIds(legs, id), legs[j].index)
  {
    var count := |LiveIds(legs, id)|;
    var t := Reshape(legs, id, count, p.rooms, p.checkin, p.checkout, next);
    if (legs[j].releasedAt == None || legs[j].checkin == p.checkin) && count <= legs[j].index < p.rooms {
      var added := next + (legs[j].index - count);
      assert added in t && j in t && SameKey(t[added], t[j]);
    }
    if legs[j].releasedAt.Some? && legs[j].checkin == p.checkin && legs[j].index < p.rooms
       && HasPosition(legs, LiveIds(legs, id), legs[j].index) {
      var i :| i in LiveIds(legs, id) && i in legs && legs[i].index == legs[j].index;
      assert SameKey(t[i], t[j]);
    }
  }

  /** An in-house guest only stays on, in one room that is free, with no move planned. */
  predicate StaysOn(s: Db, id: BookingId, p: Proposal)
    requires id < |s.bookings|
  {
    var b := s.bookings[id];
    && p.checkin == b.checkin && p.checkout > b.checkout && p.rooms == b.rooms && OneRoomTo(s.legs, id, p.checkout)
    && forall m :: 0 <= m < |s.moves| && s.moves[m].booking == id ==> s.moves[m].status != Planned
  }

  /** Any other stay is not split, and finds its rooms free and its positions unused. */
  ghost predicate Reshapes(s: Db, id: BookingId, p: Proposal) {
    Unsplit(s.legs, id) && RoomsFreeForStay(s.legs, id, p) && PositionsFree(s.legs, id, p)
  }

  lemma {:induction false} SegmentsAmendIff(s: Db, opening: Calendar, tiled: bool, id: BookingId, p: Proposal)
    requires Inv(s, opening, tiled) && KeysUnique(s.legs) && id < |s.bookings| && p.checkin < p.checkout && p.rooms >= 1
    ensures var b, legs := s.bookings[id], AmendedLegs(s, id, p);
            if b.status == CheckedIn
            then StaysOn(s, id, p) <==>
                   p.checkin == b.checkin && p.checkout > b.checkout && p.rooms == b.rooms
                   && OneAssignedLeg(s.legs, id) && NoPlannedMove(s.moves, id) && NoDoubleBooking(legs)
            else Reshapes(s, id, p) <==> NotSplit(s.legs, id) && NoDoubleBooking(legs) && KeysUnique(legs)
  {
    if s.bookings[id].status == CheckedIn {
      RunToFits(s.legs, id, p.checkout);
    } else {
      ReshapeFits(s.legs, id, |LiveIds(s.legs, id)|, p, s.nextLeg);
      if Unsplit(s.legs, id) { ReshapeKeys(s.legs, id, p, s.nextLeg); }
    }
  }

  /** Dates or rooms of a stay are changed exactly when it did not come from a provider and is still to come or in
      house; the proposal is a stay, every night of it priced and its rooms usable; the nights are free once its own
      rooms are back; and its segments can follow. */
  lemma {:induction false} AmendIff(s: Db, opening: Calendar, tiled: bool, id: BookingId, p: Proposal)
    requires Inv(s, opening, tiled) && KeysUnique(s.legs) && id < |s.bookings|
    requires var b := s.bookings[id]; p.checkin != b.checkin || p.checkout != b.checkout || p.rooms != b.rooms
    ensures var b := s.bookings[id];
            Amend(s, id, p).Done? <==>
              && !b.ota && (b.status == Pending || b.status == Approved || b.status == CheckedIn)
              && p.checkin < p.checkout && p.rooms >= 1 && |p.prices| == p.checkout - p.checkin && p.usable
              && (b.kind == Inquiry || FreeForStay(s.calendar, b, p))
              && if b.status == CheckedIn then StaysOn(s, id, p) else Reshapes(s, id, p)
  {
    var b := s.bookings[id];
    if b.status in {Pending, Approved, CheckedIn} && p.checkin < p.checkout && p.rooms >= 1 {
      SegmentsAmendIff(s, opening, tiled, id, p);
      if b.kind != Inquiry { SwapIff(s, opening, tiled, id, p); }
      AmendedRowOk(s, opening, tiled, id, p);
    }
  }

  lemma {:induction false} AmendedRowOk(s: Db, opening: Calendar, tiled: bool, id: BookingId, p: Proposal)
    requires Inv(s, opening, tiled) && id < |s.bookings| && s.bookings[id].status in {Pending, Approved, CheckedIn}
    ensures RowOk(AmendedRow(s.bookings[id], p))
  {
    RowsSound(s, opening, tiled, id);
  }

  /** Without a change of dates or rooms there is only the guest's details to change, and the tables stay as
      they are. */
  lemma {:induction false} DetailsIff(s: Db, id: BookingId, p: Proposal)
    requires id < |s.bookings|
    requires var b := s.bookings[id]; p.checkin == b.checkin && p.checkout == b.checkout && p.rooms == b.rooms
    ensures Amend(s, id, p).Done? <==>
              p.details && s.bookings[id].status != Rejected && s.bookings[id].status != Cancelled
              && s.bookings[id].status != NoShow
    ensures Amend(s, id, p).Done? ==> Amend(s, id, p).db == s
  {
  }

  // ---- what the stay is afterwards ----

  /** The dates and rooms are those proposed. A date the stay had keeps its whole night; any other has its own
      quoted prices. Nothing else of the row moves but its totals and its bill. */
  lemma {:induction false} AmendedStay(s: Db, opening: Calendar, tiled: bool, id: BookingId, p: Proposal)
    requires Inv(s, opening, tiled) && Amend(s, id, p).Done?
    requires var b := s.bookings[id]; p.checkin != b.checkin || p.checkout != b.checkout || p.rooms != b.rooms
    ensures var t := Amend(s, id, p).db; |t.bookings| == |s.bookings| && t.moves == s.moves
    ensures var was, b := s.bookings[id], Amend(s, id, p).db.bookings[id];
            && Amend(s, id, p).db.bookings == s.bookings[id := b]
            && b == was.(checkin := p.checkin, checkout := p.checkout, rooms := p.rooms, nights := b.nights,
                         totals := b.totals, charges := b.charges)
            && |b.nights| == p.checkout - p.checkin == |p.prices| && |was.nights| == was.checkout - was.checkin
            && forall i :: 0 <= i < |b.nights| ==>
                 if was.checkin <= p.checkin + i < was.checkout
                 then b.nights[i] == was.nights[p.checkin + i - was.checkin]
                 else StoredAt(b.nights[i], p.checkin + i, p.prices[i])
  {
    RowsSound(s, opening, tiled, id);
  }

  lemma {:induction false} AmendedTotals(s: Db, id: BookingId, p: Proposal)
    requires Amend(s, id, p).Done?
    requires var b := s.bookings[id]; p.checkin != b.checkin || p.checkout != b.checkout || p.rooms != b.rooms
    ensures |Amend(s, id, p).db.bookings| == |s.bookings|
    ensures var b := Amend(s, id, p).db.bookings[id];
            && b.totals.amount == p.rooms * Sum(Sellings(b.nights)) && b.totals.base == p.rooms * Sum(Bases(b.nights))
            && b.totals.taxes == p.rooms * Sum(Taxes(b.nights))
            && b.totals.commissionable == b.totals.amount - b.totals.taxes
  {
    TotalsByColumn(Amend(s, id, p).db.bookings[id].nights, p.rooms);
  }

  /** Its bill keeps the charges that still fit, voids the others, and has the nights charged before that are
      still in the stay. */
  lemma {:induction false} AmendedBillLine(s: Db, opening: Calendar, tiled: bool, id: BookingId, p: Proposal, i: nat,
                                           d: Date)
    requires Inv(s, opening, tiled) && Amend(s, id, p).Done?
    requires var b := s.bookings[id]; p.checkin != b.checkin || p.checkout != b.checkout || p.rooms != b.rooms
    ensures |Amend(s, id, p).db.bookings| == |s.bookings|
    ensures var was, b := s.bookings[id], Amend(s, id, p).db.bookings[id];
            && |was.charges| <= |b.charges|
            && (Charged(b.charges, d) <==> Charged(was.charges, d) && p.checkin <= d < p.checkout)
            && (i < |was.charges| ==> b.charges[i] == was.charges[i].(
                  voided := was.charges[i].voided || !Fitting(was.charges[i], p.checkin, b.nights, p.rooms)))
            && (|was.charges| <= i < |b.charges| ==>
                  0 <= b.charges[i].date - p.checkin < |b.nights|
                  && ChargesNight(b.charges[i], b.nights[b.charges[i].date - p.checkin], b.charges[i].date, p.rooms))
  {
    var was, b := s.bookings[id], Amend(s, id, p).db.bookings[id];
    RowsSound(s, opening, tiled, id);
    ReconcileKeepsNights(was.charges, p.checkin, b.nights, p.rooms, d);
    assert |Voided(was.charges, p.checkin, b.nights, p.rooms, |was.charges|)| == |was.charges|;
    if i < |b.charges| { ReconciledLine(was.charges, p.checkin, b.nights, p.rooms, i); }
  }

  /** A booking that holds rooms holds the new ones over the new dates, and the calendar and the channel have the
      difference; one that does not leaves both alone. */
  lemma {:induction false} AmendedRooms(s: Db, opening: Calendar, tiled: bool, id: BookingId, p: Proposal)
    requires Inv(s, opening, tiled) && Amend(s, id, p).Done?
    requires var b := s.bookings[id]; p.checkin != b.checkin || p.checkout != b.checkout || p.rooms != b.rooms
    ensures var b, t := s.bookings[id], Tick(Amend(s, id, p).db);
            if b.kind == Inquiry then t.calendar == s.calendar && t.outbox == s.outbox
            else
              HoldsUntil(t, id, p.checkout)
              && t.outbox == s.outbox + [Amended(Nights(b.checkin, b.checkout), b.rooms,
                                                 Nights(p.checkin, p.checkout), p.rooms)]
  {
    RowsSound(s, opening, tiled, id);
    if s.bookings[id].kind != Inquiry {
      AmendKeeps(s, opening, tiled, id, p);
      WholeStayHeld(Tick(Amend(s, id, p).db), opening, tiled, id);
    }
  }

  /** A segment of the booking before and after: in its position and its room, over the new dates. */
  predicate Follows(was: Leg, now: Leg, inHouse: bool, p: Proposal) {
    now == was.(checkin := if inHouse then was.checkin else p.checkin, checkout := p.checkout)
  }

  /** Every live segment that stays follows in its room; those in positions from the new number of rooms up are
      gone; new ones have no room; and nobody else's segment, nor a released one, is touched. */
  lemma {:induction false} AmendedSegments(s: Db, opening: Calendar, tiled: bool, id: BookingId, p: Proposal, i: LegId)
    requires Inv(s, opening, tiled) && Amend(s, id, p).Done?
    requires var b := s.bookings[id]; p.checkin != b.checkin || p.checkout != b.checkout || p.rooms != b.rooms
    ensures var legs := Amend(s, id, p).db.legs; var inHouse := s.bookings[id].status == CheckedIn;
            && (i in s.legs && !Live(s.legs[i], id) ==> i in legs && legs[i] == s.legs[i])
            && (i in s.legs && Live(s.legs[i], id) ==>
                  (i in legs <==> inHouse || s.legs[i].index < p.rooms)
                  && (i in legs ==> Follows(s.legs[i], legs[i], inHouse, p)))
            && (i in legs && i !in s.legs ==>
                  !inHouse && |LiveIds(s.legs, id)| <= legs[i].index < p.rooms
                  && legs[i] == Leg(id, legs[i].index, None, p.checkin, p.checkout, None))
  {
  }
}
