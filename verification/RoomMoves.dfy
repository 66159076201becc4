/** Putting segments in physical rooms and moving guests between them: exactly when each goes through, and in
    which room every night of the segment is afterwards. */
module RoomMoves {
  import opened Tables
  import opened Wrappers
  import opened Inventory
  import opened RoomLegs
  import opened Lifecycle
  import opened Folio
  import opened BookingRules
  import opened StayInvariant

  /** A segment of a booking still to come or in house, of a kind that takes rooms. */
  predicate OfLiveStay(s: Db, leg: LegId) {
    leg in s.legs && s.legs[leg].booking < |s.bookings|
    && var b := s.bookings[s.legs[leg].booking];
       (b.status == Pending || b.status == Approved || b.status == CheckedIn) && b.kind != Inquiry
  }

  predicate IsIn(s: Db, leg: LegId)
    requires leg in s.legs
  {
    s.legs[leg].booking < |s.bookings| && s.bookings[s.legs[leg].booking].status == CheckedIn
  }

  /** No other live segment is in the room on a night of [lo, hi). */
  predicate RoomFree(legs: Legs, leg: LegId, unit: UnitId, lo: Date, hi: Date) {
    forall j :: j in legs && j != leg && legs[j].releasedAt == None && legs[j].unit == Some(unit) ==>
      legs[j].checkout <= lo || hi <= legs[j].checkin
  }

  // ---- a room given to a segment, or taken from it ----

  lemma {:induction false} RoomChanges(legs: Legs, leg: LegId, unit: Option<UnitId>)
    requires NoDoubleBooking(legs) && leg in legs
    ensures NoDoubleBooking(legs[leg := legs[leg].(unit := unit)]) <==>
              (unit.Some? && legs[leg].releasedAt == None ==>
                RoomFree(legs, leg, unit.value, legs[leg].checkin, legs[leg].checkout))
  {
    var l := legs[leg].(unit := unit);
    var t := legs[leg := l];
    if NoDoubleBooking(t) && unit.Some? && l.releasedAt == None {
      forall j | j in legs && j != leg && legs[j].releasedAt == None && legs[j].unit == unit
        ensures legs[j].checkout <= l.checkin || l.checkout <= legs[j].checkin
      {
        assert !Clash(t[leg], t[j]);
      }
    }
    if unit.Some? && l.releasedAt == None ==> RoomFree(legs, leg, unit.value, l.checkin, l.checkout) {
      forall i, j | i in t && j in t && i != j ensures !Clash(t[i], t[j]) {
        assert !Clash(legs[i], legs[j]);
      }
    }
  }

  /** A segment is put in a usable room that is free over it, or in none before its arrival day; a guest in house
      keeps the room. Nothing but the segment's room changes. */
  lemma {:induction false} AssignIff(s: Db, leg: LegId, unit: Option<UnitId>, today: Date, usable: bool)
    requires NoDoubleBooking(s.legs)
    ensures AssignRoom(s, leg, unit, today, usable).Done? <==>
              && OfLiveStay(s, leg)
              && (IsIn(s, leg) && s.legs[leg].unit.Some? ==> unit == s.legs[leg].unit)
              && (if unit == None then !IsIn(s, leg) && today < s.legs[leg].checkin
                  else usable && (s.legs[leg].releasedAt.Some?
                                  || RoomFree(s.legs, leg, unit.value, s.legs[leg].checkin, s.legs[leg].checkout)))
    ensures AssignRoom(s, leg, unit, today, usable).Done? ==>
              AssignRoom(s, leg, unit, today, usable).db == s.(legs := s.legs[leg := s.legs[leg].(unit := unit)])
  {
    if leg in s.legs { RoomChanges(s.legs, leg, unit); }
  }

  // ---- a move ----

  lemma {:induction false} MovedFits(s: Db, leg: LegId, target: UnitId, from: Date)
    requires NoDoubleBooking(s.legs) && leg in s.legs && from < s.legs[leg].checkout && s.nextLeg !in s.legs
    ensures var l := s.legs[leg];
            NoDoubleBooking(MovedTo(s, leg, target, from)) <==>
              if from > l.checkin then RoomFree(s.legs, leg, target, from, l.checkout)
              else l.releasedAt.Some? || RoomFree(s.legs, leg, target, l.checkin, l.checkout)
  {
    var l := s.legs[leg];
    if from > l.checkin {
      SplitFits(s, leg, target, from);
    } else {
      RoomChanges(s.legs, leg, Some(target));
    }
  }

  lemma {:induction false} SplitFits(s: Db, leg: LegId, target: UnitId, from: Date)
    requires NoDoubleBooking(s.legs) && leg in s.legs && s.legs[leg].checkin < from < s.legs[leg].checkout
    requires s.nextLeg !in s.legs
    ensures NoDoubleBooking(MovedTo(s, leg, target, from)) <==>
              RoomFree(s.legs, leg, target, from, s.legs[leg].checkout)
  {
    var t := MovedTo(s, leg, target, from);
    if RoomFree(s.legs, leg, target, from, s.legs[leg].checkout) {
      forall i, j | i in t && j in t && i != j ensures !Clash(t[i], t[j]) {
        if i != s.nextLeg && j != s.nextLeg { assert !Clash(s.legs[i], s.legs[j]); }
      }
    }
    if NoDoubleBooking(t) {
      forall j | j in s.legs && j != leg && s.legs[j].releasedAt == None && s.legs[j].unit == Some(target)
        ensures s.legs[j].checkout <= from || s.legs[leg].checkout <= s.legs[j].checkin
      {
        assert !Clash(t[s.nextLeg], t[j]);
      }
    }
  }

  /** No segment of its position has the arrival the new segment would have. */
  predicate KeyFree(legs: Legs, leg: LegId, from: Date)
    requires leg in legs
  {
    forall j :: j in legs && legs[j].booking == legs[leg].booking && legs[j].index == legs[leg].index ==>
      legs[j].checkin != from
  }

  lemma {:induction false} MovedKeys(s: Db, leg: LegId, target: UnitId, from: Date)
    requires KeysUnique(s.legs) && leg in s.legs && s.nextLeg !in s.legs
    ensures KeysUnique(MovedTo(s, leg, target, from)) <==> (from > s.legs[leg].checkin ==> KeyFree(s.legs, leg, from))
  {
    var t := MovedTo(s, leg, target, from);
    if from > s.legs[leg].checkin && KeysUnique(t) {
      forall j | j in s.legs && s.legs[j].booking == s.legs[leg].booking && s.legs[j].index == s.legs[leg].index
        ensures s.legs[j].checkin != from
      {
        assert !SameKey(t[s.nextLeg], t[j]);
      }
    }
    if from > s.legs[leg].checkin ==> KeyFree(s.legs, leg, from) {
      forall i, j | i in t && j in t && i != j ensures !SameKey(t[i], t[j]) {
        if i in s.legs && j in s.legs { assert !SameKey(s.legs[i], s.legs[j]); }
      }
    }
  }

  /** Among the segment and what is new in its position, exactly one covers the night, in this room. */
  ghost predicate SleepsIn(legs: Legs, next: Legs, leg: LegId, d: Date, unit: Option<UnitId>)
    requires leg in legs
  {
    exists i :: i in next && (i == leg || i !in legs) && Covers(next[i], d) && next[i].unit == unit
      && next[i].booking == legs[leg].booking && next[i].index == legs[leg].index
      && forall k :: k in next && (k == leg || k !in legs) && Covers(next[k], d) ==> k == i
  }

  function RoomOn(l: Leg, d: Date, target: UnitId, from: Date): Option<UnitId> {
    if d < from then l.unit else Some(target)
  }

  /** The segment's nights before the date are in the room it had, those from the date on in the target; a segment
      is added only when there are nights of both; no other segment changes. */
  ghost predicate MovedFrom(legs: Legs, next: Legs, leg: LegId, added: LegId, target: UnitId, from: Date)
    requires leg in legs
  {
    var l := legs[leg];
    && next.Keys == legs.Keys + (if from > l.checkin then {added} else {})
    && (forall j :: j in legs && j != leg ==> next[j] == legs[j])
    && (forall j :: j in next && (j == leg || j !in legs) ==>
          l.checkin <= next[j].checkin && next[j].checkout <= l.checkout
          && next[j].releasedAt == if j == leg then l.releasedAt else None)
    && forall d :: l.checkin <= d < l.checkout ==>
         SleepsIn(legs, next, leg, d, RoomOn(l, d, target, from))
  }

  lemma {:induction false} MovedIsRight(s: Db, leg: LegId, target: UnitId, from: Date)
    requires leg in s.legs && from < s.legs[leg].checkout && s.nextLeg !in s.legs
    ensures MovedFrom(s.legs, MovedTo(s, leg, target, from), leg, s.nextLeg, target, from)
  {
    var l, t := s.legs[leg], MovedTo(s, leg, target, from);
    forall d | l.checkin <= d < l.checkout
      ensures SleepsIn(s.legs, t, leg, d, RoomOn(l, d, target, from))
    {
      if from > l.checkin && d >= from {
        assert s.nextLeg in t && Covers(t[s.nextLeg], d);
      } else {
        assert leg in t && Covers(t[leg], d);
      }
    }
  }

  // ---- at the desk ----

  /** The first night of the move: the date given, else the whole stay before arrival, else from today. */
  function FromDate(s: Db, leg: LegId, date: Option<Date>, today: Date): Date
    requires leg in s.legs
  {
    if date.Some? then date.value
    else if IsIn(s, leg) && today > s.legs[leg].checkin then today
    else s.legs[leg].checkin
  }

  predicate IsPlan(date: Option<Date>, today: Date) {
    date.Some? && date.value > today
  }

  /** A guest is moved out of a room they have, on a night of the segment that is not past, or before arrival as a
      whole. A move not planned for later also needs the target room, and the segment's key, to be free. */
  lemma {:induction false} MoveRoomIff(s: Db, leg: LegId, target: UnitId, date: Option<Date>, today: Date,
                                       allowed: bool)
    requires NoDoubleBooking(s.legs) && KeysUnique(s.legs) && LegIds(s)
    ensures MoveRoom(s, leg, target, date, today, allowed).Done? <==>
              && OfLiveStay(s, leg) && s.legs[leg].unit.Some? && allowed
              && var l, from := s.legs[leg], FromDate(s, leg, date, today);
                 ((date == None && !IsIn(s, leg)) || (today <= from && l.checkin <= from < l.checkout))
                 && (IsPlan(date, today)
                     || (if from > l.checkin
                         then RoomFree(s.legs, leg, target, from, l.checkout) && KeyFree(s.legs, leg, from)
                         else l.releasedAt.Some? || RoomFree(s.legs, leg, target, l.checkin, l.checkout)))
  {
    if leg in s.legs && FromDate(s, leg, date, today) < s.legs[leg].checkout {
      MovedFits(s, leg, target, FromDate(s, leg, date, today));
      MovedKeys(s, leg, target, FromDate(s, leg, date, today));
    }
  }

  /** A planned move only writes the plan down. */
  lemma {:induction false} MovePlanned(s: Db, leg: LegId, target: UnitId, date: Option<Date>, today: Date,
                                       allowed: bool)
    requires MoveRoom(s, leg, target, date, today, allowed).Done? && IsPlan(date, today)
    ensures var l := s.legs[leg];
            l.unit.Some? && MoveRoom(s, leg, target, date, today, allowed).db
              == s.(moves := s.moves + [Move(l.booking, leg, l.unit.value, target, date.value, Planned, None)])
  {
  }

  /** Any other one moves the guest: each night of the segment is in the room it should be in, and the move is
      recorded with the segment it made, if it made one. */
  lemma {:induction false} MoveMoves(s: Db, leg: LegId, target: UnitId, date: Option<Date>, today: Date,
                                     allowed: bool)
    requires LegIds(s) && MoveRoom(s, leg, target, date, today, allowed).Done? && !IsPlan(date, today)
    ensures var l, from, t := s.legs[leg], FromDate(s, leg, date, today),
                              MoveRoom(s, leg, target, date, today, allowed).db;
            && MovedFrom(s.legs, t.legs, leg, s.nextLeg, target, from)
            && t == s.(legs := t.legs, nextLeg := s.nextLeg + 1, moves := t.moves) && l.unit.Some?
            && t.moves == s.moves + [Move(l.booking, leg, l.unit.value, target, from, Completed,
                                          if from > l.checkin then Some(s.nextLeg) else None)]
  {
    MovedIsRight(s, leg, target, FromDate(s, leg, date, today));
  }

  // ---- when a planned move is due ----

  /** The segment is as it was planned: still in the room to leave, with nights from the date on. */
  predicate AsPlanned(s: Db, v: Move) {
    v.leg in s.legs && s.legs[v.leg].unit == Some(v.source) && v.effective < s.legs[v.leg].checkout
  }

  /** A due move of a guest expected or in house is dealt with, unless its segment is as planned and the target room,
      or the key, is not free. */
  lemma {:induction false} ApplyIff(s: Db, m: nat, date: Date)
    requires NoDoubleBooking(s.legs) && KeysUnique(s.legs) && LegIds(s) && m < |s.moves|
    ensures ApplyMove(s, m, date).Done? <==>
              var v := s.moves[m];
              && v.status == Planned && v.effective <= date && v.booking < |s.bookings|
              && (s.bookings[v.booking].status == Approved || s.bookings[v.booking].status == CheckedIn)
              && (AsPlanned(s, v) ==>
                    var l, from := s.legs[v.leg], v.effective;
                    if from > l.checkin
                    then RoomFree(s.legs, v.leg, v.target, from, l.checkout) && KeyFree(s.legs, v.leg, from)
                    else l.releasedAt.Some? || RoomFree(s.legs, v.leg, v.target, l.checkin, l.checkout))
  {
    var v := s.moves[m];
    if AsPlanned(s, v) {
      MovedFits(s, v.leg, v.target, v.effective);
      MovedKeys(s, v.leg, v.target, v.effective);
    }
  }

  /** A move whose segment is no longer as planned is stopped, and nothing else changes. */
  lemma {:induction false} MoveStops(s: Db, m: nat, date: Date)
    requires ApplyMove(s, m, date).Done? && !AsPlanned(s, s.moves[m])
    ensures ApplyMove(s, m, date).db == s.(moves := s.moves[m := s.moves[m].(status := Stopped)])
  {
  }

  /** Any other puts each night of the segment in the room it should be in, and is completed with the segment the
      guest is in from then on. */
  lemma {:induction false} MoveApplies(s: Db, m: nat, date: Date)
    requires LegIds(s) && ApplyMove(s, m, date).Done? && AsPlanned(s, s.moves[m])
    ensures var v, t := s.moves[m], ApplyMove(s, m, date).db;
            && MovedFrom(s.legs, t.legs, v.leg, s.nextLeg, v.target, v.effective)
            && t == s.(legs := t.legs, nextLeg := s.nextLeg + 1, moves := t.moves) && |t.moves| == |s.moves|
            && t.moves[m] == v.(status := Completed,
                                destination := Some(if v.effective > s.legs[v.leg].checkin then s.nextLeg else v.leg))
  {
    MovedIsRight(s, s.moves[m].leg, s.moves[m].target, s.moves[m].effective);
  }

  /** Every other move stands as it was, but that a later planned one of the segment names the segment its date
      is now in. */
  lemma {:induction false} LaterMovesFollow(s: Db, m: nat, date: Date, k: nat)
    requires LegIds(s) && ApplyMove(s, m, date).Done? && AsPlanned(s, s.moves[m]) && k < |s.moves| && k != m
    ensures var v, t := s.moves[m], ApplyMove(s, m, date).db;
            && |t.moves| == |s.moves|
            && t.moves[k] == s.moves[k].(leg := t.moves[k].leg)
            && (s.moves[k].leg == v.leg && s.moves[k].status == Planned && s.moves[k].effective > v.effective
                && s.moves[k].effective < s.legs[v.leg].checkout && s.legs[v.leg].checkin <= s.moves[k].effective ==>
                  t.moves[k].leg in t.legs && Covers(t.legs[t.moves[k].leg], s.moves[k].effective)
                  && t.legs[t.moves[k].leg].unit == Some(v.target))
            && (s.moves[k].leg != v.leg || s.moves[k].status != Planned || s.moves[k].effective <= v.effective ==>
                  t.moves[k] == s.moves[k])
  {
  }
}
