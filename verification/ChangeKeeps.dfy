/** Changing what a stay is, or opening one, keeps the invariant of the tables: new bookings, moved
    departures, amendments, physical rooms and the bill. */
module ChangeKeeps {
  import opened Tables
  import opened Wrappers
  import opened Inventory
  import opened RoomLegs
  import opened Lifecycle
  import opened Folio
  import opened BookingRules
  import opened StayInvariant
  import opened StayKeeps

  // ---- the bill after a change ----

  lemma {:induction false} WithoutEnd(nights: seq<Night>, checkin: Date, lo: Date, hi: Date, n: nat)
    requires Dated(nights, checkin) && n <= |nights| && checkin <= lo && checkin + |nights| <= hi
    ensures var kept := if lo - checkin < |nights| then lo - checkin else |nights|;
            Without(nights[..n], lo, hi) == nights[..if n < lo - checkin then n else kept]
  {
    if n == 0 {
    } else {
      WithoutEnd(nights, checkin, lo, hi, n - 1);
      assert nights[..n][..n - 1] == nights[..n - 1];
    }
  }

  lemma {:induction false} ExtendedBill(b: Booking, later: Date, prices: seq<Night>)
    requires BillOk(b) && |prices| == later - b.checkout && b.checkin < b.checkout < later
    ensures var nights := b.nights + Priced(b.checkout, prices);
            BillOk(b.(checkout := later, nights := nights, totals := TotalsOf(nights, b.rooms)))
  {
    var nights := b.nights + Priced(b.checkout, prices);
    assert forall d :: InStay(b.checkin, b.nights, d) ==> Price(b.checkin, nights, d) == Price(b.checkin, b.nights, d);
  }

  lemma {:induction false} ShortenedBill(b: Booking, sooner: Date)
    requires BillOk(b) && b.checkin < sooner < b.checkout
    ensures var nights := Without(b.nights, sooner, b.checkout);
            BillOk(b.(checkout := sooner, nights := nights, totals := TotalsOf(nights, b.rooms),
                      charges := VoidFrom(b.charges, sooner, b.checkout)))
  {
    var nights := Without(b.nights, sooner, b.checkout);
    WithoutEnd(b.nights, b.checkin, sooner, b.checkout, |b.nights|);
    assert b.nights[..|b.nights|] == b.nights;
    assert nights == b.nights[..sooner - b.checkin];
    var charges := VoidFrom(b.charges, sooner, b.checkout);
    assert forall i :: 0 <= i < |charges| && !charges[i].voided ==> charges[i] == b.charges[i];
    assert forall d :: InStay(b.checkin, nights, d) ==> Price(b.checkin, nights, d) == Price(b.checkin, b.nights, d);
  }

  // ---- moved departures ----

  lemma {:induction false} ExtendKeeps(s: Db, opening: Calendar, tiled: bool, id: BookingId, later: Date,
                                       prices: seq<Night>)
    requires Inv(s, opening, tiled) && id < |s.bookings| && s.bookings[id].status == CheckedIn
    requires later > s.bookings[id].checkout
    requires Extend(s, id, s.bookings[id], later, prices).Done?
    ensures Inv(Tick(Extend(s, id, s.bookings[id], later, prices).db), opening, tiled)
  {
    var was := s.bookings[id];
    var t := Tick(Extend(s, id, was, later, prices).db);
    SettledLive(s, opening, tiled, id);
    assert BookingOk(s, id, tiled);
    ExtendedBill(was, later, prices);
    SentOne(s.outbox, Reserve(Nights(was.checkout, later), was.rooms));
    StretchKeeps(s, t, opening, tiled, id, t.bookings[id], s.legs.Keys);
  }

  lemma {:induction false} ShortenKeeps(s: Db, opening: Calendar, tiled: bool, id: BookingId, sooner: Date)
    requires Inv(s, opening, tiled) && id < |s.bookings| && s.bookings[id].status == CheckedIn
    requires s.bookings[id].checkin < sooner < s.bookings[id].checkout && Shorten(s, id, s.bookings[id], sooner).Done?
    ensures Inv(Tick(Shorten(s, id, s.bookings[id], sooner).db), opening, tiled)
  {
    var was := s.bookings[id];
    var t := Tick(Shorten(s, id, was, sooner).db);
    SettledLive(s, opening, tiled, id);
    assert BookingOk(s, id, tiled);
    ShortenedBill(was, sooner);
    SentOne(s.outbox, Release(Nights(sooner, was.checkout), was.rooms));
    CutKeeps(s, t, opening, tiled, id, t.bookings[id], sooner);
  }

  lemma {:induction false} ChangeDepartureKeeps(s: Db, opening: Calendar, tiled: bool, id: BookingId, departure: Date,
                                                today: Date, prices: seq<Night>)
    requires Inv(s, opening, tiled) && ChangeDeparture(s, id, departure, today, prices).Done?
    ensures Inv(Tick(ChangeDeparture(s, id, departure, today, prices).db), opening, tiled)
  {
    if departure > s.bookings[id].checkout {
      ExtendKeeps(s, opening, tiled, id, departure, prices);
    } else {
      ShortenKeeps(s, opening, tiled, id, departure);
    }
  }

  // ---- amendments ----

  lemma {:induction false} AmendedBill(b: Booking, p: Proposal)
    requires BillOk(b) && p.checkin < p.checkout && |p.prices| == p.checkout - p.checkin
    ensures BillOk(AmendedRow(b, p))
  {
    var nights := Quoted(b, p.checkin, p.prices);
    QuotedIsDated(b, p.checkin, p.prices);
    ReconcileAgrees(b.charges, p.checkin, nights, p.rooms);
  }

  /** The one live segment of an in-house stay ends at its departure, so running it on is stretching it. */
  lemma {:induction false} RunToStretches(legs: Legs, id: BookingId, rooms: int, lo: Date, end: Date, later: Date)
    requires Tiled(legs, id, None, rooms, lo, end) && |LiveIds(legs, id)| == 1 && rooms >= 1 && lo < end
    ensures RunTo(legs, id, later) == Stretch(legs, id, end, later, legs.Keys)
  {
    assert Covered(legs, id, None, 0, end - 1);
    var i :| i in legs && On(legs[i], id, None) && legs[i].index == 0 && Covers(legs[i], end - 1);
    assert LiveIds(legs, id) == {i} by {
      assert LiveIds(legs, id) == {i} + (LiveIds(legs, id) - {i});
    }
    assert forall j :: j in legs && Live(legs[j], id) ==> j in LiveIds(legs, id);
  }

  lemma {:induction false} ExtendedInHouseLegs(s: Db, opening: Calendar, tiled: bool, id: BookingId, p: Proposal)
    requires Inv(s, opening, tiled) && id < |s.bookings| && MayAmend(s, id, p) && s.bookings[id].status == CheckedIn
    ensures Laid(AmendedLegs(s, id, p), id, None, p.rooms, p.checkin, p.checkout, tiled)
  {
    var b := s.bookings[id];
    assert BookingOk(s, id, tiled) && Running(s, id, tiled);
    if tiled {
      RunToStretches(s.legs, id, b.rooms, b.checkin, b.checkout, p.checkout);
      StretchTiles(s.legs, id, b.rooms, b.checkin, b.checkout, p.checkout, s.legs.Keys);
    } else {
      var i :| i in s.legs && On(s.legs[i], id, None) && s.legs[i].index == 0 && s.legs[i].checkin <= b.checkin;
      assert On(RunTo(s.legs, id, p.checkout)[i], id, None);
    }
  }

  lemma {:induction false} ReshapedLegs(s: Db, opening: Calendar, tiled: bool, id: BookingId, p: Proposal)
    requires Inv(s, opening, tiled) && id < |s.bookings| && MayAmend(s, id, p) && s.bookings[id].status != CheckedIn
    ensures Laid(AmendedLegs(s, id, p), id, None, p.rooms, p.checkin, p.checkout, tiled)
  {
    var b := s.bookings[id];
    SettledLive(s, opening, tiled, id);
    assert BookingOk(s, id, tiled) && Running(s, id, tiled);
    if tiled {
      CountsRooms(s.legs, id, b.rooms, b.checkin, b.checkout);
      ReshapeTiles(s.legs, id, b.rooms, p.rooms, b.checkin, b.checkout, p.checkin, p.checkout, s.nextLeg);
    } else {
      ReshapeAnchors(s.legs, id, |LiveIds(s.legs, id)|, p.rooms, b.checkin, p.checkin, p.checkout, s.nextLeg);
    }
  }

  /** No segment is left without a night: an in-house stay's one segment starts at its arrival at the latest. */
  lemma {:induction false} AmendedNights(s: Db, opening: Calendar, tiled: bool, id: BookingId, p: Proposal, i: LegId)
    requires Inv(s, opening, tiled) && id < |s.bookings| && MayAmend(s, id, p) && i in AmendedLegs(s, id, p)
    ensures var l := AmendedLegs(s, id, p)[i]; l.checkin < l.checkout
  {
    var b := s.bookings[id];
    if b.status == CheckedIn && Live(s.legs[i], id) {
      assert BookingOk(s, id, tiled) && Running(s, id, tiled);
      LaidIsAnchored(s.legs, id, None, b.rooms, b.checkin, HeldUntil(b), tiled);
      var j :| j in s.legs && On(s.legs[j], id, None) && s.legs[j].index == 0 && s.legs[j].checkin <= b.checkin;
      assert j in LiveIds(s.legs, id);
      OnlyLive(s.legs, id, j);
    }
  }

  lemma {:induction false} AmendTouches(s: Db, opening: Calendar, tiled: bool, id: BookingId, p: Proposal)
    requires Inv(s, opening, tiled) && id < |s.bookings| && p.rooms >= 1
    ensures var legs := AmendedLegs(s, id, p);
            && SameElsewhere(s.legs, legs, id) && StampedBy(legs, id, s.now)
            && (forall i :: i in legs ==> i < s.nextLeg + p.rooms && legs[i].booking < |s.bookings|)
            && (forall i :: i in legs && i < s.nextLeg ==> i in s.legs && legs[i].booking == s.legs[i].booking)
  {
    var legs := AmendedLegs(s, id, p);
    assert BookingOk(s, id, tiled);
    if s.bookings[id].status != CheckedIn {
      ReshapeTouches(s.legs, id, |LiveIds(s.legs, id)|, p.rooms, p.checkin, p.checkout, s.nextLeg, s.now);
    }
    forall i | i in legs ensures i < s.nextLeg + p.rooms && legs[i].booking < |s.bookings| {
      if legs[i].booking != id { assert s.legs[i] == legs[i]; }
    }
  }

  /** One night of the swap: the cap never bites, because the booking's own rooms are still out. */
  lemma {:induction false} SwapNight(s: Db, opening: Calendar, tiled: bool, id: BookingId, p: Proposal,
                                     after: Calendar, d: Date)
    requires Inv(s, opening, tiled) && id < |s.bookings| && p.rooms >= 1
    requires var b := s.bookings[id];
             InventoryHeld(b) && HasLive(s.legs, id) && b.releasedFrom == None && Swap(s.calendar, b, p) == Some(after)
    ensures var b := s.bookings[id];
            var gone := if b.checkin <= d < b.checkout then b.rooms else 0;
            var taken := if p.checkin <= d < p.checkout then p.rooms else 0;
            if d in s.calendar
            then d in after && 0 <= after[d].toSell
                 && after[d] == s.calendar[d].(toSell := s.calendar[d].toSell + gone - taken)
            else d !in after && gone == 0 && taken == 0
  {
    var b := s.bookings[id];
    assert BookingOk(s, id, tiled);
    var given := Give(s.calendar, b.checkin, b.checkout, b.rooms);
    HeldWithin(s, opening, tiled, id, |s.bookings|, d);
    assert p.checkin <= d < p.checkout ==> HasRoom(given, d, p.rooms);
  }

  ghost predicate Amends(s: Db, t: Db, id: BookingId, p: Proposal) {
    && id < |s.bookings| && MayAmend(s, id, p)
    && t.bookings == s.bookings[id := AmendedRow(s.bookings[id], p)]
    && t.legs == AmendedLegs(s, id, p) && t.nextLeg == s.nextLeg + p.rooms && t.moves == s.moves && t.now == s.now + 1
    && t.outbox == s.outbox + AmendEvents(s.bookings[id], p)
    && (if InventoryHeld(s.bookings[id])
        then Swap(s.calendar, s.bookings[id], p) == Some(t.calendar)
        else t.calendar == s.calendar)
    && NoDoubleBooking(t.legs)
  }

  lemma {:induction false} AmendBalances(s: Db, t: Db, opening: Calendar, tiled: bool, id: BookingId, p: Proposal,
                                         d: Date)
    requires Inv(s, opening, tiled) && Amends(s, t, id, p) && HasLive(t.legs, id) && HasLive(s.legs, id)
    requires s.bookings[id].releasedFrom == None && InventoryHeld(s.bookings[id])
    ensures NightBalanced(s, t, id, d)
  {
    var b := s.bookings[id];
    NightsAre(b.checkin, b.checkout);
    NightsAre(p.checkin, p.checkout);
    NetOne(s.outbox, AmendEvents(b, p)[0], d);
    SwapNight(s, opening, tiled, id, p, t.calendar, d);
  }

  lemma {:induction false} AmendedBookingOk(s: Db, t: Db, opening: Calendar, tiled: bool, id: BookingId, p: Proposal)
    requires Inv(s, opening, tiled) && Amends(s, t, id, p)
    ensures BookingOk(t, id, tiled) && HasLive(t.legs, id)
  {
    SettledLive(s, opening, tiled, id);
    assert BookingOk(s, id, tiled);
    if s.bookings[id].status == CheckedIn {
      ExtendedInHouseLegs(s, opening, tiled, id, p);
    } else {
      ReshapedLegs(s, opening, tiled, id, p);
    }
    AmendTouches(s, opening, tiled, id, p);
    AmendedBill(s.bookings[id], p);
    LaidIsAnchored(t.legs, id, None, p.rooms, p.checkin, p.checkout, tiled);
    assert Running(t, id, tiled);
  }

  lemma {:induction false} AmendsBalanced(s: Db, t: Db, opening: Calendar, tiled: bool, id: BookingId, p: Proposal)
    requires Inv(s, opening, tiled) && Amends(s, t, id, p) && HasLive(t.legs, id)
    ensures Balanced(s, t, id)
  {
    SettledLive(s, opening, tiled, id);
    if InventoryHeld(s.bookings[id]) {
      forall d ensures NightBalanced(s, t, id, d) {
        AmendBalances(s, t, opening, tiled, id, p, d);
      }
    } else {
      assert t.outbox == s.outbox;
      StillBalances(s, t, opening, tiled, id);
    }
  }

  lemma {:induction false} AmendsKeeps(s: Db, t: Db, opening: Calendar, tiled: bool, id: BookingId, p: Proposal)
    requires Inv(s, opening, tiled) && Amends(s, t, id, p)
    ensures Inv(t, opening, tiled)
  {
    AmendedBookingOk(s, t, opening, tiled, id, p);
    AmendsBalanced(s, t, opening, tiled, id, p);
    AmendTouches(s, opening, tiled, id, p);
    MovesStillOk(s, t);
    forall i | i in t.legs ensures t.legs[i].checkin < t.legs[i].checkout {
      AmendedNights(s, opening, tiled, id, p, i);
    }
    assert OnlyTouches(s, t, id) && LegIds(t);
    KeepsInv(s, t, opening, tiled, id);
  }

  lemma {:induction false} ClockKeeps(s: Db, opening: Calendar, tiled: bool)
    requires Inv(s, opening, tiled)
    ensures Inv(Tick(s), opening, tiled)
  {
    forall m | 0 <= m < |s.moves| ensures MoveOk(Tick(s), s.moves[m]) { assert MoveOk(s, s.moves[m]); }
    MovesOnly(s, Tick(s), opening, tiled);
  }

  lemma {:induction false} AmendKeeps(s: Db, opening: Calendar, tiled: bool, id: BookingId, p: Proposal)
    requires Inv(s, opening, tiled) && Amend(s, id, p).Done?
    ensures Inv(Tick(Amend(s, id, p).db), opening, tiled)
  {
    if StayChanges(s.bookings[id], p) {
      AmendsKeeps(s, Tick(Amend(s, id, p).db), opening, tiled, id, p);
    } else {
      ClockKeeps(s, opening, tiled);
    }
  }

  // ---- new bookings ----

  lemma {:induction false} HeldByEarlier(s: Db, t: Db, n: nat, d: Date)
    requires n <= |s.bookings| <= |t.bookings|
    requires forall k :: 0 <= k < n ==> t.bookings[k] == s.bookings[k] && HasLive(t.legs, k) == HasLive(s.legs, k)
    ensures HeldByFirst(t, n, d) == HeldByFirst(s, n, d)
  {
    if n == 0 {
    } else {
      HeldByEarlier(s, t, n - 1, d);
    }
  }

  lemma {:induction false} OpenedBill(checkin: Date, rooms: int, prices: seq<Night>, b: Booking)
    requires b.nights == Priced(checkin, prices) && b.checkin == checkin && b.checkout == checkin + |prices|
    requires b.rooms == rooms && b.totals == TotalsOf(b.nights, rooms) && b.charges == []
    ensures BillOk(b)
  {
  }

  /** A state with one more booking: its row, its segments, and its rooms taken if its kind takes any. */
  ghost predicate Opens(s: Db, t: Db, b: Booking) {
    && b.checkin < b.checkout && b.rooms >= 1 && RowOk(b) && b.releasedFrom == None && BillOk(b)
    && b.status == InitialStatus(b.kind)
    && t.bookings == s.bookings + [b] && t.moves == s.moves && t.now == s.now + 1
    && t.legs == Create(s.legs, |s.bookings|, b.rooms, b.checkin, b.checkout, s.nextLeg)
    && t.nextLeg == s.nextLeg + b.rooms
    && (if HoldsInventory(b.kind)
        then CanTake(s.calendar, b.checkin, b.checkout, b.rooms)
             && t.calendar == Take(s.calendar, b.checkin, b.checkout, b.rooms)
             && t.outbox == s.outbox + [Reserve(Nights(b.checkin, b.checkout), b.rooms)]
        else t.calendar == s.calendar && t.outbox == s.outbox)
  }

  lemma {:induction false} CreateNoClash(legs: Legs, b: BookingId, rooms: int, lo: Date, hi: Date, next: LegId)
    requires NoDoubleBooking(legs)
    ensures NoDoubleBooking(Create(legs, b, rooms, lo, hi, next))
  {
    var t := Create(legs, b, rooms, lo, hi, next);
    forall i, j | i in t && j in t && i != j ensures !Clash(t[i], t[j]) {
      if t[i].unit.Some? && t[j].unit.Some? {
        assert !Clash(legs[i], legs[j]);
      }
    }
  }

  lemma {:induction false} OpenedLegs(s: Db, t: Db, opening: Calendar, tiled: bool, b: Booking)
    requires Inv(s, opening, tiled) && Opens(s, t, b)
    ensures SameElsewhere(s.legs, t.legs, |s.bookings|) && LegIds(t) && NoDoubleBooking(t.legs)
  {
    MovesStillOk(s, t);
    CreateNoClash(s.legs, |s.bookings|, b.rooms, b.checkin, b.checkout, s.nextLeg);
  }

  lemma {:induction false} OpenedOk(s: Db, t: Db, opening: Calendar, tiled: bool, b: Booking)
    requires Inv(s, opening, tiled) && Opens(s, t, b)
    ensures BookingOk(t, |s.bookings|, tiled) && HasLive(t.legs, |s.bookings|)
  {
    var id := |s.bookings|;
    CreateLays(s.legs, id, b.rooms, b.checkin, b.checkout, s.nextLeg, tiled);
    LaidIsAnchored(t.legs, id, None, b.rooms, b.checkin, b.checkout, tiled);
    assert StampedBy(t.legs, id, t.now - 1);
    assert Running(t, id, tiled);
  }

  lemma {:induction false} OpenedTotal(s: Db, t: Db, opening: Calendar, tiled: bool, b: Booking, d: Date)
    requires Inv(s, opening, tiled) && Opens(s, t, b)
    ensures TotalHeld(t, d) == TotalHeld(s, d) + Held(t, |s.bookings|, d)
  {
    var id := |s.bookings|;
    OpenedLegs(s, t, opening, tiled, b);
    forall k | 0 <= k < id ensures HasLive(t.legs, k) == HasLive(s.legs, k) {
      LiveElsewhere(s, t, id, k);
    }
    HeldByEarlier(s, t, id, d);
  }

  /** The rooms a new booking takes on a night. */
  function TakenOn(b: Booking, d: Date): int {
    if HoldsInventory(b.kind) && b.checkin <= d < b.checkout then b.rooms else 0
  }

  lemma {:induction false} OpenedHeld(s: Db, t: Db, opening: Calendar, tiled: bool, b: Booking, d: Date)
    requires Inv(s, opening, tiled) && Opens(s, t, b)
    ensures Held(t, |s.bookings|, d) == TakenOn(b, d)
  {
    OpenedOk(s, t, opening, tiled, b);
  }

  lemma {:induction false} OpenedSent(s: Db, t: Db, b: Booking, d: Date)
    requires Opens(s, t, b)
    ensures Net(t.outbox, d) == Net(s.outbox, d) - TakenOn(b, d)
  {
    if HoldsInventory(b.kind) {
      NightsAre(b.checkin, b.checkout);
      NetOne(s.outbox, Reserve(Nights(b.checkin, b.checkout), b.rooms), d);
    }
  }

  lemma {:induction false} OpenedCalendar(s: Db, t: Db, b: Booking, d: Date)
    requires Opens(s, t, b) && (d in s.calendar ==> 0 <= s.calendar[d].toSell)
    ensures if d in s.calendar
            then d in t.calendar && 0 <= t.calendar[d].toSell
                 && t.calendar[d] == s.calendar[d].(toSell := s.calendar[d].toSell - TakenOn(b, d))
            else d !in t.calendar && TakenOn(b, d) == 0
  {
    assert HoldsInventory(b.kind) && b.checkin <= d < b.checkout ==> HasRoom(s.calendar, d, b.rooms);
  }

  lemma {:induction false} OpensConserves(s: Db, t: Db, opening: Calendar, tiled: bool, b: Booking)
    requires Inv(s, opening, tiled) && Opens(s, t, b)
    ensures Conserved(t, opening)
  {
    forall d ensures d in t.calendar.Keys <==> d in opening.Keys {
      OpenedCalendar(s, t, b, d);
    }
    forall d
      ensures d in opening ==> t.calendar[d].toSell + TotalHeld(t, d) == opening[d].toSell
      ensures d in opening ==> t.calendar[d].toSell == opening[d].toSell + Net(t.outbox, d)
      ensures d in opening ==> t.calendar[d] == opening[d].(toSell := t.calendar[d].toSell) && 0 <= t.calendar[d].toSell
      ensures d !in opening ==> TotalHeld(t, d) == 0
    {
      OpenedTotal(s, t, opening, tiled, b, d);
      OpenedHeld(s, t, opening, tiled, b, d);
      OpenedSent(s, t, b, d);
      OpenedCalendar(s, t, b, d);
    }
  }

  lemma {:induction false} OpensKeeps(s: Db, t: Db, opening: Calendar, tiled: bool, b: Booking)
    requires Inv(s, opening, tiled) && Opens(s, t, b)
    ensures Inv(t, opening, tiled)
  {
    OpensConserves(s, t, opening, tiled, b);
    OpenedLegs(s, t, opening, tiled, b);
    OpenedOk(s, t, opening, tiled, b);
    forall k | 0 <= k < |t.bookings| ensures BookingOk(t, k, tiled) {
      if k < |s.bookings| { EarlierOk(s, t, opening, tiled, b, k); }
    }
  }

  lemma {:induction false} EarlierOk(s: Db, t: Db, opening: Calendar, tiled: bool, b: Booking, k: BookingId)
    requires Inv(s, opening, tiled) && Opens(s, t, b) && k < |s.bookings|
    ensures BookingOk(t, k, tiled)
  {
    OpenedLegs(s, t, opening, tiled, b);
    assert BookingOk(s, k, tiled);
    var id := |s.bookings|;
    var w := s.bookings[k];
    LiveElsewhere(s, t, id, k);
    if Running(s, k, tiled) {
      LaidElsewhere(s, t, id, k, None, w.rooms, w.checkin, HeldUntil(w), tiled);
      assert Running(t, k, tiled);
    } else {
      var at :| Laid(s.legs, k, Some(at), w.rooms, w.checkin, w.checkout, tiled) && StampedBy(s.legs, k, at);
      LaidElsewhere(s, t, id, k, Some(at), w.rooms, w.checkin, w.checkout, tiled);
      assert StampedBy(t.legs, k, at);
      assert Closed(t, k, tiled);
    }
  }

  lemma {:induction false} OpenKeeps(s: Db, opening: Calendar, tiled: bool, kind: Kind, checkin: Date, checkout: Date,
                                     rooms: int,
                                     holdUntil: Option<int>, ota: bool, prices: seq<Night>)
    requires Inv(s, opening, tiled) && Open(s, kind, checkin, checkout, rooms, holdUntil, ota, prices).Done?
    ensures Inv(Tick(Open(s, kind, checkin, checkout, rooms, holdUntil, ota, prices).db), opening, tiled)
  {
    var t := Tick(Open(s, kind, checkin, checkout, rooms, holdUntil, ota, prices).db);
    var b := t.bookings[|s.bookings|];
    OpenedBill(checkin, rooms, prices, b);
    OpensKeeps(s, t, opening, tiled, b);
  }

  // ---- physical rooms ----

  /** Putting guests in other physical rooms changes nothing the invariant speaks of but the rooms. */
  lemma {:induction false} UnitsKeep(s: Db, t: Db, opening: Calendar, tiled: bool, id: BookingId)
    requires Inv(s, opening, tiled) && id < |s.bookings| && t.bookings == s.bookings
    requires SameShape(s.legs, t.legs) && NoDoubleBooking(t.legs) && SameElsewhere(s.legs, t.legs, id)
    requires t.calendar == s.calendar && t.outbox == s.outbox && t.nextLeg >= s.nextLeg && t.now == s.now + 1
    requires forall m :: 0 <= m < |t.moves| ==> MoveOk(t, t.moves[m])
    ensures Inv(t, opening, tiled)
  {
    var b := s.bookings[id];
    assert BookingOk(s, id, tiled);
    SameShapeLive(s.legs, t.legs, id);
    if Running(s, id, tiled) {
      SameShapeLays(s.legs, t.legs, id, None, b.rooms, b.checkin, HeldUntil(b), tiled);
      assert Running(t, id, tiled);
    } else {
      var at :| Laid(s.legs, id, Some(at), b.rooms, b.checkin, b.checkout, tiled) && StampedBy(s.legs, id, at);
      SameShapeLays(s.legs, t.legs, id, Some(at), b.rooms, b.checkin, b.checkout, tiled);
      assert StampedBy(t.legs, id, at);
      assert Closed(t, id, tiled);
    }
    assert LegIds(t) by {
      forall i | i in t.legs ensures i < t.nextLeg && t.legs[i].booking < |t.bookings| { assert i in s.legs; }
    }
    StillBalances(s, t, opening, tiled, id);
    KeepsInv(s, t, opening, tiled, id);
  }

  lemma {:induction false} AssignKeeps(s: Db, opening: Calendar, tiled: bool, leg: LegId, unit: Option<UnitId>,
                                       today: Date, usable: bool)
    requires Inv(s, opening, tiled) && AssignRoom(s, leg, unit, today, usable).Done?
    ensures Inv(Tick(AssignRoom(s, leg, unit, today, usable).db), opening, tiled)
  {
    var t := Tick(AssignRoom(s, leg, unit, today, usable).db);
    MovesStillOk(s, t);
    UnitsKeep(s, t, opening, tiled, s.legs[leg].booking);
  }

  /** Taking segments out of their rooms makes no clash. */
  lemma {:induction false} OutOfDirtyKeeps(legs: Legs, id: BookingId, dirty: set<UnitId>)
    requires NoDoubleBooking(legs)
    ensures var t := OutOfDirty(legs, id, dirty);
            SameShape(legs, t) && NoDoubleBooking(t) && SameElsewhere(legs, t, id)
  {
    var t := OutOfDirty(legs, id, dirty);
    forall i, j | i in t && j in t && i != j ensures !Clash(t[i], t[j]) {
      assert !Clash(legs[i], legs[j]);
    }
  }

  lemma {:induction false} SwitchKeeps(s: Db, opening: Calendar, tiled: bool, id: BookingId, today: Date,
                                       dirty: set<UnitId>, seating: Seating)
    requires Inv(s, opening, tiled) && SwitchRooms(s, id, today, dirty, seating).Done?
    ensures Inv(Tick(SwitchRooms(s, id, today, dirty, seating).db), opening, tiled)
  {
    var t := Tick(SwitchRooms(s, id, today, dirty, seating).db);
    if t.legs == s.legs {
      ClockKeeps(s, opening, tiled);
    } else {
      var bare := OutOfDirty(s.legs, id, dirty);
      OutOfDirtyKeeps(s.legs, id, dirty);
      if seating.Picked? { SeatEachKeeps(bare, id, seating.picks); }
      MovesStillOk(s, t);
      UnitsKeep(s, t, opening, tiled, id);
    }
  }

  lemma {:induction false} MovesOnly(s: Db, t: Db, opening: Calendar, tiled: bool)
    requires Inv(s, opening, tiled) && t == Tick(s.(moves := t.moves))
    requires forall m :: 0 <= m < |t.moves| ==> MoveOk(t, t.moves[m])
    ensures Inv(t, opening, tiled)
  {
    if |s.bookings| > 0 {
      UnitsKeep(s, t, opening, tiled, 0);
    } else {
      assert forall d :: TotalHeld(t, d) == TotalHeld(s, d);
    }
  }

  /** Splitting a live segment at a date inside it: the same nights, in two segments. */
  lemma {:induction false} SplitTiles(legs: Legs, b: BookingId, rooms: int, lo: Date, hi: Date, i: LegId, cut: Date,
                                      j: LegId, unit: Option<UnitId>)
    requires Tiled(legs, b, None, rooms, lo, hi) && i in legs && Live(legs[i], b) && j !in legs
    requires legs[i].checkin < cut < legs[i].checkout
    ensures Tiled(legs[i := legs[i].(checkout := cut)][j := Leg(b, legs[i].index, unit, cut, legs[i].checkout, None)],
                  b, None, rooms, lo, hi)
  {
    var t := legs[i := legs[i].(checkout := cut)][j := Leg(b, legs[i].index, unit, cut, legs[i].checkout, None)];
    forall k: nat, d | k < rooms && lo <= d < hi ensures Covered(t, b, None, k, d) {
      assert Covered(legs, b, None, k, d);
      var m :| m in legs && On(legs[m], b, None) && legs[m].index == k && Covers(legs[m], d);
      var n := if m == i && d >= cut then j else m;
      assert n in t && On(t[n], b, None) && Covers(t[n], d);
    }
    forall m, n | m in t && n in t && m != n && On(t[m], b, None) && On(t[n], b, None)
      ensures t[m].index != t[n].index || !Overlap(t[m], t[n])
    {
      var m', n' := if m == j then i else m, if n == j then i else n;
      assert m' != n' ==> legs[m'].index != legs[n'].index || !Overlap(legs[m'], legs[n']);
    }
  }

  /** t is s, one transaction later, with a segment of a booking that is not over moved to another room. */
  ghost predicate Moved(s: Db, t: Db, leg: LegId, target: UnitId, effective: Date) {
    && leg in s.legs && (SplitsAt(s, leg, effective) ==> effective < s.legs[leg].checkout)
    && In(s, s.legs[leg].booking, {Pending, Approved, CheckedIn})
    && t == Tick(s.(legs := MovedTo(s, leg, target, effective), nextLeg := s.nextLeg + 1, moves := t.moves))
    && NoDoubleBooking(t.legs) && KeysUnique(t.legs)
    && forall k :: 0 <= k < |t.moves| ==> MoveOk(t, t.moves[k])
  }

  /** The move would split a segment that has been released. */
  predicate ReleasedSplit(s: Db, leg: LegId, effective: Date)
    requires leg in s.legs
  {
    s.legs[leg].releasedAt.Some? && SplitsAt(s, leg, effective)
  }

  /** Any split, of a live segment or a released one, leaves a segment where the stay starts. */
  lemma {:induction false} SplitAnchors(s: Db, t: Db, leg: LegId, target: UnitId, effective: Date, lo: Date)
    requires LegIds(s) && Moved(s, t, leg, target, effective) && Anchored(s.legs, s.legs[leg].booking, None, lo)
    ensures Anchored(t.legs, s.legs[leg].booking, None, lo)
  {
    var id := s.legs[leg].booking;
    var i :| i in s.legs && On(s.legs[i], id, None) && s.legs[i].index == 0 && s.legs[i].checkin <= lo;
    assert On(t.legs[i], id, None);
  }

  lemma {:induction false} SplitBookingOk(s: Db, t: Db, opening: Calendar, tiled: bool, leg: LegId, target: UnitId,
                                          effective: Date)
    requires Inv(s, opening, tiled) && Moved(s, t, leg, target, effective)
    requires SplitsAt(s, leg, effective) && !(tiled && ReleasedSplit(s, leg, effective))
    ensures var id := s.legs[leg].booking; BookingOk(t, id, tiled) && HasLive(t.legs, id) && HasLive(s.legs, id)
  {
    var id := s.legs[leg].booking;
    var b := s.bookings[id];
    assert BookingOk(s, id, tiled);
    assert Running(s, id, tiled);
    LaidIsAnchored(s.legs, id, None, b.rooms, b.checkin, HeldUntil(b), tiled);
    if tiled {
      SplitTiles(s.legs, id, b.rooms, b.checkin, HeldUntil(b), leg, effective, s.nextLeg, Some(target));
    } else {
      SplitAnchors(s, t, leg, target, effective, b.checkin);
    }
    LaidIsAnchored(t.legs, id, None, b.rooms, b.checkin, HeldUntil(b), tiled);
    assert Running(t, id, tiled);
  }

  lemma {:induction false} SplitTouches(s: Db, t: Db, leg: LegId, target: UnitId, effective: Date)
    requires LegIds(s) && Moved(s, t, leg, target, effective) && SplitsAt(s, leg, effective)
    ensures OnlyTouches(s, t, s.legs[leg].booking) && LegIds(t)
  {
    assert s.nextLeg !in s.legs;
  }

  lemma {:induction false} SplitLiveKeeps(s: Db, t: Db, opening: Calendar, tiled: bool, leg: LegId, target: UnitId,
                                          effective: Date)
    requires Inv(s, opening, tiled) && Moved(s, t, leg, target, effective)
    requires SplitsAt(s, leg, effective) && !(tiled && ReleasedSplit(s, leg, effective))
    ensures Inv(t, opening, tiled)
  {
    var id := s.legs[leg].booking;
    SplitBookingOk(s, t, opening, tiled, leg, target, effective);
    SplitTouches(s, t, leg, target, effective);
    StillBalances(s, t, opening, tiled, id);
    KeepsInv(s, t, opening, tiled, id);
  }

  /** Splitting a released segment puts a live one over nights the booking already covers, or outside it. */
  lemma {:induction false} SplitReleasedBreaks(s: Db, t: Db, opening: Calendar, leg: LegId, target: UnitId,
                                               effective: Date)
    requires Inv(s, opening, true) && Moved(s, t, leg, target, effective) && ReleasedSplit(s, leg, effective)
    ensures !LegsOk(t, s.legs[leg].booking, true)
  {
    var id := s.legs[leg].booking;
    assert BookingOk(s, id, true);
    var k, l := s.legs[leg].index, s.nextLeg;
    assert l in t.legs && Live(t.legs[l], id);
    SettledLive(s, opening, true, id);
    if Running(t, id, true) {
      assert On(t.legs[l], id, None);
      assert Covered(s.legs, id, None, k, effective);
      var i :| i in s.legs && On(s.legs[i], id, None) && s.legs[i].index == k && Covers(s.legs[i], effective);
      assert t.legs[i] == s.legs[i] && i != l && Overlap(t.legs[i], t.legs[l]);
    }
  }

  /** A move keeps the tiling exactly when it does not split a released segment; it keeps the rest always. */
  lemma {:induction false} MovedKeepsIff(s: Db, t: Db, opening: Calendar, tiled: bool, leg: LegId, target: UnitId,
                                         effective: Date)
    requires Inv(s, opening, tiled) && Moved(s, t, leg, target, effective)
    ensures Inv(t, opening, tiled) <==> !(tiled && ReleasedSplit(s, leg, effective))
  {
    if tiled && ReleasedSplit(s, leg, effective) {
      SplitReleasedBreaks(s, t, opening, leg, target, effective);
      assert !BookingOk(t, s.legs[leg].booking, true);
    } else if SplitsAt(s, leg, effective) {
      SplitLiveKeeps(s, t, opening, tiled, leg, target, effective);
    } else {
      UnitsKeep(s, t, opening, tiled, s.legs[leg].booking);
    }
  }

  /** A due move that finds its segment and is allowed by the constraints. */
  ghost predicate Moves(s: Db, m: nat, date: Date) {
    m < |s.moves| && Due(s, m, date) && Applies(s, m) && ApplyMove(s, m, date).Done?
  }

  predicate SplitsReleased(s: Db, m: nat)
    requires m < |s.moves| && s.moves[m].leg in s.legs
  {
    ReleasedSplit(s, s.moves[m].leg, s.moves[m].effective)
  }

  lemma {:induction false} MovedMovesOk(s: Db, opening: Calendar, tiled: bool, m: nat, date: Date)
    requires Inv(s, opening, tiled) && Moves(s, m, date)
    ensures var t := ApplyMove(s, m, date).db; forall k :: 0 <= k < |t.moves| ==> MoveOk(t, t.moves[k])
  {
    var t := ApplyMove(s, m, date).db;
    forall k | 0 <= k < |t.moves| ensures MoveOk(t, t.moves[k]) {
      assert MoveOk(s, s.moves[k]) && MoveOk(s, s.moves[m]);
    }
  }

  /** A planned move that applies keeps the tiling exactly when it does not split a released segment; it keeps
      everything else always. */
  lemma {:induction false} MoveKeepsIff(s: Db, opening: Calendar, tiled: bool, m: nat, date: Date)
    requires Inv(s, opening, tiled) && Moves(s, m, date)
    ensures Inv(Tick(ApplyMove(s, m, date).db), opening, tiled) <==> !(tiled && SplitsReleased(s, m))
  {
    var v := s.moves[m];
    assert MoveOk(s, v);
    MovedMovesOk(s, opening, tiled, m, date);
    MovedKeepsIff(s, Tick(ApplyMove(s, m, date).db), opening, tiled, v.leg, v.target, v.effective);
  }

  /** A move that no longer finds its segment is stopped. */
  lemma {:induction false} StopKeeps(s: Db, opening: Calendar, tiled: bool, m: nat, date: Date)
    requires Inv(s, opening, tiled) && Due(s, m, date) && !Applies(s, m)
    ensures Inv(Tick(ApplyMove(s, m, date).db), opening, tiled)
  {
    var t := Tick(ApplyMove(s, m, date).db);
    forall k | 0 <= k < |t.moves| ensures MoveOk(t, t.moves[k]) {
      assert MoveOk(s, s.moves[k]);
    }
    MovesOnly(s, t, opening, tiled);
  }

  /** A move asked for at the desk that changes the segments at once. */
  ghost predicate MovesNow(s: Db, leg: LegId, target: UnitId, date: Option<Date>, today: Date, allowed: bool) {
    && MoveRoom(s, leg, target, date, today, allowed).Done?
    && MoveRoom(s, leg, target, date, today, allowed).db.legs != s.legs
  }

  lemma {:induction false} NewMoveOk(s: Db, opening: Calendar, tiled: bool, leg: LegId, target: UnitId,
                                     date: Option<Date>, today: Date, allowed: bool)
    requires Inv(s, opening, tiled) && MoveRoom(s, leg, target, date, today, allowed).Done?
    ensures var t := MoveRoom(s, leg, target, date, today, allowed).db;
            forall k :: 0 <= k < |t.moves| ==> MoveOk(t, t.moves[k])
  {
    var t := MoveRoom(s, leg, target, date, today, allowed).db;
    forall k | 0 <= k < |t.moves| ensures MoveOk(t, t.moves[k]) {
      if k < |s.moves| { assert MoveOk(s, s.moves[k]); }
    }
  }

  /** The desk's move keeps the tiling exactly when it does not split a released segment there and then; it
      keeps everything else always. */
  lemma {:induction false} MoveRoomKeepsIff(s: Db, opening: Calendar, tiled: bool, leg: LegId, target: UnitId,
                                            date: Option<Date>, today: Date, allowed: bool)
    requires Inv(s, opening, tiled) && MoveRoom(s, leg, target, date, today, allowed).Done?
    ensures Inv(Tick(MoveRoom(s, leg, target, date, today, allowed).db), opening, tiled) <==>
              !(tiled && MovesNow(s, leg, target, date, today, allowed)
                && ReleasedSplit(s, leg, MoveDate(s, leg, date, today)))
  {
    var effective := MoveDate(s, leg, date, today);
    var t := Tick(MoveRoom(s, leg, target, date, today, allowed).db);
    NewMoveOk(s, opening, tiled, leg, target, date, today, allowed);
    if date.Some? && effective > today {
      MovesOnly(s, t, opening, tiled);
    } else {
      MovedKeepsIff(s, t, opening, tiled, leg, target, effective);
    }
  }

  // ---- the bill ----

  lemma {:induction false} PostKeeps(s: Db, opening: Calendar, tiled: bool, id: BookingId, date: Date)
    requires Inv(s, opening, tiled) && PostNight(s, id, date).Done?
    ensures Inv(Tick(PostNight(s, id, date).db), opening, tiled)
  {
    var t := Tick(PostNight(s, id, date).db);
    var was := s.bookings[id];
    RowsSound(s, opening, tiled, id);
    PostedOne(was.charges, was.checkin, was.nights, was.rooms, date);
    RowKeeps(s, t, opening, tiled, id, t.bookings[id]);
  }

  lemma {:induction false} PostStayKeeps(s: Db, opening: Calendar, tiled: bool, id: BookingId)
    requires Inv(s, opening, tiled) && PostStay(s, id).Done?
    ensures Inv(Tick(PostStay(s, id).db), opening, tiled)
  {
    var t := Tick(PostStay(s, id).db);
    var was := s.bookings[id];
    RowsSound(s, opening, tiled, id);
    PostedAgrees(was.charges, was.checkin, was.nights, was.rooms, |was.nights|);
    RowKeeps(s, t, opening, tiled, id, t.bookings[id]);
  }

  lemma {:induction false} VoidChargeKeeps(s: Db, opening: Calendar, tiled: bool, id: BookingId, n: nat)
    requires Inv(s, opening, tiled) && VoidCharge(s, id, n).Done?
    ensures Inv(Tick(VoidCharge(s, id, n).db), opening, tiled)
  {
    var t := Tick(VoidCharge(s, id, n).db);
    assert BookingOk(s, id, tiled);
    var was, b := s.bookings[id], t.bookings[id];
    assert forall i :: 0 <= i < |b.charges| && !b.charges[i].voided ==> b.charges[i] == was.charges[i];
    RowKeeps(s, t, opening, tiled, id, b);
  }
}
