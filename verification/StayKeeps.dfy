/** Every operation keeps the invariant of the tables. */
module StayKeeps {
  import opened Tables
  import opened Wrappers
  import opened Inventory
  import opened RoomLegs
  import opened Lifecycle
  import opened Folio
  import opened BookingRules
  import opened StayInvariant

  function Tick(s: Db): Db {
    s.(now := s.now + 1)
  }

  // ---- the calendar and the outbox move by what the booking gives back ----

  ghost predicate GivesBack(s: Db, t: Db, id: BookingId, lo: Date, hi: Date, rooms: int)
    requires id < |s.bookings| && id < |t.bookings|
  {
    forall d :: Held(s, id, d) == Held(t, id, d) + if lo <= d < hi then rooms else 0
  }

  /** What the transaction sent the channel amounts to one event. */
  ghost predicate Sent(before: seq<Event>, after: seq<Event>, e: Event) {
    forall d :: Net(after, d) == Net(before, d) + Effect(e, d)
  }

  /** Nothing sent changes the rooms to sell. */
  ghost predicate Silent(before: seq<Event>, after: seq<Event>) {
    forall d :: Net(after, d) == Net(before, d)
  }

  lemma {:induction false} SentOne(outbox: seq<Event>, e: Event)
    ensures Sent(outbox, outbox + [e], e)
  {
    forall d ensures Net(outbox + [e], d) == Net(outbox, d) + Effect(e, d) { NetOne(outbox, e, d); }
  }

  lemma {:induction false} GiveBalances(s: Db, t: Db, opening: Calendar, tiled: bool, id: BookingId, lo: Date,
                                        hi: Date, rooms: int)
    requires Inv(s, opening, tiled) && id < |s.bookings| && id < |t.bookings| && rooms >= 1 && RowInv(t.bookings[id])
    requires t.calendar == Give(s.calendar, lo, hi, rooms) && Sent(s.outbox, t.outbox, Release(Nights(lo, hi), rooms))
    requires GivesBack(s, t, id, lo, hi, rooms)
    ensures Balanced(s, t, id)
  {
    NightsAre(lo, hi);
    forall d ensures NightBalanced(s, t, id, d) {
      HeldWithin(s, opening, tiled, id, |s.bookings|, d);
    }
  }

  lemma {:induction false} TakeBalances(s: Db, t: Db, opening: Calendar, tiled: bool, id: BookingId, lo: Date,
                                        hi: Date, rooms: int)
    requires Inv(s, opening, tiled) && id < |s.bookings| && id < |t.bookings| && rooms >= 1 && RowInv(t.bookings[id])
    requires CanTake(s.calendar, lo, hi, rooms)
    requires t.calendar == Take(s.calendar, lo, hi, rooms) && Sent(s.outbox, t.outbox, Reserve(Nights(lo, hi), rooms))
    requires GivesBack(t, s, id, lo, hi, rooms)
    ensures Balanced(s, t, id)
  {
    NightsAre(lo, hi);
    forall d ensures NightBalanced(s, t, id, d) {
      assert lo <= d < hi ==> HasRoom(s.calendar, d, rooms);
    }
  }

  lemma {:induction false} StillBalances(s: Db, t: Db, opening: Calendar, tiled: bool, id: BookingId)
    requires Inv(s, opening, tiled) && id < |s.bookings| && id < |t.bookings|
    requires t.calendar == s.calendar && Silent(s.outbox, t.outbox)
    requires forall d :: Held(s, id, d) == Held(t, id, d)
    ensures Balanced(s, t, id)
  {
  }

  // ---- what a transaction does to one booking, step by step ----

  /** Another row and segments for one booking, the instant moved on. */
  ghost predicate Rewrites(s: Db, t: Db, id: BookingId, b: Booking, legs: Legs) {
    && id < |s.bookings| && t.bookings == s.bookings[id := b] && t.legs == legs
    && SameElsewhere(s.legs, legs, id) && t.moves == s.moves && t.nextLeg == s.nextLeg && t.now == s.now + 1
    && forall i :: i in legs ==>
         i in s.legs && legs[i].booking == s.legs[i].booking && legs[i].checkin < legs[i].checkout
  }

  lemma {:induction false} RewritesTouches(s: Db, t: Db, opening: Calendar, tiled: bool, id: BookingId, b: Booking,
                                           legs: Legs)
    requires Inv(s, opening, tiled) && Rewrites(s, t, id, b, legs)
    ensures OnlyTouches(s, t, id) && LegIds(t)
  {
    MovesStillOk(s, t);
  }

  /** The same stay and the same segments: only status, kind, hold or bill differ. */
  ghost predicate SameStay(b: Booking, was: Booking) {
    && b.checkin == was.checkin && b.checkout == was.checkout && b.rooms == was.rooms
    && b.releasedFrom == was.releasedFrom
  }

  lemma {:induction false} StillLegsOk(s: Db, t: Db, id: BookingId, b: Booking, tiled: bool)
    requires id < |s.bookings| && LegsOk(s, id, tiled) && Rewrites(s, t, id, b, t.legs) && SameStay(b, s.bookings[id])
    requires SameShape(s.legs, t.legs)
    requires b.status == s.bookings[id].status || (HasLive(s.legs, id) && b.status !in {Cancelled, Rejected})
    ensures LegsOk(t, id, tiled)
  {
    assert StampedBy(t.legs, id, t.now - 1);
    SameShapeLive(s.legs, t.legs, id);
    if Running(s, id, tiled) {
      SameShapeLays(s.legs, t.legs, id, None, b.rooms, b.checkin, HeldUntil(b), tiled);
      assert Running(t, id, tiled);
    } else {
      var at :| Laid(s.legs, id, Some(at), b.rooms, b.checkin, b.checkout, tiled) && StampedBy(s.legs, id, at);
      SameShapeLays(s.legs, t.legs, id, Some(at), b.rooms, b.checkin, b.checkout, tiled);
      assert StampedBy(t.legs, id, at);
      assert Closed(t, id, tiled);
    }
  }

  /** The row may change as long as what it holds stays the same, and the segments may get rooms. */
  lemma {:induction false} RowKeeps(s: Db, t: Db, opening: Calendar, tiled: bool, id: BookingId, b: Booking)
    requires Inv(s, opening, tiled) && Rewrites(s, t, id, b, t.legs)
    requires SameShape(s.legs, t.legs) && NoDoubleBooking(t.legs)
    requires t.calendar == s.calendar && Silent(s.outbox, t.outbox)
    requires SameStay(b, s.bookings[id]) && InventoryHeld(b) == InventoryHeld(s.bookings[id]) && RowInv(b) && BillOk(b)
    requires b.status == s.bookings[id].status || (HasLive(s.legs, id) && b.status !in {Cancelled, Rejected})
    ensures Inv(t, opening, tiled)
  {
    assert BookingOk(s, id, tiled);
    StillLegsOk(s, t, id, b, tiled);
    SameShapeLive(s.legs, t.legs, id);
    RewritesTouches(s, t, opening, tiled, id, b, t.legs);
    StillBalances(s, t, opening, tiled, id);
    KeepsInv(s, t, opening, tiled, id);
  }

  // ---- giving a whole stay back ----

  lemma {:induction false} ReleasedLegsOk(s: Db, t: Db, opening: Calendar, tiled: bool, id: BookingId, b: Booking)
    requires Inv(s, opening, tiled) && Rewrites(s, t, id, b, ReleaseAll(s.legs, id, s.now))
    requires SameStay(b, s.bookings[id]) && b.releasedFrom == None && b.status in {Cancelled, Rejected, CheckedOut}
    requires HasLive(s.legs, id)
    ensures LegsOk(t, id, tiled) && NoDoubleBooking(t.legs) && !HasLive(t.legs, id)
  {
    assert BookingOk(s, id, tiled) && Running(s, id, tiled);
    ReleaseAllLays(s.legs, id, b.rooms, b.checkin, b.checkout, s.now, tiled);
    assert Closed(t, id, tiled);
    ReleaseAllNoClash(s.legs, id, s.now);
  }

  /** The row ends, its rooms return if it held any, its segments stay as history. */
  lemma {:induction false} WholeReleaseKeeps(s: Db, t: Db, opening: Calendar, tiled: bool, id: BookingId, b: Booking)
    requires Inv(s, opening, tiled) && Rewrites(s, t, id, b, ReleaseAll(s.legs, id, s.now))
    requires SameStay(b, s.bookings[id]) && b.releasedFrom == None && b.status in {Cancelled, Rejected, CheckedOut}
    requires RowInv(b) && BillOk(b) && HasLive(s.legs, id)
    requires if InventoryHeld(s.bookings[id])
             then t.calendar == Give(s.calendar, b.checkin, b.checkout, b.rooms)
                  && Sent(s.outbox, t.outbox, Release(Nights(b.checkin, b.checkout), b.rooms))
             else t.calendar == s.calendar && t.outbox == s.outbox
    ensures Inv(t, opening, tiled)
  {
    ReleasedLegsOk(s, t, opening, tiled, id, b);
    RewritesTouches(s, t, opening, tiled, id, b, t.legs);
    if InventoryHeld(s.bookings[id]) {
      GiveBalances(s, t, opening, tiled, id, b.checkin, b.checkout, b.rooms);
    } else {
      StillBalances(s, t, opening, tiled, id);
    }
    KeepsInv(s, t, opening, tiled, id);
  }

  // ---- giving back, or taking back, the end of a stay ----

  ghost predicate SameStart(b: Booking, was: Booking) {
    b.checkin == was.checkin && b.rooms == was.rooms
  }

  lemma {:induction false} CutBookingOk(s: Db, t: Db, opening: Calendar, tiled: bool, id: BookingId, b: Booking,
                                        cut: Date)
    requires Inv(s, opening, tiled) && Rewrites(s, t, id, b, CutAt(s.legs, id, cut, s.now))
    requires SameStart(b, s.bookings[id]) && b.checkin < cut < HeldUntil(s.bookings[id]) && HeldUntil(b) == cut
    requires b.status !in {Cancelled, Rejected} && HasLive(s.legs, id) && RowInv(b) && BillOk(b)
    ensures BookingOk(t, id, tiled) && HasLive(t.legs, id)
  {
    assert BookingOk(s, id, tiled) && Running(s, id, tiled);
    CutLays(s.legs, id, b.rooms, b.checkin, HeldUntil(s.bookings[id]), cut, s.now, tiled);
    LaidIsAnchored(t.legs, id, None, b.rooms, b.checkin, cut, tiled);
    assert Running(t, id, tiled);
  }

  /** The stay now holds its nights only to the cut; the nights from there went back. */
  lemma {:induction false} CutKeeps(s: Db, t: Db, opening: Calendar, tiled: bool, id: BookingId, b: Booking, cut: Date)
    requires Inv(s, opening, tiled) && Rewrites(s, t, id, b, CutAt(s.legs, id, cut, s.now))
    requires SameStart(b, s.bookings[id]) && b.checkin < cut < HeldUntil(s.bookings[id]) && HeldUntil(b) == cut
    requires InventoryHeld(s.bookings[id]) && InventoryHeld(b) && HasLive(s.legs, id) && RowInv(b) && BillOk(b)
    requires t.calendar == Give(s.calendar, cut, HeldUntil(s.bookings[id]), b.rooms)
    requires Sent(s.outbox, t.outbox, Release(Nights(cut, HeldUntil(s.bookings[id])), b.rooms))
    ensures Inv(t, opening, tiled)
  {
    CutBookingOk(s, t, opening, tiled, id, b, cut);
    CutNoClash(s.legs, id, cut, s.now);
    RewritesTouches(s, t, opening, tiled, id, b, t.legs);
    GiveBalances(s, t, opening, tiled, id, cut, HeldUntil(s.bookings[id]), b.rooms);
    KeepsInv(s, t, opening, tiled, id);
  }

  lemma {:induction false} StretchedBookingOk(s: Db, t: Db, opening: Calendar, tiled: bool, id: BookingId, b: Booking,
                                              keep: set<LegId>)
    requires Inv(s, opening, tiled) && id < |s.bookings|
    requires Rewrites(s, t, id, b, Stretch(s.legs, id, HeldUntil(s.bookings[id]), HeldUntil(b), keep))
    requires SameStart(b, s.bookings[id]) && HeldUntil(s.bookings[id]) < HeldUntil(b)
    requires b.status !in {Cancelled, Rejected} && HasLive(s.legs, id) && RowInv(b) && BillOk(b)
    ensures BookingOk(t, id, tiled) && HasLive(t.legs, id)
  {
    assert BookingOk(s, id, tiled) && Running(s, id, tiled);
    StretchLays(s.legs, id, b.rooms, b.checkin, HeldUntil(s.bookings[id]), HeldUntil(b), keep, tiled);
    LaidIsAnchored(t.legs, id, None, b.rooms, b.checkin, HeldUntil(b), tiled);
    assert Running(t, id, tiled);
  }

  /** The stay now holds its nights to a later date; the nights up to there were taken. */
  lemma {:induction false} StretchKeeps(s: Db, t: Db, opening: Calendar, tiled: bool, id: BookingId, b: Booking,
                                        keep: set<LegId>)
    requires Inv(s, opening, tiled) && id < |s.bookings|
    requires Rewrites(s, t, id, b, Stretch(s.legs, id, HeldUntil(s.bookings[id]), HeldUntil(b), keep))
    requires SameStart(b, s.bookings[id]) && HeldUntil(s.bookings[id]) < HeldUntil(b)
    requires InventoryHeld(s.bookings[id]) && InventoryHeld(b) && HasLive(s.legs, id) && RowInv(b) && BillOk(b)
    requires NoDoubleBooking(t.legs)
    requires CanTake(s.calendar, HeldUntil(s.bookings[id]), HeldUntil(b), b.rooms)
    requires t.calendar == Take(s.calendar, HeldUntil(s.bookings[id]), HeldUntil(b), b.rooms)
    requires Sent(s.outbox, t.outbox, Reserve(Nights(HeldUntil(s.bookings[id]), HeldUntil(b)), b.rooms))
    ensures Inv(t, opening, tiled)
  {
    StretchedBookingOk(s, t, opening, tiled, id, b, keep);
    assert RowInv(s.bookings[id]) by { assert BookingOk(s, id, tiled); }
    RewritesTouches(s, t, opening, tiled, id, b, t.legs);
    TakeBalances(s, t, opening, tiled, id, HeldUntil(s.bookings[id]), HeldUntil(b), b.rooms);
    KeepsInv(s, t, opening, tiled, id);
  }

  // ---- taking a whole stay ----

  /** A booking that held nothing takes its nights; its segments were live all along. */
  lemma {:induction false} TakeKeeps(s: Db, t: Db, opening: Calendar, tiled: bool, id: BookingId, b: Booking)
    requires Inv(s, opening, tiled) && Rewrites(s, t, id, b, t.legs)
    requires SameShape(s.legs, t.legs) && NoDoubleBooking(t.legs)
    requires SameStay(b, s.bookings[id]) && b.releasedFrom == None && HasLive(s.legs, id)
    requires !InventoryHeld(s.bookings[id]) && InventoryHeld(b) && RowInv(b) && BillOk(b)
    requires CanTake(s.calendar, b.checkin, b.checkout, b.rooms)
    requires t.calendar == Take(s.calendar, b.checkin, b.checkout, b.rooms)
    requires Sent(s.outbox, t.outbox, Reserve(Nights(b.checkin, b.checkout), b.rooms))
    ensures Inv(t, opening, tiled)
  {
    assert BookingOk(s, id, tiled);
    StillLegsOk(s, t, id, b, tiled);
    SameShapeLive(s.legs, t.legs, id);
    RewritesTouches(s, t, opening, tiled, id, b, t.legs);
    TakeBalances(s, t, opening, tiled, id, b.checkin, b.checkout, b.rooms);
    KeepsInv(s, t, opening, tiled, id);
  }

  lemma {:induction false} NotLiveIsClosed(s: Db, opening: Calendar, tiled: bool, id: BookingId)
    requires Inv(s, opening, tiled) && id < |s.bookings| && !HasLive(s.legs, id)
    ensures Closed(s, id, tiled) && StampedBy(s.legs, id, s.now - 1)
  {
    assert BookingOk(s, id, tiled);
    var b := s.bookings[id];
    if Running(s, id, tiled) { LaidIsAnchored(s.legs, id, None, b.rooms, b.checkin, HeldUntil(b), tiled); }
  }

  lemma {:induction false} RestoreStamps(legs: Legs, id: BookingId, keep: set<LegId>, at: int)
    requires StampedBy(legs, id, at)
    ensures StampedBy(Restore(legs, id, keep), id, at)
  {
  }

  lemma {:induction false} RestoredBookingOk(s: Db, t: Db, opening: Calendar, tiled: bool, id: BookingId, b: Booking,
                                             keep: set<LegId>)
    requires Inv(s, opening, tiled) && Rewrites(s, t, id, b, Restore(s.legs, id, keep))
    requires SameStay(b, s.bookings[id]) && !HasLive(s.legs, id)
    requires b.status !in {Cancelled, Rejected} && RowInv(b) && BillOk(b)
    ensures BookingOk(t, id, tiled) && HasLive(t.legs, id) && b.releasedFrom == None
  {
    NotLiveIsClosed(s, opening, tiled, id);
    var at :| Laid(s.legs, id, Some(at), b.rooms, b.checkin, b.checkout, tiled) && StampedBy(s.legs, id, at);
    RestoreLays(s.legs, id, b.rooms, b.checkin, b.checkout, at, keep, tiled);
    RestoreStamps(s.legs, id, keep, s.now - 1);
    LaidIsAnchored(t.legs, id, None, b.rooms, b.checkin, b.checkout, tiled);
    assert LegsOk(t, id, tiled) by {
      assert StampedBy(t.legs, id, t.now - 1);
      assert Running(t, id, tiled);
    }
  }

  /** A booking that had given everything back takes its nights and its latest segments again. */
  lemma {:induction false} RestoreKeeps(s: Db, t: Db, opening: Calendar, tiled: bool, id: BookingId, b: Booking,
                                        keep: set<LegId>)
    requires Inv(s, opening, tiled) && Rewrites(s, t, id, b, Restore(s.legs, id, keep))
    requires SameStay(b, s.bookings[id]) && !HasLive(s.legs, id)
    requires b.status !in {Cancelled, Rejected} && InventoryHeld(b) && RowInv(b) && BillOk(b)
    requires NoDoubleBooking(t.legs)
    requires CanTake(s.calendar, b.checkin, b.checkout, b.rooms)
    requires t.calendar == Take(s.calendar, b.checkin, b.checkout, b.rooms)
    requires Sent(s.outbox, t.outbox, Reserve(Nights(b.checkin, b.checkout), b.rooms))
    ensures Inv(t, opening, tiled)
  {
    RestoredBookingOk(s, t, opening, tiled, id, b, keep);
    RewritesTouches(s, t, opening, tiled, id, b, t.legs);
    TakeBalances(s, t, opening, tiled, id, b.checkin, b.checkout, b.rooms);
    KeepsInv(s, t, opening, tiled, id);
  }

  // ---- the operations ----

  lemma {:induction false} SettledLive(s: Db, opening: Calendar, tiled: bool, id: BookingId)
    requires Inv(s, opening, tiled) && id < |s.bookings|
    ensures s.bookings[id].status !in {Cancelled, Rejected, CheckedOut} ==> HasLive(s.legs, id)
    ensures s.bookings[id].status in {Cancelled, Rejected} ==> !HasLive(s.legs, id)
    ensures s.bookings[id].status !in {NoShow, CheckedOut} ==> s.bookings[id].releasedFrom == None
  {
    assert BookingOk(s, id, tiled);
    var b := s.bookings[id];
    if Running(s, id, tiled) { LaidIsAnchored(s.legs, id, None, b.rooms, b.checkin, HeldUntil(b), tiled); }
  }

  lemma {:induction false} RowsSound(s: Db, opening: Calendar, tiled: bool, id: BookingId)
    requires Inv(s, opening, tiled) && id < |s.bookings|
    ensures RowInv(s.bookings[id]) && BillOk(s.bookings[id])
  {
    assert BookingOk(s, id, tiled);
  }

  /** The shared end of reject, cancel, void and the sweeps. */
  lemma {:induction false} GiveBackKeeps(s: Db, t: Db, opening: Calendar, tiled: bool, id: BookingId, b: Booking)
    requires Inv(s, opening, tiled) && id < |s.bookings| && s.bookings[id].status in {Pending, Approved}
    requires b.status in {Cancelled, Rejected} && RowOk(b)
    requires b == s.bookings[id].(status := b.status, voided := b.voided)
    requires t == Tick(SetRow(GiveRoomsBack(s, id, s.bookings[id]), id, b))
    ensures Inv(t, opening, tiled)
  {
    SettledLive(s, opening, tiled, id);
    RowsSound(s, opening, tiled, id);
    SentOne(s.outbox, Release(Nights(b.checkin, b.checkout), b.rooms));
    WholeReleaseKeeps(s, t, opening, tiled, id, b);
  }

  lemma {:induction false} RejectKeeps(s: Db, opening: Calendar, tiled: bool, id: BookingId)
    requires Inv(s, opening, tiled) && Reject(s, id).Done?
    ensures Inv(Tick(Reject(s, id).db), opening, tiled)
  {
    var t := Tick(Reject(s, id).db);
    GiveBackKeeps(s, t, opening, tiled, id, t.bookings[id]);
  }

  lemma {:induction false} CancelKeeps(s: Db, opening: Calendar, tiled: bool, id: BookingId)
    requires Inv(s, opening, tiled) && Cancel(s, id).Done?
    ensures Inv(Tick(Cancel(s, id).db), opening, tiled)
  {
    var t := Tick(Cancel(s, id).db);
    GiveBackKeeps(s, t, opening, tiled, id, t.bookings[id]);
  }

  lemma {:induction false} VoidKeeps(s: Db, opening: Calendar, tiled: bool, id: BookingId, allowed: bool)
    requires Inv(s, opening, tiled) && Void(s, id, allowed).Done?
    ensures Inv(Tick(Void(s, id, allowed).db), opening, tiled)
  {
    var t := Tick(Void(s, id, allowed).db);
    GiveBackKeeps(s, t, opening, tiled, id, t.bookings[id]);
  }

  /** The tables with the nights from a date given back and the segments cut there. */
  function CutOff(s: Db, id: BookingId, b: Booking, cut: Date, until: Date): Db
    requires id < |s.bookings|
  {
    SetRow(ReleaseRange(s, cut, until, b.rooms).(legs := CutAt(s.legs, id, cut, s.now)), id, b)
  }

  lemma {:induction false} CutOffKeeps(s: Db, opening: Calendar, tiled: bool, id: BookingId, b: Booking, cut: Date)
    requires Inv(s, opening, tiled) && id < |s.bookings| && HasLive(s.legs, id) && RowInv(b) && BillOk(b)
    requires SameStart(b, s.bookings[id]) && b.checkin < cut < HeldUntil(s.bookings[id]) && HeldUntil(b) == cut
    requires InventoryHeld(s.bookings[id]) && InventoryHeld(b)
    ensures Inv(Tick(CutOff(s, id, b, cut, HeldUntil(s.bookings[id]))), opening, tiled)
  {
    var until := HeldUntil(s.bookings[id]);
    var t := Tick(CutOff(s, id, b, cut, until));
    assert Rewrites(s, t, id, b, CutAt(s.legs, id, cut, s.now));
    SentOne(s.outbox, Release(Nights(cut, until), b.rooms));
    CutKeeps(s, t, opening, tiled, id, b, cut);
  }

  lemma {:induction false} NoticeIsSilent(before: seq<Event>, after: seq<Event>, id: BookingId)
    requires after == before || after == before + [NoShowNotice(id)]
    ensures Silent(before, after)
  {
    SentOne(before, NoShowNotice(id));
  }

  /** What marking a no-show with nights left does to the tables. */
  lemma {:induction false} NoShowCuts(s: Db, id: BookingId, markedOn: Date)
    requires MarkNoShow(s, id, markedOn).Done? && s.bookings[id].releasedFrom == None
    requires NoShowReleaseFrom(s.bookings[id].checkin, s.bookings[id].checkout, markedOn).Some?
    ensures var was := s.bookings[id];
            var point := NoShowReleaseFrom(was.checkin, was.checkout, markedOn).value;
            var cut := CutOff(s, id, was.(status := NoShow, releasedFrom := Some(point)), point, was.checkout);
            MarkNoShow(s, id, markedOn).db ==
              cut.(outbox := if was.ota then cut.outbox + [NoShowNotice(id)] else cut.outbox)
  {
    var was := s.bookings[id];
    var point := NoShowReleaseFrom(was.checkin, was.checkout, markedOn).value;
    var t := MarkNoShow(s, id, markedOn).db;
    assert t.bookings == s.bookings[id := was.(status := NoShow, releasedFrom := Some(point))];
  }

  lemma {:induction false} NoShowCutKeeps(s: Db, t: Db, opening: Calendar, tiled: bool, id: BookingId, markedOn: Date)
    requires Inv(s, opening, tiled) && MarkNoShow(s, id, markedOn).Done? && t == Tick(MarkNoShow(s, id, markedOn).db)
    requires NoShowReleaseFrom(s.bookings[id].checkin, s.bookings[id].checkout, markedOn).Some?
    ensures Inv(t, opening, tiled)
  {
    var was := s.bookings[id];
    SettledLive(s, opening, tiled, id);
    RowsSound(s, opening, tiled, id);
    var point := NoShowReleaseFrom(was.checkin, was.checkout, markedOn).value;
    var b := was.(status := NoShow, releasedFrom := Some(point));
    var cut := Tick(CutOff(s, id, b, point, was.checkout));
    NoShowCuts(s, id, markedOn);
    assert Rewrites(s, t, id, b, CutAt(s.legs, id, point, s.now));
    SentOne(s.outbox, Release(Nights(point, was.checkout), was.rooms));
    NoticeIsSilent(cut.outbox, t.outbox, id);
    CutKeeps(s, t, opening, tiled, id, b, point);
  }

  lemma {:induction false} NoShowKeeps(s: Db, opening: Calendar, tiled: bool, id: BookingId, markedOn: Date)
    requires Inv(s, opening, tiled) && MarkNoShow(s, id, markedOn).Done?
    ensures Inv(Tick(MarkNoShow(s, id, markedOn).db), opening, tiled)
  {
    var t := Tick(MarkNoShow(s, id, markedOn).db);
    var was := s.bookings[id];
    if NoShowReleaseFrom(was.checkin, was.checkout, markedOn).Some? {
      NoShowCutKeeps(s, t, opening, tiled, id, markedOn);
    } else {
      SettledLive(s, opening, tiled, id);
      RowsSound(s, opening, tiled, id);
      NoticeIsSilent(s.outbox, t.outbox, id);
      RowKeeps(s, t, opening, tiled, id, was.(status := NoShow));
    }
  }

  /** Giving segments rooms in savepoints moves nobody who has one and makes no double booking. */
  lemma {:induction false} SeatKeeps(legs: Legs, id: BookingId, p: Pick)
    requires NoDoubleBooking(legs)
    ensures var t := Seat(legs, id, p);
            SameShape(legs, t) && NoDoubleBooking(t) && SameElsewhere(legs, t, id)
            && forall i :: i in legs && legs[i].unit.Some? ==> t[i] == legs[i]
  {
    if Seat(legs, id, p) != legs { ReplaceOne(legs, p.leg, legs[p.leg].(unit := Some(p.unit))); }
  }

  lemma {:induction false} SeatEachKeeps(legs: Legs, id: BookingId, picks: seq<Pick>)
    requires NoDoubleBooking(legs)
    ensures var t := SeatEach(legs, id, picks);
            SameShape(legs, t) && NoDoubleBooking(t) && SameElsewhere(legs, t, id)
            && forall i :: i in legs && legs[i].unit.Some? ==> t[i] == legs[i]
  {
    if picks == [] {
    } else {
      SeatEachKeeps(legs, id, picks[..|picks| - 1]);
      SeatKeeps(SeatEach(legs, id, picks[..|picks| - 1]), id, picks[|picks| - 1]);
    }
  }

  lemma {:induction false} SeatKeepsBlock(legs: Legs, id: BookingId, p: Pick, i: LegId, unit: UnitId)
    requires NoDoubleBooking(legs) && i in legs && !Fits(legs, legs[i].(unit := Some(unit)), i)
    ensures var t := Seat(legs, id, p); i in t && !Fits(t, t[i].(unit := Some(unit)), i)
  {
    var t := Seat(legs, id, p);
    SeatKeeps(legs, id, p);
    var j :| j in legs && j != i && Clash(legs[i].(unit := Some(unit)), legs[j]);
    assert t[j] == legs[j] && Clash(t[i].(unit := Some(unit)), t[j]);
  }

  /** A segment a room was picked for stays without one only if the room is another's on one of its nights. */
  lemma {:induction false} SeatedUnlessTaken(legs: Legs, id: BookingId, picks: seq<Pick>, k: nat)
    requires NoDoubleBooking(legs) && k < |picks| && picks[k].leg in legs && Live(legs[picks[k].leg], id)
    ensures var t := SeatEach(legs, id, picks); var i := picks[k].leg;
            i in t && (t[i].unit == None ==> !Fits(t, t[i].(unit := Some(picks[k].unit)), i))
  {
    var front, p, i := picks[..|picks| - 1], picks[|picks| - 1], picks[k].leg;
    var before := SeatEach(legs, id, front);
    SeatEachKeeps(legs, id, front);
    SeatKeeps(before, id, p);
    assert Live(before[i], id);
    if k == |front| {
    } else {
      SeatedUnlessTaken(legs, id, front, k);
      if before[i].unit == None { SeatKeepsBlock(before, id, p, i, picks[k].unit); }
    }
  }

  lemma {:induction false} CheckInKeeps(s: Db, opening: Calendar, tiled: bool, id: BookingId, ready: bool,
                                        seating: Seating)
    requires Inv(s, opening, tiled) && CheckIn(s, id, ready, seating).Done?
    ensures Inv(Tick(CheckIn(s, id, ready, seating).db), opening, tiled)
  {
    var t := Tick(CheckIn(s, id, ready, seating).db);
    SettledLive(s, opening, tiled, id);
    if seating.Picked? { SeatEachKeeps(s.legs, id, seating.picks); }
    RowsSound(s, opening, tiled, id);
    RowKeeps(s, t, opening, tiled, id, t.bookings[id]);
  }

  /** Leaving on or before the arrival day gives the whole stay back. */
  lemma {:induction false} LeaveOnArrivalKeeps(s: Db, opening: Calendar, tiled: bool, id: BookingId, operating: Date,
                                               settled: bool)
    requires Inv(s, opening, tiled) && CheckOut(s, id, operating, settled).Done? && operating <= s.bookings[id].checkin
    ensures Inv(Tick(CheckOut(s, id, operating, settled).db), opening, tiled)
  {
    var t := Tick(CheckOut(s, id, operating, settled).db);
    var was := s.bookings[id];
    SettledLive(s, opening, tiled, id);
    RowsSound(s, opening, tiled, id);
    var b := was.(status := CheckedOut);
    assert t.bookings == s.bookings[id := b] && t.legs == ReleaseAll(s.legs, id, s.now);
    SentOne(s.outbox, Release(Nights(was.checkin, was.checkout), was.rooms));
    WholeReleaseKeeps(s, t, opening, tiled, id, b);
  }

  /** What leaving early does to the tables. */
  lemma {:induction false} LeavesEarly(s: Db, id: BookingId, operating: Date, settled: bool)
    requires CheckOut(s, id, operating, settled).Done? && s.bookings[id].releasedFrom == None
    requires s.bookings[id].checkin < operating < s.bookings[id].checkout
    ensures var was := s.bookings[id];
            CheckOut(s, id, operating, settled).db ==
              CutOff(s, id, was.(status := CheckedOut, releasedFrom := Some(operating)), operating, was.checkout)
  {
    var was := s.bookings[id];
    var t := CheckOut(s, id, operating, settled).db;
    assert t.bookings == s.bookings[id := was.(status := CheckedOut, releasedFrom := Some(operating))];
  }

  lemma {:induction false} LeaveEarlyKeeps(s: Db, opening: Calendar, tiled: bool, id: BookingId, operating: Date,
                                           settled: bool)
    requires Inv(s, opening, tiled) && CheckOut(s, id, operating, settled).Done?
    requires s.bookings[id].checkin < operating < s.bookings[id].checkout
    ensures Inv(Tick(CheckOut(s, id, operating, settled).db), opening, tiled)
  {
    var was := s.bookings[id];
    SettledLive(s, opening, tiled, id);
    RowsSound(s, opening, tiled, id);
    LeavesEarly(s, id, operating, settled);
    CutOffKeeps(s, opening, tiled, id, was.(status := CheckedOut, releasedFrom := Some(operating)), operating);
  }

  lemma {:induction false} CheckOutKeeps(s: Db, opening: Calendar, tiled: bool, id: BookingId, operating: Date,
                                         settled: bool)
    requires Inv(s, opening, tiled) && CheckOut(s, id, operating, settled).Done?
    ensures Inv(Tick(CheckOut(s, id, operating, settled).db), opening, tiled)
  {
    var was := s.bookings[id];
    if operating >= was.checkout {
      SettledLive(s, opening, tiled, id);
      RowsSound(s, opening, tiled, id);
      RowKeeps(s, Tick(CheckOut(s, id, operating, settled).db), opening, tiled, id, was.(status := CheckedOut));
    } else if operating <= was.checkin {
      LeaveOnArrivalKeeps(s, opening, tiled, id, operating, settled);
    } else {
      LeaveEarlyKeeps(s, opening, tiled, id, operating, settled);
    }
  }

  lemma {:induction false} UndoCheckInKeeps(s: Db, opening: Calendar, tiled: bool, id: BookingId, allowed: bool)
    requires Inv(s, opening, tiled) && UndoCheckIn(s, id, allowed).Done?
    ensures Inv(Tick(UndoCheckIn(s, id, allowed).db), opening, tiled)
  {
    var t := Tick(UndoCheckIn(s, id, allowed).db);
    SettledLive(s, opening, tiled, id);
    RowsSound(s, opening, tiled, id);
    RowKeeps(s, t, opening, tiled, id, t.bookings[id]);
  }

  lemma {:induction false} ReclaimRewrites(s: Db, t: Db, id: BookingId, status: Status, keep: set<LegId>)
    requires LegIds(s) && id < |s.bookings| && s.bookings[id].releasedFrom.Some?
    requires s.bookings[id].releasedFrom.value < s.bookings[id].checkout && Reclaim(s, id, s.bookings[id], keep).Done?
    requires var r := Reclaim(s, id, s.bookings[id], keep).db;
             t == Tick(SetRow(r, id, r.bookings[id].(status := status)))
    ensures var was := s.bookings[id]; var b := was.(status := status, releasedFrom := None);
            Rewrites(s, t, id, b, Stretch(s.legs, id, HeldUntil(was), was.checkout, keep))
  {
    var was := s.bookings[id];
    assert t.bookings == s.bookings[id := was.(status := status, releasedFrom := None)];
  }

  /** Taking back what a partial release gave, with the row then put in another running status. */
  lemma {:induction false} ReclaimKeeps(s: Db, t: Db, opening: Calendar, tiled: bool, id: BookingId, status: Status,
                                        keep: set<LegId>)
    requires Inv(s, opening, tiled) && id < |s.bookings| && s.bookings[id].status in {NoShow, CheckedOut}
    requires status in {Approved, CheckedIn} && s.bookings[id].releasedFrom.Some?
    requires Reclaim(s, id, s.bookings[id], keep).Done?
    requires var r := Reclaim(s, id, s.bookings[id], keep).db;
             t == Tick(SetRow(r, id, r.bookings[id].(status := status)))
    ensures Inv(t, opening, tiled)
  {
    var was, b := s.bookings[id], t.bookings[id];
    RowsSound(s, opening, tiled, id);
    assert HasLive(s.legs, id) by {
      assert BookingOk(s, id, tiled) && Running(s, id, tiled);
      LaidIsAnchored(s.legs, id, None, was.rooms, was.checkin, HeldUntil(was), tiled);
    }
    ReclaimRewrites(s, t, id, status, keep);
    SentOne(s.outbox, Reserve(Nights(was.releasedFrom.value, was.checkout), was.rooms));
    StretchKeeps(s, t, opening, tiled, id, b, keep);
  }

  lemma {:induction false} UndoCheckOutKeeps(s: Db, opening: Calendar, tiled: bool, id: BookingId, allowed: bool,
                                             keep: set<LegId>)
    requires Inv(s, opening, tiled) && UndoCheckOut(s, id, allowed, keep).Done?
    ensures Inv(Tick(UndoCheckOut(s, id, allowed, keep).db), opening, tiled)
  {
    var t := Tick(UndoCheckOut(s, id, allowed, keep).db);
    var was, b := s.bookings[id], t.bookings[id];
    RowsSound(s, opening, tiled, id);
    if was.releasedFrom.Some? {
      ReclaimKeeps(s, t, opening, tiled, id, CheckedIn, keep);
    } else if HasLive(s.legs, id) {
      RowKeeps(s, t, opening, tiled, id, b);
    } else {
      SentOne(s.outbox, Reserve(Nights(was.checkin, was.checkout), was.rooms));
      RestoreKeeps(s, t, opening, tiled, id, b, keep);
    }
  }

  lemma {:induction false} ReinstateCancelledKeeps(s: Db, opening: Calendar, tiled: bool, id: BookingId, today: Date,
                                                   keep: set<LegId>)
    requires Inv(s, opening, tiled) && Reinstate(s, id, today, keep).Done? && s.bookings[id].status == Cancelled
    ensures Inv(Tick(Reinstate(s, id, today, keep).db), opening, tiled)
  {
    var t := Tick(Reinstate(s, id, today, keep).db);
    var was := s.bookings[id];
    SettledLive(s, opening, tiled, id);
    RowsSound(s, opening, tiled, id);
    SentOne(s.outbox, Reserve(Nights(was.checkin, was.checkout), was.rooms));
    RestoreKeeps(s, t, opening, tiled, id, was.(status := Approved), keep);
  }

  lemma {:induction false} ReinstateNoShowKeeps(s: Db, opening: Calendar, tiled: bool, id: BookingId, today: Date,
                                                keep: set<LegId>)
    requires Inv(s, opening, tiled) && Reinstate(s, id, today, keep).Done? && s.bookings[id].status == NoShow
    ensures Inv(Tick(Reinstate(s, id, today, keep).db), opening, tiled)
  {
    var t := Tick(Reinstate(s, id, today, keep).db);
    var was := s.bookings[id];
    RowsSound(s, opening, tiled, id);
    if was.releasedFrom == None {
      SettledLive(s, opening, tiled, id);
      RowKeeps(s, t, opening, tiled, id, was.(status := Approved));
    } else {
      var r := Reclaim(s, id, was, keep).db;
      assert t == Tick(SetRow(r, id, r.bookings[id].(status := Approved)));
      ReclaimKeeps(s, t, opening, tiled, id, Approved, keep);
    }
  }

  lemma {:induction false} ReinstateKeeps(s: Db, opening: Calendar, tiled: bool, id: BookingId, today: Date,
                                          keep: set<LegId>)
    requires Inv(s, opening, tiled) && Reinstate(s, id, today, keep).Done?
    ensures Inv(Tick(Reinstate(s, id, today, keep).db), opening, tiled)
  {
    if s.bookings[id].status == Cancelled {
      ReinstateCancelledKeeps(s, opening, tiled, id, today, keep);
    } else {
      ReinstateNoShowKeeps(s, opening, tiled, id, today, keep);
    }
  }

  /** A booking that was not confirmed takes rooms, if it had none, and its row says so. */
  lemma {:induction false} TakeIfNoneKeeps(s: Db, t: Db, opening: Calendar, tiled: bool, id: BookingId, b: Booking,
                                           picks: seq<Pick>)
    requires Inv(s, opening, tiled) && id < |s.bookings| && s.bookings[id].status in {Pending, Approved}
    requires b == s.bookings[id].(status := b.status, kind := b.kind, holdUntil := b.holdUntil)
    requires b.status in {Pending, Approved} && b.kind != Inquiry && RowOk(b)
    requires TakeIfNone(s, s.bookings[id]).Done?
    requires var taken := TakeIfNone(s, s.bookings[id]).db.(legs := Preferred(s.legs, id, s.bookings[id], picks));
             t == Tick(SetRow(taken, id, b))
    ensures Inv(t, opening, tiled)
  {
    SettledLive(s, opening, tiled, id);
    RowsSound(s, opening, tiled, id);
    if InventoryHeld(s.bookings[id]) {
      RowKeeps(s, t, opening, tiled, id, b);
    } else {
      SeatEachKeeps(s.legs, id, picks);
      SentOne(s.outbox, Reserve(Nights(b.checkin, b.checkout), b.rooms));
      TakeKeeps(s, t, opening, tiled, id, b);
    }
  }

  lemma {:induction false} ApproveKeeps(s: Db, opening: Calendar, tiled: bool, id: BookingId)
    requires Inv(s, opening, tiled) && Approve(s, id).Done?
    ensures Inv(Tick(Approve(s, id).db), opening, tiled)
  {
    var t := Tick(Approve(s, id).db);
    assert Preferred(s.legs, id, s.bookings[id], []) == s.legs;
    TakeIfNoneKeeps(s, t, opening, tiled, id, t.bookings[id], []);
  }

  lemma {:induction false} ConfirmKeeps(s: Db, opening: Calendar, tiled: bool, id: BookingId, picks: seq<Pick>)
    requires Inv(s, opening, tiled) && ConfirmBooking(s, id, picks).Done?
    ensures Inv(Tick(ConfirmBooking(s, id, picks).db), opening, tiled)
  {
    var t := Tick(ConfirmBooking(s, id, picks).db);
    TakeIfNoneKeeps(s, t, opening, tiled, id, t.bookings[id], picks);
  }

  lemma {:induction false} HoldKeeps(s: Db, opening: Calendar, tiled: bool, id: BookingId, requested: Option<Kind>,
                                    until: Option<int>, picks: seq<Pick>)
    requires Inv(s, opening, tiled) && Hold(s, id, requested, until, picks).Done?
    ensures Inv(Tick(Hold(s, id, requested, until, picks).db), opening, tiled)
  {
    var t := Tick(Hold(s, id, requested, until, picks).db);
    TakeIfNoneKeeps(s, t, opening, tiled, id, t.bookings[id], picks);
  }

  /** Cancelling and releasing without asking whether the booking held rooms is right for one that did. */
  lemma {:induction false} CancelAndReleaseKeeps(s: Db, opening: Calendar, tiled: bool, id: BookingId)
    requires Inv(s, opening, tiled) && id < |s.bookings| && s.bookings[id].status in {Pending, Approved}
    requires InventoryHeld(s.bookings[id]) && CancelAndRelease(s, id).Done?
    ensures Inv(Tick(CancelAndRelease(s, id).db), opening, tiled)
  {
    var t := Tick(CancelAndRelease(s, id).db);
    GiveBackKeeps(s, t, opening, tiled, id, t.bookings[id]);
  }

  lemma {:induction false} ReleaseHoldKeeps(s: Db, opening: Calendar, tiled: bool, id: BookingId)
    requires Inv(s, opening, tiled) && ReleaseHold(s, id).Done?
    ensures Inv(Tick(ReleaseHold(s, id).db), opening, tiled)
  {
    CancelAndReleaseKeeps(s, opening, tiled, id);
  }

  /** Only a hold has a release time, and every hold takes rooms. */
  lemma {:induction false} ReleaseDueHoldKeeps(s: Db, opening: Calendar, tiled: bool, id: BookingId, clock: int)
    requires Inv(s, opening, tiled) && ReleaseDueHold(s, id, clock).Done?
    ensures Inv(Tick(ReleaseDueHold(s, id, clock).db), opening, tiled)
  {
    RowsSound(s, opening, tiled, id);
    CancelAndReleaseKeeps(s, opening, tiled, id);
  }

  lemma {:induction false} ExpireKeeps(s: Db, opening: Calendar, tiled: bool, id: BookingId, today: Date)
    requires Inv(s, opening, tiled) && ExpireUnconfirmed(s, id, today).Done?
    ensures Inv(Tick(ExpireUnconfirmed(s, id, today).db), opening, tiled)
  {
    if HoldsInventory(s.bookings[id].kind) {
      CancelAndReleaseKeeps(s, opening, tiled, id);
    } else {
      var t := Tick(ExpireUnconfirmed(s, id, today).db);
      GiveBackKeeps(s, t, opening, tiled, id, t.bookings[id]);
    }
  }
}
