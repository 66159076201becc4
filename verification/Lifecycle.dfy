/** Taking a booking's rooms, giving them back whole or from a date, and taking them back again
    (packages/db/src/lifecycle.ts and the segment helpers of room-units.service.ts).

    Each method is proved equal to a function on the tables' values; the invariants of the core are
    proved about those functions. */
module Lifecycle {
  import opened Tables
  import opened Wrappers
  import opened Inventory
  import opened RoomLegs

  /** The date a booking's nights are held to. */
  function HeldUntil(b: Booking): Date {
    if b.releasedFrom.Some? && b.releasedFrom.value < b.checkout then b.releasedFrom.value else b.checkout
  }

  /** A no-show keeps the later of its arrival night and the night it was marked on. */
  function NoShowReleaseFrom(checkin: Date, checkout: Date, markedOn: Date): Option<Date> {
    var start := (if markedOn > checkin then markedOn else checkin) + 1;
    if start < checkout then Some(start) else None
  }

  /** Reserve nights [lo, hi) and tell the channel. */
  function ReserveRange(s: Db, lo: Date, hi: Date, rooms: int): Reply {
    if CanTake(s.calendar, lo, hi, rooms)
    then Done(s.(calendar := Take(s.calendar, lo, hi, rooms), outbox := s.outbox + [Reserve(Nights(lo, hi), rooms)]))
    else Refused
  }

  /** Give nights [lo, hi) back and tell the channel. */
  function ReleaseRange(s: Db, lo: Date, hi: Date, rooms: int): Db {
    s.(calendar := Give(s.calendar, lo, hi, rooms), outbox := s.outbox + [Release(Nights(lo, hi), rooms)])
  }

  function SetRow(s: Db, id: BookingId, b: Booking): Db
    requires id < |s.bookings|
  {
    s.(bookings := s.bookings[id := b])
  }

  /** releaseBookingInventory: b is the row as its caller read it. */
  function ReleaseInventory(s: Db, id: BookingId, b: Booking, point: Option<Date>): Db
    requires id < |s.bookings|
  {
    var held := HeldUntil(b);
    var start := if point.Some? && point.value > b.checkin then point.value else b.checkin;
    var given := if start < held then ReleaseRange(s, start, held, b.rooms) else s;
    if start == b.checkin then given.(legs := ReleaseAll(given.legs, id, s.now))
    else if start < held then
      SetRow(given.(legs := CutAt(given.legs, id, start, s.now)), id, given.bookings[id].(releasedFrom := Some(start)))
    else given
  }

  /** reclaimReleasedNights: keep is the set of stretched segments whose room the database found free. */
  ghost function Reclaim(s: Db, id: BookingId, b: Booking, keep: set<LegId>): Reply
    requires id < |s.bookings|
  {
    if b.releasedFrom == None || b.releasedFrom.value >= b.checkout then Done(s)
    else
      var start := b.releasedFrom.value;
      var legs := Stretch(s.legs, id, start, b.checkout, keep);
      match ReserveRange(s, start, b.checkout, b.rooms)
      case Refused => Refused
      case Done(t) =>
        if FairVerdict(s.legs, legs) then Done(SetRow(t.(legs := legs), id, t.bookings[id].(releasedFrom := None)))
        else Refused
  }

  /** restoreReleasedLegs. */
  ghost function RestoreLegs(s: Db, id: BookingId, keep: set<LegId>): Reply {
    var legs := Restore(s.legs, id, keep);
    if FairVerdict(s.legs, legs) then Done(s.(legs := legs)) else Refused
  }

  // ---- the methods ----

  method EnqueueOutbox(tx: Database, e: Event)
    modifies tx`outbox
    ensures tx.outbox == old(tx.outbox) + [e]
  {
    tx.outbox := tx.outbox + [e];
  }

  method ReserveNights(tx: Database, lo: Date, hi: Date, rooms: int) returns (ok: bool)
    modifies tx`calendar, tx`outbox
    ensures ok == CanTake(old(tx.calendar), lo, hi, rooms)
    ensures ok ==> ReserveRange(old(tx.State()), lo, hi, rooms) == Done(tx.State())
  {
    var nights := StayNights(lo, hi);
    TakesAllOrNothing(tx.calendar, lo, hi, rooms);
    var full := ReserveStay(tx, nights, rooms);
    if full.Some? {
      return false;
    }
    EnqueueOutbox(tx, Reserve(nights, rooms));
    return true;
  }

  method ReleaseNights(tx: Database, lo: Date, hi: Date, rooms: int)
    modifies tx`calendar, tx`outbox
    ensures tx.State() == ReleaseRange(old(tx.State()), lo, hi, rooms)
  {
    var nights := StayNights(lo, hi);
    GivesEachNightOnce(tx.calendar, lo, hi, rooms);
    ReleaseStay(tx, nights, rooms);
    EnqueueOutbox(tx, Release(nights, rooms));
  }

  method ReserveBookingInventory(tx: Database, b: Booking) returns (ok: bool)
    modifies tx`calendar, tx`outbox
    ensures ok == CanTake(old(tx.calendar), b.checkin, b.checkout, b.rooms)
    ensures ok ==> ReserveRange(old(tx.State()), b.checkin, b.checkout, b.rooms) == Done(tx.State())
  {
    ok := ReserveNights(tx, b.checkin, b.checkout, b.rooms);
  }

  method ReleaseBookingInventory(tx: Database, id: BookingId, b: Booking, point: Option<Date>)
    requires id < |tx.bookings|
    modifies tx
    ensures tx.State() == ReleaseInventory(old(tx.State()), id, b, point)
  {
    var partly := b.releasedFrom.Some? && b.releasedFrom.value < b.checkout;
    var heldUntil := if partly then b.releasedFrom.value else b.checkout;
    var start := if point.Some? && point.value > b.checkin then point.value else b.checkin;
    if start < heldUntil {
      ReleaseNights(tx, start, heldUntil, b.rooms);
    }
    if start == b.checkin {
      tx.legs := ReleaseAll(tx.legs, id, tx.now);
      return;
    }
    if start < heldUntil {
      tx.legs := CutAt(tx.legs, id, start, tx.now);
      tx.bookings := tx.bookings[id := tx.bookings[id].(releasedFrom := Some(start))];
    }
  }

  /** The rows written with the rooms the database let them keep. */
  function Placed(legs: Legs, rows: Legs, keep: set<LegId>): Legs {
    map i | i in legs ::
      if i in rows then rows[i].(unit := if i in keep then rows[i].unit else None) else legs[i]
  }

  function Kept(row: Leg, keeps: bool): Leg {
    if keeps then row else row.(unit := None)
  }

  /** Half way through the rows: those in todo are still as they were. */
  ghost predicate PartlyPlaced(was: Legs, now: Legs, rows: Legs, todo: set<LegId>, keep: set<LegId>) {
    && now.Keys == was.Keys
    && (forall i :: i in was && (i !in rows || i in todo) ==> now[i] == was[i])
    && (forall i :: i in was && i in rows && i !in todo ==> now[i] == Kept(rows[i], i in keep))
  }

  ghost predicate Blocked(now: Legs, row: Leg, i: LegId, todo: set<LegId>) {
    exists j :: j in now && j != i && j !in todo && Clash(row, now[j])
  }

  ghost predicate DroppedBlocked(now: Legs, rows: Legs, todo: set<LegId>, keep: set<LegId>) {
    forall j :: j in rows && j !in todo && j !in keep ==> Blocked(now, rows[j], j, todo)
  }

  predicate Fits(legs: Legs, row: Leg, i: LegId) {
    forall j {:trigger Clash(row, legs[j])} :: j in legs && j != i ==> !Clash(row, legs[j])
  }

  ghost predicate Independent(was: Legs, rows: Legs) {
    && rows.Keys <= was.Keys && NoDoubleBooking(was)
    && (forall i :: i in rows ==> rows[i].unit == was[i].unit)
    && forall i, j {:trigger Clash(rows[i], was[j])} :: i in rows && j in rows && i != j ==> !Clash(rows[i], was[j])
  }

  /** Replacing one row by one that fits, or by one without a room, makes no double booking. */
  lemma {:induction false} ReplaceOne(now: Legs, i: LegId, row: Leg)
    requires NoDoubleBooking(now) && i in now && (Fits(now, row, i) || row.unit == None)
    ensures NoDoubleBooking(now[i := row])
  {
    var next := now[i := row];
    forall a, b | a in next && b in next && a != b ensures !Clash(next[a], next[b]) {
      if a == i {
        assert next[b] == now[b];
      } else if b == i {
        assert next[a] == now[a];
        assert Clash(now[a], row) ==> Clash(row, now[a]);
      } else {
        assert next[a] == now[a] && next[b] == now[b];
      }
    }
  }

  /** What blocks a dropped row is never written again, so it still blocks it at the end. */
  lemma {:induction false} StillBlocked(now: Legs, next: Legs, rows: Legs, todo: set<LegId>, keep: set<LegId>,
                                        i: LegId, keeps: set<LegId>)
    requires DroppedBlocked(now, rows, todo, keep) && i in todo
    requires next.Keys == now.Keys && forall j :: j in now && j != i ==> next[j] == now[j]
    requires i in rows && keep <= keeps && (i in keeps || Blocked(next, rows[i], i, todo - {i}))
    ensures DroppedBlocked(next, rows, todo - {i}, keeps)
  {
    forall j | j in rows && j !in todo - {i} && j !in keeps ensures Blocked(next, rows[j], j, todo - {i}) {
      if j != i {
        var k :| k in now && k != j && k !in todo && Clash(rows[j], now[k]);
        assert next[k] == now[k];
      }
    }
  }

  ghost predicate Placing(was: Legs, now: Legs, rows: Legs, todo: set<LegId>, keep: set<LegId>) {
    && PartlyPlaced(was, now, rows, todo, keep)
    && NoDoubleBooking(now) && DroppedBlocked(now, rows, todo, keep)
  }

  lemma {:induction false} PlaceKeeps(was: Legs, now: Legs, rows: Legs, todo: set<LegId>, keep: set<LegId>, i: LegId)
    requires Independent(was, rows) && Placing(was, now, rows, todo, keep)
    requires i in todo && i in rows && Fits(now, rows[i], i)
    ensures Placing(was, now[i := rows[i]], rows, todo - {i}, keep + {i})
  {
    ReplaceOne(now, i, rows[i]);
    StillBlocked(now, now[i := rows[i]], rows, todo, keep, i, keep + {i});
  }

  /** What a row clashes with half way through is not one of the rows still to be written. */
  lemma {:induction false} BlockedNow(was: Legs, now: Legs, rows: Legs, todo: set<LegId>, keep: set<LegId>, i: LegId)
    requires Independent(was, rows) && PartlyPlaced(was, now, rows, todo, keep)
    requires i in todo && todo <= rows.Keys && !Fits(now, rows[i], i)
    ensures Blocked(now, rows[i], i, todo)
  {
    var k :| k in now && k != i && Clash(rows[i], now[k]);
    if k in rows {
      assert !Clash(rows[i], was[k]);
    }
  }

  lemma {:induction false} PlaceDrops(was: Legs, now: Legs, rows: Legs, todo: set<LegId>, keep: set<LegId>, i: LegId)
    requires Placing(was, now, rows, todo, keep)
    requires i in todo && i in rows && i in now && i !in keep && Blocked(now, rows[i], i, todo)
    ensures Placing(was, now[i := rows[i].(unit := None)], rows, todo - {i}, keep)
  {
    var next := now[i := rows[i].(unit := None)];
    ReplaceOne(now, i, rows[i].(unit := None));
    var k :| k in now && k != i && k !in todo && Clash(rows[i], now[k]);
    assert next[k] == now[k];
    assert Blocked(next, rows[i], i, todo - {i});
    StillBlocked(now, next, rows, todo, keep, i, keep);
  }

  lemma {:induction false} PlacedIsFair(was: Legs, now: Legs, rows: Legs, keep: set<LegId>)
    requires Independent(was, rows) && PartlyPlaced(was, now, rows, {}, keep)
    requires NoDoubleBooking(now) && DroppedBlocked(now, rows, {}, keep)
    ensures now == Placed(was, rows, keep) && FairVerdict(was, now)
  {
    forall i | i in was && i in now && Dropped(was, now, i)
      ensures exists j :: j in now && j != i && Clash(now[i].(unit := was[i].unit), now[j])
    {
      assert i in rows && i !in keep;
      assert Blocked(now, rows[i], i, {});
      assert now[i].(unit := was[i].unit) == rows[i];
    }
  }

  /** How many rows have been written without their room. */
  function Unplaced(rows: set<LegId>, todo: set<LegId>, keep: set<LegId>): nat {
    |rows - todo - keep|
  }

  lemma {:induction false} UnplacedStep(rows: set<LegId>, todo: set<LegId>, keep: set<LegId>, i: LegId)
    requires i in todo && i in rows && i !in keep
    ensures Unplaced(rows, todo - {i}, keep + {i}) == Unplaced(rows, todo, keep)
    ensures Unplaced(rows, todo - {i}, keep) == Unplaced(rows, todo, keep) + 1
  {
    assert rows - (todo - {i}) - (keep + {i}) == rows - todo - keep;
    assert rows - (todo - {i}) - keep == (rows - todo - keep) + {i};
  }

  /** Write each row in its own savepoint; on an exclusion violation write it without its room. */
  method PlaceEach(tx: Database, rows: Legs) returns (unassigned: nat, ghost keep: set<LegId>)
    requires Independent(tx.legs, rows)
    modifies tx`legs
    ensures tx.legs == Placed(old(tx.legs), rows, keep)
    ensures FairVerdict(old(tx.legs), tx.legs)
    ensures keep <= rows.Keys && unassigned == Unplaced(rows.Keys, {}, keep)
  {
    ghost var was := tx.legs;
    var todo := rows.Keys;
    keep, unassigned := {}, 0;
    while todo != {}
      invariant todo <= rows.Keys && keep <= rows.Keys - todo
      invariant tx.legs.Keys == was.Keys
      invariant Placing(was, tx.legs, rows, todo, keep)
      invariant unassigned == Unplaced(rows.Keys, todo, keep)
    {
      var i :| i in todo;
      UnplacedStep(rows.Keys, todo, keep, i);
      if Fits(tx.legs, rows[i], i) {
        PlaceKeeps(was, tx.legs, rows, todo, keep, i);
        tx.legs := tx.legs[i := rows[i]];
        keep := keep + {i};
      } else {
        BlockedNow(was, tx.legs, rows, todo, keep, i);
        PlaceDrops(was, tx.legs, rows, todo, keep, i);
        tx.legs := tx.legs[i := rows[i].(unit := None)];
        unassigned := unassigned + 1;
      }
      todo := todo - {i};
    }
    PlacedIsFair(was, tx.legs, rows, keep);
  }

  function Shortened(legs: Legs, id: BookingId, end: Date, later: Date): Legs {
    map i | i in legs && EndsAt(legs[i], id, end) :: legs[i].(checkout := later)
  }

  /** Two segments that end together both cover the night before, so they never share a room. */
  lemma {:induction false} ShortenedIndependent(legs: Legs, id: BookingId, end: Date, later: Date)
    requires NoDoubleBooking(legs)
    requires forall i :: i in legs && Live(legs[i], id) ==> legs[i].checkin < legs[i].checkout
    ensures Independent(legs, Shortened(legs, id, end, later))
  {
    var rows := Shortened(legs, id, end, later);
    forall i, j | i in rows && j in rows && i != j ensures !Clash(rows[i], legs[j]) {
      assert !Clash(legs[i], legs[j]);
    }
  }

  /** The segments a partial release cut short at the date run on to the departure again. */
  method StretchLegs(tx: Database, id: BookingId, end: Date, later: Date)
      returns (unassigned: nat, ghost keep: set<LegId>)
    requires NoDoubleBooking(tx.legs)
    requires forall i :: i in tx.legs && Live(tx.legs[i], id) ==> tx.legs[i].checkin < tx.legs[i].checkout
    modifies tx`legs
    ensures tx.legs == Stretch(old(tx.legs), id, end, later, keep) && FairVerdict(old(tx.legs), tx.legs)
  {
    ShortenedIndependent(tx.legs, id, end, later);
    unassigned, keep := PlaceEach(tx, Shortened(tx.legs, id, end, later));
  }

  method ReclaimReleasedNights(tx: Database, id: BookingId, b: Booking)
      returns (ok: bool, unassigned: nat, ghost keep: set<LegId>)
    requires id < |tx.bookings| && NoDoubleBooking(tx.legs)
    requires forall i :: i in tx.legs && Live(tx.legs[i], id) ==> tx.legs[i].checkin < tx.legs[i].checkout
    modifies tx
    ensures ok ==> Reclaim(old(tx.State()), id, b, keep) == Done(tx.State())
    ensures ok <==> b.releasedFrom.Some? ==> CanTake(old(tx.calendar), b.releasedFrom.value, b.checkout, b.rooms)
  {
    if b.releasedFrom == None || b.releasedFrom.value >= b.checkout {
      return true, 0, {};
    }
    keep, unassigned := {}, 0;
    ok := ReserveNights(tx, b.releasedFrom.value, b.checkout, b.rooms);
    if !ok {
      return;
    }
    unassigned, keep := StretchLegs(tx, id, b.releasedFrom.value, b.checkout);
    tx.bookings := tx.bookings[id := tx.bookings[id].(releasedFrom := None)];
  }

  /** The latest released segments, live again and in their rooms. */
  function Returning(legs: Legs, id: BookingId): Legs {
    map i | i in legs && LastReleased(legs, id, i) :: legs[i].(releasedAt := None)
  }

  lemma {:induction false} ReturningIndependent(legs: Legs, id: BookingId)
    requires NoDoubleBooking(legs)
    ensures Independent(legs, Returning(legs, id))
  {}

  lemma {:induction false} PlacedRestores(legs: Legs, id: BookingId, keep: set<LegId>)
    ensures Placed(legs, Returning(legs, id), keep) == Restore(legs, id, keep)
  {}

  method RestoreReleasedLegs(tx: Database, id: BookingId) returns (unassigned: nat, ghost keep: set<LegId>)
    requires NoDoubleBooking(tx.legs)
    modifies tx`legs
    ensures RestoreLegs(old(tx.State()), id, keep) == Done(tx.State())
    ensures unassigned == Unplaced(Returning(old(tx.legs), id).Keys, {}, keep)
  {
    ghost var was := tx.legs;
    ReturningIndependent(tx.legs, id);
    unassigned, keep := PlaceEach(tx, Returning(tx.legs, id));
    PlacedRestores(was, id, keep);
  }
}
