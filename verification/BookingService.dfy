/** The operations as transactions on the tables (apps/api/src/bookings/booking.service.ts,
    apps/api/src/reservations/lifecycle.service.ts and the sweeps of packages/db/src/lifecycle.ts).
    Each method does what BookingRules says, or rolls back to the state it found; StayKeeps and ChangeKeeps
    prove that what it says keeps the invariant of the tables. */
module BookingService {
  import opened Tables
  import opened Wrappers
  import opened Inventory
  import opened RoomLegs
  import opened Lifecycle
  import opened Folio
  import Rules = BookingRules
  import opened StayInvariant
  import opened StayKeeps
  import opened ChangeKeeps
  import opened StayRuns

  /** The transaction committed the rule's state at a new instant, or left everything as it was. */
  ghost predicate Outcome(s: Db, rule: Reply, t: Db, ok: bool) {
    match rule
    case Done(u) => ok && t == Tick(u)
    case Refused => !ok && t == s
  }

  // ---- pieces ----

  /** UPDATE bookings: a row that breaks a CHECK constraint makes the statement fail. */
  method UpdateRow(tx: Database, id: BookingId, b: Booking) returns (ok: bool)
    requires id < |tx.bookings|
    modifies tx`bookings
    ensures ok == RowOk(b)
    ensures ok ==> tx.bookings == old(tx.bookings)[id := b]
    ensures !ok ==> tx.bookings == old(tx.bookings)
  {
    ok := RowOk(b);
    if ok {
      tx.bookings := tx.bookings[id := b];
    }
  }

  method GiveRoomsBack(tx: Database, id: BookingId, b: Booking)
    requires id < |tx.bookings|
    modifies tx
    ensures tx.State() == Rules.GiveRoomsBack(old(tx.State()), id, b)
  {
    if InventoryHeld(b) {
      ReleaseBookingInventory(tx, id, b, None);
    } else {
      tx.legs := ReleaseAll(tx.legs, id, tx.now);
    }
  }

  method TakeIfNone(tx: Database, b: Booking) returns (ok: bool)
    modifies tx`calendar, tx`outbox
    ensures ok == Rules.TakeIfNone(old(tx.State()), b).Done?
    ensures ok ==> Rules.TakeIfNone(old(tx.State()), b) == Done(tx.State())
  {
    if InventoryHeld(b) {
      return true;
    }
    ok := ReserveBookingInventory(tx, b);
  }

  method ReleaseNoShow(tx: Database, id: BookingId, b: Booking, markedOn: Date)
    requires id < |tx.bookings|
    modifies tx
    ensures tx.State() == Rules.ReleaseNoShow(old(tx.State()), id, b, markedOn)
  {
    var point := NoShowReleaseFrom(b.checkin, b.checkout, markedOn);
    if point.Some? {
      ReleaseBookingInventory(tx, id, b, point);
    }
    if b.ota {
      EnqueueOutbox(tx, NoShowNotice(id));
    }
  }

  // ---- transitions ----

  datatype Transition =
    | Approve
    | Reject
    | Cancel
    | MarkNoShow(markedOn: Date)
    | CheckIn(ready: bool, seating: Rules.Seating)
    | CheckOut(operating: Date, settled: bool)

  function Rule(s: Db, id: BookingId, kind: Transition): Reply {
    match kind
    case Approve => Rules.Approve(s, id)
    case Reject => Rules.Reject(s, id)
    case Cancel => Rules.Cancel(s, id)
    case MarkNoShow(markedOn) => Rules.MarkNoShow(s, id, markedOn)
    case CheckIn(ready, seating) => Rules.CheckIn(s, id, ready, seating)
    case CheckOut(operating, settled) => Rules.CheckOut(s, id, operating, settled)
  }

  predicate MayStart(status: Status, kind: Transition) {
    match kind
    case Approve => status == Pending
    case Reject => status == Pending
    case Cancel => status in {Pending, Approved}
    case MarkNoShow(_) => status == Approved
    case CheckIn(ready, _) => status == Approved && ready
    case CheckOut(_, _) => status == CheckedIn
  }

  /** assignRoomsForCheckIn and assignPreferred: one room after another, each in its own savepoint. */
  method SeatEach(tx: Database, id: BookingId, picks: seq<Rules.Pick>)
    modifies tx`legs
    ensures tx.legs == Rules.SeatEach(old(tx.legs), id, picks)
  {
    for i := 0 to |picks|
      invariant tx.legs == Rules.SeatEach(old(tx.legs), id, picks[..i])
    {
      assert picks[..i + 1][..i] == picks[..i];
      var p := picks[i];
      if p.leg in tx.legs && Live(tx.legs[p.leg], id) && tx.legs[p.leg].unit == None {
        var row := tx.legs[p.leg].(unit := Some(p.unit));
        if Fits(tx.legs, row, p.leg) {
          tx.legs := tx.legs[p.leg := row];
        }
      }
    }
    assert picks[..|picks|] == picks;
  }

  method MoveInventory(tx: Database, id: BookingId, b: Booking, kind: Transition) returns (ok: bool)
    requires id < |tx.bookings|
    modifies tx
    ensures match kind {
              case Approve =>
                ok == Rules.TakeIfNone(old(tx.State()), b).Done?
                && (ok ==> Rules.TakeIfNone(old(tx.State()), b) == Done(tx.State()))
              case Reject => ok && tx.State() == Rules.GiveRoomsBack(old(tx.State()), id, b)
              case Cancel => ok && tx.State() == Rules.GiveRoomsBack(old(tx.State()), id, b)
              case MarkNoShow(markedOn) => ok && tx.State() == Rules.ReleaseNoShow(old(tx.State()), id, b, markedOn)
              case CheckIn(_, seating) =>
                var legs := Rules.SeatedFor(old(tx.legs), id, seating);
                ok == (seating.Unnumbered? || Rules.AllSeated(legs, id)) && tx.State() == old(tx.State()).(legs := legs)
              case CheckOut(_, _) => ok && tx.State() == old(tx.State())
            }
  {
    ok := true;
    match kind
    case Approve => ok := TakeIfNone(tx, b);
    case Reject => GiveRoomsBack(tx, id, b);
    case Cancel => GiveRoomsBack(tx, id, b);
    case MarkNoShow(markedOn) => ReleaseNoShow(tx, id, b, markedOn);
    case CheckIn(_, seating) =>
      if seating.Picked? {
        SeatEach(tx, id, seating.picks);
        ok := Rules.AllSeated(tx.legs, id);
      }
    case CheckOut(_, _) =>
  }

  /** The columns the transition sets on the row. */
  function Updated(b: Booking, kind: Transition): Booking {
    match kind
    case Approve =>
      var next := Rules.KindAfterApproval(b.kind, b.holdUntil.Some?);
      b.(status := Approved, kind := next, holdUntil := if next == Confirm then None else b.holdUntil)
    case Reject => b.(status := Rejected)
    case Cancel => b.(status := Cancelled)
    case MarkNoShow(_) => b.(status := NoShow)
    case CheckIn(_, _) =>
      if b.kind == HoldConfirm
      then b.(status := CheckedIn, kind := Confirm, holdUntil := None)
      else b.(status := CheckedIn)
    case CheckOut(_, _) => b.(status := CheckedOut)
  }

  /** The rooms, then the row, then, for a guest who leaves early, the nights not slept. */
  method CarryOut(tx: Database, id: BookingId, kind: Transition) returns (ok: bool)
    requires id < |tx.bookings| && MayStart(tx.bookings[id].status, kind)
    modifies tx
    ensures ok == Rule(old(tx.State()), id, kind).Done?
    ensures ok ==> Rule(old(tx.State()), id, kind) == Done(tx.State())
  {
    var b := tx.bookings[id];
    ok := MoveInventory(tx, id, b, kind);
    if ok {
      ok := UpdateRow(tx, id, Updated(tx.bookings[id], kind));
    }
    if ok && kind.CheckOut? {
      if kind.operating < b.checkout {
        ReleaseBookingInventory(tx, id, b, Some(kind.operating));
      }
      ok := kind.settled;
    }
  }

  lemma {:induction false} RefusedStart(s: Db, id: BookingId, kind: Transition)
    requires id >= |s.bookings| || !MayStart(s.bookings[id].status, kind)
    ensures Rule(s, id, kind).Refused?
  {
  }

  method TransitionWithin(tx: Database, id: BookingId, kind: Transition) returns (ok: bool)
    modifies tx
    ensures Outcome(old(tx.State()), Rule(old(tx.State()), id, kind), tx.State(), ok)
  {
    var saved := tx.State();
    if id >= |tx.bookings| || !MayStart(tx.bookings[id].status, kind) {
      RefusedStart(tx.State(), id, kind);
      return false;
    }
    ok := CarryOut(tx, id, kind);
    if !ok {
      tx.Rollback(saved);
      return;
    }
    tx.Commit();
  }

  // ---- a clean room instead ----

  /** switchToCleanRooms: the dirty rooms are given up, others picked, and the rooms of tonight looked at. */
  method SwitchRooms(tx: Database, id: BookingId, today: Date, dirty: set<UnitId>, seating: Rules.Seating)
      returns (ok: bool)
    modifies tx
    ensures Outcome(old(tx.State()), Rules.SwitchRooms(old(tx.State()), id, today, dirty, seating), tx.State(), ok)
  {
    var saved := tx.State();
    if id >= |tx.bookings| || tx.bookings[id].status != Approved {
      return false;
    }
    if exists i :: i in tx.legs && Rules.InDirty(tx.legs[i], id, dirty) {
      tx.legs := Rules.OutOfDirty(tx.legs, id, dirty);
      if seating.Picked? {
        SeatEach(tx, id, seating.picks);
      }
      if !Rules.CleanTonight(tx.legs, id, today, dirty) {
        tx.Rollback(saved);
        return false;
      }
    }
    tx.Commit();
    return true;
  }

  // ---- a new booking ----

  /** create and createWithin: kind Confirm is an automatic approval, HoldUnconfirm a walk-in. */
  method Create(tx: Database, kind: Kind, checkin: Date, checkout: Date, rooms: int,
                holdUntil: Option<int>, ota: bool, prices: seq<Night>) returns (ok: bool)
    modifies tx
    ensures Outcome(old(tx.State()),
              Rules.Open(old(tx.State()), kind, checkin, checkout, rooms, holdUntil, ota, prices), tx.State(), ok)
  {
    var saved := tx.State();
    if checkin >= checkout || rooms < 1 || |prices| != checkout - checkin {
      return false;
    }
    ok := true;
    if Rules.HoldsInventory(kind) {
      ok := ReserveNights(tx, checkin, checkout, rooms);
    }
    var nights := Rules.Priced(checkin, prices);
    var totals := TotalsFromNights(nights, rooms);
    var b := Booking(checkin, checkout, rooms, Rules.InitialStatus(kind), kind, holdUntil, None, false, ota, totals,
        nights, []);
    if !ok || !RowOk(b) {
      tx.Rollback(saved);
      return false;
    }
    tx.legs := RoomLegs.Create(tx.legs, |tx.bookings|, rooms, checkin, checkout, tx.nextLeg);
    tx.bookings := tx.bookings + [b];
    tx.nextLeg := tx.nextLeg + rooms;
    tx.Commit();
  }

  // ---- undoing ----

  method UndoCheckIn(tx: Database, id: BookingId, allowed: bool) returns (ok: bool)
    modifies tx
    ensures Outcome(old(tx.State()), Rules.UndoCheckIn(old(tx.State()), id, allowed), tx.State(), ok)
  {
    if id >= |tx.bookings| || tx.bookings[id].status != CheckedIn || !allowed {
      return false;
    }
    ok := UpdateRow(tx, id, tx.bookings[id].(status := Approved));
    if ok {
      tx.Commit();
    }
  }

  /** What putting segments back in their rooms relies on; it is so in every reachable state. */
  ghost predicate Orderly(s: Db) {
    && NoDoubleBooking(s.legs)
    && forall i :: i in s.legs ==>
         i < s.nextLeg && s.legs[i].booking < |s.bookings| && s.legs[i].checkin < s.legs[i].checkout
  }

  lemma {:induction false} ReachableIsOrderly(s: Db, opening: Calendar)
    requires Sound(opening) && Reachable(s, opening)
    ensures Orderly(s)
  {
    ReachableInv(s, opening);
  }

  method TakeBackReleasedStay(tx: Database, id: BookingId, b: Booking) returns (ok: bool, ghost keep: set<LegId>)
    requires id < |tx.bookings| && Orderly(tx.State())
    modifies tx
    ensures ok ==> Rules.TakeBackReleasedStay(old(tx.State()), id, b, keep) == Done(tx.State())
    ensures !ok ==> forall kept :: Rules.TakeBackReleasedStay(old(tx.State()), id, b, kept).Refused?
  {
    keep := {};
    var unassigned: nat;
    if b.releasedFrom.Some? {
      ok, unassigned, keep := ReclaimReleasedNights(tx, id, b);
    } else if HasLive(tx.legs, id) {
      ok := true;
    } else {
      ok := ReserveBookingInventory(tx, b);
      if ok {
        unassigned, keep := RestoreReleasedLegs(tx, id);
      }
    }
  }

  method UndoCheckOut(tx: Database, id: BookingId, allowed: bool) returns (ok: bool, ghost keep: set<LegId>)
    requires Orderly(tx.State())
    modifies tx
    ensures ok ==> Outcome(old(tx.State()), Rules.UndoCheckOut(old(tx.State()), id, allowed, keep), tx.State(), true)
    ensures !ok ==> tx.State() == old(tx.State()) && forall kept ::
              Rules.UndoCheckOut(old(tx.State()), id, allowed, kept).Refused?
  {
    var saved := tx.State();
    keep := {};
    if id >= |tx.bookings| || tx.bookings[id].status != CheckedOut || !allowed {
      return false, keep;
    }
    ok, keep := TakeBackReleasedStay(tx, id, tx.bookings[id]);
    if ok {
      ok := UpdateRow(tx, id, tx.bookings[id].(status := CheckedIn));
    }
    if !ok {
      tx.Rollback(saved);
      return;
    }
    tx.Commit();
  }

  method TakeAgain(tx: Database, id: BookingId, b: Booking, wasCancelled: bool)
      returns (ok: bool, ghost keep: set<LegId>)
    requires id < |tx.bookings| && Orderly(tx.State())
    modifies tx
    ensures ok && !wasCancelled ==> Reclaim(old(tx.State()), id, b, keep) == Done(tx.State())
    ensures ok && wasCancelled ==>
              var row := old(tx.bookings[id]);
              var taken := if InventoryHeld(row) then Rules.TakeRooms(old(tx.State()), row) else Done(old(tx.State()));
              taken.Done? && RestoreLegs(taken.db, id, keep) == Done(tx.State())
    ensures !ok && !wasCancelled ==> forall kept :: Reclaim(old(tx.State()), id, b, kept).Refused?
    ensures !ok && wasCancelled ==>
              InventoryHeld(old(tx.bookings[id])) && Rules.TakeRooms(old(tx.State()), old(tx.bookings[id])).Refused?
  {
    keep, ok := {}, true;
    var unassigned: nat;
    if wasCancelled {
      if InventoryHeld(tx.bookings[id]) {
        ok := ReserveBookingInventory(tx, tx.bookings[id]);
      }
      if ok {
        unassigned, keep := RestoreReleasedLegs(tx, id);
      }
    } else {
      ok, unassigned, keep := ReclaimReleasedNights(tx, id, b);
    }
  }

  method Reinstate(tx: Database, id: BookingId, today: Date) returns (ok: bool, ghost keep: set<LegId>)
    requires Orderly(tx.State())
    modifies tx
    ensures ok ==> Outcome(old(tx.State()), Rules.Reinstate(old(tx.State()), id, today, keep), tx.State(), true)
    ensures !ok ==> tx.State() == old(tx.State()) && forall kept ::
              Rules.Reinstate(old(tx.State()), id, today, kept).Refused?
  {
    var saved := tx.State();
    keep := {};
    if id >= |tx.bookings| || tx.bookings[id].checkout <= today {
      return false, keep;
    }
    var b := tx.bookings[id];
    if b.status == Cancelled {
      if b.voided {
        return false, keep;
      }
    } else if b.status != NoShow {
      return false, keep;
    }
    ok := UpdateRow(tx, id, b.(status := Approved));
    if ok {
      ok, keep := TakeAgain(tx, id, b, b.status == Cancelled);
    }
    if !ok {
      tx.Rollback(saved);
      return;
    }
    tx.Commit();
  }

  method Void(tx: Database, id: BookingId, allowed: bool) returns (ok: bool)
    modifies tx
    ensures Outcome(old(tx.State()), Rules.Void(old(tx.State()), id, allowed), tx.State(), ok)
  {
    var saved := tx.State();
    if id >= |tx.bookings| || tx.bookings[id].voided || tx.bookings[id].status !in {Pending, Approved} || !allowed {
      return false;
    }
    GiveRoomsBack(tx, id, tx.bookings[id]);
    ok := UpdateRow(tx, id, tx.bookings[id].(status := Cancelled, voided := true));
    if !ok {
      tx.Rollback(saved);
      return;
    }
    tx.Commit();
  }

  // ---- holds and sweeps ----

  method ConfirmWithin(tx: Database, id: BookingId, picks: seq<Rules.Pick>) returns (ok: bool)
    modifies tx
    ensures Outcome(old(tx.State()), Rules.ConfirmBooking(old(tx.State()), id, picks), tx.State(), ok)
  {
    var saved := tx.State();
    if id >= |tx.bookings| || tx.bookings[id].status !in {Pending, Approved} || tx.bookings[id].kind == Confirm {
      return false;
    }
    var b := tx.bookings[id];
    ok := TakeIfNone(tx, b);
    if ok {
      ok := UpdateRow(tx, id, b.(kind := Confirm, status := Approved, holdUntil := None));
    }
    if ok && !InventoryHeld(b) {
      SeatEach(tx, id, picks);
    }
    if !ok {
      tx.Rollback(saved);
      return;
    }
    tx.Commit();
  }

  method Hold(tx: Database, id: BookingId, requested: Option<Kind>, until: Option<int>, picks: seq<Rules.Pick>)
      returns (ok: bool)
    modifies tx
    ensures Outcome(old(tx.State()), Rules.Hold(old(tx.State()), id, requested, until, picks), tx.State(), ok)
  {
    var saved := tx.State();
    if id >= |tx.bookings| || tx.bookings[id].status !in {Pending, Approved} {
      return false;
    }
    var b := tx.bookings[id];
    var target := Rules.HoldKindFor(b.kind, requested);
    if target == None || target.value !in {HoldConfirm, HoldUnconfirm} {
      return false;
    }
    ok := TakeIfNone(tx, b);
    if ok {
      ok := UpdateRow(tx, id,
          b.(kind := target.value, status := Rules.InitialStatus(target.value), holdUntil := until));
    }
    if ok && !InventoryHeld(b) {
      SeatEach(tx, id, picks);
    }
    if !ok {
      tx.Rollback(saved);
      return;
    }
    tx.Commit();
  }

  method CancelAndRelease(tx: Database, id: BookingId) returns (ok: bool)
    requires id < |tx.bookings|
    modifies tx
    ensures Outcome(old(tx.State()), Rules.CancelAndRelease(old(tx.State()), id), tx.State(), ok)
  {
    var b := tx.bookings[id];
    ok := UpdateRow(tx, id, b.(status := Cancelled));
    if ok {
      ReleaseBookingInventory(tx, id, b, None);
      tx.Commit();
    }
  }

  method ReleaseHold(tx: Database, id: BookingId) returns (ok: bool)
    modifies tx
    ensures Outcome(old(tx.State()), Rules.ReleaseHold(old(tx.State()), id), tx.State(), ok)
  {
    if id >= |tx.bookings| || tx.bookings[id].kind !in {HoldConfirm, HoldUnconfirm}
        || tx.bookings[id].status !in {Pending, Approved} {
      return false;
    }
    ok := CancelAndRelease(tx, id);
  }

  /** The two statements that claim rows: the holds due at a time, and a property's unconfirmed bookings whose
      arrival is before its today. Each passes over the rows another sweeper has locked. */
  datatype Sweep =
    | DueHolds(unlocked: seq<BookingId>, clock: int)
    | Unconfirmed(unlocked: seq<BookingId>, today: Date)

  predicate IsDue(b: Booking, sweep: Sweep) {
    match sweep
    case DueHolds(_, clock) => b.status in {Pending, Approved} && b.holdUntil.Some? && b.holdUntil.value <= clock
    case Unconfirmed(_, today) => b.status == Pending && b.checkin < today
  }

  /** Every id is a row's. */
  predicate Rows(bookings: seq<Booking>, ids: seq<BookingId>) {
    forall i :: 0 <= i < |ids| ==> ids[i] < |bookings|
  }

  predicate Distinct(ids: seq<BookingId>) {
    forall i, j :: 0 <= i < j < |ids| ==> ids[i] != ids[j]
  }

  predicate AllDue(bookings: seq<Booking>, ids: seq<BookingId>, sweep: Sweep) {
    Rows(bookings, ids) && forall i :: 0 <= i < |ids| ==> IsDue(bookings[ids[i]], sweep)
  }

  /** The rows the UPDATE claims: of the unlocked ones, those that are due. */
  function Claimed(bookings: seq<Booking>, unlocked: seq<BookingId>, sweep: Sweep): (ids: seq<BookingId>)
    ensures Distinct(ids) && AllDue(bookings, ids, sweep)
    ensures forall id :: id in ids <==> id in unlocked && id < |bookings| && IsDue(bookings[id], sweep)
  {
    if unlocked == [] then []
    else
      var front, id := unlocked[..|unlocked| - 1], unlocked[|unlocked| - 1];
      assert unlocked == front + [id];
      var rest := Claimed(bookings, front, sweep);
      if id < |bookings| && IsDue(bookings[id], sweep) && id !in rest then rest + [id] else rest
  }

  function AllCancelled(bookings: seq<Booking>, ids: seq<BookingId>): (r: seq<Booking>)
    ensures |r| == |bookings|
  {
    seq(|bookings|, i requires 0 <= i < |bookings| =>
      if i in ids then bookings[i].(status := Cancelled) else bookings[i])
  }

  /** A hold takes rooms, so its rooms go back; an unconfirmed inquiry has none and only its segments are closed. */
  function GivenUp(s: Db, id: BookingId, b: Booking, sweep: Sweep): (t: Db)
    requires id < |s.bookings|
    ensures t.bookings == s.bookings
  {
    if sweep.Unconfirmed? && !Rules.HoldsInventory(b.kind) then s.(legs := ReleaseAll(s.legs, id, s.now))
    else ReleaseInventory(s, id, b, None)
  }

  /** Every claimed stay given up, one after the other, each at a later instant. */
  function AllGiven(s: Db, ids: seq<BookingId>, sweep: Sweep): (t: Db)
    requires Rows(s.bookings, ids)
    ensures t.bookings == s.bookings
  {
    if ids == [] then s
    else
      var id := ids[|ids| - 1];
      Tick(GivenUp(AllGiven(s, ids[..|ids| - 1], sweep), id, s.bookings[id], sweep))
  }

  /** The claimed rows are cancelled in one statement and their stays then given up. */
  function Swept(s: Db, sweep: Sweep): Reply {
    var ids := Claimed(s.bookings, sweep.unlocked, sweep);
    var rows := AllCancelled(s.bookings, ids);
    if forall i :: 0 <= i < |ids| ==> RowOk(rows[ids[i]]) then Done(AllGiven(s.(bookings := rows), ids, sweep))
    else Refused
  }

  /** One sweep after the other, in one transaction. */
  function AllSwept(s: Db, sweeps: seq<Sweep>): Reply {
    if sweeps == [] then Done(s)
    else
      var before := AllSwept(s, sweeps[..|sweeps| - 1]);
      if before.Refused? then Refused else Swept(before.db, sweeps[|sweeps| - 1])
  }

  method ClaimDue(tx: Database, sweep: Sweep) returns (ids: seq<BookingId>)
    ensures ids == Claimed(tx.bookings, sweep.unlocked, sweep)
  {
    ids := [];
    var unlocked := sweep.unlocked;
    for i := 0 to |unlocked|
      invariant ids == Claimed(tx.bookings, unlocked[..i], sweep)
    {
      assert unlocked[..i + 1][..i] == unlocked[..i];
      var id := unlocked[i];
      if id < |tx.bookings| && IsDue(tx.bookings[id], sweep) && id !in ids {
        ids := ids + [id];
      }
    }
    assert unlocked[..|unlocked|] == unlocked;
  }

  method GiveUp(tx: Database, id: BookingId, sweep: Sweep)
    requires id < |tx.bookings|
    modifies tx
    ensures tx.State() == GivenUp(old(tx.State()), id, old(tx.bookings[id]), sweep)
  {
    var b := tx.bookings[id];
    if sweep.Unconfirmed? && !Rules.HoldsInventory(b.kind) {
      tx.legs := ReleaseAll(tx.legs, id, tx.now);
    } else {
      ReleaseBookingInventory(tx, id, b, None);
    }
  }

  method GiveAll(tx: Database, ids: seq<BookingId>, sweep: Sweep)
    requires Rows(tx.bookings, ids)
    modifies tx
    ensures tx.State() == AllGiven(old(tx.State()), ids, sweep)
  {
    for i := 0 to |ids|
      invariant tx.bookings == old(tx.bookings)
      invariant tx.State() == AllGiven(old(tx.State()), ids[..i], sweep)
    {
      assert ids[..i + 1][..i] == ids[..i];
      GiveUp(tx, ids[i], sweep);
      tx.now := tx.now + 1;
    }
    assert ids[..|ids|] == ids;
  }

  /** releaseDueHolds, or expireUnconfirmed for one property. */
  method SweepRows(tx: Database, sweep: Sweep) returns (ok: bool, released: seq<BookingId>)
    modifies tx
    ensures ok == Swept(old(tx.State()), sweep).Done?
    ensures ok ==> Swept(old(tx.State()), sweep) == Done(tx.State())
    ensures ok ==> released == Claimed(old(tx.bookings), sweep.unlocked, sweep)
  {
    var ids := ClaimDue(tx, sweep);
    var rows := AllCancelled(tx.bookings, ids);
    if exists i :: 0 <= i < |ids| && !RowOk(rows[ids[i]]) {
      return false, [];
    }
    tx.bookings := rows;
    GiveAll(tx, ids, sweep);
    return true, ids;
  }

  /** sweepReservationLifecycle: the holds, then each property's unconfirmed bookings, in one transaction. */
  method SweepLifecycle(tx: Database, sweeps: seq<Sweep>) returns (ok: bool)
    modifies tx
    ensures var swept := AllSwept(old(tx.State()), sweeps);
            if ok then swept == Done(tx.State()) else swept.Refused? && tx.State() == old(tx.State())
  {
    var saved := tx.State();
    for i := 0 to |sweeps|
      invariant AllSwept(saved, sweeps[..i]) == Done(tx.State())
    {
      assert sweeps[..i + 1][..i] == sweeps[..i];
      var released: seq<BookingId>;
      ok, released := SweepRows(tx, sweeps[i]);
      if !ok {
        RefusedOnceRefused(saved, sweeps, i + 1);
        tx.Rollback(saved);
        return;
      }
    }
    assert sweeps[..|sweeps|] == sweeps;
    return true;
  }

  lemma {:induction false} RefusedOnceRefused(s: Db, sweeps: seq<Sweep>, n: nat)
    requires n <= |sweeps| && AllSwept(s, sweeps[..n]).Refused?
    ensures AllSwept(s, sweeps).Refused?
    decreases |sweeps|
  {
    if n == |sweeps| {
      assert sweeps[..n] == sweeps;
    } else {
      var front := sweeps[..|sweeps| - 1];
      assert front[..n] == sweeps[..n];
      RefusedOnceRefused(s, front, n);
    }
  }

  /** The rule for one claimed row on its own. */
  function RowRule(s: Db, id: BookingId, sweep: Sweep): Reply {
    match sweep
    case DueHolds(_, clock) => Rules.ReleaseDueHold(s, id, clock)
    case Unconfirmed(_, today) => Rules.ExpireUnconfirmed(s, id, today)
  }

  /** The claimed rows cancelled and given up one at a time. */
  function OneByOne(s: Db, ids: seq<BookingId>, sweep: Sweep): Db {
    if ids == [] then s
    else
      var before := OneByOne(s, ids[..|ids| - 1], sweep);
      match RowRule(before, ids[|ids| - 1], sweep)
      case Done(t) => Tick(t)
      case Refused => before
  }

  /** After a sweep a row is cancelled exactly if it was unlocked and due: a hold whose release time has come, on a
      booking still to come, or a booking still unconfirmed after its arrival day. No other row changes. */
  lemma {:induction false} SweptRow(s: Db, sweep: Sweep, id: BookingId)
    requires Swept(s, sweep).Done? && id < |s.bookings|
    ensures |Swept(s, sweep).db.bookings| == |s.bookings|
    ensures var b := s.bookings[id];
            var due :=
              if sweep.DueHolds?
              then (b.status == Pending || b.status == Approved)
                   && b.holdUntil.Some? && b.holdUntil.value <= sweep.clock
              else b.status == Pending && b.checkin < sweep.today;
            Swept(s, sweep).db.bookings[id] ==
              if id in sweep.unlocked && due then b.(status := Cancelled) else b
  {
  }

  /** Giving stays up reads of the rows only those it gives up. */
  lemma {:induction false} AllGivenReads(s: Db, t: Db, ids: seq<BookingId>, sweep: Sweep)
    requires t == s.(bookings := t.bookings) && |t.bookings| == |s.bookings| && Rows(s.bookings, ids)
    requires forall i :: 0 <= i < |ids| ==> t.bookings[ids[i]] == s.bookings[ids[i]]
    ensures AllGiven(t, ids, sweep) == AllGiven(s, ids, sweep).(bookings := t.bookings)
  {
    if ids == [] {
    } else {
      AllGivenReads(s, t, ids[..|ids| - 1], sweep);
    }
  }

  /** Giving a due row up reads nothing of it but its stay and its kind. */
  lemma {:induction false} DueRowGivesUp(s: Db, id: BookingId, sweep: Sweep, rows: seq<Booking>)
    requires id < |s.bookings| && IsDue(s.bookings[id], sweep) && RowOk(s.bookings[id].(status := Cancelled))
    requires rows == s.bookings[id := s.bookings[id].(status := Cancelled)]
    ensures RowRule(s, id, sweep) == Done(GivenUp(s.(bookings := rows), id, rows[id], sweep))
  {
  }

  lemma {:induction false} CancelledOneMore(rows: seq<Booking>, ids: seq<BookingId>)
    requires ids != [] && Rows(rows, ids) && Distinct(ids)
    ensures var front, id := ids[..|ids| - 1], ids[|ids| - 1];
            AllCancelled(rows, front)[id] == rows[id]
            && AllCancelled(rows, ids) == AllCancelled(rows, front)[id := rows[id].(status := Cancelled)]
  {
    var front, id := ids[..|ids| - 1], ids[|ids| - 1];
    assert ids == front + [id] && id !in front;
    assert forall i :: i in ids <==> i in front || i == id;
  }

  /** The one statement and the releases after it amount to cancelling and giving up the rows one at a time. */
  lemma {:induction false} SweepIsOneByOne(s: Db, ids: seq<BookingId>, sweep: Sweep)
    requires Distinct(ids) && AllDue(s.bookings, ids, sweep)
    requires forall i :: 0 <= i < |ids| ==> RowOk(s.bookings[ids[i]].(status := Cancelled))
    ensures OneByOne(s, ids, sweep) == AllGiven(s.(bookings := AllCancelled(s.bookings, ids)), ids, sweep)
  {
    if ids == [] {
      assert AllCancelled(s.bookings, ids) == s.bookings;
    } else {
      var front, id := ids[..|ids| - 1], ids[|ids| - 1];
      var some, all := AllCancelled(s.bookings, front), AllCancelled(s.bookings, ids);
      SweepIsOneByOne(s, front, sweep);
      CancelledOneMore(s.bookings, ids);
      AllGivenReads(s.(bookings := some), s.(bookings := all), front, sweep);
      DueRowGivesUp(AllGiven(s.(bookings := some), front, sweep), id, sweep, all);
    }
  }

  lemma {:induction false} OneByOneKeeps(s: Db, opening: Calendar, tiled: bool, ids: seq<BookingId>, sweep: Sweep)
    requires Inv(s, opening, tiled)
    ensures Inv(OneByOne(s, ids, sweep), opening, tiled)
  {
    if ids == [] {
    } else {
      var before, id := OneByOne(s, ids[..|ids| - 1], sweep), ids[|ids| - 1];
      OneByOneKeeps(s, opening, tiled, ids[..|ids| - 1], sweep);
      if RowRule(before, id, sweep).Refused? {
      } else if sweep.DueHolds? {
        ReleaseDueHoldKeeps(before, opening, tiled, id, sweep.clock);
      } else {
        ExpireKeeps(before, opening, tiled, id, sweep.today);
      }
    }
  }

  /** A due row's kind and status let it be cancelled. */
  lemma {:induction false} DueRowsCancel(s: Db, opening: Calendar, tiled: bool, id: BookingId, sweep: Sweep)
    requires Inv(s, opening, tiled) && id < |s.bookings| && IsDue(s.bookings[id], sweep)
    ensures RowOk(s.bookings[id].(status := Cancelled))
  {
    assert BookingOk(s, id, tiled);
  }

  /** A sweep always goes through in a sound house, and keeps every invariant. */
  lemma {:induction false} SweptKeeps(s: Db, opening: Calendar, tiled: bool, sweep: Sweep)
    requires Inv(s, opening, tiled)
    ensures Swept(s, sweep).Done? && Inv(Swept(s, sweep).db, opening, tiled)
  {
    var ids := Claimed(s.bookings, sweep.unlocked, sweep);
    forall i | 0 <= i < |ids| ensures RowOk(s.bookings[ids[i]].(status := Cancelled)) {
      DueRowsCancel(s, opening, tiled, ids[i], sweep);
    }
    SweepIsOneByOne(s, ids, sweep);
    OneByOneKeeps(s, opening, tiled, ids, sweep);
  }

  /** So does the whole lifecycle sweep, which therefore never rolls back. */
  lemma {:induction false} LifecycleSweepKeeps(s: Db, opening: Calendar, tiled: bool, sweeps: seq<Sweep>)
    requires Inv(s, opening, tiled)
    ensures AllSwept(s, sweeps).Done? && Inv(AllSwept(s, sweeps).db, opening, tiled)
  {
    if sweeps == [] {
    } else {
      var front := sweeps[..|sweeps| - 1];
      LifecycleSweepKeeps(s, opening, tiled, front);
      SweptKeeps(AllSwept(s, front).db, opening, tiled, sweeps[|sweeps| - 1]);
    }
  }

  // ---- moving a departure ----

  /** The table with some rows replaced. */
  function Overlay(legs: Legs, rows: Legs): Legs {
    map i | i in legs :: if i in rows then rows[i] else legs[i]
  }

  /** Whatever clashes with a row as it was clashes with it as it will be. */
  ghost predicate Grows(legs: Legs, rows: Legs) {
    && rows.Keys <= legs.Keys && NoDoubleBooking(legs)
    && forall i, l: Leg {:trigger Clash(l, rows[i])} {:trigger Clash(l, legs[i])} ::
         i in rows && Clash(l, legs[i]) ==> Clash(l, rows[i])
  }

  /** A row that does not fit half way through does not fit at the end either. */
  lemma {:induction false} NeverFits(was: Legs, now: Legs, rows: Legs, todo: set<LegId>, i: LegId)
    requires Grows(was, rows) && i in rows && now.Keys == was.Keys
    requires forall j :: j in was ==> now[j] == if j in rows && j !in todo then rows[j] else was[j]
    requires !Fits(now, rows[i], i)
    ensures !NoDoubleBooking(Overlay(was, rows))
  {
    var k :| k in now && k != i && Clash(rows[i], now[k]);
    var all := Overlay(was, rows);
    assert k in rows && Clash(rows[i], was[k]) ==> Clash(rows[i], rows[k]);
    assert Clash(all[i], all[k]);
  }

  /** Write the rows one by one; the first exclusion violation refuses them all. */
  method PlaceAll(tx: Database, rows: Legs) returns (ok: bool)
    requires Grows(tx.legs, rows)
    modifies tx`legs
    ensures ok == NoDoubleBooking(Overlay(old(tx.legs), rows))
    ensures ok ==> tx.legs == Overlay(old(tx.legs), rows)
  {
    ghost var was := tx.legs;
    var todo := rows.Keys;
    while todo != {}
      invariant todo <= rows.Keys && tx.legs.Keys == was.Keys
      invariant forall j :: j in was ==> tx.legs[j] == if j in rows && j !in todo then rows[j] else was[j]
      invariant NoDoubleBooking(tx.legs)
    {
      var i :| i in todo;
      if !Fits(tx.legs, rows[i], i) {
        NeverFits(was, tx.legs, rows, todo, i);
        return false;
      }
      ReplaceOne(tx.legs, i, rows[i]);
      tx.legs := tx.legs[i := rows[i]];
      todo := todo - {i};
    }
    assert tx.legs == Overlay(was, rows);
    return true;
  }

  lemma {:induction false} StretchingGrows(legs: Legs, id: BookingId, end: Date, later: Date)
    requires NoDoubleBooking(legs) && end <= later
    ensures Grows(legs, Shortened(legs, id, end, later))
    ensures Overlay(legs, Shortened(legs, id, end, later)) == Stretch(legs, id, end, later, legs.Keys)
  {
  }

  method Extend(tx: Database, id: BookingId, b: Booking, later: Date, prices: seq<Night>) returns (ok: bool)
    requires id < |tx.bookings| && NoDoubleBooking(tx.legs) && b.checkout < later
    modifies tx
    ensures ok == Rules.Extend(old(tx.State()), id, b, later, prices).Done?
    ensures ok ==> Rules.Extend(old(tx.State()), id, b, later, prices) == Done(tx.State())
  {
    if |prices| != later - b.checkout {
      return false;
    }
    ok := ReserveNights(tx, b.checkout, later, b.rooms);
    if !ok {
      return;
    }
    StretchingGrows(tx.legs, id, b.checkout, later);
    ok := PlaceAll(tx, Shortened(tx.legs, id, b.checkout, later));
    if !ok {
      return;
    }
    var nights := b.nights + Rules.Priced(b.checkout, prices);
    var totals := TotalsFromNights(nights, b.rooms);
    ok := UpdateRow(tx, id, b.(checkout := later, nights := nights, totals := totals));
  }

  method Shorten(tx: Database, id: BookingId, b: Booking, sooner: Date) returns (ok: bool)
    requires id < |tx.bookings|
    modifies tx
    ensures ok == Rules.Shorten(old(tx.State()), id, b, sooner).Done?
    ensures ok ==> Rules.Shorten(old(tx.State()), id, b, sooner) == Done(tx.State())
  {
    ReleaseNights(tx, sooner, b.checkout, b.rooms);
    tx.legs := CutAt(tx.legs, id, sooner, tx.now);
    var nights := Rules.Without(b.nights, sooner, b.checkout);
    var totals := TotalsFromNights(nights, b.rooms);
    ok := UpdateRow(tx, id, b.(checkout := sooner, nights := nights, totals := totals,
                               charges := VoidFrom(b.charges, sooner, b.checkout)));
  }

  method ChangeDeparture(tx: Database, id: BookingId, departure: Date, today: Date, prices: seq<Night>)
      returns (ok: bool)
    requires Orderly(tx.State())
    modifies tx
    ensures Outcome(old(tx.State()), Rules.ChangeDeparture(old(tx.State()), id, departure, today, prices), tx.State(),
              ok)
  {
    var saved := tx.State();
    if id >= |tx.bookings| || tx.bookings[id].status != CheckedIn {
      return false;
    }
    var b := tx.bookings[id];
    if departure == b.checkout || departure < today || departure <= b.checkin {
      return false;
    }
    if departure > b.checkout {
      ok := Extend(tx, id, b, departure, prices);
    } else {
      ok := Shorten(tx, id, b, departure);
    }
    if !ok {
      tx.Rollback(saved);
      return;
    }
    tx.Commit();
  }

  // ---- amending a stay ----

  /** The reshaped segments before their rooms are put back: the booking's live ones have none. */
  function Unassigned(legs: Legs, id: BookingId): Legs {
    map i | i in legs :: if Live(legs[i], id) then legs[i].(unit := None) else legs[i]
  }

  lemma {:induction false} UnassignedKeys(legs: Legs, id: BookingId)
    ensures KeysUnique(Unassigned(legs, id)) <==> KeysUnique(legs)
  {
    var bare := Unassigned(legs, id);
    if KeysUnique(legs) {
      forall i, j | i in bare && j in bare && i != j ensures !SameKey(bare[i], bare[j]) {
        assert !SameKey(legs[i], legs[j]);
      }
    } else {
      var i, j :| i in legs && j in legs && i != j && SameKey(legs[i], legs[j]);
      assert SameKey(bare[i], bare[j]);
    }
  }

  lemma {:induction false} UnassignedNoClash(legs: Legs, id: BookingId, count: nat, p: Rules.Proposal, next: LegId)
    requires NoDoubleBooking(legs) && p.rooms >= 1 && forall i :: i in legs ==> i < next
    ensures NoDoubleBooking(Unassigned(Reshape(legs, id, count, p.rooms, p.checkin, p.checkout, next), id))
  {
    var whole := Reshape(legs, id, count, p.rooms, p.checkin, p.checkout, next);
    var bare := Unassigned(whole, id);
    forall i, j | i in bare && j in bare && i != j ensures !Clash(bare[i], bare[j]) {
      if !Live(whole[i], id) && !Live(whole[j], id) {
        assert !Clash(legs[i], legs[j]);
      }
    }
  }

  function LiveRows(legs: Legs, id: BookingId): Legs {
    map i | i in legs && Live(legs[i], id) :: legs[i]
  }

  lemma {:induction false} ReassigningGrows(whole: Legs, id: BookingId)
    requires NoDoubleBooking(Unassigned(whole, id))
    ensures Grows(Unassigned(whole, id), LiveRows(whole, id))
    ensures Overlay(Unassigned(whole, id), LiveRows(whole, id)) == whole
  {
  }

  /** unassignLegs, resizeLegs, and each room put back in its own savepoint. */
  method ReshapeLegs(tx: Database, id: BookingId, p: Rules.Proposal) returns (ok: bool)
    requires NoDoubleBooking(tx.legs) && p.rooms >= 1 && forall i :: i in tx.legs ==> i < tx.nextLeg
    modifies tx`legs
    ensures var whole :=
              Reshape(old(tx.legs), id, |LiveIds(old(tx.legs), id)|, p.rooms, p.checkin, p.checkout, tx.nextLeg);
            ok == (NoDoubleBooking(whole) && KeysUnique(whole)) && (ok ==> tx.legs == whole)
  {
    var whole := Reshape(tx.legs, id, |LiveIds(tx.legs, id)|, p.rooms, p.checkin, p.checkout, tx.nextLeg);
    UnassignedKeys(whole, id);
    UnassignedNoClash(tx.legs, id, |LiveIds(tx.legs, id)|, p, tx.nextLeg);
    ReassigningGrows(whole, id);
    tx.legs := Unassigned(whole, id);
    if !KeysUnique(tx.legs) {
      return false;
    }
    ok := PlaceAll(tx, LiveRows(whole, id));
  }

  /** The one live segment of an in-house stay runs to the new departure, unless its room is taken. */
  method RunOn(tx: Database, id: BookingId, later: Date) returns (ok: bool)
    requires |LiveIds(tx.legs, id)| == 1 && NoDoubleBooking(tx.legs)
    modifies tx`legs
    ensures ok == NoDoubleBooking(Rules.RunTo(old(tx.legs), id, later))
    ensures ok ==> tx.legs == Rules.RunTo(old(tx.legs), id, later)
  {
    var i :| i in LiveIds(tx.legs, id);
    var row := tx.legs[i].(checkout := later);
    OnlyLive(tx.legs, id, i);
    assert Rules.RunTo(tx.legs, id, later) == tx.legs[i := row];
    ok := Fits(tx.legs, row, i);
    if ok {
      ReplaceOne(tx.legs, i, row);
      tx.legs := tx.legs[i := row];
    } else {
      ghost var next := tx.legs[i := row];
      ghost var j :| j in tx.legs && j != i && Clash(row, tx.legs[j]);
      assert Clash(next[i], next[j]);
    }
  }

  method SwapInventory(tx: Database, b: Booking, p: Rules.Proposal) returns (ok: bool)
    modifies tx`calendar
    ensures ok == Rules.Swap(old(tx.calendar), b, p).Some?
    ensures ok ==> Rules.Swap(old(tx.calendar), b, p) == Some(tx.calendar)
  {
    var was := StayNights(b.checkin, b.checkout);
    var will := StayNights(p.checkin, p.checkout);
    GivesEachNightOnce(tx.calendar, b.checkin, b.checkout, b.rooms);
    ReleaseStay(tx, was, b.rooms);
    TakesAllOrNothing(tx.calendar, p.checkin, p.checkout, p.rooms);
    var full := ReserveStay(tx, will, p.rooms);
    ok := full == None;
  }

  method AmendLegs(tx: Database, id: BookingId, p: Rules.Proposal) returns (ok: bool)
    requires id < |tx.bookings| && p.rooms >= 1 && NoDoubleBooking(tx.legs)
    requires forall i :: i in tx.legs ==> i < tx.nextLeg
    requires tx.bookings[id].status == CheckedIn ==> |LiveIds(tx.legs, id)| == 1
    modifies tx`legs
    ensures var legs := Rules.AmendedLegs(old(tx.State()), id, p);
            ok == (NoDoubleBooking(legs) && (tx.bookings[id].status == CheckedIn || KeysUnique(legs)))
            && (ok ==> tx.legs == legs)
  {
    if tx.bookings[id].status == CheckedIn {
      ok := RunOn(tx, id, p.checkout);
    } else {
      ok := ReshapeLegs(tx, id, p);
    }
  }

  /** The stay as amended: the row, its nights at kept or new prices, and its bill reconciled. */
  method AmendedRow(b: Booking, p: Rules.Proposal) returns (row: Booking)
    ensures row == Rules.AmendedRow(b, p)
  {
    var nights := QuoteAmendedNights(b, p.checkin, p.prices);
    var totals := TotalsFromNights(nights, p.rooms);
    var charges := ReconcileCharges(b.charges, p.checkin, nights, p.rooms);
    row := b.(checkin := p.checkin, checkout := p.checkout, rooms := p.rooms, nights := nights,
              totals := totals, charges := charges);
  }

  /** The event, when rooms are held, and the row. */
  method WriteAmendment(tx: Database, id: BookingId, b: Booking, p: Rules.Proposal) returns (ok: bool)
    requires id < |tx.bookings| && p.rooms >= 1
    modifies tx`nextLeg, tx`outbox, tx`bookings
    ensures ok == RowOk(Rules.AmendedRow(b, p))
    ensures tx.nextLeg == old(tx.nextLeg) + p.rooms && tx.outbox == old(tx.outbox) + Rules.AmendEvents(b, p)
    ensures ok ==> tx.bookings == old(tx.bookings)[id := Rules.AmendedRow(b, p)]
  {
    tx.nextLeg := tx.nextLeg + p.rooms;
    if InventoryHeld(b) {
      var was := StayNights(b.checkin, b.checkout);
      var will := StayNights(p.checkin, p.checkout);
      EnqueueOutbox(tx, Amended(was, b.rooms, will, p.rooms));
    }
    var row := AmendedRow(b, p);
    ok := UpdateRow(tx, id, row);
  }

  /** A change of the stay: rooms swapped, segments reshaped, then event, row, nights and bill. */
  method AmendStay(tx: Database, id: BookingId, p: Rules.Proposal) returns (ok: bool)
    requires Orderly(tx.State()) && id < |tx.bookings| && Rules.MayAmend(tx.State(), id, p)
    modifies tx
    ensures ok == Rules.Amend(old(tx.State()), id, p).Done?
    ensures ok ==> Rules.Amend(old(tx.State()), id, p) == Done(tx.State())
  {
    var b := tx.bookings[id];
    ok := true;
    if InventoryHeld(b) {
      ok := SwapInventory(tx, b, p);
    }
    if ok {
      ok := AmendLegs(tx, id, p);
    }
    if ok {
      ok := WriteAmendment(tx, id, b, p);
    }
  }

  method AmendWithin(tx: Database, id: BookingId, p: Rules.Proposal) returns (ok: bool)
    requires Orderly(tx.State())
    modifies tx
    ensures Outcome(old(tx.State()), Rules.Amend(old(tx.State()), id, p), tx.State(), ok)
  {
    var saved := tx.State();
    if id >= |tx.bookings| {
      return false;
    }
    var b := tx.bookings[id];
    if !Rules.StayChanges(b, p) {
      ok := p.details && b.status !in {Rejected, Cancelled, NoShow};
      if ok {
        tx.Commit();
      }
      return;
    }
    if !Rules.MayAmend(tx.State(), id, p) {
      return false;
    }
    ok := AmendStay(tx, id, p);
    if !ok {
      tx.Rollback(saved);
      return;
    }
    tx.Commit();
  }

  // ---- physical rooms and nightly charges ----

  method AssignRoom(tx: Database, leg: LegId, unit: Option<UnitId>, today: Date, usable: bool) returns (ok: bool)
    modifies tx
    ensures Outcome(old(tx.State()), Rules.AssignRoom(old(tx.State()), leg, unit, today, usable), tx.State(), ok)
  {
    if !Rules.Assignable(tx.State(), leg) {
      return false;
    }
    var l := tx.legs[leg];
    var inHouse := tx.bookings[l.booking].status == CheckedIn;
    if inHouse && l.unit.Some? && l.unit != unit {
      return false;
    }
    if unit == None && (inHouse || l.checkin <= today) {
      return false;
    }
    if unit.Some? && !usable {
      return false;
    }
    var legs := tx.legs[leg := l.(unit := unit)];
    if !NoDoubleBooking(legs) {
      return false;
    }
    tx.legs := legs;
    tx.Commit();
    return true;
  }

  method MoveRoom(tx: Database, leg: LegId, target: UnitId, date: Option<Date>, today: Date, allowed: bool)
      returns (ok: bool)
    modifies tx
    ensures Outcome(old(tx.State()), Rules.MoveRoom(old(tx.State()), leg, target, date, today, allowed), tx.State(), ok)
  {
    if !Rules.Assignable(tx.State(), leg) || tx.legs[leg].unit == None || !allowed {
      return false;
    }
    var saved := tx.State();
    var l := tx.legs[leg];
    var inHouse := tx.bookings[l.booking].status == CheckedIn;
    var wholeStay := !inHouse && date == None;
    var effective :=
      if wholeStay then l.checkin
      else if date.Some? then date.value
      else if l.checkin > today then l.checkin
      else today;
    if !wholeStay && (effective < today || effective < l.checkin || effective >= l.checkout) {
      return false;
    }
    if date.Some? && effective > today {
      tx.moves := tx.moves + [Move(l.booking, leg, l.unit.value, target, effective, Planned, None)];
      tx.Commit();
      return true;
    }
    var destination: Option<LegId> := None;
    if effective > l.checkin {
      destination := Some(tx.nextLeg);
      tx.legs := tx.legs[leg := l.(checkout := effective)][tx.nextLeg := Rules.Destination(l, target, effective)];
    } else {
      tx.legs := tx.legs[leg := l.(unit := Some(target))];
    }
    tx.nextLeg := tx.nextLeg + 1;
    if !NoDoubleBooking(tx.legs) || !KeysUnique(tx.legs) {
      tx.Rollback(saved);
      return false;
    }
    tx.moves := tx.moves + [Move(l.booking, leg, l.unit.value, target, effective, Completed, destination)];
    tx.Commit();
    return true;
  }

  /** One due move in its own savepoint. */
  method ApplyPlannedMove(tx: Database, m: nat, date: Date) returns (ok: bool)
    modifies tx
    ensures Outcome(old(tx.State()), Rules.ApplyMove(old(tx.State()), m, date), tx.State(), ok)
  {
    if m >= |tx.moves| || !Rules.Due(tx.State(), m, date) {
      return false;
    }
    var v := tx.moves[m];
    if v.leg !in tx.legs || tx.legs[v.leg].unit != Some(v.source) || tx.legs[v.leg].checkout <= v.effective {
      tx.moves := tx.moves[m := v.(status := Stopped)];
      tx.Commit();
      return true;
    }
    var saved := tx.State();
    var l := tx.legs[v.leg];
    var destination := v.leg;
    if v.effective > l.checkin {
      destination := tx.nextLeg;
      var moved := Rules.Destination(l, v.target, v.effective);
      tx.legs := tx.legs[v.leg := l.(checkout := v.effective)][destination := moved];
      tx.moves := Rules.Retargeted(tx.moves, v, destination);
    } else {
      tx.legs := tx.legs[v.leg := l.(unit := Some(v.target))];
    }
    tx.nextLeg := tx.nextLeg + 1;
    if !NoDoubleBooking(tx.legs) || !KeysUnique(tx.legs) {
      tx.Rollback(saved);
      return false;
    }
    tx.moves := tx.moves[m := v.(status := Completed, destination := Some(destination))];
    tx.Commit();
    return true;
  }

  ghost function MovesSwept(s: Db, due: seq<nat>, date: Date): Db {
    if due == [] then s
    else
      var before := MovesSwept(s, due[..|due| - 1], date);
      match Rules.ApplyMove(before, due[|due| - 1], date)
      case Done(t) => Tick(t)
      case Refused => before
  }

  /** The sweep over the due moves, in whatever order the query gave them. */
  method ApplyPlannedRoomMoves(tx: Database, due: seq<nat>, date: Date)
    modifies tx
    ensures tx.State() == MovesSwept(old(tx.State()), due, date)
  {
    for i := 0 to |due|
      invariant tx.State() == MovesSwept(old(tx.State()), due[..i], date)
    {
      assert due[..i + 1][..i] == due[..i];
      var ok := ApplyPlannedMove(tx, due[i], date);
    }
    assert due[..|due|] == due;
  }

  /** In any order, a sweep of moves none of which splits a released segment keeps the tiling; any sweep keeps
      the rest. */
  lemma {:induction false} MovesSweptKeep(s: Db, opening: Calendar, tiled: bool, due: seq<nat>, date: Date)
    requires Inv(s, opening, tiled)
    requires tiled ==> forall k :: 0 <= k < |due| ==>
               var t := MovesSwept(s, due[..k], date); Moves(t, due[k], date) ==> !SplitsReleased(t, due[k])
    ensures Inv(MovesSwept(s, due, date), opening, tiled)
  {
    if due == [] {
    } else {
      var front := due[..|due| - 1];
      forall k | tiled && 0 <= k < |front|
        ensures var t := MovesSwept(s, front[..k], date); Moves(t, front[k], date) ==> !SplitsReleased(t, front[k])
      {
        assert front[..k] == due[..k];
      }
      MovesSweptKeep(s, opening, tiled, front, date);
      var t := MovesSwept(s, front, date);
      var m := due[|due| - 1];
      if Moves(t, m, date) {
        MoveKeepsIff(t, opening, tiled, m, date);
      } else if Rules.ApplyMove(t, m, date).Done? {
        StopKeeps(t, opening, tiled, m, date);
      }
    }
  }

  method PostNight(tx: Database, id: BookingId, date: Date) returns (ok: bool)
    modifies tx
    ensures Outcome(old(tx.State()), Rules.PostNight(old(tx.State()), id, date), tx.State(), ok)
  {
    if id >= |tx.bookings| || tx.bookings[id].status !in {Approved, CheckedIn} {
      return false;
    }
    var b := tx.bookings[id];
    if !(b.checkin <= date < b.checkout) || !InStay(b.checkin, b.nights, date) || Charged(b.charges, date) {
      return false;
    }
    tx.bookings := tx.bookings[id := b.(charges := b.charges + [ChargeFor(b.checkin, b.nights, b.rooms, date)])];
    tx.Commit();
    return true;
  }

  /** postRoomCharges: every night not yet on the bill, for any stay not cancelled or rejected. */
  method PostStay(tx: Database, id: BookingId) returns (ok: bool, posted: nat)
    modifies tx
    ensures Outcome(old(tx.State()), Rules.PostStay(old(tx.State()), id), tx.State(), ok)
    ensures ok ==> |tx.bookings[id].charges| == |old(tx.bookings[id].charges)| + posted
  {
    if id >= |tx.bookings| || tx.bookings[id].status in {Cancelled, Rejected} {
      return false, 0;
    }
    var b := tx.bookings[id];
    var charges: seq<Charge>;
    charges, posted := PostAll(b.charges, b.checkin, b.nights, b.rooms);
    tx.bookings := tx.bookings[id := b.(charges := charges)];
    tx.Commit();
    return true, posted;
  }
}
