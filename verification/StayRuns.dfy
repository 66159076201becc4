/** Whole runs of the stay: what every state the operations can reach from an empty house keeps of rooms,
    of the channel and of bills, and what every safe run keeps of segments. */
module StayRuns {
  import opened Tables
  import opened Wrappers
  import opened Inventory
  import opened RoomLegs
  import opened Lifecycle
  import opened Folio
  import opened BookingRules
  import opened StayInvariant
  import opened StayKeeps
  import opened ChangeKeeps

  datatype Op =
    | OpOpen(kind: Kind, checkin: Date, checkout: Date, rooms: int, holdUntil: Option<int>, ota: bool,
        prices: seq<Night>)
    | OpApprove(id: BookingId)
    | OpReject(id: BookingId)
    | OpCancel(id: BookingId)
    | OpNoShow(id: BookingId, markedOn: Date)
    | OpCheckIn(id: BookingId, ready: bool, seating: Seating)
    | OpCheckOut(id: BookingId, operating: Date, settled: bool)
    | OpUndoCheckIn(id: BookingId, allowed: bool)
    | OpUndoCheckOut(id: BookingId, allowed: bool, keep: set<LegId>)
    | OpReinstate(id: BookingId, today: Date, keep: set<LegId>)
    | OpVoid(id: BookingId, allowed: bool)
    | OpConfirm(id: BookingId, picks: seq<Pick>)
    | OpHold(id: BookingId, requested: Option<Kind>, until: Option<int>, picks: seq<Pick>)
    | OpReleaseHold(id: BookingId)
    | OpReleaseDue(id: BookingId, clock: int)
    | OpExpire(id: BookingId, today: Date)
    | OpDeparture(id: BookingId, departure: Date, today: Date, prices: seq<Night>)
    | OpAmend(id: BookingId, proposal: Proposal)
    | OpAssign(leg: LegId, unit: Option<UnitId>, today: Date, usable: bool)
    | OpMoveRoom(leg: LegId, target: UnitId, effective: Option<Date>, today: Date, allowed: bool)
    | OpMove(m: nat, date: Date)
    | OpSwitch(id: BookingId, today: Date, dirty: set<UnitId>, seating: Seating)
    | OpPost(id: BookingId, date: Date)
    | OpPostStay(id: BookingId)
    | OpVoidCharge(id: BookingId, n: nat)

  ghost function Within(s: Db, op: Op): Reply {
    match op
    case OpOpen(kind, checkin, checkout, rooms, holdUntil, ota, prices) =>
        Open(s, kind, checkin, checkout, rooms, holdUntil, ota, prices)
    case OpApprove(id) => Approve(s, id)
    case OpReject(id) => Reject(s, id)
    case OpCancel(id) => Cancel(s, id)
    case OpNoShow(id, markedOn) => MarkNoShow(s, id, markedOn)
    case OpCheckIn(id, ready, seating) => CheckIn(s, id, ready, seating)
    case OpCheckOut(id, operating, settled) => CheckOut(s, id, operating, settled)
    case OpUndoCheckIn(id, allowed) => UndoCheckIn(s, id, allowed)
    case OpUndoCheckOut(id, allowed, keep) => UndoCheckOut(s, id, allowed, keep)
    case OpReinstate(id, today, keep) => Reinstate(s, id, today, keep)
    case OpVoid(id, allowed) => Void(s, id, allowed)
    case OpConfirm(id, picks) => ConfirmBooking(s, id, picks)
    case OpHold(id, requested, until, picks) => Hold(s, id, requested, until, picks)
    case OpReleaseHold(id) => ReleaseHold(s, id)
    case OpReleaseDue(id, clock) => ReleaseDueHold(s, id, clock)
    case OpExpire(id, today) => ExpireUnconfirmed(s, id, today)
    case OpDeparture(id, departure, today, prices) => ChangeDeparture(s, id, departure, today, prices)
    case OpAmend(id, proposal) => Amend(s, id, proposal)
    case OpAssign(leg, unit, today, usable) => AssignRoom(s, leg, unit, today, usable)
    case OpMoveRoom(leg, target, date, today, allowed) => MoveRoom(s, leg, target, date, today, allowed)
    case OpMove(m, date) => ApplyMove(s, m, date)
    case OpSwitch(id, today, dirty, seating) => SwitchRooms(s, id, today, dirty, seating)
    case OpPost(id, date) => PostNight(s, id, date)
    case OpPostStay(id) => PostStay(s, id)
    case OpVoidCharge(id, n) => VoidCharge(s, id, n)
  }

  /** A transaction commits whole, or rolls back to exactly the state it found. */
  ghost function Step(s: Db, op: Op): Db {
    match Within(s, op)
    case Done(t) => Tick(t)
    case Refused => s
  }

  ghost function Run(s: Db, ops: seq<Op>): Db
    decreases |ops|
  {
    if ops == [] then s else Run(Step(s, ops[0]), ops[1..])
  }

  /** The one guard the code is missing, at the desk and in the sweep: a move does not split a segment
      already released. */
  ghost predicate Safe(s: Db, op: Op) {
    && (op.OpMove? && Moves(s, op.m, op.date) ==> !SplitsReleased(s, op.m))
    && (op.OpMoveRoom? && MovesNow(s, op.leg, op.target, op.effective, op.today, op.allowed) ==>
          !ReleasedSplit(s, op.leg, MoveDate(s, op.leg, op.effective, op.today)))
  }

  ghost predicate SafeRun(s: Db, ops: seq<Op>)
    decreases |ops|
  {
    ops == [] || (Safe(s, ops[0]) && SafeRun(Step(s, ops[0]), ops[1..]))
  }

  /** The transitions of a stay. */
  predicate IsTransition(op: Op) {
    op.OpApprove? || op.OpReject? || op.OpCancel? || op.OpNoShow? || op.OpCheckIn? || op.OpCheckOut?
  }

  /** Taking a transition back. */
  predicate IsUndo(op: Op) {
    op.OpUndoCheckIn? || op.OpUndoCheckOut? || op.OpReinstate? || op.OpVoid?
  }

  /** Holds and the sweeps over bookings. */
  predicate IsHold(op: Op) {
    op.OpConfirm? || op.OpHold? || op.OpReleaseHold? || op.OpReleaseDue? || op.OpExpire?
  }

  predicate IsMove(op: Op) {
    op.OpMove? || op.OpMoveRoom?
  }

  lemma {:induction false} TransitionStepKeeps(s: Db, opening: Calendar, tiled: bool, op: Op)
    requires Inv(s, opening, tiled) && Within(s, op).Done? && IsTransition(op)
    ensures Inv(Step(s, op), opening, tiled)
  {
    match op
    case OpApprove(id) => ApproveKeeps(s, opening, tiled, id);
    case OpReject(id) => RejectKeeps(s, opening, tiled, id);
    case OpCancel(id) => CancelKeeps(s, opening, tiled, id);
    case OpNoShow(id, markedOn) => NoShowKeeps(s, opening, tiled, id, markedOn);
    case OpCheckIn(id, ready, seating) => CheckInKeeps(s, opening, tiled, id, ready, seating);
    case OpCheckOut(id, operating, settled) => CheckOutKeeps(s, opening, tiled, id, operating, settled);
  }

  lemma {:induction false} UndoStepKeeps(s: Db, opening: Calendar, tiled: bool, op: Op)
    requires Inv(s, opening, tiled) && Within(s, op).Done? && IsUndo(op)
    ensures Inv(Step(s, op), opening, tiled)
  {
    match op
    case OpUndoCheckIn(id, allowed) => UndoCheckInKeeps(s, opening, tiled, id, allowed);
    case OpUndoCheckOut(id, allowed, keep) => UndoCheckOutKeeps(s, opening, tiled, id, allowed, keep);
    case OpReinstate(id, today, keep) => ReinstateKeeps(s, opening, tiled, id, today, keep);
    case OpVoid(id, allowed) => VoidKeeps(s, opening, tiled, id, allowed);
  }

  lemma {:induction false} HoldStepKeeps(s: Db, opening: Calendar, tiled: bool, op: Op)
    requires Inv(s, opening, tiled) && Within(s, op).Done? && IsHold(op)
    ensures Inv(Step(s, op), opening, tiled)
  {
    match op
    case OpConfirm(id, picks) => ConfirmKeeps(s, opening, tiled, id, picks);
    case OpHold(id, requested, until, picks) => HoldKeeps(s, opening, tiled, id, requested, until, picks);
    case OpReleaseHold(id) => ReleaseHoldKeeps(s, opening, tiled, id);
    case OpReleaseDue(id, clock) => ReleaseDueHoldKeeps(s, opening, tiled, id, clock);
    case OpExpire(id, today) => ExpireKeeps(s, opening, tiled, id, today);
  }

  lemma {:induction false} ChangeStepKeeps(s: Db, opening: Calendar, tiled: bool, op: Op)
    requires Inv(s, opening, tiled) && Within(s, op).Done?
    requires !IsTransition(op) && !IsUndo(op) && !IsHold(op) && !IsMove(op)
    ensures Inv(Step(s, op), opening, tiled)
  {
    match op
    case OpOpen(kind, checkin, checkout, rooms, holdUntil, ota, prices) =>
      OpenKeeps(s, opening, tiled, kind, checkin, checkout, rooms, holdUntil, ota, prices);
    case OpDeparture(id, departure, today, prices) =>
      ChangeDepartureKeeps(s, opening, tiled, id, departure, today, prices);
    case OpAmend(id, proposal) => AmendKeeps(s, opening, tiled, id, proposal);
    case OpAssign(leg, unit, today, usable) => AssignKeeps(s, opening, tiled, leg, unit, today, usable);
    case OpSwitch(id, today, dirty, seating) => SwitchKeeps(s, opening, tiled, id, today, dirty, seating);
    case OpPost(id, date) => PostKeeps(s, opening, tiled, id, date);
    case OpPostStay(id) => PostStayKeeps(s, opening, tiled, id);
    case OpVoidCharge(id, n) => VoidChargeKeeps(s, opening, tiled, id, n);
  }

  /** Any one transaction keeps the tiling exactly when it is safe; it keeps everything else always. */
  lemma {:induction false} StepKeepsIff(s: Db, opening: Calendar, tiled: bool, op: Op)
    requires Inv(s, opening, tiled)
    ensures Inv(Step(s, op), opening, tiled) <==> (tiled ==> Safe(s, op))
  {
    if Within(s, op).Done? {
      if op.OpMove? {
        if Moves(s, op.m, op.date) {
          MoveKeepsIff(s, opening, tiled, op.m, op.date);
        } else {
          StopKeeps(s, opening, tiled, op.m, op.date);
        }
      } else if op.OpMoveRoom? {
        MoveRoomKeepsIff(s, opening, tiled, op.leg, op.target, op.effective, op.today, op.allowed);
      } else if IsTransition(op) {
        TransitionStepKeeps(s, opening, tiled, op);
      } else if IsUndo(op) {
        UndoStepKeeps(s, opening, tiled, op);
      } else if IsHold(op) {
        HoldStepKeeps(s, opening, tiled, op);
      } else {
        ChangeStepKeeps(s, opening, tiled, op);
      }
    }
  }

  /** Every state of every run keeps rooms, channel and bills; every state of every safe run keeps the
      tiling as well. */
  lemma {:induction false} RunKeeps(s: Db, opening: Calendar, tiled: bool, ops: seq<Op>)
    requires Inv(s, opening, tiled) && (tiled ==> SafeRun(s, ops))
    ensures Inv(Run(s, ops), opening, tiled)
    decreases |ops|
  {
    if ops == [] {
    } else {
      StepKeepsIff(s, opening, tiled, ops[0]);
      RunKeeps(Step(s, ops[0]), opening, tiled, ops[1..]);
    }
  }

  // ---- from an empty house ----

  function Empty(opening: Calendar): Db {
    Db(opening, [], map[], 0, [], [], 0)
  }

  lemma {:induction false} EmptyInv(opening: Calendar, tiled: bool)
    requires Sound(opening)
    ensures Inv(Empty(opening), opening, tiled)
  {
  }

  /** Some run from the empty house, whatever its moves, ends in this state. */
  ghost predicate Reachable(s: Db, opening: Calendar) {
    exists ops: seq<Op> :: s == Run(Empty(opening), ops)
  }

  /** Some run in which every move is safe does. */
  ghost predicate SafelyReachable(s: Db, opening: Calendar) {
    exists ops: seq<Op> :: SafeRun(Empty(opening), ops) && s == Run(Empty(opening), ops)
  }

  lemma {:induction false} ReachableInv(s: Db, opening: Calendar)
    requires Sound(opening) && Reachable(s, opening)
    ensures Inv(s, opening, false)
  {
    var ops: seq<Op> :| s == Run(Empty(opening), ops);
    EmptyInv(opening, false);
    RunKeeps(Empty(opening), opening, false, ops);
  }

  lemma {:induction false} SafelyReachableInv(s: Db, opening: Calendar)
    requires Sound(opening) && SafelyReachable(s, opening)
    ensures Inv(s, opening, true)
  {
    var ops: seq<Op> :| SafeRun(Empty(opening), ops) && s == Run(Empty(opening), ops);
    EmptyInv(opening, true);
    RunKeeps(Empty(opening), opening, true, ops);
  }

  /** Rooms are conserved: on every night of every reachable state, rooms to sell plus rooms held is the
      night's allotment, so stock is never negative and rooms held never exceed the rooms there are. */
  lemma {:induction false} RoomsConserved(s: Db, opening: Calendar, d: Date)
    requires Sound(opening) && Reachable(s, opening)
    ensures d in opening ==> d in s.calendar && s.calendar[d].physical == opening[d].physical
                             && s.calendar[d].toSell + TotalHeld(s, d) == opening[d].toSell
                             && 0 <= s.calendar[d].toSell && 0 <= TotalHeld(s, d) <= opening[d].physical
    ensures d !in opening ==> TotalHeld(s, d) == 0
  {
    ReachableInv(s, opening);
    HeldWithin(s, opening, false, 0, |s.bookings|, d);
  }

  /** Giving back what a booking holds never reaches the cap at the physical quantity. */
  lemma {:induction false} CapNeverFires(s: Db, opening: Calendar, id: BookingId, d: Date)
    requires Sound(opening) && Reachable(s, opening) && id < |s.bookings| && Held(s, id, d) > 0
    ensures d in s.calendar
    ensures Returned(s.calendar[d], Held(s, id, d)).toSell == s.calendar[d].toSell + Held(s, id, d)
  {
    ReachableInv(s, opening);
    HeldWithin(s, opening, false, id, |s.bookings|, d);
  }

  // ---- the channel ----

  /** What the channel does with an event: no cap, no condition. */
  function Apply(c: Calendar, e: Event): Calendar {
    map d | d in c :: c[d].(toSell := c[d].toSell + Effect(e, d))
  }

  function Replay(opening: Calendar, outbox: seq<Event>): Calendar {
    if outbox == [] then opening else Apply(Replay(opening, outbox[..|outbox| - 1]), outbox[|outbox| - 1])
  }

  lemma {:induction false} ReplayIsNet(opening: Calendar, outbox: seq<Event>, d: Date)
    ensures d in opening <==> d in Replay(opening, outbox)
    ensures d in opening ==> Replay(opening, outbox)[d] == opening[d].(toSell := opening[d].toSell + Net(outbox, d))
  {
    if outbox == [] {
    } else {
      ReplayIsNet(opening, outbox[..|outbox| - 1], d);
    }
  }

  /** Replaying the outbox over the opening calendar gives the calendar. */
  lemma {:induction false} OutboxReplays(s: Db, opening: Calendar)
    requires Sound(opening) && Reachable(s, opening)
    ensures Replay(opening, s.outbox) == s.calendar
  {
    ReachableInv(s, opening);
    forall d
      ensures (d in s.calendar <==> d in Replay(opening, s.outbox))
      ensures (d in s.calendar ==> Replay(opening, s.outbox)[d] == s.calendar[d])
    {
      ReplayIsNet(opening, s.outbox, d);
    }
  }

  // ---- segments and bills ----

  /** No physical room is ever given to two segments on one night. */
  lemma {:induction false} NeverDoubleBooked(s: Db, opening: Calendar)
    requires Sound(opening) && Reachable(s, opening)
    ensures NoDoubleBooking(s.legs)
  {
    ReachableInv(s, opening);
  }

  /** Wherever a booking still has live segments they tile the nights it holds, one per room. */
  lemma {:induction false} LiveSegmentsTile(s: Db, opening: Calendar, id: BookingId)
    requires Sound(opening) && SafelyReachable(s, opening) && id < |s.bookings| && HasLive(s.legs, id)
    ensures var b := s.bookings[id]; Tiled(s.legs, id, None, b.rooms, b.checkin, HeldUntil(b))
  {
    SafelyReachableInv(s, opening);
    assert BookingOk(s, id, true);
  }

  /** In any reachable state, posting a stay makes its bill the booking's amount, whatever was on it. */
  lemma {:induction false} PostStayBillsAmount(s: Db, opening: Calendar, id: BookingId)
    requires Sound(opening) && Reachable(s, opening) && id < |s.bookings|
    ensures PostStay(s, id).Done? <==> s.bookings[id].status !in {Cancelled, Rejected}
    ensures PostStay(s, id).Done? ==>
              LiveTotal(PostStay(s, id).db.bookings[id].charges) == s.bookings[id].totals.amount
  {
    var b := s.bookings[id];
    ReachableInv(s, opening);
    RowsSound(s, opening, false, id);
    PostingCompletes(b.charges, b.checkin, b.nights, b.rooms);
  }

  /** A bill with every night posted adds up to the booking's amount. */
  lemma {:induction false} PostedBillIsAmount(s: Db, opening: Calendar, id: BookingId)
    requires Sound(opening) && Reachable(s, opening) && id < |s.bookings|
    requires forall d :: s.bookings[id].checkin <= d < s.bookings[id].checkout ==> Charged(s.bookings[id].charges, d)
    ensures LiveTotal(s.bookings[id].charges) == s.bookings[id].totals.amount
    ensures s.bookings[id].totals.amount == s.bookings[id].rooms * SumSelling(s.bookings[id].nights)
  {
    ReachableInv(s, opening);
    assert BookingOk(s, id, false);
    var b := s.bookings[id];
    FullyPostedIsAmount(b.charges, b.checkin, b.nights, b.rooms);
  }
}
