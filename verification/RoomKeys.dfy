/** The unique key of room segments (booking, position, arrival) holds in every state of every run, the
    operations whose model does not look at it included. */
module RoomKeys {
  import opened Tables
  import opened Wrappers
  import opened Inventory
  import opened RoomLegs
  import opened Lifecycle
  import opened Folio
  import opened BookingRules
  import opened StayInvariant
  import opened StayKeeps
  import opened ChangeKeeps
  import opened StayRuns

  /** No segment is new, and each has the booking, the position and the arrival it had. */
  ghost predicate KeysStand(legs: Legs, next: Legs) {
    next.Keys <= legs.Keys && forall i :: i in next ==> SameKey(next[i], legs[i])
  }

  lemma {:induction false} StandingKeys(legs: Legs, next: Legs)
    requires KeysUnique(legs) && KeysStand(legs, next)
    ensures KeysUnique(next)
  {
    forall i, j | i in next && j in next && i != j ensures !SameKey(next[i], next[j]) {
      assert !SameKey(legs[i], legs[j]) && SameKey(next[i], legs[i]) && SameKey(next[j], legs[j]);
    }
  }

  lemma {:induction false} CreatedKeys(legs: Legs, b: BookingId, rooms: int, lo: Date, hi: Date, next: LegId)
    requires KeysUnique(legs) && forall i :: i in legs ==> legs[i].booking != b
    ensures KeysUnique(Create(legs, b, rooms, lo, hi, next))
  {
    var t := Create(legs, b, rooms, lo, hi, next);
    forall i, j | i in t && j in t && i != j ensures !SameKey(t[i], t[j]) {
      if t[i].booking != b && t[j].booking != b { assert !SameKey(legs[i], legs[j]); }
    }
  }

  /** The operations that neither add segments nor move their arrivals. */
  predicate LeavesKeys(op: Op) {
    !op.OpOpen? && !op.OpAmend? && !op.OpMove? && !op.OpMoveRoom?
  }

  lemma {:induction false} SeatedKeys(legs: Legs, id: BookingId, picks: seq<Pick>)
    ensures KeysStand(legs, SeatEach(legs, id, picks))
  {
    if picks == [] {
    } else {
      SeatedKeys(legs, id, picks[..|picks| - 1]);
    }
  }

  lemma {:induction false} ReleasedKeys(s: Db, id: BookingId, b: Booking, point: Option<Date>)
    requires id < |s.bookings|
    ensures KeysStand(s.legs, ReleaseInventory(s, id, b, point).legs)
  {
  }

  lemma {:induction false} TransitionKeys(s: Db, op: Op)
    requires StayRuns.Within(s, op).Done? && IsTransition(op)
    ensures KeysStand(s.legs, StayRuns.Within(s, op).db.legs)
  {
    match op
    case OpApprove(id) =>
    case OpReject(id) => ReleasedKeys(s, id, s.bookings[id], None);
    case OpCancel(id) => ReleasedKeys(s, id, s.bookings[id], None);
    case OpNoShow(id, markedOn) =>
      var b := s.bookings[id];
      ReleasedKeys(s, id, b, NoShowReleaseFrom(b.checkin, b.checkout, markedOn));
    case OpCheckIn(id, _, seating) => if seating.Picked? { SeatedKeys(s.legs, id, seating.picks); }
    case OpCheckOut(id, operating, _) =>
      var left := SetStatus(s, id, CheckedOut);
      if left.Done? { ReleasedKeys(left.db, id, s.bookings[id], Some(operating)); }
  }

  lemma {:induction false} HoldKeys(s: Db, op: Op)
    requires StayRuns.Within(s, op).Done? && IsHold(op)
    ensures KeysStand(s.legs, StayRuns.Within(s, op).db.legs)
  {
    match op
    case OpConfirm(id, picks) => SeatedKeys(s.legs, id, picks);
    case OpHold(id, _, _, picks) => SeatedKeys(s.legs, id, picks);
    case OpReleaseHold(id) => GivenUpKeys(s, id);
    case OpReleaseDue(id, _) => GivenUpKeys(s, id);
    case OpExpire(id, _) => GivenUpKeys(s, id);
  }

  lemma {:induction false} GivenUpKeys(s: Db, id: BookingId)
    requires id < |s.bookings|
    ensures CancelAndRelease(s, id).Done? ==> KeysStand(s.legs, CancelAndRelease(s, id).db.legs)
  {
    var cancelled := SetStatus(s, id, Cancelled);
    if cancelled.Done? { ReleasedKeys(cancelled.db, id, s.bookings[id], None); }
  }

  lemma {:induction false} UndoKeys(s: Db, op: Op)
    requires StayRuns.Within(s, op).Done? && IsUndo(op)
    ensures KeysStand(s.legs, StayRuns.Within(s, op).db.legs)
  {
    match op
    case OpUndoCheckIn(_, _) =>
    case OpUndoCheckOut(id, _, keep) => TakenBackKeys(s, id, keep);
    case OpReinstate(id, today, keep) => ReinstatedKeys(s, id, today, keep);
    case OpVoid(id, _) => ReleasedKeys(s, id, s.bookings[id], None);
  }

  lemma {:induction false} TakenBackKeys(s: Db, id: BookingId, keep: set<LegId>)
    requires id < |s.bookings|
    ensures var back := TakeBackReleasedStay(s, id, s.bookings[id], keep);
            back.Done? ==> KeysStand(s.legs, back.db.legs)
  {
  }

  lemma {:induction false} ReinstatedKeys(s: Db, id: BookingId, today: Date, keep: set<LegId>)
    requires Reinstate(s, id, today, keep).Done?
    ensures KeysStand(s.legs, Reinstate(s, id, today, keep).db.legs)
  {
  }

  lemma {:induction false} ChangeKeys(s: Db, op: Op)
    requires StayRuns.Within(s, op).Done? && LeavesKeys(op) && !IsTransition(op) && !IsUndo(op) && !IsHold(op)
    ensures KeysStand(s.legs, StayRuns.Within(s, op).db.legs)
  {
    if op.OpSwitch? && op.seating.Picked? { SeatedKeys(OutOfDirty(s.legs, op.id, op.dirty), op.id, op.seating.picks); }
  }

  /** Every operation but those that check the key themselves leaves it standing. */
  lemma {:induction false} OthersKeepKeys(s: Db, op: Op)
    requires StayRuns.Within(s, op).Done? && LeavesKeys(op)
    ensures KeysStand(s.legs, StayRuns.Within(s, op).db.legs)
  {
    if IsTransition(op) {
      TransitionKeys(s, op);
    } else if IsHold(op) {
      HoldKeys(s, op);
    } else if IsUndo(op) {
      UndoKeys(s, op);
    } else {
      ChangeKeys(s, op);
    }
  }

  /** A new booking has no segment yet; amendments and moves are refused by the key. */
  lemma {:induction false} NewKeys(s: Db, op: Op)
    requires LegIds(s) && KeysUnique(s.legs) && StayRuns.Within(s, op).Done? && !LeavesKeys(op)
    ensures KeysUnique(StayRuns.Within(s, op).db.legs)
  {
    match op
    case OpOpen(_, checkin, checkout, rooms, _, _, _) =>
      CreatedKeys(s.legs, |s.bookings|, rooms, checkin, checkout, s.nextLeg);
    case OpAmend(id, _) =>
      if s.bookings[id].status == CheckedIn {
        assert KeysStand(s.legs, Amend(s, id, op.proposal).db.legs);
        StandingKeys(s.legs, Amend(s, id, op.proposal).db.legs);
      }
    case OpMove(_, _) =>
    case OpMoveRoom(_, _, _, _, _) =>
  }

  lemma {:induction false} StepKeepsKeys(s: Db, op: Op)
    requires LegIds(s) && KeysUnique(s.legs)
    ensures KeysUnique(Step(s, op).legs)
  {
    if StayRuns.Within(s, op).Done? {
      if LeavesKeys(op) {
        OthersKeepKeys(s, op);
        StandingKeys(s.legs, Step(s, op).legs);
      } else {
        NewKeys(s, op);
      }
    }
  }

  lemma {:induction false} RunKeepsKeys(s: Db, opening: Calendar, ops: seq<Op>)
    requires Inv(s, opening, false) && KeysUnique(s.legs)
    ensures KeysUnique(Run(s, ops).legs)
    decreases |ops|
  {
    if ops == [] {
    } else {
      StepKeepsKeys(s, ops[0]);
      StepKeepsIff(s, opening, false, ops[0]);
      RunKeepsKeys(Step(s, ops[0]), opening, ops[1..]);
    }
  }

  /** In every reachable state no two segments of a booking share a position and an arrival. */
  lemma {:induction false} ReachableKeys(s: Db, opening: Calendar)
    requires Sound(opening) && Reachable(s, opening)
    ensures KeysUnique(s.legs)
  {
    var ops: seq<Op> :| s == Run(Empty(opening), ops);
    EmptyInv(opening, false);
    RunKeepsKeys(Empty(opening), opening, ops);
  }
}
