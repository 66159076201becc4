/** What every operation of the stay does to the tables, as functions on their values: the lifecycle
    transitions, the undo paths, departures, amendments, sweeps, planned moves and nightly charges.
    An operation that throws, or writes a row a constraint refuses, is Refused: its transaction rolls
    back and nothing changes. BookingService proves its methods equal to these. */
module BookingRules {
  import opened Tables
  import opened Wrappers
  import opened Inventory
  import opened RoomLegs
  import opened Lifecycle
  import opened Folio

  function HoldsInventory(k: Kind): bool {
    k != Inquiry
  }

  function InitialStatus(k: Kind): Status {
    if k in {Confirm, HoldConfirm} then Approved else Pending
  }

  function KindAfterApproval(k: Kind, hasReleaseTime: bool): Kind {
    if k == HoldUnconfirm then (if hasReleaseTime then HoldConfirm else Confirm)
    else if k in {Inquiry, OnlineFailed} then Confirm
    else k
  }

  /** The hold a booking can become: a confirmed booking is never quietly un-confirmed. */
  function HoldKindFor(current: Kind, requested: Option<Kind>): Option<Kind> {
    if current in {Confirm, HoldConfirm}
    then (if requested == Some(HoldUnconfirm) then None else Some(HoldConfirm))
    else if requested.Some? then requested else Some(HoldUnconfirm)
  }

  function Row(s: Db, id: BookingId): Option<Booking> {
    if id < |s.bookings| then Some(s.bookings[id]) else None
  }

  predicate In(s: Db, id: BookingId, statuses: set<Status>) {
    id < |s.bookings| && s.bookings[id].status in statuses
  }

  /** UPDATE bookings: a row that breaks a CHECK constraint is refused. */
  function Write(s: Db, id: BookingId, b: Booking): Reply
    requires id < |s.bookings|
  {
    if RowOk(b) then Done(SetRow(s, id, b)) else Refused
  }

  function Priced(checkin: Date, prices: seq<Night>): seq<Night> {
    seq(|prices|, i requires 0 <= i < |prices| => prices[i].(date := checkin + i))
  }

  // ---- which room a segment gets ----

  /** A room picked for a segment that has none. */
  datatype Pick = Pick(leg: LegId, unit: UnitId)

  /** The rooms picked at check-in, or a room type that has no numbered rooms to give. */
  datatype Seating = Unnumbered | Picked(picks: seq<Pick>)

  /** One pick in its own savepoint: the segment has the room unless the exclusion constraint refuses it. */
  function Seat(legs: Legs, id: BookingId, p: Pick): Legs {
    if p.leg in legs && Live(legs[p.leg], id) && legs[p.leg].unit == None
       && Fits(legs, legs[p.leg].(unit := Some(p.unit)), p.leg)
    then legs[p.leg := legs[p.leg].(unit := Some(p.unit))]
    else legs
  }

  function SeatEach(legs: Legs, id: BookingId, picks: seq<Pick>): Legs {
    if picks == [] then legs else Seat(SeatEach(legs, id, picks[..|picks| - 1]), id, picks[|picks| - 1])
  }

  predicate AllSeated(legs: Legs, id: BookingId) {
    forall i :: i in legs && Live(legs[i], id) ==> legs[i].unit.Some?
  }

  function SeatedFor(legs: Legs, id: BookingId, seating: Seating): Legs {
    if seating.Unnumbered? then legs else SeatEach(legs, id, seating.picks)
  }

  /** Preferred rooms are tried only for a booking that held none until now. */
  function Preferred(legs: Legs, id: BookingId, b: Booking, picks: seq<Pick>): Legs {
    if InventoryHeld(b) then legs else SeatEach(legs, id, picks)
  }

  /** The booking's segments in dirty rooms, taken out of them. */
  function OutOfDirty(legs: Legs, id: BookingId, dirty: set<UnitId>): Legs {
    map i | i in legs :: if InDirty(legs[i], id, dirty) then legs[i].(unit := None) else legs[i]
  }

  predicate InDirty(l: Leg, id: BookingId, dirty: set<UnitId>) {
    Live(l, id) && l.unit.Some? && l.unit.value in dirty
  }

  /** Every room the guest sleeps in on the day is known and not dirty. */
  predicate CleanTonight(legs: Legs, id: BookingId, today: Date, dirty: set<UnitId>) {
    forall i :: i in legs && Live(legs[i], id) && Covers(legs[i], today) ==>
      legs[i].unit.Some? && legs[i].unit.value !in dirty
  }

  /** Swap the dirty rooms of an approved booking for picked ones, or refuse when a dirty or no room is left for
      tonight. With no dirty room there is nothing to do. */
  function SwitchRooms(s: Db, id: BookingId, today: Date, dirty: set<UnitId>, seating: Seating): Reply {
    if !In(s, id, {Approved}) then Refused
    else if forall i :: i in s.legs ==> !InDirty(s.legs[i], id, dirty) then Done(s)
    else
      var legs := SeatedFor(OutOfDirty(s.legs, id, dirty), id, seating);
      if CleanTonight(legs, id, today, dirty) then Done(s.(legs := legs)) else Refused
  }

  // ---- arrival of a booking ----

  /** A new booking of a kind: its rooms are taken if the kind takes rooms, and it gets one segment
      per room and one stored night per date. */
  function Open(s: Db, kind: Kind, checkin: Date, checkout: Date, rooms: int,
                holdUntil: Option<int>, ota: bool, prices: seq<Night>): Reply {
    if checkin >= checkout || rooms < 1 || |prices| != checkout - checkin then Refused
    else
      var nights := Priced(checkin, prices);
      var b := Booking(checkin, checkout, rooms, InitialStatus(kind), kind, holdUntil, None, false, ota,
                       TotalsOf(nights, rooms), nights, []);
      var taken := if HoldsInventory(kind) then ReserveRange(s, checkin, checkout, rooms) else Done(s);
      if taken.Refused? || !RowOk(b) then Refused
      else
        var t := taken.db;
        Done(t.(bookings := t.bookings + [b],
                legs := Create(t.legs, |t.bookings|, rooms, checkin, checkout, t.nextLeg),
                nextLeg := t.nextLeg + rooms))
  }

  // ---- transitions ----

  function TakeRooms(s: Db, b: Booking): Reply {
    ReserveRange(s, b.checkin, b.checkout, b.rooms)
  }

  /** Rooms are found only for a booking that holds none. */
  function TakeIfNone(s: Db, b: Booking): Reply {
    if InventoryHeld(b) then Done(s) else TakeRooms(s, b)
  }

  function GiveRoomsBack(s: Db, id: BookingId, b: Booking): Db
    requires id < |s.bookings|
  {
    if InventoryHeld(b) then ReleaseInventory(s, id, b, None)
    else s.(legs := ReleaseAll(s.legs, id, s.now))
  }

  /** The row with another status, whatever else the transaction has set on it. */
  function SetStatus(s: Db, id: BookingId, status: Status): Reply
    requires id < |s.bookings|
  {
    Write(s, id, s.bookings[id].(status := status))
  }

  function Approve(s: Db, id: BookingId): Reply {
    if !In(s, id, {Pending}) then Refused
    else
      var b := s.bookings[id];
      var kind := KindAfterApproval(b.kind, b.holdUntil.Some?);
      var row := b.(status := Approved, kind := kind, holdUntil := if kind == Confirm then None else b.holdUntil);
      var taken := TakeIfNone(s, b);
      if taken.Refused? then Refused else Write(taken.db, id, row)
  }

  function Reject(s: Db, id: BookingId): Reply {
    if !In(s, id, {Pending}) then Refused else SetStatus(GiveRoomsBack(s, id, s.bookings[id]), id, Rejected)
  }

  function Cancel(s: Db, id: BookingId): Reply {
    if !In(s, id, {Pending, Approved}) then Refused
    else SetStatus(GiveRoomsBack(s, id, s.bookings[id]), id, Cancelled)
  }

  function ReleaseNoShow(s: Db, id: BookingId, b: Booking, markedOn: Date): Db
    requires id < |s.bookings|
  {
    var point := NoShowReleaseFrom(b.checkin, b.checkout, markedOn);
    var t := if point.Some? then ReleaseInventory(s, id, b, point) else s;
    if b.ota then t.(outbox := t.outbox + [NoShowNotice(id)]) else t
  }

  function MarkNoShow(s: Db, id: BookingId, markedOn: Date): Reply {
    if !In(s, id, {Approved}) then Refused
    else SetStatus(ReleaseNoShow(s, id, s.bookings[id], markedOn), id, NoShow)
  }

  /** ready stands for the checks of the arrival day, of the rooms' state and of documents. Where rooms are
      numbered every segment must have one. */
  function CheckIn(s: Db, id: BookingId, ready: bool, seating: Seating): Reply {
    if !In(s, id, {Approved}) || !ready then Refused
    else
      var b := s.bookings[id];
      var legs := SeatedFor(s.legs, id, seating);
      var confirmed := if b.kind == HoldConfirm then b.(kind := Confirm, holdUntil := None) else b;
      if seating.Picked? && !AllSeated(legs, id) then Refused
      else Write(s.(legs := legs), id, confirmed.(status := CheckedIn))
  }

  /** settled stands for the balance policy: nothing owed, or leaving with a balance was allowed. */
  function CheckOut(s: Db, id: BookingId, operating: Date, settled: bool): Reply {
    if !In(s, id, {CheckedIn}) || !settled then Refused
    else
      var b := s.bookings[id];
      var left := SetStatus(s, id, CheckedOut);
      if left.Refused? then Refused
      else if operating < b.checkout then Done(ReleaseInventory(left.db, id, b, Some(operating)))
      else left
  }

  // ---- taking it back ----

  /** allowed: made today, and no room charged since. */
  function UndoCheckIn(s: Db, id: BookingId, allowed: bool): Reply {
    if !In(s, id, {CheckedIn}) || !allowed then Refused else SetStatus(s, id, Approved)
  }

  ghost function TakeBackReleasedStay(s: Db, id: BookingId, b: Booking, keep: set<LegId>): Reply
    requires id < |s.bookings|
  {
    if b.releasedFrom.Some? then Reclaim(s, id, b, keep)
    else if HasLive(s.legs, id) then Done(s)
    else
      var taken := TakeRooms(s, b);
      if taken.Refused? then Refused else RestoreLegs(taken.db, id, keep)
  }

  /** allowed: made today, and the bill has not moved to a company's account. */
  ghost function UndoCheckOut(s: Db, id: BookingId, allowed: bool, keep: set<LegId>): Reply {
    if !In(s, id, {CheckedOut}) || !allowed then Refused
    else
      var back := TakeBackReleasedStay(s, id, s.bookings[id], keep);
      if back.Refused? then Refused else SetStatus(back.db, id, CheckedIn)
  }

  /** The status is written first; the rooms are then taken for the row as written. */
  ghost function Reinstate(s: Db, id: BookingId, today: Date, keep: set<LegId>): Reply {
    if !In(s, id, {Cancelled, NoShow}) || s.bookings[id].checkout <= today then Refused
    else
      var b := s.bookings[id];
      if b.status == Cancelled && b.voided then Refused
      else
        var approved := SetStatus(s, id, Approved);
        if approved.Refused? then Refused
        else if b.status == NoShow then Reclaim(approved.db, id, b, keep)
        else
          var row := approved.db.bookings[id];
          var taken := if InventoryHeld(row) then TakeRooms(approved.db, row) else approved;
          if taken.Refused? then Refused else RestoreLegs(taken.db, id, keep)
  }

  /** allowed: no payment and no issued invoice. */
  function Void(s: Db, id: BookingId, allowed: bool): Reply {
    if !In(s, id, {Pending, Approved}) || s.bookings[id].voided || !allowed then Refused
    else
      var t := GiveRoomsBack(s, id, s.bookings[id]);
      Write(t, id, t.bookings[id].(status := Cancelled, voided := true))
  }

  // ---- holds ----

  function ConfirmBooking(s: Db, id: BookingId, picks: seq<Pick>): Reply {
    if !In(s, id, {Pending, Approved}) || s.bookings[id].kind == Confirm then Refused
    else
      var b := s.bookings[id];
      var taken := TakeIfNone(s, b);
      if taken.Refused? then Refused
      else Write(taken.db.(legs := Preferred(s.legs, id, b, picks)), id,
                 b.(kind := Confirm, status := Approved, holdUntil := None))
  }

  function Hold(s: Db, id: BookingId, requested: Option<Kind>, until: Option<int>, picks: seq<Pick>): Reply {
    if !In(s, id, {Pending, Approved}) then Refused
    else
      var b := s.bookings[id];
      var target := HoldKindFor(b.kind, requested);
      if target == None || target.value !in {HoldConfirm, HoldUnconfirm} then Refused
      else
        var taken := TakeIfNone(s, b);
        if taken.Refused? then Refused
        else Write(taken.db.(legs := Preferred(s.legs, id, b, picks)), id,
                   b.(kind := target.value, status := InitialStatus(target.value), holdUntil := until))
  }

  function CancelAndRelease(s: Db, id: BookingId): Reply
    requires id < |s.bookings|
  {
    var cancelled := SetStatus(s, id, Cancelled);
    if cancelled.Refused? then Refused else Done(ReleaseInventory(cancelled.db, id, s.bookings[id], None))
  }

  function ReleaseHold(s: Db, id: BookingId): Reply {
    if !In(s, id, {Pending, Approved}) || s.bookings[id].kind !in {HoldConfirm, HoldUnconfirm} then Refused
    else CancelAndRelease(s, id)
  }

  /** The hold sweep's step on one claimed row. */
  function ReleaseDueHold(s: Db, id: BookingId, clock: int): Reply {
    if !In(s, id, {Pending, Approved}) || s.bookings[id].holdUntil == None || s.bookings[id].holdUntil.value > clock
    then Refused
    else CancelAndRelease(s, id)
  }

  /** The unconfirmed sweep's step on one claimed row. */
  function ExpireUnconfirmed(s: Db, id: BookingId, today: Date): Reply {
    if !In(s, id, {Pending}) || s.bookings[id].checkin >= today then Refused
    else if HoldsInventory(s.bookings[id].kind) then CancelAndRelease(s, id)
    else SetStatus(s.(legs := ReleaseAll(s.legs, id, s.now)), id, Cancelled)
  }

  // ---- changes of stay ----

  function Extend(s: Db, id: BookingId, b: Booking, later: Date, prices: seq<Night>): Reply
    requires id < |s.bookings|
  {
    var taken := ReserveRange(s, b.checkout, later, b.rooms);
    if taken.Refused? || |prices| != later - b.checkout then Refused
    else
      var t := taken.db;
      var legs := Stretch(t.legs, id, b.checkout, later, t.legs.Keys);
      var nights := b.nights + Priced(b.checkout, prices);
      if !NoDoubleBooking(legs) then Refused
      else Write(t.(legs := legs), id, b.(checkout := later, nights := nights, totals := TotalsOf(nights, b.rooms)))
  }

  /** The stored nights left when those of [lo, hi) are deleted. */
  function Without(nights: seq<Night>, lo: Date, hi: Date): seq<Night> {
    if nights == [] then []
    else
      var rest := Without(nights[..|nights| - 1], lo, hi);
      var n := nights[|nights| - 1];
      if lo <= n.date < hi then rest else rest + [n]
  }

  function Shorten(s: Db, id: BookingId, b: Booking, sooner: Date): Reply
    requires id < |s.bookings|
  {
    var t := ReleaseRange(s, sooner, b.checkout, b.rooms);
    var nights := Without(b.nights, sooner, b.checkout);
    Write(t.(legs := CutAt(t.legs, id, sooner, t.now)), id,
          b.(checkout := sooner, nights := nights, totals := TotalsOf(nights, b.rooms),
             charges := VoidFrom(b.charges, sooner, b.checkout)))
  }

  function ChangeDeparture(s: Db, id: BookingId, departure: Date, today: Date, prices: seq<Night>): Reply {
    if !In(s, id, {CheckedIn}) then Refused
    else
      var b := s.bookings[id];
      if departure == b.checkout || departure < today || departure <= b.checkin then Refused
      else if departure > b.checkout then Extend(s, id, b, departure, prices)
      else Shorten(s, id, b, departure)
  }

  /** A proposed stay: the dates and rooms asked for, what the pricer quotes for each date, whether the
      assigned rooms are active and unblocked over it, and whether the guest's details change with it. */
  datatype Proposal = Proposal(checkin: Date, checkout: Date, rooms: int, prices: seq<Night>, usable: bool,
      details: bool)

  predicate StayChanges(b: Booking, p: Proposal) {
    p.checkin != b.checkin || p.checkout != b.checkout || p.rooms != b.rooms
  }

  predicate MayAmend(s: Db, id: BookingId, p: Proposal)
    requires id < |s.bookings|
  {
    var b := s.bookings[id];
    && b.status in {Pending, Approved, CheckedIn} && !b.ota
    && StayChanges(b, p)
    && p.checkin < p.checkout && p.rooms >= 1 && |p.prices| == p.checkout - p.checkin && p.usable
    && (b.status == CheckedIn ==>
          p.checkin == b.checkin && p.checkout > b.checkout && p.rooms == b.rooms
          && OneAssignedLeg(s.legs, id) && NoPlannedMove(s.moves, id))
    && (b.status != CheckedIn ==> NotSplit(s.legs, id))
  }

  predicate OneAssignedLeg(legs: Legs, id: BookingId) {
    |LiveIds(legs, id)| == 1 && forall i :: i in legs && Live(legs[i], id) ==> legs[i].unit.Some?
  }

  predicate NoPlannedMove(moves: seq<Move>, id: BookingId) {
    forall m :: 0 <= m < |moves| ==> !(moves[m].booking == id && moves[m].status == Planned)
  }

  /** The live segment of an in-house stay runs to the new departure. */
  function RunTo(legs: Legs, id: BookingId, later: Date): Legs {
    map i | i in legs :: if Live(legs[i], id) then legs[i].(checkout := later) else legs[i]
  }

  /** Give the old nights back and take the new ones; refused if a new night is full. */
  function Swap(c: Calendar, b: Booking, p: Proposal): Option<Calendar> {
    var returned := Give(c, b.checkin, b.checkout, b.rooms);
    if CanTake(returned, p.checkin, p.checkout, p.rooms)
    then Some(Take(returned, p.checkin, p.checkout, p.rooms)) else None
  }

  function AmendedLegs(s: Db, id: BookingId, p: Proposal): Legs
    requires id < |s.bookings| && p.rooms >= 1
  {
    if s.bookings[id].status == CheckedIn then RunTo(s.legs, id, p.checkout)
    else Reshape(s.legs, id, |LiveIds(s.legs, id)|, p.rooms, p.checkin, p.checkout, s.nextLeg)
  }

  function AmendedRow(b: Booking, p: Proposal): Booking {
    var nights := Quoted(b, p.checkin, p.prices);
    b.(checkin := p.checkin, checkout := p.checkout, rooms := p.rooms, nights := nights,
       totals := TotalsOf(nights, p.rooms), charges := Reconciled(b.charges, p.checkin, nights, p.rooms))
  }

  function AmendEvents(b: Booking, p: Proposal): seq<Event> {
    if InventoryHeld(b)
    then [Amended(Nights(b.checkin, b.checkout), b.rooms, Nights(p.checkin, p.checkout), p.rooms)] else []
  }

  /** The guest's details are the customer's, in no table here: changing them alone changes nothing here. */
  function Amend(s: Db, id: BookingId, p: Proposal): Reply {
    if id >= |s.bookings| then Refused
    else if !StayChanges(s.bookings[id], p) then
      if p.details && s.bookings[id].status !in {Rejected, Cancelled, NoShow} then Done(s) else Refused
    else if !MayAmend(s, id, p) then Refused
    else
      var b := s.bookings[id];
      var calendar := if InventoryHeld(b) then Swap(s.calendar, b, p) else Some(s.calendar);
      var legs := AmendedLegs(s, id, p);
      if calendar == None || !NoDoubleBooking(legs) || (b.status != CheckedIn && !KeysUnique(legs)) then Refused
      else Write(s.(calendar := calendar.value, legs := legs, nextLeg := s.nextLeg + p.rooms,
                    outbox := s.outbox + AmendEvents(b, p)), id, AmendedRow(b, p))
  }

  // ---- physical rooms ----

  /** A segment of a booking that is not over and holds rooms. */
  predicate Assignable(s: Db, leg: LegId) {
    leg in s.legs && In(s, s.legs[leg].booking, {Pending, Approved, CheckedIn})
    && InventoryHeld(s.bookings[s.legs[leg].booking])
  }

  predicate InHouse(s: Db, leg: LegId)
    requires Assignable(s, leg)
  {
    s.bookings[s.legs[leg].booking].status == CheckedIn
  }

  /** Put a segment in a physical room, or in none. An in-house guest keeps the room, and a room is
      dropped only before the arrival day. usable: the room is active, unblocked and not planned for another. */
  function AssignRoom(s: Db, leg: LegId, unit: Option<UnitId>, today: Date, usable: bool): Reply {
    if !Assignable(s, leg) then Refused
    else if InHouse(s, leg) && s.legs[leg].unit.Some? && s.legs[leg].unit != unit then Refused
    else if unit == None && (InHouse(s, leg) || s.legs[leg].checkin <= today) then Refused
    else if unit.Some? && !usable then Refused
    else
      var legs := s.legs[leg := s.legs[leg].(unit := unit)];
      if NoDoubleBooking(legs) then Done(s.(legs := legs)) else Refused
  }

  predicate SplitsAt(s: Db, leg: LegId, effective: Date)
    requires leg in s.legs
  {
    effective > s.legs[leg].checkin
  }

  function Destination(l: Leg, target: UnitId, effective: Date): Leg {
    Leg(l.booking, l.index, Some(target), effective, l.checkout, None)
  }

  /** A segment moved to another room from a date: split there, or renamed whole from its first night. */
  function MovedTo(s: Db, leg: LegId, target: UnitId, effective: Date): Legs
    requires leg in s.legs
  {
    var l := s.legs[leg];
    if SplitsAt(s, leg, effective)
    then s.legs[leg := l.(checkout := effective)][s.nextLeg := Destination(l, target, effective)]
    else s.legs[leg := l.(unit := Some(target))]
  }

  /** Before arrival, and with no date given, the whole stay moves; otherwise from the date, or from today. */
  function MoveDate(s: Db, leg: LegId, date: Option<Date>, today: Date): Date
    requires Assignable(s, leg)
  {
    if !InHouse(s, leg) && date == None then s.legs[leg].checkin
    else if date.Some? then date.value
    else if s.legs[leg].checkin > today then s.legs[leg].checkin else today
  }

  /** Move a segment's guest to another room, now or as a plan for a later date. allowed: the room is an
      active one of the type, free, unblocked, and ready if the guest moves in today. */
  function MoveRoom(s: Db, leg: LegId, target: UnitId, date: Option<Date>, today: Date, allowed: bool): Reply {
    if !Assignable(s, leg) || s.legs[leg].unit == None || !allowed then Refused
    else
      var l := s.legs[leg];
      var effective := MoveDate(s, leg, date, today);
      var wholeStay := !InHouse(s, leg) && date == None;
      if !wholeStay && !(today <= effective && l.checkin <= effective < l.checkout) then Refused
      else if date.Some? && effective > today
      then Done(s.(moves := s.moves + [Move(l.booking, leg, l.unit.value, target, effective, Planned, None)]))
      else
        var legs := MovedTo(s, leg, target, effective);
        var destination := if SplitsAt(s, leg, effective) then Some(s.nextLeg) else None;
        if !NoDoubleBooking(legs) || !KeysUnique(legs) then Refused
        else Done(s.(legs := legs, nextLeg := s.nextLeg + 1,
                     moves := s.moves + [Move(l.booking, leg, l.unit.value, target, effective, Completed,
                                              destination)]))
  }

  predicate Due(s: Db, m: nat, date: Date) {
    m < |s.moves| && s.moves[m].status == Planned && s.moves[m].effective <= date
    && In(s, s.moves[m].booking, {Approved, CheckedIn})
  }

  /** The move finds its segment as it was planned: present, still in the room to leave, not yet over. */
  predicate Applies(s: Db, m: nat)
    requires m < |s.moves|
  {
    var v := s.moves[m];
    v.leg in s.legs && s.legs[v.leg].unit == Some(v.source) && s.legs[v.leg].checkout > v.effective
  }

  predicate Splits(s: Db, m: nat)
    requires m < |s.moves| && s.moves[m].leg in s.legs
  {
    SplitsAt(s, s.moves[m].leg, s.moves[m].effective)
  }

  function MovedLegs(s: Db, m: nat): Legs
    requires m < |s.moves| && s.moves[m].leg in s.legs
  {
    MovedTo(s, s.moves[m].leg, s.moves[m].target, s.moves[m].effective)
  }

  /** Later planned moves of the split segment continue from its new half. */
  function Retargeted(moves: seq<Move>, v: Move, leg: LegId): seq<Move> {
    seq(|moves|, k requires 0 <= k < |moves| =>
      if moves[k].leg == v.leg && moves[k].status == Planned && moves[k].effective > v.effective
      then moves[k].(leg := leg) else moves[k])
  }

  /** One planned move; refused (and left planned) when a constraint refuses the new segments. */
  function ApplyMove(s: Db, m: nat, date: Date): Reply {
    if !Due(s, m, date) then Refused
    else
      var v := s.moves[m];
      if !Applies(s, m) then Done(s.(moves := s.moves[m := v.(status := Stopped)]))
      else
        var legs := MovedLegs(s, m);
        var moves := if Splits(s, m) then Retargeted(s.moves, v, s.nextLeg) else s.moves;
        var destination := if Splits(s, m) then s.nextLeg else v.leg;
        if !NoDoubleBooking(legs) || !KeysUnique(legs) then Refused
        else Done(s.(legs := legs, nextLeg := s.nextLeg + 1,
                     moves := moves[m := v.(status := Completed, destination := Some(destination))]))
  }

  // ---- the bill ----

  /** Night audit: one room charge for the night, unless a live one is already on the bill. */
  function PostNight(s: Db, id: BookingId, date: Date): Reply {
    if !In(s, id, {Approved, CheckedIn}) then Refused
    else
      var b := s.bookings[id];
      if !(b.checkin <= date < b.checkout && InStay(b.checkin, b.nights, date)) || Charged(b.charges, date) then Refused
      else Done(SetRow(s, id, b.(charges := b.charges + [ChargeFor(b.checkin, b.nights, b.rooms, date)])))
  }

  /** Post every night of a stay that is not on its bill yet; only a cancelled or rejected booking is refused. */
  function PostStay(s: Db, id: BookingId): Reply {
    if id >= |s.bookings| || s.bookings[id].status in {Cancelled, Rejected} then Refused
    else
      var b := s.bookings[id];
      Done(SetRow(s, id, b.(charges := Posted(b.charges, b.checkin, b.nights, b.rooms, |b.nights|))))
  }

  function VoidCharge(s: Db, id: BookingId, n: nat): Reply {
    if id >= |s.bookings| || n >= |s.bookings[id].charges| then Refused
    else
      var b := s.bookings[id];
      Done(SetRow(s, id, b.(charges := b.charges[n := b.charges[n].(voided := true)])))
  }
}
