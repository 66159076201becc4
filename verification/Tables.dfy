/** The rows the booking core reads and writes, and the database handle every operation is given.

    Dates are day numbers: the source compares ISO dates, which order the same way.
    Money is a whole number of cents: every stored amount is a numeric(12,2).
    One room type's calendar is modelled; a booking never changes its room type. */
module Tables {
  import opened Wrappers

  type Date = int
  type BookingId = nat
  type LegId = nat
  type UnitId = nat

  /** A row of availability_calendar. */
  datatype Day = Day(physical: int, toSell: int, open: bool)
  type Calendar = map<Date, Day>

  datatype Status = Pending | Approved | Rejected | Cancelled | NoShow | CheckedIn | CheckedOut
  datatype Kind = Confirm | Inquiry | OnlineFailed | HoldConfirm | HoldUnconfirm

  /** A row of booking_days, per room. */
  datatype Night = Night(date: Date, selling: int, base: int, tax: int)

  /** A room charge on the stay's bill, with whether it has been voided. */
  datatype Charge = Charge(date: Date, net: int, tax: int, total: int, voided: bool)

  datatype Totals = Totals(amount: int, base: int, taxes: int, commissionable: int)

  datatype Booking = Booking(
    checkin: Date, checkout: Date, rooms: int,
    status: Status, kind: Kind, holdUntil: Option<int>,
    releasedFrom: Option<Date>, voided: bool, ota: bool,
    totals: Totals, nights: seq<Night>, charges: seq<Charge>)

  /** A row of booking_rooms: one room of a booking over a range of nights. */
  datatype Leg = Leg(booking: BookingId, index: nat, unit: Option<UnitId>,
                     checkin: Date, checkout: Date, releasedAt: Option<int>)
  type Legs = map<LegId, Leg>

  datatype MoveStatus = Planned | Completed | Stopped
  datatype Move = Move(booking: BookingId, leg: LegId, source: UnitId, target: UnitId,
                       effective: Date, status: MoveStatus, destination: Option<LegId>)

  /** What an outbox row tells the channel manager. */
  datatype Event =
    | Reserve(nights: seq<Date>, rooms: int)
    | Release(nights: seq<Date>, rooms: int)
    | Amended(released: seq<Date>, releasedRooms: int, reserved: seq<Date>, reservedRooms: int)
    | NoShowNotice(booking: BookingId)

  /** Every table as a value. nextLeg is an id no segment has had. now is the instant of the current
      transaction; a later transaction has a later instant. */
  datatype Db = Db(calendar: Calendar, bookings: seq<Booking>, legs: Legs, nextLeg: LegId,
                   moves: seq<Move>, outbox: seq<Event>, now: int)

  /** A transaction commits with a new state or is refused, leaving the state as it was. */
  datatype Reply = Done(db: Db) | Refused

  /** The handle a transaction works through: one field per table. */
  class Database {
    var calendar: Calendar
    var bookings: seq<Booking>
    var legs: Legs
    var nextLeg: LegId
    var moves: seq<Move>
    var outbox: seq<Event>
    var now: int

    constructor (opening: Calendar)
      ensures State() == Db(opening, [], map[], 0, [], [], 0)
    {
      calendar, bookings, legs, nextLeg := opening, [], map[], 0;
      moves, outbox, now := [], [], 0;
    }

    function State(): Db
      reads this
    {
      Db(calendar, bookings, legs, nextLeg, moves, outbox, now)
    }

    /** Roll the transaction back to the state it started from. */
    method Rollback(saved: Db)
      modifies this
      ensures State() == saved
    {
      calendar, bookings, legs, nextLeg := saved.calendar, saved.bookings, saved.legs, saved.nextLeg;
      moves, outbox, now := saved.moves, saved.outbox, saved.now;
    }

    /** Commit: the next transaction runs at a later instant. */
    method Commit()
      modifies this`now
      ensures State() == old(State()).(now := old(now) + 1)
    {
      now := now + 1;
    }
  }

  /** The generated column inventory_held: a live booking of a kind that takes rooms. */
  predicate InventoryHeld(b: Booking) {
    b.status !in {Cancelled, Rejected} && b.kind != Inquiry
  }

  /** The CHECK constraints on the bookings table; a row that breaks one is refused. */
  predicate RowOk(b: Booking) {
    && (b.status == Pending ==> b.kind in {Inquiry, OnlineFailed, HoldUnconfirm})
    && (b.status in {Approved, CheckedIn, CheckedOut, NoShow} ==> b.kind in {Confirm, HoldConfirm})
    && (b.holdUntil.Some? ==> b.kind in {HoldConfirm, HoldUnconfirm})
    && (b.releasedFrom.Some? ==> b.checkin < b.releasedFrom.value <= b.checkout)
  }
}
