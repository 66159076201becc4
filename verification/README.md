# Stay ledger, pricing and delivery

A Dafny model of a hotel booking platform: the availability calendar with its bookings, room segments
and bills; the pricing arithmetic; the delivery of channel events; document numbering; and the scanners
of a schema dump. `dafny verify dfyconfig.toml` checks all of it.

**The stay.** `Tables` holds the rows and the database handle; `Inventory`, `Lifecycle`, `Folio` and
`BookingService` are the methods that change them in place, each loop proved against a function on the
tables' values. `RoomLegs` and `BookingRules` are those functions. `StayInvariant` is what a house always
keeps; `StayKeeps` and `ChangeKeeps` prove it of each operation, `StayRuns` of whole runs, `StayOutcomes`
when each goes through, `StayPrices`, `StayAmends`, `StayEffects` and `RoomMoves` what each writes, `RoomKeys` that
segments keep their unique key, `ReleaseReclaim` which undo each other, and `StayLimits` where the code and its
promises part.
`Concurrency` interleaves many reservations with their row locks.

**Pricing.** `Money` splits cents; `Tax`, `TaxSplit`, `Settlement` and `RatePolicy` are the tax-inclusive
engine; `TaxEngine` and `Invoice` the forward one; `SmartPolicy`, `SmartQuote` and `SmartCharges` the smart guest quote.
Amounts are cents: reals before rounding, whole numbers after.

**Protocols and parsing.** `Outbox`, `Delivery`, `DeliverySteps` and `DeliveryRuns` deliver events through a queue with
crashes; `Numbering` and `Serials` number documents; `DumpSchema` reads a dump.

Reading notes

- `tiled` in a lemma says how much is claimed of room segments: that they tile the stay, which a split of a
  released segment breaks, or only that one is there from its start, which nothing breaks.
- A transaction that throws, or writes a row a constraint refuses, is `Refused` and restores the state it
  found. Every transaction has its own later instant, so two releases never share a stamp.
- `inventory_held` is the generated column of `packages/db/src/schema/bookings.ts:207-211`, and the row
  constraints of lines 270-296 are part of every write.
- A room that a savepoint could not give back is a `keep` set the caller cannot choose: it must be fair,
  that is, a segment loses its room only to one that has it.

Where the code and its promises differ

- A cancellation is promised to come back; one made while the booking was unconfirmed (an inquiry, an
  unconfirmed hold, a failed online payment) is refused by the kind constraint
  (`StayLimits.ReinstateCancelledIff`).
- Neither `applyPlannedRoomMoves` nor a move made at the desk looks at whether the segment was released:
  splitting such a segment breaks the stay's tiling, and no other operation does. Rooms, channel and bills
  do not turn on it: what `StayRuns` says of them holds in every run, such moves included
  (`ChangeKeeps.MoveKeepsIff`, `ChangeKeeps.MoveRoomKeepsIff`; inputs in `StayLimits.StaleMoveRevives` and
  `StayLimits.StaleDeskRevives`).
- A guest who checks out on the arrival day gives the stay back without the marker that says so, and a
  recount still counts those nights as taken (`StayLimits.RecountIff`).
- Nights given back are not to be given back twice. After partial releases they never are; after a whole one,
  which leaves no marker, they are exactly when a later release starts before the date the row still reads as
  held to, and only the statuses their callers check keep them apart (`ReleaseReclaim.ReleasesAddUpIff`,
  `ReleaseReclaim.TwoReleasesIff`, `StayLimits.WholeReleaseGivesTwice`).
- `sellingFromCommissionable` is documented as the exact inverse of `taxFromSelling`; it is so from the
  amount to the price and back, not from the price (`Tax.NotInverseBothWays`): with F the product of one plus
  each rate, a price comes back exactly when a whole cent lies from (price - 1/2)/F up to, but not at,
  (price + 1/2)/F (`Tax.PriceComesBackIff`).
- A row requeued while its job still runs can be claimed again, pushed again and, if those pushes fail,
  marked failed after it was sent (`DeliveryRuns.BuriedAfterDeliveryIff`, `DeliveryRuns.BuriedAfterDelivery`).
- Charging more before tax can sell for less where the slabs of a tax do not meet (`TaxEngine.GapMakesItCheaper`).
  Whatever the taxes, it never does exactly when at the top of every slab the whole tax is at most one cent
  above the tax on the next cent (`TaxEngine.SellingMonotoneIff`).

## Model

| member | source | states |
|---|---|---|
| `Inventory.StayNights` | packages/db/src/lifecycle.ts:44-48 | The dates of a stay, one per night, from the arrival up to the day before the departure. |
| `Inventory.ReserveStay` | packages/db/src/inventory.ts:28-48 | One conditional decrement per night in order; stops at the first night without enough rooms and names it. |
| `Inventory.ReleaseStay` | packages/db/src/inventory.ts:51-65 | One increment per night, capped at the physical quantity; a night without a row is left alone. |
| `Inventory.TakesAllOrNothing` | packages/db/src/inventory.ts:28-48 | The loop takes every night of the range once, or reports the first full night. |
| `Inventory.GivesEachNightOnce` | packages/db/src/inventory.ts:51-65 | The loop gives every night of the range back exactly once. |
| `Lifecycle.ReserveNights` | packages/db/src/lifecycle.ts:78-98 | Nights taken and the channel told of exactly those nights, or nothing at all. |
| `Lifecycle.ReleaseNights` | packages/db/src/lifecycle.ts:112-139 | Nights given back and the channel told of exactly those nights. |
| `Lifecycle.ReserveBookingInventory` | packages/db/src/lifecycle.ts:78-98 | A booking's whole stay taken, or the transaction refused. |
| `Lifecycle.ReleaseBookingInventory` | packages/db/src/lifecycle.ts:112-165 | Whole release, or the nights from a date: calendar, event, segments and marker together; nothing when nothing is left to give. |
| `Lifecycle.PlaceEach` | apps/api/src/inventory/room-units.service.ts:1131-1153 | Each segment is written back in its own savepoint; one loses its room only to another live segment holding that room on one of its nights. |
| `Lifecycle.StretchLegs` | packages/db/src/lifecycle.ts:204-231 | Segments cut at the release date run on to the departure again, room by room with the unassigned fallback. |
| `Lifecycle.ReclaimReleasedNights` | packages/db/src/lifecycle.ts:179-240 | Succeeds exactly when every night given back is still free; then nights, marker and segments are back. |
| `Lifecycle.RestoreReleasedLegs` | apps/api/src/inventory/room-units.service.ts:1124-1155 | The latest released segments are live again, and the count returned is those left without a room. |
| `RoomLegs.CreateTiles` | apps/api/src/inventory/room-units.service.ts:1080-1102 | New segments tile the stay, one per room. |
| `RoomLegs.ReleaseAllTiles` | apps/api/src/inventory/room-units.service.ts:1111-1117 | A whole release leaves no live segment and the fresh stamp tiles what was live. |
| `RoomLegs.CutTiles` | packages/db/src/lifecycle.ts:142-165 | Cutting a tiling at a date inside it leaves a tiling up to that date. |
| `RoomLegs.StretchTiles` | packages/db/src/lifecycle.ts:204-231 | Running the last segments on leaves a tiling to the later date, with or without their rooms. |
| `RoomLegs.RestoreTiles` | apps/api/src/inventory/room-units.service.ts:1124-1155 | Restoring the latest stamp gives back exactly its tiling. |
| `RoomLegs.ReshapeTiles` | apps/api/src/inventory/room-units.service.ts:1177-1217 | Resizing an unsplit stay tiles the new dates for the new number of rooms. |
| `RoomLegs.CountsRooms` | apps/api/src/bookings/booking.service.ts:2067-2081 | An unsplit tiled stay has exactly one live segment per room. |
| `Folio.TotalsFromNights` | apps/api/src/bookings/stay-change.ts:32-47 | The accumulating loop gives rooms times the nightly sums. |
| `Folio.QuoteAmendedNights` | apps/api/src/bookings/booking.service.ts:1888-1956 | Kept nights keep their stored row, new dates take the fresh price. |
| `Folio.QuotedIsDated` | apps/api/src/bookings/booking.service.ts:1888-1956 | The quoted nights are one row per date of the new stay, and no kept night is repriced. |
| `Folio.ReconcileCharges` | apps/api/src/bookings/booking.service.ts:2320-2367 | The void-and-repost loop: what it leaves on the bill, charge by charge. |
| `Folio.ReconcileAgrees` | apps/api/src/bookings/booking.service.ts:2320-2367 | After it every live charge is for a night of the stay at its price times the rooms, and no night has two. |
| `Folio.ReconcileKeepsNights` | apps/api/src/bookings/booking.service.ts:2320-2367 | Exactly the charged nights that are still in the stay stay charged. |
| `Folio.PostAll` | apps/api/src/folio/folio.service.ts:226-284 | The nights not on the bill when it is read are added in date order, and counted. |
| `Folio.PostedAgrees` | apps/api/src/folio/folio.service.ts:226-284 | Posting a stay leaves every live charge at its night's price times the rooms, and no night with two. |
| `Folio.PostingCompletes` | apps/api/src/folio/folio.service.ts:216-284 | However much is on the bill, posting makes it the amount exactly, and posting again changes nothing. |
| `StayPrices.TotalsByColumn` | apps/api/src/bookings/stay-change.ts:32-47 | Amount, base and taxes are the rooms times the sum of each column; what is commissionable is the amount without the taxes. |
| `StayPrices.PostedStay` | apps/api/src/folio/folio.service.ts:226-284 | Posting a stay changes only its bill: its lines stand, every night of the stay is charged, and each line added is for an uncharged night at its price and tax times the rooms. |
| `StayPrices.PostNightIff` | apps/api/src/nightaudit/nightaudit.service.ts:248-290 | Posted exactly for a night of the stay without a live charge, of a guest expected or in house: one line, at that night's price and tax times the rooms. |
| `StayPrices.ReconciledLine` | apps/api/src/bookings/booking.service.ts:2320-2367 | Voided are exactly the live charges whose night is gone or costs another total; every line added is at its night's price and tax times the rooms. |
| `Folio.FullyPostedIsAmount` | apps/api/src/bookings/booking.service.ts:1944-1955 | Agreeing charges on every night add up to the amount exactly. |
| `BookingService.TransitionWithin` | apps/api/src/bookings/booking.service.ts:1241-1408 | Approve, reject, cancel, no-show, check-in with the rooms it puts the guests in, and check-out change the tables as the rules say, or refuse and change nothing. |
| `BookingService.SeatEach` | apps/api/src/inventory/room-units.service.ts:1053-1076 | The loops that put segments in picked rooms, each in its own savepoint: a segment without a room gets the one picked unless the exclusion constraint refuses it. |
| `BookingService.ReachableIsOrderly` | apps/api/src/inventory/room-units.service.ts:1111-1155 | Every reachable state is one in which the methods that put segments back can be called. |
| `BookingService.Create` | apps/api/src/bookings/booking.service.ts:198-489 | A new booking takes its rooms when its kind holds them, with segments, nights and totals, or nothing is written. |
| `BookingService.UndoCheckIn` | apps/api/src/bookings/booking.service.ts:1018-1061 | Back to Approved with rooms, segments and bill untouched. |
| `BookingService.UndoCheckOut` | apps/api/src/bookings/booking.service.ts:1068-1111 | Back in house with the released nights taken again; refused, and unchanged, only when no choice of rooms would do. |
| `BookingService.Reinstate` | apps/api/src/bookings/booking.service.ts:1118-1169 | The row, then the rooms, then the segments; refused and unchanged when any of them cannot be had. |
| `BookingService.Void` | apps/api/src/bookings/booking.service.ts:1176-1220 | Rooms given back when held, segments released, the row cancelled and voided. |
| `BookingService.ConfirmWithin` | apps/api/src/reservations/lifecycle.service.ts:156-186 | Rooms found only if none are held, and then the preferred ones tried; the hold ends. |
| `BookingService.Hold` | apps/api/src/reservations/lifecycle.service.ts:51-88 | The hold a booking may become, its rooms, and the preferred ones tried if none were held; a confirmed booking is never un-confirmed. |
| `BookingService.ReleaseHold` | apps/api/src/reservations/lifecycle.service.ts:90-114 | The hold cancelled and its whole stay given back. |
| `BookingService.SwitchRooms` | apps/api/src/bookings/booking.service.ts:625-650 | The rooms found dirty are given up and picked ones tried; it goes through only if every room of tonight is known and clean, or none was dirty. |
| `BookingService.Claimed` | packages/db/src/lifecycle.ts:291-302 | The rows a sweep claims: exactly the unlocked rows that are due, each once. |
| `BookingService.SweepRows` | packages/db/src/lifecycle.ts:291-431 | Due holds, or a property's unconfirmed bookings past their arrival: the claimed rows are cancelled in one statement, then each is given up, an inquiry only closing its segments. |
| `BookingService.SweepLifecycle` | packages/db/src/lifecycle.ts:269-278 | The hold sweep and every property's unconfirmed sweep in one transaction, or nothing changes. |
| `BookingService.SweptRow` | packages/db/src/lifecycle.ts:291-431 | After a sweep a row is cancelled exactly if it was unlocked and due: a hold whose release time has come, or a booking still unconfirmed after its arrival day. |
| `BookingService.SweepIsOneByOne` | packages/db/src/lifecycle.ts:291-431 | One such statement and what follows it amount to cancelling and giving up the rows one at a time. |
| `BookingService.SweptKeeps` | packages/db/src/lifecycle.ts:291-431 | Either sweep always goes through in a sound house and keeps every invariant. |
| `BookingService.LifecycleSweepKeeps` | packages/db/src/lifecycle.ts:269-278 | So does the whole transaction, which therefore never rolls back. |
| `BookingService.ChangeDeparture` | apps/api/src/bookings/booking.service.ts:740-959 | Extending or shortening an in-house stay, with its nights, segments and bill, or nothing. |
| `BookingService.Extend` | apps/api/src/bookings/booking.service.ts:773-871 | New nights taken and priced, segments run on, totals summed again. |
| `BookingService.Shorten` | apps/api/src/bookings/booking.service.ts:872-930 | Removed nights given back, their segments cut and their charges voided, totals summed again. |
| `BookingService.AmendWithin` | apps/api/src/bookings/booking.service.ts:2083-2386 | Old nights back and new ones taken, segments reshaped, nights repriced, bill reconciled, one event; guest details alone change nothing here; or nothing. |
| `BookingService.ReshapeLegs` | apps/api/src/inventory/room-units.service.ts:1177-1217 | Deleting, adding and moving segments one statement at a time reaches the reshaped table exactly when it has no clash. |
| `BookingService.AssignRoom` | apps/api/src/inventory/room-units.service.ts:350-448 | The desk puts a segment in a room or in none: an in-house guest keeps the room, and a clash is refused. |
| `BookingService.MoveRoom` | apps/api/src/inventory/room-units.service.ts:474-620 | The desk moves a guest now, splitting the segment or renaming it whole, or plans the move; a clash is refused. |
| `BookingService.ApplyPlannedMove` | packages/db/src/housekeeping-ops.ts:332-438 | One due move: stopped, completed whole, or split with later moves retargeted; refused moves stay planned. |
| `BookingService.ApplyPlannedRoomMoves` | packages/db/src/housekeeping-ops.ts:332-438 | The sweep over due moves, in whatever order, is the fold of that step. |
| `BookingService.MovesSweptKeep` | packages/db/src/housekeeping-ops.ts:332-438 | A sweep keeps rooms, channel and bills in any order; one that meets no split of a released segment keeps the tiling too. |
| `BookingService.PostStay` | apps/api/src/folio/folio.service.ts:226-284 | Every night not yet on the bill of a stay not cancelled or rejected, in house or not, is posted at its price times the rooms. |
| `BookingService.PostNight` | apps/api/src/nightaudit/nightaudit.service.ts:248-290 | Night audit posts a night once, at its price times the rooms. |
| `StayKeeps.ApproveKeeps` | apps/api/src/bookings/booking.service.ts:1241-1408 | Approving keeps conservation, tiling, the bill and the row constraints. |
| `StayKeeps.RejectKeeps` | apps/api/src/bookings/booking.service.ts:1744-1753 | Rejecting keeps them, whether or not rooms were held. |
| `StayKeeps.CancelKeeps` | apps/api/src/bookings/booking.service.ts:1744-1753 | Cancelling keeps them, whether or not rooms were held. |
| `StayKeeps.NoShowKeeps` | apps/api/src/bookings/booking.service.ts:1760-1785 | A no-show keeps its missed nights and frees the rest without losing a room. |
| `StayKeeps.CheckInKeeps` | apps/api/src/bookings/booking.service.ts:1241-1408 | Check-in keeps them, with the rooms it picks and a release time dropped with its hold. |
| `StayKeeps.SeatedUnlessTaken` | apps/api/src/inventory/room-units.service.ts:1053-1076 | A segment a room was picked for stays without one only if that room is another's on one of its nights. |
| `StayKeeps.CheckOutKeeps` | apps/api/src/bookings/booking.service.ts:1350-1365 | An early check-out gives back exactly the nights not slept. |
| `StayKeeps.UndoCheckOutKeeps` | apps/api/src/bookings/booking.service.ts:1702-1726 | Taking a departed stay back keeps them. |
| `StayKeeps.ReinstateKeeps` | apps/api/src/bookings/booking.service.ts:1118-1169 | Reinstating a cancellation or a no-show keeps them. |
| `StayKeeps.VoidKeeps` | apps/api/src/bookings/booking.service.ts:1176-1220 | Voiding keeps them. |
| `StayKeeps.ConfirmKeeps` | apps/api/src/reservations/lifecycle.service.ts:156-186 | Confirming keeps them. |
| `StayKeeps.HoldKeeps` | apps/api/src/reservations/lifecycle.service.ts:51-88 | Holding keeps them. |
| `StayKeeps.ReleaseHoldKeeps` | apps/api/src/reservations/lifecycle.service.ts:90-114 | Releasing a hold keeps them. |
| `StayKeeps.ReleaseDueHoldKeeps` | packages/db/src/lifecycle.ts:291-324 | The hold sweep keeps them. |
| `StayKeeps.ExpireKeeps` | packages/db/src/lifecycle.ts:376-431 | The unconfirmed sweep keeps them. |
| `ChangeKeeps.OpenKeeps` | apps/api/src/bookings/booking.service.ts:198-489 | A new booking keeps them. |
| `ChangeKeeps.ChangeDepartureKeeps` | apps/api/src/bookings/booking.service.ts:740-959 | Extending and shortening keep them. |
| `ChangeKeeps.AmendKeeps` | apps/api/src/bookings/booking.service.ts:2083-2386 | An amendment keeps them, the released and reserved parts of its event included. |
| `ChangeKeeps.AssignKeeps` | apps/api/src/inventory/room-units.service.ts:350-448 | Assigning a room keeps them. |
| `ChangeKeeps.MoveKeepsIff` | packages/db/src/housekeeping-ops.ts:332-438 | Applying a planned move always keeps rooms, channel and bills, and keeps the tiling if and only if it does not split a segment already released. |
| `ChangeKeeps.MoveRoomKeepsIff` | apps/api/src/inventory/room-units.service.ts:474-620 | The same of a move made at the desk. |
| `ChangeKeeps.SplitReleasedBreaks` | packages/db/src/housekeeping-ops.ts:361-396 | Splitting a released segment always breaks the booking's tiling. |
| `ChangeKeeps.SwitchKeeps` | apps/api/src/bookings/booking.service.ts:625-650 | Swapping dirty rooms for clean ones keeps them. |
| `ChangeKeeps.PostStayKeeps` | apps/api/src/folio/folio.service.ts:226-284 | Posting a whole stay keeps them. |
| `ChangeKeeps.PostKeeps` | apps/api/src/nightaudit/nightaudit.service.ts:248-290 | Posting a night keeps them. |
| `StayRuns.StepKeepsIff` | apps/api/src/bookings/booking.service.ts:740-2386 | Any one transaction of the house keeps rooms, channel and bills, and keeps the tiling exactly when it is not such a split. |
| `StayRuns.RunKeeps` | apps/api/src/bookings/booking.service.ts:740-2386 | Every state of every run keeps rooms, channel and bills; every state of every run without such a split keeps the tiling too. |
| `StayRuns.RoomsConserved` | packages/db/src/inventory.ts:28-65 | In every reachable state, on every night, rooms to sell plus rooms held is the allotment; neither is negative, and no more are held than exist. |
| `StayRuns.CapNeverFires` | packages/db/src/inventory.ts:51-65 | Giving back what a booking holds never reaches the LEAST cap, so no room is lost to it. |
| `StayRuns.OutboxReplays` | packages/db/src/outbox.ts:14-27 | Replaying the committed availability events over the opening calendar gives the calendar exactly. |
| `StayRuns.NeverDoubleBooked` | packages/db/src/schema/bookings.ts:346-356 | In every reachable state no physical room has two live segments on one night. |
| `StayRuns.LiveSegmentsTile` | packages/db/src/schema/bookings.ts:346-356 | After any run without such a split, wherever a booking has live segments they tile the nights it holds, one per room. |
| `StayRuns.PostedBillIsAmount` | apps/api/src/bookings/stay-change.ts:32-47 | A bill with every night posted is the amount: rooms times the nightly selling prices. |
| `StayRuns.PostStayBillsAmount` | apps/api/src/folio/folio.service.ts:216-284 | In every reachable state posting a stay goes through unless it is cancelled or rejected, and its bill is then the booking's amount. |
| `StayPrices.OpenIff` | apps/api/src/bookings/booking.service.ts:198-489 | A new booking goes through exactly when it is a stay of whole nights and rooms, all priced, only a hold has a release time, and, if its kind takes rooms, every night is open with enough of them. |
| `StayPrices.OpenedRow` | apps/api/src/bookings/booking.service.ts:390-403 | Its row is what was asked; night i has its own quoted price, base and tax on date checkin + i, and the totals are the rooms times those. |
| `StayPrices.OpenedRooms` | apps/api/src/bookings/booking.service.ts:198-489 | Its kind decides whether rooms leave the calendar and the channel hears of it; it gets one unassigned segment per room. |
| `StayPrices.ExtendedStay` | apps/api/src/bookings/booking.service.ts:773-871 | The nights it had stand, each new date has its own quoted price, base and tax, and the last segments run on in their rooms. |
| `StayPrices.ExtendedTotals` | apps/api/src/bookings/booking.service.ts:773-871 | The totals grow by the rooms times each new column. |
| `StayPrices.ShortenedStay` | apps/api/src/bookings/booking.service.ts:872-930 | It has its first nights; exactly the live charges of the others are voided; every segment ends by the departure, in its room. |
| `StayOutcomes.ApproveIff` | apps/api/src/bookings/booking.service.ts:1241-1408 | Goes through exactly when the booking has its rooms or every night is free; it then holds its whole stay, and a release time survives only on a hold. |
| `StayOutcomes.GivingUpIff` | apps/api/src/bookings/booking.service.ts:1744-1753 | Reject and cancel always go through for their statuses and leave nothing held. |
| `StayOutcomes.NoShowIff` | packages/db/src/lifecycle.ts:59-72 | Exactly an approved booking; it then holds up to the later of its arrival and the day it was marked, and no more. |
| `StayOutcomes.CheckInIff` | apps/api/src/bookings/booking.service.ts:1241-1345 | Exactly an approved, ready booking, every segment of which can be given a room where rooms are numbered; a hold ends, nothing held changes, nobody who has a room is moved. |
| `StayOutcomes.CheckOutIff` | apps/api/src/bookings/booking.service.ts:1357-1362 | Exactly a settled in-house booking; the nights from the operating date on are no longer held. |
| `StayOutcomes.ConfirmIff` | apps/api/src/reservations/lifecycle.service.ts:156-186 | Exactly an unconfirmed or held booking that has, or can have, its rooms. |
| `StayOutcomes.HoldIff` | packages/domain/src/reservation-kinds.ts:117-129 | Exactly when the rooms are there and nothing is un-confirmed; an approved booking stays approved. |
| `StayOutcomes.ReinstateNoShowIff` | apps/api/src/bookings/booking.service.ts:1118-1169 | Exactly when the stay is not over and every night given back is free. |
| `StayOutcomes.ChangeDepartureIff` | apps/api/src/bookings/booking.service.ts:740-959 | Shortening always goes through; extending exactly when the nights are free, priced, and free in the guest's rooms. The stay is then held to the new departure. |
| `StayEffects.GivenUpRow` | apps/api/src/bookings/booking.service.ts:1744-1753 | A rejected or cancelled booking is the one it was but for the status, its segments let go in their rooms. |
| `StayEffects.NoShowRow` | apps/api/src/bookings/booking.service.ts:1760-1785 | The row says from when nights were given back, segments stop there, and a provider's booking is reported to it. |
| `StayEffects.CheckOutRow` | apps/api/src/bookings/booking.service.ts:1350-1365 | The row says from when, unless the guest left on arrival or before, when the whole stay is given back without a date. |
| `StayEffects.UndoCheckInIff` | apps/api/src/bookings/booking.service.ts:1018-1061 | Exactly where it may be undone, and only the status goes back to Approved. |
| `StayEffects.UndoCheckOutIff` | apps/api/src/bookings/booking.service.ts:1068-1111 | Exactly where it may be undone and every night given back is open with enough rooms. |
| `StayEffects.UndoCheckOutRow` | apps/api/src/bookings/booking.service.ts:1068-1111 | The guest is in house again, the date of the release gone, and the row otherwise as it was. |
| `StayEffects.UndoCheckOutSegments` | apps/api/src/inventory/room-units.service.ts:1124-1155 | Segments cut run on, or those let go last are live, each in its room unless that is another's on one of its nights. |
| `StayEffects.ReinstatedRow` | apps/api/src/bookings/booking.service.ts:1118-1169 | Approved, the date of the release gone, and otherwise as it was. |
| `StayEffects.ReinstatedSegments` | apps/api/src/bookings/booking.service.ts:1118-1169 | Its segments come back as after an undone check-out. |
| `StayEffects.VoidIff` | apps/api/src/bookings/booking.service.ts:1176-1220 | Exactly a booking still to come, where allowed and once; then cancelled and voided, holding nothing, with no live segment. |
| `StayEffects.ReleaseHoldIff` | apps/api/src/reservations/lifecycle.service.ts:90-114 | Exactly a hold still to come; then cancelled, holding nothing. |
| `StayEffects.ReleaseDueIff` | packages/db/src/lifecycle.ts:291-324 | Exactly a hold whose release time has come; then cancelled, holding nothing. |
| `StayEffects.ExpireIff` | packages/db/src/lifecycle.ts:376-431 | Exactly a booking still unconfirmed after its arrival day; then cancelled, holding nothing. |
| `StayEffects.SeatedAsPicked` | apps/api/src/inventory/room-units.service.ts:1053-1076 | A segment's room is the one it had or, if it had none, one picked for it. |
| `StayEffects.SwitchSays` | apps/api/src/bookings/booking.service.ts:625-650 | With no room dirty nothing changes; otherwise only segments in dirty rooms lose theirs, and every room of tonight is known and clean. |
| `StayAmends.AmendIff` | apps/api/src/bookings/booking.service.ts:2083-2268 | Dates or rooms change exactly when the booking is no provider's and not over, the proposal is a stay with every night priced, every night is free once its own rooms are back, and its segments can follow: one free room for a guest in house, otherwise unsplit, with rooms and positions free. |
| `StayAmends.DetailsIff` | apps/api/src/bookings/booking.service.ts:2097-2119 | Without such a change there is only the guest's details to change, and the tables stay as they are. |
| `StayAmends.AmendedStay` | apps/api/src/bookings/booking.service.ts:1888-1956 | The dates and rooms are those proposed; a date the stay had keeps its whole night, any other has its own quoted price, base and tax. |
| `StayAmends.AmendedTotals` | apps/api/src/bookings/booking.service.ts:1944-1955 | The totals are the rooms times the columns of those nights. |
| `StayAmends.AmendedBillLine` | apps/api/src/bookings/booking.service.ts:2320-2367 | The charges that fit stand, the others are voided, and exactly the nights charged before that are still in the stay are charged, at their price and tax. |
| `StayAmends.AmendedRooms` | apps/api/src/bookings/booking.service.ts:2155-2290 | A booking that holds rooms holds the new ones up to the new departure, and the channel hears of both stays at once; one that does not leaves calendar and channel alone. |
| `StayAmends.AmendedSegments` | apps/api/src/inventory/room-units.service.ts:1177-1217 | Every live segment that stays follows in its position and room; positions from the new number of rooms up are gone, missing ones come without a room, and no other segment is touched. |
| `RoomMoves.AssignIff` | apps/api/src/inventory/room-units.service.ts:350-448 | A segment is put in a usable room free over it, or in none before its arrival day; a guest in house keeps the room; nothing else changes. |
| `RoomMoves.MoveRoomIff` | apps/api/src/inventory/room-units.service.ts:474-620 | A guest with a room is moved from a night of the segment that is not past, or before arrival as a whole; a move made now needs the target room and the new segment's key free. |
| `RoomMoves.MovePlanned` | apps/api/src/inventory/room-units.service.ts:474-620 | A planned move only writes the plan down. |
| `RoomMoves.MoveMoves` | apps/api/src/inventory/room-units.service.ts:560-620 | Any other: every night of the segment before the date is in the old room, from the date on in the target; a segment is added only when there are nights of both, and no other changes. |
| `RoomMoves.ApplyIff` | packages/db/src/housekeeping-ops.ts:332-438 | A due move is dealt with unless its segment is as planned and the target room, or the key, is not free. |
| `RoomMoves.MoveStops` | packages/db/src/housekeeping-ops.ts:361-377 | A move whose segment is no longer as planned is stopped, and nothing else changes. |
| `RoomMoves.MoveApplies` | packages/db/src/housekeeping-ops.ts:379-422 | Any other puts every night of the segment in the room it should be in and is completed with the segment the guest is then in. |
| `RoomMoves.LaterMovesFollow` | packages/db/src/housekeeping-ops.ts:401-412 | A later planned move of the segment names the segment its date is now in, in the target room; every other move stands. |
| `RoomKeys.StepKeepsKeys` | packages/db/src/schema/bookings.ts:390-396 | No transaction gives two segments of a booking one position and arrival, those that never look at the key included. |
| `RoomKeys.ReachableKeys` | packages/db/src/schema/bookings.ts:390-396 | So the unique key holds in every reachable state. |
| `StayLimits.ReinstateCancelledIff` | apps/api/src/bookings/booking.service.ts:1118-1169 | A cancellation comes back exactly when it was a confirmed kind, not over, not voided and every night is free. |
| `StayLimits.InquiryStaysCancelled` | packages/db/src/schema/bookings.ts:274-280 | A run from the empty house to a cancelled inquiry: with every night free it is refused by its row constraint. |
| `StayLimits.UnguardedReleasesAreHeld` | apps/api/src/bookings/booking.service.ts:1357-1365 | A reachable booking that can be marked a no-show or checked out holds all its nights, so the unguarded releases are sound. |
| `StayLimits.RecountIff` | apps/api/src/inventory/rooms.service.ts:202-308 | Re-opening a night with its own allotment keeps its counter exactly when no guest who left on arrival had it, or it was full; it never oversells. |
| `StayLimits.RecountLosesNights` | apps/api/src/inventory/rooms.service.ts:202-308 | A run from the empty house after which the recount closes two free nights. |
| `StayLimits.StaleMoveRevives` | packages/db/src/housekeeping-ops.ts:361-396 | A run from the empty house, every step safe, after which the sweep gives a shortened stay a live segment past its departure. |
| `StayLimits.StaleDeskRevives` | apps/api/src/inventory/room-units.service.ts:474-620 | In the same state a move at the desk breaks it too. |
| `StayLimits.WholeReleaseGivesTwice` | packages/db/src/lifecycle.ts:112-152 | A run from the empty house after which one guest's whole stay, released twice, puts both rooms on sale while the other guest has one. |
| `ReleaseReclaim.TwoReleasesIff` | packages/db/src/lifecycle.ts:97-165 | Any two releases, whole or partial, amount to one at the earlier date if and only if the first was partial or the second starts no earlier than the date the row reads as held to. |
| `ReleaseReclaim.TwoReleasesRowIff` | packages/db/src/lifecycle.ts:140-165 | Exactly when their marker is that of one release at the earlier date. |
| `ReleaseReclaim.ReleasesAddUpIff` | packages/db/src/lifecycle.ts:97-165 | Any sequence of releases gives no night back twice if and only if none comes after a whole one and before the date the row still reads as held to. |
| `ReleaseReclaim.ReleasesAddUp` | packages/db/src/lifecycle.ts:97-165 | Partial releases, in any number, leave the row and the rooms one at the earliest date leaves. |
| `ReleaseReclaim.ReclaimAfterReleases` | packages/db/src/lifecycle.ts:97-240 | After any sequence of partial releases, whatever others did since: the nights given are taken back exactly when every one can be taken; the row is then the one before them, unmarked, and the segments tile the whole stay. |
| `ReleaseReclaim.ReleasesThenReclaim` | packages/db/src/lifecycle.ts:97-240 | With nobody in between, that restores the calendar and the bookings, and is refused exactly when one of those nights has been closed for sale. |
| `ReleaseReclaim.CalendarHidesIff` | packages/db/src/inventory.ts:51-65 | The calendar hides a second giving back exactly when no night of it had, before the first, more than the booking's rooms short of its quantity. |
| `ReleaseReclaim.NoShowThenReinstate` | packages/db/src/lifecycle.ts:179-240 | A no-show reinstated before a night is resold is the booking it was, fully covered. |
| `ReleaseReclaim.CheckOutThenUndo` | apps/api/src/bookings/booking.service.ts:1702-1726 | An early check-out undone is the stay it was, fully covered. |
| `ReleaseReclaim.CancelThenReinstate` | apps/api/src/bookings/booking.service.ts:1118-1169 | A cancellation reinstated is the booking it was, fully covered. |
| `ReleaseReclaim.ExtendThenShorten` | apps/api/src/bookings/booking.service.ts:740-959 | Extending and then cutting back restores calendar, segments, nights, totals and bill. |
| `Concurrency.StepKeeps` | packages/db/src/inventory.ts:28-48 | One step of any of many reservations keeps stock plus takings, exclusive locks and truthful before-images. |
| `Concurrency.BeginSays` | packages/db/src/inventory.ts:28-48 | A reservation of at least one night and room begins with nothing taken. |
| `Concurrency.AdvanceSays` | packages/db/src/inventory.ts:28-48 | Its next night, once no other running reservation has taken it, is decremented if open with enough rooms; otherwise it is rolled back. |
| `Concurrency.CommitSays` | packages/db/src/inventory.ts:28-48 | It commits once it has its last night. |
| `Concurrency.NeverOversold` | packages/db/src/inventory.ts:28-48 | In every interleaving stock plus committed and in-flight takings is constant on every night and no night is oversold. |
| `Concurrency.AllOrNothing` | packages/db/src/inventory.ts:28-48 | A committed reservation has all its nights; where one was rolled back, every night has exactly the stock the others leave it. |
| `Concurrency.RollBackPutsBack` | packages/db/src/inventory.ts:28-48 | Rolling back, asked for or on a full night, puts exactly the rooms taken back on exactly the nights taken, and the reservation is over for good. |
| `Concurrency.NoDeadlock` | packages/db/src/inventory.ts:28-48 | While a reservation runs, one of them can move without waiting. |
| `Money.ToCents` | packages/domain/src/money.ts:15-18 | The nearest whole cent, a half going away from zero. |
| `Money.HandOut` | packages/domain/src/money.ts:48-54 | The leftover cents go one each to the first parts in order; the loop ends within one pass. |
| `Money.SplitProportional` | packages/domain/src/money.ts:32-57 | Floors plus the leftover cents to the shares cut the most, ties to the earlier; negative weights count as zero, all-zero weights split evenly, a negative total mirrors. |
| `Money.SharesAre` | packages/domain/src/money.ts:35-42 | With a positive weight the positive ones are the shares and the others count as nothing; with none every part has the same share. |
| `Money.LeftoverWithinOnePass` | packages/domain/src/money.ts:46-54 | Fewer cents are left over than there are parts. |
| `Money.FloorOrCeiling` | packages/domain/src/money.ts:25-31 | Every part is the floor or ceiling of its exact share. |
| `Money.ZeroWeightGetsNothing` | packages/domain/src/money.ts:39-42 | A zero weight gets nothing unless all are zero; then the split is even to the cent. |
| `Money.LargerShareNeverLess` | packages/domain/src/money.ts:25-31 | A larger weight never gets less. |
| `Money.SplitUnique` | packages/domain/src/money.ts:48-54 | The rule leaves no choice: two such splits are the same. |
| `Money.LeastDeviation` | packages/domain/src/money.ts:25-31 | No other whole-cent split of the total is closer to the exact shares in total absolute deviation. |
| `SmartPolicy.ValidateBands` | packages/domain/src/smart-property.ts:140-162 | No issue exactly when the bands are well formed, uniquely named and disjoint; the ages collected are those covered. |
| `SmartPolicy.ValidateSmartPolicy` | packages/domain/src/smart-property.ts:111-182 | No issue exactly when the policy is valid; a room that takes children gives every age from 0 to 17 exactly one band. |
| `SmartPolicy.AllAgesIffEighteen` | packages/domain/src/smart-property.ts:163-164 | Counting eighteen ages is covering every one. |
| `SmartQuote.QuoteSmartNight` | packages/domain/src/smart-property.ts:185-328 | A request that may be priced gets its charges, lines, minimum check and exception; any other the empty refusal. |
| `SmartCharges.RoomLimits` | packages/domain/src/smart-property.ts:96-162 | When the policy of a room is valid, in numbers: counts of at most a hundred that fit within one another, amounts of at most ten thousand million, every age from 0 to 17 in a band if children are taken. |
| `SmartCharges.BandLimits` | packages/domain/src/smart-property.ts:98-104 | A band has a name, an id, ages from 0 to 17 and a rule of at most ten thousand million or a hundred thousand points. |
| `SmartCharges.MealLimits` | packages/domain/src/smart-property.ts:165-181 | A room-only plan charges adults nothing for meals; any other has a rule for every band. |
| `SmartCharges.GuestLimits` | packages/domain/src/smart-property.ts:225-251 | Guests may be quoted for when there is someone, within the limits of each kind, of the room, and of its normal places with the beds and cots asked for. |
| `SmartCharges.SupplementCharges` | packages/domain/src/smart-property.ts:105-109 | A fixed supplement is its amount; a share is the nearest whole unit of the adult's charge times the basis points over ten thousand, a half going up. |
| `SmartCharges.ShareGrows` | packages/domain/src/smart-property.ts:105-109 | Ten thousand points are the adult's charge, and more points never charge less. |
| `SmartCharges.BedCharged` | packages/domain/src/smart-property.ts:252-266 | A child is charged by the one band that has its age, on the extra adult's charge. |
| `SmartCharges.BoardCharged` | packages/domain/src/smart-property.ts:270-274 | And for meals by the plan's rule for that band, on the adult's meals; a room-only plan charges none. |
| `SmartCharges.ChargedExactly` | packages/domain/src/smart-property.ts:252-280 | The children's line and the meals' line are those charges, the included places covering whichever children make them least. |
| `SmartCharges.QuoteSays` | packages/domain/src/smart-property.ts:262-328 | The quote line by line, its total, its minimum check and its exception, in terms of the policy and the guests. |
| `SmartQuote.CheckGuests` | packages/domain/src/smart-property.ts:225-256 | Each fault of the guests is raised under its own code, in order, and nothing else. |
| `SmartQuote.DearestCovered` | packages/domain/src/smart-property.ts:262-268 | Sorting and cutting computes the child-by-child minimum. |
| `SmartQuote.ChildrenPayLeast` | packages/domain/src/smart-property.ts:262-268 | Covering the dearest first costs no more than any choice of which children use the included places, and some choice costs that. |
| `SmartQuote.EntryOrderFree` | packages/domain/src/smart-property.ts:262-280 | The order the children are entered in changes nothing a quote says. |
| `SmartQuote.BandOrderFree` | packages/domain/src/smart-property.ts:252-256 | Nor does the order of the policy's age bands. |
| `SmartQuote.MoreChildren` | packages/domain/src/smart-property.ts:258-323 | One more child in the same beds never lowers the total, nor takes it below the minimum. |
| `SmartQuote.MoreAdults` | packages/domain/src/smart-property.ts:258-323 | Nor does one more adult, even one who takes a child's place. |
| `SmartQuote.LinesAddUp` | packages/domain/src/smart-property.ts:281-308 | The lines add up to the total, typed-over rates included. |
| `Tax.GrossUpUndone` | packages/domain/src/tax.ts:12-36 | For every whole-cent amount and all non-negative rates, the tax taken out of the grossed-up price leaves the amount. |
| `Tax.TaxWithinPrice` | packages/domain/src/tax.ts:12-15 | The tax in a price is between nothing and the price. |
| `Tax.NotInverseBothWays` | packages/domain/src/tax.ts:25-36 | The other way round is not exact: 3 cents at 18% VAT gross up again to 4. |
| `Tax.PriceComesBackIff` | packages/domain/src/tax.ts:25-36 | A price survives the round trip if and only if a whole cent lies from (price - 1/2)/F up to, but not at, (price + 1/2)/F, F being the product of one plus each rate. |
| `Tax.AllComeBackIff` | packages/domain/src/tax.ts:25-36 | Every price does so if and only if nothing is taxed. |
| `Settlement.SlabFound` | packages/domain/src/commission.ts:31-36 | The commission of the first slab that covers the base, both ends included; none exactly when no slab does. |
| `Settlement.CommissionCovers` | packages/domain/src/commission.ts:27-29 | A percentage commission is that share of the price it makes, and under a cent more. |
| `Settlement.WholeCentsReconcile` | packages/domain/src/finance.ts:65-81 | Whole cents decompose without rounding: taxes, base, commission and the OTA's rest are the charge. |
| `Settlement.UntaxedSettlement` | packages/domain/src/finance.ts:24-38 | With no tax the two settlements agree. |
| `Settlement.SettlesAsPriced` | packages/domain/src/finance.ts:65-81 | From base to guest price and back: same base and commission, no negative part, the OTA at its rate and under a cent above. |
| `Settlement.PricedDaySettles` | packages/domain/src/pricing.ts:37-45 | The same through the percentage commission. |
| `TaxSplit.SplitInclusiveTax` | packages/domain/src/tax-split.ts:43-75 | One line per live tax, in order, adding up to the stored tax. |
| `TaxSplit.LiveCounts` | packages/domain/src/tax-split.ts:48-48 | A component is split exactly when it has a rate and stands in one of the three slots. |
| `TaxSplit.ExactAddUpToTax` | packages/domain/src/tax-split.ts:51-65 | The compounded shares are together exactly what the legacy engine takes out of the price. |
| `TaxSplit.LinesNearExact` | packages/domain/src/tax-split.ts:53-65 | Each line is within a cent and a half of its own compounded amount. |
| `RatePolicy.OverridePrices` | packages/domain/src/rate-policy.ts:44-63 | The price of every night under each mode; a typed total of either sign is split as SplitProportional splits; a missing date is the only error. |
| `RatePolicy.DiscountTakesOff` | packages/domain/src/rate-policy.ts:60-61 | A discount takes off its hundredths of the price. |
| `RatePolicy.ScaledNearest` | packages/domain/src/rate-policy.ts:91-97 | A scaled amount is to the new untaxed price as the amount is to the old, to the nearest cent. |
| `RatePolicy.OverrideSolvent` | packages/domain/src/rate-policy.ts:76-98 | No override promises more than the untaxed price. |
| `RatePolicy.OverrideScales` | packages/domain/src/rate-policy.ts:91-97 | Base and commission scale to the nearest cent; the commission gives up at most one. |
| `RatePolicy.OverrideIdentity` | packages/domain/src/rate-policy.ts:76-98 | Typing the list price back in changes nothing. |
| `RatePolicy.PolicyNightSettles` | packages/domain/src/rate-policy.ts:109-122 | Override then exemption: the untaxed price does not move, the lines left are the tax left, the OTA's margin is never negative. |
| `RatePolicy.NightLines` | apps/api/src/reservations/pricer.ts:346-346 | The lines of a night's own tax add up to it, whatever is live; no live tax is no tax. |
| `RatePolicy.PriceNight` | apps/api/src/reservations/pricer.ts:301-351 | One night from the calendar's price through a typed price, the split of its tax and an exemption: the lines add up to the tax, the untaxed price is that of the price asked, the excused lines are gone, and a typed price is never oversold to owner, platform and OTA. |
| `RatePolicy.NothingExemptibleLeft` | packages/domain/src/rate-policy.ts:116-121 | What is kept is exactly the lines that are not exemptible. |
| `TaxEngine.ForwardTaxLines` | packages/domain/src/tax-engine.ts:72-96 | The applying taxes in order, each rounded on its own, compound ones on everything before. |
| `TaxEngine.ForwardNight` | packages/domain/src/tax-engine.ts:99-107 | Net plus lines is the selling price. |
| `TaxEngine.SellingMonotone` | packages/domain/src/tax-engine.ts:54-107 | For slabs that partition the cents with non-falling rates, stored in any order, more before tax never sells for less. |
| `TaxEngine.GapMakesItCheaper` | packages/domain/src/tax-engine.ts:54-63 | With a gap above the slab it does. |
| `TaxEngine.SellingMonotoneIff` | packages/domain/src/tax-engine.ts:54-107 | For any list of taxes, slabs overlapping or with gaps, compound or not: more before tax never sells for less if and only if at the top of every slab the whole tax is at most one cent above the tax on the next cent. |
| `TaxEngine.LadderPicks` | packages/domain/src/tax-engine.ts:54-63 | A tax whose slabs partition the cents applies one slab to each cent value, both ends included. |
| `TaxEngine.ChargedTaxes` | packages/domain/src/tax-engine.ts:54-76 | The taxes charged are those with a rate whose slab, both ends included, has the net, each as often as it is stored. |
| `TaxEngine.ChargedInOrder` | packages/domain/src/tax-engine.ts:77-77 | By priority, and where it is the same by name, character by character. |
| `Sorting.SortStable` | packages/domain/src/tax-engine.ts:74-77 | Entries that tie keep the order they are stored in. |
| `TaxEngine.LineCharges` | packages/domain/src/tax-engine.ts:78-93 | A simple tax is charged on the net whatever stands before it, a compound one on the net and the lines before it; each rounded on its own. |
| `TaxEngine.SimpleBurden` | packages/domain/src/tax-engine.ts:80-82 | Unrounded, simple taxes come to the net times the sum of their rates. |
| `TaxEngine.CompoundBurden` | packages/domain/src/tax-engine.ts:80-82 | Unrounded, compound taxes come to the net times the product of one plus each rate, less one. |
| `TaxEngine.CompoundRounding` | packages/domain/src/tax-engine.ts:78-94 | The rounded tax is within half a cent times the sum of (1+r)^k, k below n, of the net times each rate grown by the compound taxes after it. |
| `TaxEngine.GstHalves` | packages/domain/src/tax-engine.ts:113-116 | The halves are the amount and differ by at most a cent, central first. |
| `TaxEngine.DisplayTaxLines` | packages/domain/src/tax-engine.ts:122-137 | Each GST line gives way to its two halves, in place. |
| `TaxEngine.PrintedBetween` | packages/domain/src/tax-engine.ts:122-137 | Each line prints in its place: as it is, or as CGST and then SGST at half its rate, the odd cent on CGST. |
| `TaxEngine.DisplayConserves` | packages/domain/src/tax-engine.ts:118-137 | Printing keeps every cent and every percent and leaves no line to split. |
| `Invoice.SummariseTaxes` | packages/domain/src/invoice-rules.ts:226-250 | One row per tax name and rate, headed as its first line, holding its lines' cents, in order. |
| `Invoice.RowHead` | packages/domain/src/invoice-rules.ts:233-244 | A row has the key, name, rate and priority of its tax's first line, and the cents of all of them. |
| `Invoice.SharesRow` | packages/domain/src/invoice-rules.ts:233-236 | Lines share a row exactly when their rates are one and their names differ at most in case and in blanks at either end. |
| `Invoice.RowsInOrder` | packages/domain/src/invoice-rules.ts:247-248 | The rows stand by priority, and by name where it is the same. |
| `Invoice.SummaryConserves` | packages/domain/src/invoice-rules.ts:222-250 | The rows add up to the lines' cents. |
| `Outbox.OutboxTable.Enqueue` | packages/db/src/outbox.ts:19-27 | A pending row with no attempts. |
| `Outbox.OutboxTable.ClaimPending` | packages/db/src/outbox.ts:45-56 | The oldest pending rows up to the limit, passing over locked ones, and no other row. |
| `Outbox.OutboxTable.MarkSent` | packages/db/src/outbox.ts:58-63 | The row as sent, its error cleared. |
| `Outbox.OutboxTable.MarkRetry` | packages/db/src/outbox.ts:65-75 | The attempt recorded, the status unchanged. |
| `Outbox.OutboxTable.MarkFailed` | packages/db/src/outbox.ts:77-87 | The row dead-lettered with its attempts. |
| `Outbox.OutboxTable.RequeueStale` | packages/db/src/outbox.ts:97-112 | Stale rows back to pending, exhausted ones dead-lettered, the rest untouched. |
| `Delivery.StepKeeps` | apps/worker/src/main.ts:125-214 | Any step of relays, workers, listeners, crashes and sweeps keeps the queue and the table consistent. |
| `DeliverySteps.LockSays` | packages/db/src/outbox.ts:45-56 | A relay locks rows that are pending and that nobody has locked, and only locks them. |
| `DeliverySteps.ClaimSays` | packages/db/src/outbox.ts:45-56 | Its claim has exactly those rows processing, each to be added to the queue once more. |
| `DeliverySteps.AddSays` | apps/worker/src/main.ts:194-210 | A row becomes a job of no attempts made, unless the queue has one for it already. |
| `DeliverySteps.PushSays` | apps/worker/src/main.ts:127-146 | A job taken is pushed once, and its push is accepted or refused. |
| `DeliverySteps.MarkSays` | apps/worker/src/main.ts:147-153 | The worker writes down a row it sent, with the attempt, or the attempt and its error. |
| `DeliverySteps.FinishSays` | apps/worker/src/main.ts:162-178 | A failed attempt counts; with none left the job leaves the queue with a verdict on its row. |
| `DeliverySteps.ListenSays` | apps/worker/src/main.ts:162-178 | The listener buries the row with the attempts of its verdict. |
| `DeliverySteps.SweepSays` | packages/db/src/outbox.ts:97-112 | The sweep changes exactly rows in processing for over two minutes; an operator replays a dead letter whose job is gone. |
| `DeliverySteps.AcceptedIff` | apps/worker/src/main.ts:136-146 | Over any run a row counts as accepted exactly when a push of it was, somewhere in the run. |
| `DeliverySteps.DeliveredWasPushed` | apps/worker/src/main.ts:136-146 | So a row reads as delivered only after a push of it that the channel accepted. |
| `DeliveryRuns.ClaimedOnce` | packages/db/src/outbox.ts:41-56 | In every run no row is in two open claims, and a row is claimed once and again only for each time it was put back; sent means accepted. |
| `DeliveryRuns.MarkedForCause` | apps/worker/src/main.ts:125-178 | A row is marked sent only after an accepted push, and failed only with its attempts used up. |
| `DeliveryRuns.UsefulDrops` | apps/worker/src/main.ts:125-214 | Every step that is no crash brings the end nearer, whichever way a push goes. |
| `DeliveryRuns.SettlesWithin` | apps/worker/src/main.ts:190-214 | From any state, without further crashes and while only abandoned rows go stale, a run ends within the measure with every row sent or failed. |
| `DeliveryRuns.WorkEnds` | apps/worker/src/main.ts:190-214 | However often rows go stale under those working on them, a run takes at most the measure and, for each time a row was put back, all its attempts once more. |
| `DeliveryRuns.CanSettle` | packages/db/src/outbox.ts:89-112 | From whatever state crashes leave, such a run exists. |
| `DeliveryRuns.BuriedAfterDeliveryIff` | apps/worker/src/main.ts:162-178 | A sent row can still be marked failed exactly while a job, an unfinished claim or a late verdict is working on it. |
| `DeliveryRuns.BuriedAfterDelivery` | apps/worker/src/main.ts:162-214 | A run from the empty table, no step a crash, that ends with a sent row of which this is so. |
| `Numbering.Sequences.NextNumber` | packages/db/src/sequences.ts:24-43 | Hands out the next value and bumps it; a missing series starts at 1. |
| `Numbering.TakeSays` | packages/db/src/sequences.ts:17-43 | A transaction takes a series' next number once no other holds the series, and bumps it; a missing series starts at 1. |
| `Numbering.EndSays` | packages/db/src/sequences.ts:17-43 | Its numbers are issued when it commits, in the order taken; rolled back, its series read as it found them. |
| `Numbering.TakeKeeps` | packages/db/src/sequences.ts:17-43 | Taking a number under the row lock keeps every series gap-free. |
| `Numbering.UndoneKeeps` | packages/db/src/sequences.ts:17-43 | So does rolling back: the numbers are given back. |
| `Numbering.GapFree` | packages/db/src/sequences.ts:17-43 | In every interleaving a series nobody holds has issued exactly 1, 2, 3 up to its next value, in commit order. |
| `Serials.PlainKeeps` | packages/domain/src/invoice-rules.ts:56-59 | Of a prefix or a branch code exactly the digits and capital letters are kept. |
| `Serials.PlainJoins` | packages/domain/src/invoice-rules.ts:56-59 | In their order, piece by piece. |
| `Serials.InSerialFits` | packages/domain/src/invoice-rules.ts:49-66 | Never over sixteen characters; in a financial year exactly the numbers below a hundred million have a serial. |
| `Serials.SliceIs` | packages/domain/src/invoice-rules.ts:56-64 | A slice is the characters between its ends that there are. |
| `Serials.YearsPrint` | packages/domain/src/invoice-rules.ts:56-56 | A financial year shows the last two digits of its years; anything else is cut to its last five characters. |
| `Serials.InSerialPrints` | packages/domain/src/invoice-rules.ts:49-66 | As much of the prefix, or INV, as fits in sixteen characters, the two years, and the number in six digits or more. |
| `Serials.InSerialNeverRepeats` | packages/domain/src/invoice-rules.ts:54-66 | Two numbers of one Indian series never print the same, however the prefix is shortened. |
| `Serials.LkSerialFits` | packages/domain/src/invoice-rules.ts:124-136 | A date with a month has a serial, of at most forty characters, for exactly the numbers whose digits fit beside the branch code. |
| `Serials.LkSerialPrints` | packages/domain/src/invoice-rules.ts:124-136 | The year's two digits, the month's name, the branch and the number as it is. |
| `Serials.BranchPrints` | packages/domain/src/invoice-rules.ts:110-118 | No letters or digits is 0001, fewer than four digits are filled up with zeros, anything else is cut to twelve characters. |
| `Serials.LkSerialNeverRepeats` | packages/domain/src/invoice-rules.ts:124-136 | Two numbers of one Sri Lankan series never print the same. |
| `Serials.ReceiptPrints` | packages/db/src/sequences.ts:45-58 | RC, the year's two digits, and the number in five digits or more. |
| `Serials.ReferencePrints` | packages/db/src/bookings.ts:11-21 | The day without century and dashes, and the counter in four digits or more. |
| `Serials.ReceiptNeverRepeats` | packages/db/src/sequences.ts:45-58 | Two receipts of one year never print the same. |
| `Serials.ReferencesRepeatIff` | packages/db/src/bookings.ts:11-21 | Two booking references agree exactly for the same counter on days with the same year digits, month and day. |
| `DumpSchema.ReadBalanced` | apps/etl/src/dump-schema.ts:28-72 | The group ends at the first unquoted return to depth zero, or there is none. |
| `DumpSchema.SplitColumns` | apps/etl/src/dump-schema.ts:75-110 | Cuts exactly at the unquoted top-level commas, then trims and drops blanks. |
| `DumpSchema.GroupReadsBack` | apps/etl/src/dump-schema.ts:23-72 | A well-formed text in parentheses is read back whole, whatever surrounds it. |
| `DumpSchema.ColumnsReadBack` | apps/etl/src/dump-schema.ts:74-110 | Comma-joined definitions are split back into the same list. |
| `DumpSchema.StringIsOne` | apps/etl/src/dump-schema.ts:34-48 | A string in any of the three quotes is one definition whatever is in it: commas, parentheses, escaped and doubled quotes. |
| `DumpSchema.RoundTrip` | apps/etl/src/dump-schema.ts:28-110 | Wrapping, reading and splitting returns the definitions. |

## Left out

- ReadBalanced: SQL comments are not read, in the code or here.
- Bit-for-bit floating point and the `toPrecision(12)` noise strip: the arithmetic is exact; amounts, counts and ages are whole numbers where the code checks that they are.
- The pricer beyond one night of a tax-inclusive stay: what it quotes for each date is a parameter of create, extend and amend.
- Readiness checks at check-in, balance policy at check-out, and the undo guards (same day, no payment, no invoice): one boolean each.
- A hold's release time having to lie in the future; which due rows a sweep finds unlocked, in which order and up to which limit; whether a property expires unconfirmed bookings.
- More than one room type, groups, and composed reservations; the customer record an amendment of guest details writes.
- Maintenance blocks, room features and the search for a free room: which room is asked for, picked at check-in or preferred, and which rooms are dirty, are parameters.
- Exchanging two guests' rooms and stopping a planned move: they change no dates.
- Owner edits to availability and to document sequences, and the raw reserve and release endpoints: the allotment and each series' start are fixed.
- Calendar dates are day numbers and instants whole seconds; time zones are not part of this model.
- Receiving side of the channel, the adapter's own retries, and the queue's back-off: a push is accepted or refused; a worker that dies leaves its job waiting or loses it.
- A dead letter is replayed only once its job has left the queue.
- Messages and labels of quote issues and lines; meal codes and modes are closed lists.
- Names are ordered by character code and lower-cased as ASCII, where the code asks the locale.
- Parsing of numbers in dates is digits only, where the code's Number() also takes signs and spaces.
- The regular expressions of the dump parser and its column typing.
- Notifications, emails, approvals, audit rows, row-level security and the HTTP layer.
