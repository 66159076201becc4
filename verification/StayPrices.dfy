/** What a stay is stored at and charged: the nights of a new, a longer, a shorter or an amended stay, the
    totals made from them, and the charges on its bill, in terms of what was asked and quoted. */
module StayPrices {
  import opened Tables
  import opened Wrappers
  import opened Money
  import opened Inventory
  import opened RoomLegs
  import opened Lifecycle
  import opened Folio
  import opened BookingRules
  import opened StayInvariant
  import opened StayKeeps
  import opened ChangeKeeps

  // ---- the totals, column by column ----

  function Sellings(nights: seq<Night>): seq<int> {
    seq(|nights|, i requires 0 <= i < |nights| => nights[i].selling)
  }

  function Bases(nights: seq<Night>): seq<int> {
    seq(|nights|, i requires 0 <= i < |nights| => nights[i].base)
  }

  function Taxes(nights: seq<Night>): seq<int> {
    seq(|nights|, i requires 0 <= i < |nights| => nights[i].tax)
  }

  lemma {:induction false} SumAppends(s: seq<int>, t: seq<int>, n: nat)
    requires n <= |s| && n <= |t| && s[..n] == t[..n]
    ensures SumFirst(s, n) == SumFirst(t, n)
  {
    if n == 0 {
    } else {
      assert s[n - 1] == s[..n][n - 1] && t[n - 1] == t[..n][n - 1];
      assert s[..n - 1] == s[..n][..n - 1] && t[..n - 1] == t[..n][..n - 1];
      SumAppends(s, t, n - 1);
    }
  }

  lemma {:induction false} ColumnSums(nights: seq<Night>)
    ensures SumSelling(nights) == Sum(Sellings(nights))
    ensures SumBase(nights) == Sum(Bases(nights))
    ensures SumTax(nights) == Sum(Taxes(nights))
  {
    if nights == [] {
    } else {
      var front := nights[..|nights| - 1];
      ColumnSums(front);
      SumAppends(Sellings(nights), Sellings(front), |front|);
      SumAppends(Bases(nights), Bases(front), |front|);
      SumAppends(Taxes(nights), Taxes(front), |front|);
    }
  }

  /** The amount, the base and the taxes of a stay are its rooms times each column of its nights, and what is
      commissionable is the amount without its taxes. */
  lemma TotalsByColumn(nights: seq<Night>, rooms: int)
    ensures var t := TotalsOf(nights, rooms);
            && t.amount == rooms * Sum(Sellings(nights)) && t.base == rooms * Sum(Bases(nights))
            && t.taxes == rooms * Sum(Taxes(nights)) && t.commissionable + t.taxes == t.amount
  {
    ColumnSums(nights);
  }

  /** A stored night is a quoted one, on its date. */
  predicate StoredAt(n: Night, d: Date, price: Night) {
    n.date == d && n.selling == price.selling && n.base == price.base && n.tax == price.tax
  }

  // ---- a new booking ----

  lemma {:induction false} FreeNights(c: Calendar, lo: Date, hi: Date, rooms: int)
    ensures CanTake(c, lo, hi, rooms) <==> forall d :: lo <= d < hi ==> d in c && c[d].open && c[d].toSell >= rooms
  {
    if CanTake(c, lo, hi, rooms) {
      forall d | lo <= d < hi ensures d in c && c[d].open && c[d].toSell >= rooms {
        assert HasRoom(c, d, rooms);
      }
    }
  }

  /** A new booking goes through exactly when it is a stay of whole nights and rooms, every night is priced, only a
      hold has a release time, and every night is free if its kind takes rooms. */
  lemma {:induction false} OpenIff(s: Db, kind: Kind, checkin: Date, checkout: Date, rooms: int,
                                   holdUntil: Option<int>, ota: bool, prices: seq<Night>)
    ensures Open(s, kind, checkin, checkout, rooms, holdUntil, ota, prices).Done? <==>
              && checkin < checkout && rooms >= 1 && |prices| == checkout - checkin
              && (holdUntil.Some? ==> kind == HoldConfirm || kind == HoldUnconfirm)
              && (kind != Inquiry ==> forall d :: checkin <= d < checkout ==>
                    d in s.calendar && s.calendar[d].open && s.calendar[d].toSell >= rooms)
  {
    FreeNights(s.calendar, checkin, checkout, rooms);
  }

  /** The row is what was asked for, with one night per date at its own quoted price, and the rooms times those
      prices as its totals. */
  lemma {:induction false} OpenedRow(s: Db, kind: Kind, checkin: Date, checkout: Date, rooms: int,
                                     holdUntil: Option<int>, ota: bool, prices: seq<Night>)
    requires Open(s, kind, checkin, checkout, rooms, holdUntil, ota, prices).Done?
    ensures var t := Open(s, kind, checkin, checkout, rooms, holdUntil, ota, prices).db;
            |t.bookings| == |s.bookings| + 1 && t.bookings[..|s.bookings|] == s.bookings
    ensures var b := Open(s, kind, checkin, checkout, rooms, holdUntil, ota, prices).db.bookings[|s.bookings|];
            && b.checkin == checkin && b.checkout == checkout && b.rooms == rooms && b.kind == kind
            && b.status == (if kind == Confirm || kind == HoldConfirm then Approved else Pending)
            && b.holdUntil == holdUntil && b.ota == ota && b.releasedFrom == None && !b.voided && b.charges == []
            && |b.nights| == checkout - checkin
            && (forall i :: 0 <= i < |prices| ==> StoredAt(b.nights[i], checkin + i, prices[i]))
            && b.totals.amount == rooms * Sum(Sellings(prices)) && b.totals.base == rooms * Sum(Bases(prices))
            && b.totals.taxes == rooms * Sum(Taxes(prices))
            && b.totals.commissionable == b.totals.amount - b.totals.taxes
  {
    var b := Open(s, kind, checkin, checkout, rooms, holdUntil, ota, prices).db.bookings[|s.bookings|];
    TotalsByColumn(b.nights, rooms);
    assert Sellings(b.nights) == Sellings(prices);
    assert Bases(b.nights) == Bases(prices);
    assert Taxes(b.nights) == Taxes(prices);
  }

  /** Its kind decides whether rooms leave the calendar and the channel hears of it; either way it gets one
      unassigned segment per room over the whole stay, and no other segment changes. */
  lemma {:induction false} OpenedRooms(s: Db, kind: Kind, checkin: Date, checkout: Date, rooms: int,
                                       holdUntil: Option<int>, ota: bool, prices: seq<Night>)
    requires LegIds(s) && Open(s, kind, checkin, checkout, rooms, holdUntil, ota, prices).Done?
    ensures var t := Open(s, kind, checkin, checkout, rooms, holdUntil, ota, prices).db;
            && t.calendar.Keys == s.calendar.Keys
            && (forall d :: d in s.calendar ==> t.calendar[d] == s.calendar[d].(toSell := s.calendar[d].toSell -
                  if kind != Inquiry && checkin <= d < checkout then rooms else 0))
            && t.outbox == s.outbox + (if kind == Inquiry then [] else [Reserve(Nights(checkin, checkout), rooms)])
            && t.nextLeg == s.nextLeg + rooms
            && (forall i :: i in t.legs <==> i in s.legs || s.nextLeg <= i < s.nextLeg + rooms)
            && (forall i :: i in s.legs ==> t.legs[i] == s.legs[i])
            && (forall k: nat :: k < rooms ==>
                  t.legs[s.nextLeg + k] == Leg(|s.bookings|, k, None, checkin, checkout, None))
  {
  }

  // ---- a later departure, and a sooner one ----

  /** The last of these segments to go on, in its room, meets the other on a night of [end, later). */
  predicate Meets(l: Leg, other: Leg, id: BookingId, end: Date, later: Date) {
    && l.booking == id && l.releasedAt == None && l.checkout == end && l.unit.Some?
    && other.releasedAt == None && other.unit == l.unit && end < other.checkout && other.checkin < later
  }

  /** In its rooms, from the old departure to the new one, a stay meets no other live segment. */
  predicate RoomsFree(legs: Legs, id: BookingId, end: Date, later: Date) {
    forall i, j {:trigger Meets(legs[i], legs[j], id, end, later)} :: i in legs && j in legs && i != j ==>
      !Meets(legs[i], legs[j], id, end, later)
  }

  lemma {:induction false} StretchFits(legs: Legs, id: BookingId, end: Date, later: Date)
    requires NoDoubleBooking(legs) && end < later && forall i :: i in legs ==> legs[i].checkin < legs[i].checkout
    ensures NoDoubleBooking(Stretch(legs, id, end, later, legs.Keys)) <==> RoomsFree(legs, id, end, later)
  {
    var next := Stretch(legs, id, end, later, legs.Keys);
    if RoomsFree(legs, id, end, later) {
      forall i, j | i in next && j in next && i != j ensures !Clash(next[i], next[j]) {
        assert !Clash(legs[i], legs[j]);
        assert !Meets(legs[i], legs[j], id, end, later) && !Meets(legs[j], legs[i], id, end, later);
      }
    } else {
      var i, j :| i in legs && j in legs && i != j && Meets(legs[i], legs[j], id, end, later);
      assert Clash(next[i], next[j]);
    }
  }

  /** A segment before and after: run on to another date, in its room. */
  predicate RunsOn(was: Leg, now: Leg, id: BookingId, end: Date, later: Date) {
    now == if was.booking == id && was.releasedAt == None && was.checkout == end then was.(checkout := later) else was
  }

  /** After an extension the stay has the nights it had and, for each new date, that date's own quoted prices; its
      charges and the rest of the row stand, and its last segments run on in their rooms. */
  lemma {:induction false} ExtendedStay(s: Db, opening: Calendar, tiled: bool, id: BookingId, departure: Date,
                                        today: Date, prices: seq<Night>)
    requires Inv(s, opening, tiled) && ChangeDeparture(s, id, departure, today, prices).Done?
    requires departure > s.bookings[id].checkout
    ensures |ChangeDeparture(s, id, departure, today, prices).db.bookings| == |s.bookings|
    ensures var was, b := s.bookings[id], ChangeDeparture(s, id, departure, today, prices).db.bookings[id];
            && b == was.(checkout := departure, nights := b.nights, totals := b.totals)
            && |b.nights| == departure - b.checkin && b.nights[..|was.nights|] == was.nights
            && |b.nights| == |was.nights| + |prices|
            && forall i :: 0 <= i < |prices| ==> StoredAt(b.nights[|was.nights| + i], was.checkout + i, prices[i])
    ensures var was, legs := s.bookings[id], ChangeDeparture(s, id, departure, today, prices).db.legs;
            && legs.Keys == s.legs.Keys
            && forall i :: i in s.legs ==> RunsOn(s.legs[i], legs[i], id, was.checkout, departure)
  {
    assert BillOk(s.bookings[id]) by { assert BookingOk(s, id, tiled); }
  }

  /** And its totals grow by its rooms times each new column. */
  lemma {:induction false} ExtendedTotals(s: Db, opening: Calendar, tiled: bool, id: BookingId, departure: Date,
                                          today: Date, prices: seq<Night>)
    requires Inv(s, opening, tiled) && ChangeDeparture(s, id, departure, today, prices).Done?
    requires departure > s.bookings[id].checkout
    ensures |ChangeDeparture(s, id, departure, today, prices).db.bookings| == |s.bookings|
    ensures var was, b := s.bookings[id], ChangeDeparture(s, id, departure, today, prices).db.bookings[id];
            && b.totals.amount == was.totals.amount + was.rooms * Sum(Sellings(prices))
            && b.totals.base == was.totals.base + was.rooms * Sum(Bases(prices))
            && b.totals.taxes == was.totals.taxes + was.rooms * Sum(Taxes(prices))
            && b.totals.commissionable == b.totals.amount - b.totals.taxes
  {
    var was := s.bookings[id];
    assert was.totals == TotalsOf(was.nights, was.rooms) by { assert BookingOk(s, id, tiled) && BillOk(was); }
    TotalsGrow(was.nights, was.checkout, prices, was.rooms);
  }

  lemma TotalsGrow(nights: seq<Night>, end: Date, prices: seq<Night>, rooms: int)
    ensures var was, now := TotalsOf(nights, rooms), TotalsOf(nights + Priced(end, prices), rooms);
            && now.amount == was.amount + rooms * Sum(Sellings(prices))
            && now.base == was.base + rooms * Sum(Bases(prices))
            && now.taxes == was.taxes + rooms * Sum(Taxes(prices))
            && now.commissionable == now.amount - now.taxes
  {
    TotalsByColumn(nights, rooms);
    TotalsByColumn(nights + Priced(end, prices), rooms);
    ColumnsJoin(nights, Priced(end, prices));
    assert Sellings(Priced(end, prices)) == Sellings(prices);
    assert Bases(Priced(end, prices)) == Bases(prices);
    assert Taxes(Priced(end, prices)) == Taxes(prices);
    Distribute(rooms, Sum(Sellings(nights)), Sum(Sellings(prices)));
    Distribute(rooms, Sum(Bases(nights)), Sum(Bases(prices)));
    Distribute(rooms, Sum(Taxes(nights)), Sum(Taxes(prices)));
  }

  lemma Distribute(n: int, x: int, y: int)
    ensures n * (x + y) == n * x + n * y
  {}

  lemma {:induction false} SumJoins(a: seq<int>, b: seq<int>, n: nat)
    requires n <= |b|
    ensures SumFirst(a + b, |a| + n) == Sum(a) + SumFirst(b, n)
  {
    if n == 0 {
      SumAppends(a + b, a, |a|);
    } else {
      SumJoins(a, b, n - 1);
    }
  }

  lemma ColumnsJoin(a: seq<Night>, b: seq<Night>)
    ensures Sum(Sellings(a + b)) == Sum(Sellings(a)) + Sum(Sellings(b))
    ensures Sum(Bases(a + b)) == Sum(Bases(a)) + Sum(Bases(b))
    ensures Sum(Taxes(a + b)) == Sum(Taxes(a)) + Sum(Taxes(b))
  {
    assert Sellings(a + b) == Sellings(a) + Sellings(b);
    assert Bases(a + b) == Bases(a) + Bases(b);
    assert Taxes(a + b) == Taxes(a) + Taxes(b);
    SumJoins(Sellings(a), Sellings(b), |b|);
    SumJoins(Bases(a), Bases(b), |b|);
    SumJoins(Taxes(a), Taxes(b), |b|);
  }

  /** A segment before and after: cut at a date, or released if it starts no sooner, in its room. */
  predicate StopsBy(was: Leg, now: Leg, id: BookingId, end: Date, at: int) {
    now == if was.booking != id || was.releasedAt.Some? || was.checkout <= end then was
           else if was.checkin < end then was.(checkout := end)
           else was.(releasedAt := Some(at))
  }

  /** After a sooner departure the stay has its first nights, the live charges of the others are voided and no
      other, and every segment ends by the departure, keeping its room. */
  lemma {:induction false} ShortenedStay(s: Db, opening: Calendar, tiled: bool, id: BookingId, departure: Date,
                                         today: Date, prices: seq<Night>)
    requires Inv(s, opening, tiled) && ChangeDeparture(s, id, departure, today, prices).Done?
    requires departure < s.bookings[id].checkout
    ensures |ChangeDeparture(s, id, departure, today, prices).db.bookings| == |s.bookings|
    ensures var was, b := s.bookings[id], ChangeDeparture(s, id, departure, today, prices).db.bookings[id];
            && b == was.(checkout := departure, nights := b.nights, totals := b.totals, charges := b.charges)
            && |b.nights| == departure - b.checkin <= |was.nights| && b.nights == was.nights[..|b.nights|]
            && b.totals.amount == b.rooms * Sum(Sellings(b.nights)) && b.totals.base == b.rooms * Sum(Bases(b.nights))
            && b.totals.taxes == b.rooms * Sum(Taxes(b.nights))
            && b.totals.commissionable == b.totals.amount - b.totals.taxes
            && |b.charges| == |was.charges|
            && forall i :: 0 <= i < |was.charges| ==>
                 b.charges[i] == was.charges[i].(voided := b.charges[i].voided)
                 && b.charges[i].voided == (was.charges[i].voided || departure <= was.charges[i].date < was.checkout)
    ensures var legs := ChangeDeparture(s, id, departure, today, prices).db.legs;
            && legs.Keys == s.legs.Keys
            && forall i :: i in s.legs ==> StopsBy(s.legs[i], legs[i], id, departure, s.now)
  {
    var was, b := s.bookings[id], ChangeDeparture(s, id, departure, today, prices).db.bookings[id];
    assert BillOk(was) by { assert BookingOk(s, id, tiled); }
    TotalsByColumn(b.nights, was.rooms);
    WithoutEnd(was.nights, was.checkin, departure, was.checkout, |was.nights|);
    assert was.nights[..|was.nights|] == was.nights;
  }

  // ---- the bill ----

  /** A live charge for a night: its price and its tax times the rooms, and what is left without the tax. */
  predicate ChargesNight(c: Charge, n: Night, d: Date, rooms: int) {
    && c.date == d && !c.voided && c.total == n.selling * rooms && c.tax == n.tax * rooms
    && c.net == c.total - c.tax
  }

  /** Night audit posts exactly a night of the stay that has no live charge, for a guest expected or in house, and
      changes nothing but the bill. */
  lemma {:induction false} PostNightIff(s: Db, opening: Calendar, tiled: bool, id: BookingId, date: Date)
    requires Inv(s, opening, tiled) && id < |s.bookings|
    ensures var b := s.bookings[id];
            PostNight(s, id, date).Done? <==>
              && (b.status == Approved || b.status == CheckedIn) && b.checkin <= date < b.checkout
              && forall i :: 0 <= i < |b.charges| && b.charges[i].date == date ==> b.charges[i].voided
    ensures PostNight(s, id, date).Done? ==>
              var was, t := s.bookings[id], PostNight(s, id, date).db;
              && t == s.(bookings := t.bookings) && |t.bookings| == |s.bookings|
              && t.bookings == s.bookings[id := was.(charges := t.bookings[id].charges)]
              && |t.bookings[id].charges| == |was.charges| + 1
              && t.bookings[id].charges[..|was.charges|] == was.charges
              && 0 <= date - was.checkin < |was.nights|
              && ChargesNight(t.bookings[id].charges[|was.charges|], was.nights[date - was.checkin], date, was.rooms)
  {
    assert BillOk(s.bookings[id]) by { assert BookingOk(s, id, tiled); }
  }

  lemma {:induction false} PostedLonger(charges: seq<Charge>, checkin: Date, nights: seq<Night>, rooms: int, n: nat)
    requires n <= |nights|
    ensures |charges| <= |Posted(charges, checkin, nights, rooms, n)|
  {
    if n == 0 {
    } else {
      PostedLonger(charges, checkin, nights, rooms, n - 1);
    }
  }

  /** Posting a stay leaves what is on the bill and adds, for nights that had no live charge, that night's. */
  lemma {:induction false} PostedLine(charges: seq<Charge>, checkin: Date, nights: seq<Night>, rooms: int, n: nat,
                                      i: nat)
    requires n <= |nights| && i < |Posted(charges, checkin, nights, rooms, n)|
    ensures var after := Posted(charges, checkin, nights, rooms, n);
            && (i < |charges| ==> after[i] == charges[i])
            && (i >= |charges| ==>
                  0 <= after[i].date - checkin < n && !Charged(charges, after[i].date)
                  && ChargesNight(after[i], nights[after[i].date - checkin], after[i].date, rooms))
  {
    if n == 0 {
    } else if i < |Posted(charges, checkin, nights, rooms, n - 1)| {
      PostedLine(charges, checkin, nights, rooms, n - 1, i);
    } else {
      PostedLonger(charges, checkin, nights, rooms, n - 1);
    }
  }

  /** Posting a stay changes only its bill, which keeps its lines and then has every night of the stay. */
  lemma {:induction false} PostedStay(s: Db, id: BookingId, d: Date, i: nat)
    requires PostStay(s, id).Done?
    ensures |PostStay(s, id).db.bookings| == |s.bookings|
    ensures var was, t := s.bookings[id], PostStay(s, id).db; var charges := t.bookings[id].charges;
            && t == s.(bookings := s.bookings[id := was.(charges := charges)])
            && (was.checkin <= d < was.checkin + |was.nights| ==> Charged(charges, d))
            && (i < |was.charges| ==> i < |charges| && charges[i] == was.charges[i])
            && (|was.charges| <= i < |charges| ==>
                  0 <= charges[i].date - was.checkin < |was.nights| && !Charged(was.charges, charges[i].date)
                  && ChargesNight(charges[i], was.nights[charges[i].date - was.checkin], charges[i].date, was.rooms))
  {
    var b := s.bookings[id];
    PostedCharges(b.charges, b.checkin, b.nights, b.rooms, |b.nights|, d);
    PostedLonger(b.charges, b.checkin, b.nights, b.rooms, |b.nights|);
    if i < |PostStay(s, id).db.bookings[id].charges| {
      PostedLine(b.charges, b.checkin, b.nights, b.rooms, |b.nights|, i);
    }
  }

  /** The charge is for a night of the stay and of the right total. */
  predicate Fitting(c: Charge, checkin: Date, nights: seq<Night>, rooms: int) {
    0 <= c.date - checkin < |nights| && c.total == nights[c.date - checkin].selling * rooms
  }

  /** Reconciling a bill voids exactly the live charges whose night is no longer in the stay or costs another total,
      and every line it adds is for a night of the stay, at that night's price and tax. */
  lemma {:induction false} ReconciledLine(charges: seq<Charge>, checkin: Date, nights: seq<Night>, rooms: int, i: nat)
    requires i < |Reconciled(charges, checkin, nights, rooms)|
    ensures var after := Reconciled(charges, checkin, nights, rooms);
            && (i < |charges| ==>
                  after[i] == charges[i].(voided := charges[i].voided || !Fitting(charges[i], checkin, nights, rooms)))
            && (i >= |charges| ==>
                  0 <= after[i].date - checkin < |nights|
                  && ChargesNight(after[i], nights[after[i].date - checkin], after[i].date, rooms))
  {
    assert |Voided(charges, checkin, nights, rooms, |charges|)| == |charges|;
    if i >= |charges| {
      RepostsFrom(charges, checkin, nights, rooms, |charges|, i - |charges|);
    }
  }
}
