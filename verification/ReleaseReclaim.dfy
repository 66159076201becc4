/** Giving nights back in steps, and taking them back again. */
module ReleaseReclaim {
  import opened Tables
  import opened Wrappers
  import opened Inventory
  import opened RoomLegs
  import opened Lifecycle
  import opened Folio
  import opened BookingRules
  import opened StayInvariant
  import opened StayKeeps
  import opened ChangeKeeps

  // ---- releases one after the other ----

  /** Releases one after the other, each reading the row the last one left. */
  function Releases(s: Db, id: BookingId, points: seq<Option<Date>>): (t: Db)
    requires id < |s.bookings|
    ensures |t.bookings| == |s.bookings|
    decreases |points|
  {
    if points == [] then s
    else Releases(ReleaseInventory(s, id, s.bookings[id], points[0]), id, points[1..])
  }

  /** Where a release starts: at its point, or at the arrival without one or with an earlier one. */
  function StartOf(b: Booking, point: Option<Date>): Date {
    if point.Some? && point.value > b.checkin then point.value else b.checkin
  }

  function Earlier(b: Booking, p: Option<Date>, q: Option<Date>): Option<Date> {
    if StartOf(b, p) <= StartOf(b, q) then p else q
  }

  function Earliest(b: Booking, points: seq<Option<Date>>): (e: Option<Date>)
    requires points != []
    ensures e in points && forall p :: p in points ==> StartOf(b, e) <= StartOf(b, p)
  {
    if |points| == 1 then points[0]
    else
      assert points == [points[0]] + points[1..];
      Earlier(b, points[0], Earliest(b, points[1..]))
  }

  function LiveOf(legs: Legs, b: BookingId): Legs {
    map i | i in legs && Live(legs[i], b) :: legs[i]
  }

  /** The same calendar and live segments, and the same rooms told to the channel. */
  ghost predicate SameRooms(t: Db, u: Db, id: BookingId) {
    && t.calendar == u.calendar && LiveOf(t.legs, id) == LiveOf(u.legs, id)
    && forall d :: Net(t.outbox, d) == Net(u.outbox, d)
  }

  /** A row with its nights, its rooms, and a marker, if any, inside its stay. */
  ghost predicate Releasable(s: Db, id: BookingId) {
    id < |s.bookings| && s.bookings[id].checkin < s.bookings[id].checkout && s.bookings[id].rooms >= 1
    && RowOk(s.bookings[id])
  }

  lemma {:induction false} CutTwice(legs: Legs, b: BookingId, p: Date, q: Date, now: int)
    requires q < p
    ensures LiveOf(CutAt(CutAt(legs, b, p, now), b, q, now), b) == LiveOf(CutAt(legs, b, q, now), b)
    ensures LiveOf(ReleaseAll(CutAt(legs, b, p, now), b, now), b) == LiveOf(ReleaseAll(legs, b, now), b)
  {
  }

  /** Two adjoining ranges given back are the range they make up. */
  lemma {:induction false} GivesTwice(c: Calendar, lo: Date, mid: Date, hi: Date, rooms: int)
    requires lo <= mid <= hi
    ensures Give(Give(c, mid, hi, rooms), lo, mid, rooms) == Give(c, lo, hi, rooms)
  {
  }

  lemma {:induction false} NetSplits(outbox: seq<Event>, lo: Date, mid: Date, hi: Date, rooms: int, d: Date)
    requires lo <= mid <= hi
    ensures Net(outbox + [Release(Nights(mid, hi), rooms)] + [Release(Nights(lo, mid), rooms)], d)
            == Net(outbox + [Release(Nights(lo, hi), rooms)], d)
  {
    NightsAre(lo, mid);
    NightsAre(mid, hi);
    NightsAre(lo, hi);
    NetOne(outbox, Release(Nights(mid, hi), rooms), d);
    NetOne(outbox + [Release(Nights(mid, hi), rooms)], Release(Nights(lo, mid), rooms), d);
    NetOne(outbox, Release(Nights(lo, hi), rooms), d);
  }

  /** A release leaves the row's stay as it was; a partial one that gave something leaves its date on it. */
  lemma {:induction false} ReleaseRow(s: Db, id: BookingId, p: Option<Date>)
    requires Releasable(s, id)
    ensures var b := s.bookings[id]; var t := ReleaseInventory(s, id, b, p);
            && Releasable(t, id) && t.bookings[id] == b.(releasedFrom := t.bookings[id].releasedFrom)
            && HeldUntil(t.bookings[id]) ==
                 if b.checkin < StartOf(b, p) < HeldUntil(b) then StartOf(b, p) else HeldUntil(b)
  {
  }

  /** The nights [lo, hi) went back, and the segments were released whole or cut at the first of them. */
  ghost predicate Gave(s: Db, t: Db, id: BookingId, lo: Date, hi: Date, rooms: int, whole: bool) {
    && t.calendar == Give(s.calendar, lo, hi, rooms)
    && t.outbox == s.outbox + [Release(Nights(lo, hi), rooms)]
    && t.legs == (if whole then ReleaseAll(s.legs, id, s.now) else CutAt(s.legs, id, lo, s.now)) && t.now == s.now
  }

  lemma {:induction false} GaveTwice(s: Db, t: Db, u: Db, w: Db, id: BookingId, lo: Date, mid: Date, hi: Date,
                                     rooms: int, whole: bool)
    requires lo < mid <= hi && Gave(s, t, id, mid, hi, rooms, false)
    requires Gave(t, u, id, lo, mid, rooms, whole) && Gave(s, w, id, lo, hi, rooms, whole)
    ensures SameRooms(u, w, id)
  {
    CutTwice(s.legs, id, mid, lo, s.now);
    GivesTwice(s.calendar, lo, mid, hi, rooms);
    forall d ensures Net(u.outbox, d) == Net(w.outbox, d) {
      NetSplits(s.outbox, lo, mid, hi, rooms, d);
    }
  }

  lemma {:induction false} ReleaseGives(s: Db, id: BookingId, p: Option<Date>)
    requires Releasable(s, id) && StartOf(s.bookings[id], p) < HeldUntil(s.bookings[id])
    ensures var b := s.bookings[id];
            Gave(s, ReleaseInventory(s, id, b, p), id, StartOf(b, p), HeldUntil(b), b.rooms, StartOf(b, p) == b.checkin)
  {
  }

  /** An earlier release after a partial one gives back only what is still held. */
  lemma {:induction false} EarlierAgain(s: Db, id: BookingId, p: Option<Date>, q: Option<Date>)
    requires Releasable(s, id)
    requires var b := s.bookings[id]; b.checkin < StartOf(b, p) < HeldUntil(b) && StartOf(b, q) < StartOf(b, p)
    ensures var t := ReleaseInventory(s, id, s.bookings[id], p);
            SameRooms(ReleaseInventory(t, id, t.bookings[id], q), ReleaseInventory(s, id, s.bookings[id], q), id)
  {
    var b := s.bookings[id];
    var t := ReleaseInventory(s, id, b, p);
    ReleaseRow(s, id, p);
    ReleaseGives(s, id, p);
    ReleaseGives(s, id, q);
    ReleaseGives(t, id, q);
    GaveTwice(s, t, ReleaseInventory(t, id, t.bookings[id], q), ReleaseInventory(s, id, b, q), id,
              StartOf(b, q), StartOf(b, p), HeldUntil(b), b.rooms, StartOf(b, q) == b.checkin);
  }

  /** After a partial release any other, whole or partial, adds up with it to the earlier of the two. */
  lemma {:induction false} AfterPartial(s: Db, id: BookingId, p: Option<Date>, q: Option<Date>)
    requires Releasable(s, id) && StartOf(s.bookings[id], p) > s.bookings[id].checkin
    ensures var b := s.bookings[id]; var t := ReleaseInventory(s, id, b, p);
            SameRooms(ReleaseInventory(t, id, t.bookings[id], q), ReleaseInventory(s, id, b, Earlier(b, p, q)), id)
  {
    var b := s.bookings[id];
    if StartOf(b, q) < StartOf(b, p) < HeldUntil(b) { EarlierAgain(s, id, p, q); }
  }

  /** The channel is told of every night a release starts before the date the row reads as held to. */
  lemma {:induction false} GivesMore(s: Db, id: BookingId, p: Option<Date>, d: Date)
    requires Releasable(s, id)
    ensures var b := s.bookings[id];
            Net(ReleaseInventory(s, id, b, p).outbox, d) ==
              Net(s.outbox, d) + if StartOf(b, p) <= d < HeldUntil(b) then b.rooms else 0
  {
    var b := s.bookings[id];
    NightsAre(StartOf(b, p), HeldUntil(b));
    NetOne(s.outbox, Release(Nights(StartOf(b, p), HeldUntil(b)), b.rooms), d);
  }

  lemma {:induction false} ReleasesOnlyGive(s: Db, id: BookingId, points: seq<Option<Date>>, d: Date)
    requires Releasable(s, id)
    ensures Net(Releases(s, id, points).outbox, d) >= Net(s.outbox, d)
    decreases |points|
  {
    if points == [] {
    } else {
      ReleaseRow(s, id, points[0]);
      GivesMore(s, id, points[0], d);
      ReleasesOnlyGive(ReleaseInventory(s, id, s.bookings[id], points[0]), id, points[1..], d);
    }
  }

  /** No release of the row starts before the date it reads as held to. */
  predicate NoneEarlier(b: Booking, points: seq<Option<Date>>) {
    forall p :: p in points ==> StartOf(b, p) >= HeldUntil(b)
  }

  lemma {:induction false} NoneEarlierRest(b: Booking, points: seq<Option<Date>>)
    requires points != []
    ensures NoneEarlier(b, points) <==> StartOf(b, points[0]) >= HeldUntil(b) && NoneEarlier(b, points[1..])
  {
    assert points == [points[0]] + points[1..];
  }

  /** Releases that start late enough change nothing; one that does not tells the channel of more rooms. */
  lemma {:induction false} LateReleases(s: Db, id: BookingId, points: seq<Option<Date>>)
    requires Releasable(s, id)
    ensures NoneEarlier(s.bookings[id], points) ==> Releases(s, id, points) == s
    ensures !NoneEarlier(s.bookings[id], points) ==>
              exists d :: Net(Releases(s, id, points).outbox, d) > Net(s.outbox, d)
    decreases |points|
  {
    if points == [] {
    } else {
      var b := s.bookings[id];
      NoneEarlierRest(b, points);
      if StartOf(b, points[0]) >= HeldUntil(b) {
        assert ReleaseInventory(s, id, b, points[0]) == s;
        LateReleases(s, id, points[1..]);
      } else {
        var d := HeldUntil(b) - 1;
        ReleaseRow(s, id, points[0]);
        GivesMore(s, id, points[0], d);
        ReleasesOnlyGive(ReleaseInventory(s, id, b, points[0]), id, points[1..], d);
      }
    }
  }

  /** No release after a whole one starts before the date the row still reads as held to. */
  predicate OnceWhole(b: Booking, points: seq<Option<Date>>)
    decreases |points|
  {
    if points == [] then true
    else if StartOf(b, points[0]) == b.checkin then NoneEarlier(b, points[1..])
    else if StartOf(b, points[0]) < HeldUntil(b)
    then OnceWhole(b.(releasedFrom := Some(StartOf(b, points[0]))), points[1..])
    else OnceWhole(b, points[1..])
  }

  /** Releases add up to the earliest of them, no night given back twice, exactly when none comes after a
      whole release and before the date the row then still reads as held to. Partial releases leave that
      date on the row, so they always add up; a whole one leaves the row as it was. */
  lemma {:induction false} ReleasesAddUpIff(s: Db, id: BookingId, points: seq<Option<Date>>)
    requires Releasable(s, id) && points != []
    ensures var b := s.bookings[id];
            SameRooms(Releases(s, id, points), ReleaseInventory(s, id, b, Earliest(b, points)), id) <==>
              OnceWhole(b, points)
    decreases |points|, 1
  {
    var b := s.bookings[id];
    assert points == [points[0]] + points[1..];
    ReleaseRow(s, id, points[0]);
    if StartOf(b, points[0]) == b.checkin {
      LateReleases(ReleaseInventory(s, id, b, points[0]), id, points[1..]);
      assert ReleaseInventory(s, id, b, Earliest(b, points)) == ReleaseInventory(s, id, b, points[0]);
    } else if |points| == 1 {
      assert points[1..] == [];
    } else {
      PartialThenRest(s, id, points);
    }
  }

  lemma {:induction false} PartialThenRest(s: Db, id: BookingId, points: seq<Option<Date>>)
    requires Releasable(s, id) && |points| > 1 && StartOf(s.bookings[id], points[0]) > s.bookings[id].checkin
    ensures var b := s.bookings[id];
            SameRooms(Releases(s, id, points), ReleaseInventory(s, id, b, Earliest(b, points)), id) <==>
              OnceWhole(b, points)
    decreases |points|, 0
  {
    var b, rest := s.bookings[id], points[1..];
    var t := ReleaseInventory(s, id, b, points[0]);
    ReleaseRow(s, id, points[0]);
    ReleasesAddUpIff(t, id, rest);
    SameEarliest(b, t.bookings[id], rest);
    AfterPartial(s, id, points[0], Earliest(b, rest));
  }

  lemma {:induction false} SameEarliest(b: Booking, c: Booking, points: seq<Option<Date>>)
    requires points != [] && c == b.(releasedFrom := c.releasedFrom)
    ensures Earliest(b, points) == Earliest(c, points)
  {
    if |points| == 1 {
    } else {
      SameEarliest(b, c, points[1..]);
    }
  }

  lemma LastIsOnce(b: Booking, q: Option<Date>)
    ensures OnceWhole(b, [q])
  {
    assert [q][1..] == [];
    assert forall c: Booking :: OnceWhole(c, []);
  }

  /** Any two releases, whole or partial: they amount to one at the earlier date exactly when the first was
      partial or the second starts no earlier than the date the row reads as held to. */
  lemma {:induction false} TwoReleasesIff(s: Db, id: BookingId, p: Option<Date>, q: Option<Date>)
    requires Releasable(s, id)
    ensures var b := s.bookings[id]; var t := ReleaseInventory(s, id, b, p);
            SameRooms(ReleaseInventory(t, id, t.bookings[id], q), ReleaseInventory(s, id, b, Earlier(b, p, q)), id) <==>
              StartOf(b, p) > b.checkin || StartOf(b, q) >= HeldUntil(b)
  {
    var b := s.bookings[id];
    var t := ReleaseInventory(s, id, b, p);
    ReleaseRow(s, id, p);
    assert [p, q][1..] == [q] && [q][1..] == [];
    assert Releases(s, id, [p, q]) == Releases(t, id, [q]) == ReleaseInventory(t, id, t.bookings[id], q);
    assert Earliest(b, [p, q]) == Earlier(b, p, q);
    assert NoneEarlier(b, [q]) <==> StartOf(b, q) >= HeldUntil(b);
    LastIsOnce(b, q);
    LastIsOnce(b.(releasedFrom := Some(StartOf(b, p))), q);
    ReleasesAddUpIff(s, id, [p, q]);
  }

  /** The marker of two releases is that of one at the earlier date unless just one of them was whole and
      the other found nights to give. */
  lemma {:induction false} TwoReleasesRowIff(s: Db, id: BookingId, p: Option<Date>, q: Option<Date>)
    requires Releasable(s, id)
    ensures var b := s.bookings[id]; var t := ReleaseInventory(s, id, b, p);
            ReleaseInventory(t, id, t.bookings[id], q).bookings
                == ReleaseInventory(s, id, b, Earlier(b, p, q)).bookings <==>
              !(StartOf(b, p) == b.checkin < StartOf(b, q) < HeldUntil(b))
              && !(StartOf(b, q) == b.checkin < StartOf(b, p) < HeldUntil(b))
  {
    var b := s.bookings[id];
    var t := ReleaseInventory(s, id, b, p);
    ReleaseRow(s, id, p);
    ReleaseRow(s, id, q);
    ReleaseRow(t, id, q);
    MarkerOf(s, id, p);
    MarkerOf(s, id, q);
    MarkerOf(t, id, q);
  }

  lemma {:induction false} MarkerOf(s: Db, id: BookingId, p: Option<Date>)
    requires Releasable(s, id)
    ensures var b := s.bookings[id];
            var marker := if b.checkin < StartOf(b, p) < HeldUntil(b) then Some(StartOf(b, p)) else b.releasedFrom;
            ReleaseInventory(s, id, b, p).bookings == s.bookings[id := b.(releasedFrom := marker)]
  {
    var b := s.bookings[id];
    assert s.bookings == s.bookings[id := b];
  }

  /** Partial releases leave the very row one release at the earliest date leaves, and the same rooms. */
  lemma {:induction false} ReleasesAddUp(s: Db, id: BookingId, points: seq<Option<Date>>)
    requires Releasable(s, id) && points != []
    requires forall p :: p in points ==> StartOf(s.bookings[id], p) > s.bookings[id].checkin
    ensures var b := s.bookings[id];
            var t, u := Releases(s, id, points), ReleaseInventory(s, id, b, Earliest(b, points));
            SameRooms(t, u, id) && t.bookings == u.bookings
    decreases |points|
  {
    var b, rest := s.bookings[id], points[1..];
    var t := ReleaseInventory(s, id, b, points[0]);
    assert points[0] in points && points == [points[0]] + rest;
    ReleaseRow(s, id, points[0]);
    if rest == [] {
      assert Releases(t, id, rest) == t;
    } else {
      assert forall p :: p in rest ==> p in points;
      ReleasesAddUp(t, id, rest);
      SameEarliest(b, t.bookings[id], rest);
      AfterPartial(s, id, points[0], Earliest(b, rest));
      TwoReleasesRowIff(s, id, points[0], Earliest(b, rest));
    }
  }

  /** The calendar itself shows the second giving back exactly on a night that had, before the first, more
      than the booking's rooms short of its physical quantity: there the cap does not hide it. */
  lemma {:induction false} CalendarHidesIff(s: Db, id: BookingId, p: Option<Date>, q: Option<Date>)
    requires Releasable(s, id) && StartOf(s.bookings[id], p) == s.bookings[id].checkin
    ensures var b := s.bookings[id]; var t := ReleaseInventory(s, id, b, p);
            ReleaseInventory(t, id, t.bookings[id], q).calendar == t.calendar <==>
              forall d :: d in s.calendar && StartOf(b, q) <= d < HeldUntil(b) ==>
                s.calendar[d].toSell + b.rooms >= s.calendar[d].physical
  {
    var b := s.bookings[id];
    var t := ReleaseInventory(s, id, b, p);
    assert t.calendar == Give(s.calendar, b.checkin, HeldUntil(b), b.rooms);
    var u := ReleaseInventory(t, id, t.bookings[id], q);
    forall d | d in s.calendar && StartOf(b, q) <= d < HeldUntil(b)
      ensures d in t.calendar && d in u.calendar
      ensures u.calendar[d] == t.calendar[d] <==> s.calendar[d].toSell + b.rooms >= s.calendar[d].physical
    {
      assert u.calendar[d] == Returned(t.calendar[d], b.rooms);
    }
    assert forall d :: d in s.calendar && !(StartOf(b, q) <= d < HeldUntil(b)) ==> u.calendar[d] == t.calendar[d];
    assert u.calendar.Keys == t.calendar.Keys == s.calendar.Keys;
  }

  // ---- and back again ----

  /** Nights given back and taken again, when the cap did not bite, leave the calendar as it was. */
  lemma {:induction false} GiveThenTake(s: Db, opening: Calendar, tiled: bool, id: BookingId, lo: Date, hi: Date)
    requires Inv(s, opening, tiled) && id < |s.bookings|
    requires forall d :: lo <= d < hi ==> Held(s, id, d) == s.bookings[id].rooms
    ensures Take(Give(s.calendar, lo, hi, s.bookings[id].rooms), lo, hi, s.bookings[id].rooms) == s.calendar
  {
    var rooms := s.bookings[id].rooms;
    var t := Take(Give(s.calendar, lo, hi, rooms), lo, hi, rooms);
    forall d | d in s.calendar ensures t[d] == s.calendar[d] {
      HeldWithin(s, opening, tiled, id, |s.bookings|, d);
    }
  }

  // ---- taking back what any sequence of releases gave ----

  /** A booking that holds its whole stay, and releases of the end of it. */
  ghost predicate GivesEnds(s: Db, opening: Calendar, tiled: bool, id: BookingId, points: seq<Option<Date>>) {
    && Inv(s, opening, tiled) && id < |s.bookings| && InventoryHeld(s.bookings[id]) && HasLive(s.legs, id)
    && s.bookings[id].releasedFrom == None
    && points != [] && forall p :: p in points ==> StartOf(s.bookings[id], p) > s.bookings[id].checkin
  }

  /** The first night given back, or the departure if none is. */
  function FirstGiven(b: Booking, points: seq<Option<Date>>): Date
    requires points != []
  {
    if StartOf(b, Earliest(b, points)) < b.checkout then StartOf(b, Earliest(b, points)) else b.checkout
  }

  /** What is true of a booking's live segments turns on them alone. */
  lemma {:induction false} TiledByLive(legs: Legs, next: Legs, id: BookingId, rooms: int, lo: Date, hi: Date)
    requires LiveOf(legs, id) == LiveOf(next, id) && Tiled(legs, id, None, rooms, lo, hi)
    ensures Tiled(next, id, None, rooms, lo, hi)
  {
    forall i ensures i in legs && On(legs[i], id, None) <==> i in next && On(next[i], id, None)
      ensures i in legs && On(legs[i], id, None) ==> next[i] == legs[i]
    {
      assert i in LiveOf(legs, id) <==> i in LiveOf(next, id);
      if i in LiveOf(legs, id) { assert LiveOf(legs, id)[i] == LiveOf(next, id)[i]; }
    }
    forall k: nat, d | k < rooms && lo <= d < hi ensures Covered(next, id, None, k, d) {
      assert Covered(legs, id, None, k, d);
      var i :| i in legs && On(legs[i], id, None) && legs[i].index == k && Covers(legs[i], d);
      assert On(next[i], id, None);
    }
  }

  /** After the releases the row says where its nights end, the calendar has the rest, and the segments tile
      what is left. */
  lemma {:induction false} EndsGiven(s: Db, opening: Calendar, tiled: bool, id: BookingId, points: seq<Option<Date>>)
    requires GivesEnds(s, opening, tiled, id, points)
    ensures var b := s.bookings[id]; var first := FirstGiven(b, points); var t := Releases(s, id, points);
            && t.bookings == s.bookings[id := b.(releasedFrom := if first < b.checkout then Some(first) else None)]
            && t.calendar == Give(s.calendar, first, b.checkout, b.rooms)
            && (tiled ==> Tiled(t.legs, id, None, b.rooms, b.checkin, first))
  {
    var b := s.bookings[id];
    var first, e, t := FirstGiven(b, points), Earliest(b, points), Releases(s, id, points);
    RowsSound(s, opening, tiled, id);
    ReleasesAddUp(s, id, points);
    MarkerOf(s, id, e);
    assert e in points;
    if first < b.checkout {
      ReleaseGives(s, id, e);
      if tiled { EndsTile(s, opening, id, e, t.legs); }
    } else {
      assert Give(s.calendar, b.checkout, b.checkout, b.rooms) == s.calendar;
      if tiled {
        assert BookingOk(s, id, tiled);
        TiledByLive(s.legs, t.legs, id, b.rooms, b.checkin, b.checkout);
      }
    }
  }

  lemma {:induction false} EndsTile(s: Db, opening: Calendar, id: BookingId, e: Option<Date>, legs: Legs)
    requires Inv(s, opening, true) && id < |s.bookings| && HasLive(s.legs, id) && s.bookings[id].releasedFrom == None
    requires s.bookings[id].checkin < StartOf(s.bookings[id], e) < s.bookings[id].checkout
    requires LiveOf(legs, id) == LiveOf(CutAt(s.legs, id, StartOf(s.bookings[id], e), s.now), id)
    ensures var b := s.bookings[id]; Tiled(legs, id, None, b.rooms, b.checkin, StartOf(b, e))
  {
    var b := s.bookings[id];
    assert BookingOk(s, id, true) && Running(s, id, true);
    CutTiles(s.legs, id, b.rooms, b.checkin, b.checkout, StartOf(b, e), s.now);
    TiledByLive(CutAt(s.legs, id, StartOf(b, e), s.now), legs, id, b.rooms, b.checkin, StartOf(b, e));
  }

  /** Whatever has happened to others since any sequence of partial releases: the nights they gave are taken back
      exactly when every one of them can be taken, and then the row is the one before the releases, without a
      marker, and its segments cover the whole stay again. */
  lemma {:induction false} ReclaimAfterReleases(s: Db, opening: Calendar, tiled: bool, id: BookingId,
                                                points: seq<Option<Date>>, u: Db, keep: set<LegId>)
    requires GivesEnds(s, opening, tiled, id, points) && id < |u.bookings|
    requires u.bookings[id] == Releases(s, id, points).bookings[id]
    requires LiveOf(u.legs, id) == LiveOf(Releases(s, id, points).legs, id)
    requires FairVerdict(u.legs, Stretch(u.legs, id, FirstGiven(s.bookings[id], points), s.bookings[id].checkout, keep))
    ensures var b := s.bookings[id]; var first := FirstGiven(b, points); var r := Reclaim(u, id, u.bookings[id], keep);
            && (r.Done? <==> CanTake(u.calendar, first, b.checkout, b.rooms))
            && (r.Done? ==>
                  r.db.calendar == Take(u.calendar, first, b.checkout, b.rooms)
                  && r.db.bookings == u.bookings[id := b]
                  && (tiled ==> Tiled(r.db.legs, id, None, b.rooms, b.checkin, b.checkout)))
  {
    var b := s.bookings[id];
    var first := FirstGiven(b, points);
    RowsSound(s, opening, tiled, id);
    EndsGiven(s, opening, tiled, id, points);
    if tiled { TiledByLive(Releases(s, id, points).legs, u.legs, id, b.rooms, b.checkin, first); }
    assert Earliest(b, points) in points;
    if first < b.checkout {
      if tiled { StretchTiles(u.legs, id, b.rooms, b.checkin, first, b.checkout, keep); }
    } else {
      assert Take(u.calendar, b.checkout, b.checkout, b.rooms) == u.calendar;
      assert u.bookings[id := b] == u.bookings;
    }
  }

  /** No night of [lo, hi) has been closed. */
  predicate OnSale(cal: Calendar, lo: Date, hi: Date) {
    forall d :: lo <= d < hi ==> d in cal && cal[d].open
  }

  /** With nobody in between, taking back what any sequence of partial releases gave restores calendar, row and
      cover; it is refused exactly when one of those nights has been closed for sale. */
  lemma {:induction false} ReleasesThenReclaim(s: Db, opening: Calendar, tiled: bool, id: BookingId,
                                               points: seq<Option<Date>>, keep: set<LegId>)
    requires GivesEnds(s, opening, tiled, id, points)
    requires var legs := Releases(s, id, points).legs;
             FairVerdict(legs, Stretch(legs, id, FirstGiven(s.bookings[id], points), s.bookings[id].checkout, keep))
    ensures var b := s.bookings[id]; var t := Releases(s, id, points); var r := Reclaim(t, id, t.bookings[id], keep);
            && (r.Done? <==> OnSale(s.calendar, FirstGiven(b, points), b.checkout))
            && (r.Done? ==>
                  r.db.calendar == s.calendar && r.db.bookings == s.bookings
                  && (tiled ==> Tiled(r.db.legs, id, None, b.rooms, b.checkin, b.checkout)))
  {
    var b := s.bookings[id];
    var first, t := FirstGiven(b, points), Releases(s, id, points);
    EndsGiven(s, opening, tiled, id, points);
    ReclaimAfterReleases(s, opening, tiled, id, points, t, keep);
    assert Earliest(b, points) in points && first > b.checkin by { RowsSound(s, opening, tiled, id); }
    GiveThenTake(s, opening, tiled, id, first, b.checkout);
    GivenCanBeTaken(s, opening, tiled, id, first, b.checkout);
    assert t.bookings[id := b] == s.bookings;
  }

  /** The nights a booking gives back can be taken again as long as they are on sale. */
  lemma {:induction false} GivenCanBeTaken(s: Db, opening: Calendar, tiled: bool, id: BookingId, lo: Date, hi: Date)
    requires Inv(s, opening, tiled) && id < |s.bookings|
    requires forall d :: lo <= d < hi ==> Held(s, id, d) == s.bookings[id].rooms
    ensures var rooms := s.bookings[id].rooms;
            CanTake(Give(s.calendar, lo, hi, rooms), lo, hi, rooms) <==> OnSale(s.calendar, lo, hi)
  {
    var rooms := s.bookings[id].rooms;
    forall d | lo <= d < hi
      ensures HasRoom(Give(s.calendar, lo, hi, rooms), d, rooms) <==> d in s.calendar && s.calendar[d].open
    {
      HeldWithin(s, opening, tiled, id, |s.bookings|, d);
    }
  }

  lemma {:induction false} NoShowBack(s: Db, opening: Calendar, tiled: bool, id: BookingId, markedOn: Date,
                                      today: Date, keep: set<LegId>)
    requires Inv(s, opening, tiled) && MarkNoShow(s, id, markedOn).Done?
    requires Reinstate(Tick(MarkNoShow(s, id, markedOn).db), id, today, keep).Done?
    ensures var u := Reinstate(Tick(MarkNoShow(s, id, markedOn).db), id, today, keep).db;
            u.calendar == s.calendar && u.bookings == s.bookings
  {
    var b := s.bookings[id];
    SettledLive(s, opening, tiled, id);
    RowsSound(s, opening, tiled, id);
    var t := Tick(MarkNoShow(s, id, markedOn).db);
    var point := NoShowReleaseFrom(b.checkin, b.checkout, markedOn);
    if point.Some? {
      NoShowCuts(s, id, markedOn);
      GiveThenTake(s, opening, tiled, id, point.value, b.checkout);
    }
    var u := Reinstate(t, id, today, keep).db;
    assert u.bookings[id] == b;
  }

  /** A no-show reinstated before any of its nights is resold is exactly the booking it was. */
  lemma {:induction false} NoShowThenReinstate(s: Db, opening: Calendar, tiled: bool, id: BookingId, markedOn: Date,
                                               today: Date, keep: set<LegId>)
    requires Inv(s, opening, tiled) && MarkNoShow(s, id, markedOn).Done?
    requires Reinstate(Tick(MarkNoShow(s, id, markedOn).db), id, today, keep).Done?
    ensures var u := Reinstate(Tick(MarkNoShow(s, id, markedOn).db), id, today, keep).db;
            && u.calendar == s.calendar && u.bookings == s.bookings
            && (tiled ==>
                  Tiled(u.legs, id, None, s.bookings[id].rooms, s.bookings[id].checkin, s.bookings[id].checkout))
  {
    var t := Tick(MarkNoShow(s, id, markedOn).db);
    NoShowBack(s, opening, tiled, id, markedOn, today, keep);
    NoShowKeeps(s, opening, tiled, id, markedOn);
    ReinstateKeeps(t, opening, tiled, id, today, keep);
    StillTiled(Reinstate(t, id, today, keep).db, opening, tiled, id);
  }

  lemma {:induction false} StillTiled(u: Db, opening: Calendar, tiled: bool, id: BookingId)
    requires Inv(Tick(u), opening, tiled) && id < |u.bookings|
    requires u.bookings[id].status in {Pending, Approved, CheckedIn}
    ensures tiled ==> Tiled(u.legs, id, None, u.bookings[id].rooms, u.bookings[id].checkin, u.bookings[id].checkout)
  {
    SettledLive(Tick(u), opening, tiled, id);
    assert BookingOk(Tick(u), id, tiled);
  }

  lemma {:induction false} LeaveOnArrivalBack(s: Db, opening: Calendar, tiled: bool, id: BookingId, operating: Date,
                                              keep: set<LegId>)
    requires Inv(s, opening, tiled) && CheckOut(s, id, operating, true).Done? && operating <= s.bookings[id].checkin
    requires UndoCheckOut(Tick(CheckOut(s, id, operating, true).db), id, true, keep).Done?
    ensures var u := UndoCheckOut(Tick(CheckOut(s, id, operating, true).db), id, true, keep).db;
            u.calendar == s.calendar && u.bookings == s.bookings
  {
    var b := s.bookings[id];
    SettledLive(s, opening, tiled, id);
    assert BookingOk(s, id, tiled);
    var t := Tick(CheckOut(s, id, operating, true).db);
    assert t.legs == ReleaseAll(s.legs, id, s.now) && t.bookings[id] == b.(status := CheckedOut);
    assert !HasLive(t.legs, id);
    GiveThenTake(s, opening, tiled, id, b.checkin, b.checkout);
    var u := UndoCheckOut(t, id, true, keep).db;
    assert u.bookings[id] == b;
  }

  lemma {:induction false} LeaveEarlyBack(s: Db, opening: Calendar, tiled: bool, id: BookingId, operating: Date,
                                          keep: set<LegId>)
    requires Inv(s, opening, tiled) && CheckOut(s, id, operating, true).Done? && operating > s.bookings[id].checkin
    requires UndoCheckOut(Tick(CheckOut(s, id, operating, true).db), id, true, keep).Done?
    ensures var u := UndoCheckOut(Tick(CheckOut(s, id, operating, true).db), id, true, keep).db;
            u.calendar == s.calendar && u.bookings == s.bookings
  {
    var b := s.bookings[id];
    SettledLive(s, opening, tiled, id);
    assert BookingOk(s, id, tiled);
    var t := Tick(CheckOut(s, id, operating, true).db);
    var u := UndoCheckOut(t, id, true, keep).db;
    if operating < b.checkout {
      assert t.bookings[id] == b.(status := CheckedOut, releasedFrom := Some(operating));
      GiveThenTake(s, opening, tiled, id, operating, b.checkout);
    } else {
      assert t.legs == s.legs && t.bookings[id] == b.(status := CheckedOut);
    }
    assert u.bookings[id] == b;
  }

  /** A check-out undone before any of its nights is resold puts the guest back in the same stay. */
  lemma {:induction false} CheckOutThenUndo(s: Db, opening: Calendar, tiled: bool, id: BookingId, operating: Date,
                                            keep: set<LegId>)
    requires Inv(s, opening, tiled) && CheckOut(s, id, operating, true).Done?
    requires UndoCheckOut(Tick(CheckOut(s, id, operating, true).db), id, true, keep).Done?
    ensures var u := UndoCheckOut(Tick(CheckOut(s, id, operating, true).db), id, true, keep).db;
            && u.calendar == s.calendar && u.bookings == s.bookings
            && (tiled ==>
                  Tiled(u.legs, id, None, s.bookings[id].rooms, s.bookings[id].checkin, s.bookings[id].checkout))
  {
    var t := Tick(CheckOut(s, id, operating, true).db);
    if operating <= s.bookings[id].checkin {
      LeaveOnArrivalBack(s, opening, tiled, id, operating, keep);
    } else {
      LeaveEarlyBack(s, opening, tiled, id, operating, keep);
    }
    CheckOutKeeps(s, opening, tiled, id, operating, true);
    UndoCheckOutKeeps(t, opening, tiled, id, true, keep);
    StillTiled(UndoCheckOut(t, id, true, keep).db, opening, tiled, id);
  }

  /** A confirmed booking cancelled and reinstated, its nights not resold, is the booking it was. */
  lemma {:induction false} CancelThenReinstate(s: Db, opening: Calendar, tiled: bool, id: BookingId, today: Date,
                                               keep: set<LegId>)
    requires Inv(s, opening, tiled) && Cancel(s, id).Done? && s.bookings[id].status == Approved
    requires Reinstate(Tick(Cancel(s, id).db), id, today, keep).Done?
    ensures var u := Reinstate(Tick(Cancel(s, id).db), id, today, keep).db;
            && u.calendar == s.calendar && u.bookings == s.bookings
            && (tiled ==>
                  Tiled(u.legs, id, None, s.bookings[id].rooms, s.bookings[id].checkin, s.bookings[id].checkout))
  {
    var t := Tick(Cancel(s, id).db);
    CancelBack(s, opening, tiled, id, today, keep);
    CancelKeeps(s, opening, tiled, id);
    ReinstateKeeps(t, opening, tiled, id, today, keep);
    StillTiled(Reinstate(t, id, today, keep).db, opening, tiled, id);
  }

  lemma {:induction false} CancelBack(s: Db, opening: Calendar, tiled: bool, id: BookingId, today: Date,
                                      keep: set<LegId>)
    requires Inv(s, opening, tiled) && Cancel(s, id).Done? && s.bookings[id].status == Approved
    requires Reinstate(Tick(Cancel(s, id).db), id, today, keep).Done?
    ensures var u := Reinstate(Tick(Cancel(s, id).db), id, today, keep).db;
            u.calendar == s.calendar && u.bookings == s.bookings
  {
    var b := s.bookings[id];
    SettledLive(s, opening, tiled, id);
    assert BookingOk(s, id, tiled);
    GiveThenTake(s, opening, tiled, id, b.checkin, b.checkout);
    assert Reinstate(Tick(Cancel(s, id).db), id, today, keep).db.bookings[id] == b;
  }

  /** A stay extended and then cut back to its old departure costs and holds what it did. */
  lemma {:induction false} ExtendThenShorten(s: Db, opening: Calendar, id: BookingId, later: Date, prices: seq<Night>)
    requires Inv(s, opening, true) && id < |s.bookings| && s.bookings[id].status == CheckedIn
    requires later > s.bookings[id].checkout
    requires Extend(s, id, s.bookings[id], later, prices).Done?
    ensures var t := Extend(s, id, s.bookings[id], later, prices).db;
            var u := Shorten(t, id, t.bookings[id], s.bookings[id].checkout);
            && u.Done? && u.db.calendar == s.calendar && u.db.legs == s.legs
            && u.db.bookings == s.bookings[id := u.db.bookings[id]]
            && u.db.bookings[id] == s.bookings[id]
  {
    var b := s.bookings[id];
    var t := Extend(s, id, b, later, prices).db;
    var w := t.bookings[id];
    var u := Shorten(t, id, w, b.checkout);
    SettledLive(s, opening, true, id);
    assert BookingOk(s, id, true);
    WithoutEnd(w.nights, b.checkin, b.checkout, later, |w.nights|);
    assert w.nights[..|w.nights|] == w.nights;
    assert Without(w.nights, b.checkout, later) == b.nights;
    assert VoidFrom(b.charges, b.checkout, later) == b.charges;
    TakeThenGive(s, opening, true, id, b.checkout, later, b.rooms);
    CutUndoesStretch(s.legs, id, b.rooms, b.checkin, b.checkout, later, s.now);
  }

  lemma {:induction false} TakeThenGive(s: Db, opening: Calendar, tiled: bool, id: BookingId, lo: Date, hi: Date,
                                        rooms: int)
    requires Inv(s, opening, tiled)
    ensures Give(Take(s.calendar, lo, hi, rooms), lo, hi, rooms) == s.calendar
  {
    forall d | d in s.calendar ensures s.calendar[d].toSell <= s.calendar[d].physical {
      HeldWithin(s, opening, tiled, id, |s.bookings|, d);
    }
  }

  lemma {:induction false} CutUndoesStretch(legs: Legs, id: BookingId, rooms: int, lo: Date, end: Date, later: Date,
                                            now: int)
    requires Tiled(legs, id, None, rooms, lo, end) && end < later
    ensures CutAt(Stretch(legs, id, end, later, legs.Keys), id, end, now) == legs
  {
  }
}
