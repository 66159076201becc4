/** The room segments of bookings (booking_rooms): the updates the lifecycle makes to them and what
    those updates do to the nights they cover. A segment is live until it is stamped released. */
module RoomLegs {
  import opened Tables
  import opened Wrappers

  /** A segment of booking b that is live (stamp None) or was released at the stamp. */
  predicate On(l: Leg, b: BookingId, stamp: Option<int>) {
    l.booking == b && l.releasedAt == stamp
  }

  predicate Live(l: Leg, b: BookingId) {
    On(l, b, None)
  }

  predicate Covers(l: Leg, d: Date) {
    l.checkin <= d < l.checkout
  }

  predicate Overlap(a: Leg, b: Leg) {
    a.checkin < b.checkout && b.checkin < a.checkout
  }

  predicate HasLive(legs: Legs, b: BookingId) {
    exists i :: i in legs && Live(legs[i], b)
  }

  /** Some segment of this booking, stamp and room position covers the night. */
  ghost predicate Covered(legs: Legs, b: BookingId, stamp: Option<int>, k: nat, d: Date) {
    exists i :: i in legs && On(legs[i], b, stamp) && legs[i].index == k && Covers(legs[i], d)
  }

  ghost predicate Within(legs: Legs, b: BookingId, stamp: Option<int>, rooms: int, lo: Date, hi: Date) {
    forall i :: i in legs && On(legs[i], b, stamp) ==>
      lo <= legs[i].checkin < legs[i].checkout <= hi && legs[i].index < rooms
  }

  ghost predicate NoOverlap(legs: Legs, b: BookingId, stamp: Option<int>) {
    forall i, j :: i in legs && j in legs && i != j && On(legs[i], b, stamp) && On(legs[j], b, stamp) ==>
      legs[i].index != legs[j].index || !Overlap(legs[i], legs[j])
  }

  ghost predicate NoGap(legs: Legs, b: BookingId, stamp: Option<int>, rooms: int, lo: Date, hi: Date) {
    forall k: nat, d :: k < rooms && lo <= d < hi ==> Covered(legs, b, stamp, k, d)
  }

  /** The segments with this stamp tile [lo, hi) for every room position: none empty, none outside,
      no two of one position overlapping, and no night of any position left uncovered. */
  ghost predicate Tiled(legs: Legs, b: BookingId, stamp: Option<int>, rooms: int, lo: Date, hi: Date) {
    && Within(legs, b, stamp, rooms, lo, hi)
    && NoOverlap(legs, b, stamp)
    && NoGap(legs, b, stamp, rooms, lo, hi)
  }

  /** A segment in the first position that starts no later than the date. */
  ghost predicate Anchored(legs: Legs, b: BookingId, stamp: Option<int>, lo: Date) {
    exists i :: i in legs && On(legs[i], b, stamp) && legs[i].index == 0 && legs[i].checkin <= lo
  }

  /** What is known of the segments of a stay: that they tile it, or only that one is there from its start. */
  ghost predicate Laid(legs: Legs, b: BookingId, stamp: Option<int>, rooms: int, lo: Date, hi: Date, tiled: bool) {
    if tiled then Tiled(legs, b, stamp, rooms, lo, hi) else Anchored(legs, b, stamp, lo)
  }

  /** Every stamp on the booking's segments is at most the instant given. */
  ghost predicate StampedBy(legs: Legs, b: BookingId, at: int) {
    forall i :: i in legs && legs[i].booking == b && legs[i].releasedAt.Some? ==> legs[i].releasedAt.value <= at
  }

  predicate SameRoom(a: Leg, b: Leg) {
    a.releasedAt == None && b.releasedAt == None && a.unit.Some? && a.unit == b.unit
  }

  predicate Clash(a: Leg, b: Leg) {
    SameRoom(a, b) && Overlap(a, b)
  }

  /** The exclusion constraint: no two live segments have the same physical room on one night. */
  predicate NoDoubleBooking(legs: Legs) {
    forall i, j {:trigger Clash(legs[i], legs[j])} :: i in legs && j in legs && i != j ==> !Clash(legs[i], legs[j])
  }

  predicate SameKey(a: Leg, b: Leg) {
    a.booking == b.booking && a.index == b.index && a.checkin == b.checkin
  }

  /** The unique key (booking, position, arrival), over live and released segments alike. */
  predicate KeysUnique(legs: Legs) {
    forall i, j {:trigger SameKey(legs[i], legs[j])} :: i in legs && j in legs && i != j ==> !SameKey(legs[i], legs[j])
  }

  /** Two tables agree on every segment that is not this booking's. */
  ghost predicate SameElsewhere(legs: Legs, next: Legs, b: BookingId) {
    && (forall i :: i in legs && legs[i].booking != b ==> i in next && next[i] == legs[i])
    && (forall i :: i in next && next[i].booking != b ==> i in legs && next[i] == legs[i])
  }

  // ---- the updates ----

  predicate Between(i: int, lo: int, hi: int) {
    lo <= i < hi
  }

  /** New live segments with ids [first, end), at positions from pos on, without a physical room. */
  function Rows(b: BookingId, first: nat, end: int, pos: nat, checkin: Date, checkout: Date): Legs {
    map i: nat | first <= i < end && Between(i, first, end) :: Leg(b, pos + (i - first), None, checkin, checkout, None)
  }

  /** One live segment per room over the whole stay. */
  function Create(legs: Legs, b: BookingId, rooms: int, checkin: Date, checkout: Date, next: LegId): Legs {
    legs + Rows(b, next, next + rooms, 0, checkin, checkout)
  }

  function ReleaseAll(legs: Legs, b: BookingId, now: int): Legs {
    map i | i in legs :: if Live(legs[i], b) then legs[i].(releasedAt := Some(now)) else legs[i]
  }

  function Cut(l: Leg, cut: Date, now: int): Leg {
    if l.checkin >= cut then l.(releasedAt := Some(now))
    else if l.checkout > cut then l.(checkout := cut)
    else l
  }

  /** Segments that start at or after the cut are released; those that run past it end there. */
  function CutAt(legs: Legs, b: BookingId, cut: Date, now: int): Legs {
    map i | i in legs :: if Live(legs[i], b) then Cut(legs[i], cut, now) else legs[i]
  }

  predicate EndsAt(l: Leg, b: BookingId, end: Date) {
    Live(l, b) && l.checkout == end
  }

  /** Live segments ending on one date run on to another; those not in keep lose their room. */
  function Stretch(legs: Legs, b: BookingId, end: Date, later: Date, keep: set<LegId>): Legs {
    map i | i in legs ::
      if EndsAt(legs[i], b, end)
      then legs[i].(checkout := later, unit := if i in keep then legs[i].unit else None)
      else legs[i]
  }

  /** The segments the booking's latest release stamped. */
  predicate LastReleased(legs: Legs, b: BookingId, i: LegId)
    requires i in legs
  {
    && legs[i].booking == b && legs[i].releasedAt.Some?
    && forall j :: j in legs && legs[j].booking == b && legs[j].releasedAt.Some? ==>
         legs[j].releasedAt.value <= legs[i].releasedAt.value
  }

  /** The latest released segments come back; those not in keep come back without their room. */
  function Restore(legs: Legs, b: BookingId, keep: set<LegId>): Legs {
    map i | i in legs ::
      if LastReleased(legs, b, i)
      then legs[i].(releasedAt := None, unit := if i in keep then legs[i].unit else None)
      else legs[i]
  }

  /** The segments after an amendment: positions from target up are deleted, missing ones are added,
      every live one takes the new dates. count is how many live segments there were. */
  function Reshape(legs: Legs, b: BookingId, count: nat, target: nat, checkin: Date, checkout: Date,
                   next: LegId): Legs {
    (map i | i in legs && !(Live(legs[i], b) && legs[i].index >= target) ::
       if Live(legs[i], b) then legs[i].(checkin := checkin, checkout := checkout) else legs[i])
    + Rows(b, next, next + target - count, count, checkin, checkout)
  }

  /** A segment loses its room only to another live segment that has it on one of its nights. */
  predicate Dropped(legs: Legs, next: Legs, i: LegId)
    requires i in legs && i in next
  {
    legs[i].unit.Some? && next[i].unit == None
  }

  ghost predicate FairVerdict(legs: Legs, next: Legs) {
    && NoDoubleBooking(next)
    && forall i :: i in legs && i in next && Dropped(legs, next, i) ==>
         exists j :: j in next && j != i && Clash(next[i].(unit := legs[i].unit), next[j])
  }

  // ---- what the updates keep ----

  lemma {:induction false} CreateTiles(legs: Legs, b: BookingId, rooms: int, lo: Date, hi: Date, next: LegId)
    requires rooms >= 1 && lo < hi
    requires forall i :: i in legs ==> i < next && legs[i].booking != b
    ensures Tiled(Create(legs, b, rooms, lo, hi, next), b, None, rooms, lo, hi)
  {
    var t := Create(legs, b, rooms, lo, hi, next);
    forall k: nat, d | k < rooms && lo <= d < hi ensures Covered(t, b, None, k, d) {
      assert next + k in t && t[next + k].index == k;
    }
  }

  /** Releasing the whole booking moves the tiling from the live segments to the fresh stamp. */
  lemma {:induction false} ReleaseAllTiles(legs: Legs, b: BookingId, rooms: int, lo: Date, hi: Date, now: int)
    requires Tiled(legs, b, None, rooms, lo, hi) && StampedBy(legs, b, now - 1)
    ensures var t := ReleaseAll(legs, b, now);
            Tiled(t, b, Some(now), rooms, lo, hi) && !HasLive(t, b) && StampedBy(t, b, now)
  {
    var t := ReleaseAll(legs, b, now);
    forall k: nat, d | k < rooms && lo <= d < hi ensures Covered(t, b, Some(now), k, d) {
      assert Covered(legs, b, None, k, d);
      var i :| i in legs && On(legs[i], b, None) && legs[i].index == k && Covers(legs[i], d);
      assert On(t[i], b, Some(now));
    }
  }

  lemma {:induction false} ReleaseAllNoClash(legs: Legs, b: BookingId, now: int)
    requires NoDoubleBooking(legs)
    ensures NoDoubleBooking(ReleaseAll(legs, b, now))
  {
    var t := ReleaseAll(legs, b, now);
    forall i, j | i in t && j in t && i != j ensures !Clash(t[i], t[j]) {
      assert !Clash(legs[i], legs[j]);
    }
  }

  lemma {:induction false} CutNoClash(legs: Legs, b: BookingId, cut: Date, now: int)
    requires NoDoubleBooking(legs)
    ensures NoDoubleBooking(CutAt(legs, b, cut, now))
  {
    var t := CutAt(legs, b, cut, now);
    forall i, j | i in t && j in t && i != j ensures !Clash(t[i], t[j]) {
      assert !Clash(legs[i], legs[j]);
    }
  }

  lemma {:induction false} CutTiles(legs: Legs, b: BookingId, rooms: int, lo: Date, hi: Date, cut: Date, now: int)
    requires Tiled(legs, b, None, rooms, lo, hi) && lo < cut < hi && StampedBy(legs, b, now)
    ensures var t := CutAt(legs, b, cut, now); Tiled(t, b, None, rooms, lo, cut) && StampedBy(t, b, now)
  {
    var t := CutAt(legs, b, cut, now);
    forall i, j | i in t && j in t && i != j && On(t[i], b, None) && On(t[j], b, None)
      ensures t[i].index != t[j].index || !Overlap(t[i], t[j])
    {
      assert legs[i].index != legs[j].index || !Overlap(legs[i], legs[j]);
    }
    forall k: nat, d | k < rooms && lo <= d < cut ensures Covered(t, b, None, k, d) {
      assert Covered(legs, b, None, k, d);
      var i :| i in legs && On(legs[i], b, None) && legs[i].index == k && Covers(legs[i], d);
      assert On(t[i], b, None) && Covers(t[i], d);
    }
  }

  /** A live segment ending at the end of the tiling is the one that covers its last night. */
  lemma {:induction false} StretchTiles(legs: Legs, b: BookingId, rooms: int, lo: Date, end: Date, later: Date,
                                        keep: set<LegId>)
    requires Tiled(legs, b, None, rooms, lo, end) && lo < end < later
    ensures Tiled(Stretch(legs, b, end, later, keep), b, None, rooms, lo, later)
  {
    var t := Stretch(legs, b, end, later, keep);
    forall k: nat, d | k < rooms && lo <= d < later ensures Covered(t, b, None, k, d) {
      var e := if d < end then d else end - 1;
      assert Covered(legs, b, None, k, e);
      var i :| i in legs && On(legs[i], b, None) && legs[i].index == k && Covers(legs[i], e);
      assert On(t[i], b, None) && Covers(t[i], d);
    }
    forall i, j | i in t && j in t && i != j && On(t[i], b, None) && On(t[j], b, None)
      ensures t[i].index != t[j].index || !Overlap(t[i], t[j])
    {
      assert legs[i].index != legs[j].index || !Overlap(legs[i], legs[j]);
    }
  }

  lemma {:induction false} RestoreTiles(legs: Legs, b: BookingId, rooms: int, lo: Date, hi: Date, at: int,
                                        keep: set<LegId>)
    requires Tiled(legs, b, Some(at), rooms, lo, hi) && StampedBy(legs, b, at)
    requires rooms >= 1 && lo < hi && !HasLive(legs, b)
    ensures Tiled(Restore(legs, b, keep), b, None, rooms, lo, hi)
  {
    var t := Restore(legs, b, keep);
    assert Covered(legs, b, Some(at), 0, lo);
    assert forall i :: i in legs ==> (LastReleased(legs, b, i) <==> On(legs[i], b, Some(at)));
    assert forall i :: i in t ==> (On(t[i], b, None) <==> On(legs[i], b, Some(at)));
    forall k: nat, d | k < rooms && lo <= d < hi ensures Covered(t, b, None, k, d) {
      assert Covered(legs, b, Some(at), k, d);
      var i :| i in legs && On(legs[i], b, Some(at)) && legs[i].index == k && Covers(legs[i], d);
      assert On(t[i], b, None) && Covers(t[i], d);
    }
  }

  /** No position has two live segments (assertNotSplit). */
  predicate NotSplit(legs: Legs, b: BookingId) {
    forall i, j :: i in legs && j in legs && i != j && Live(legs[i], b) && Live(legs[j], b) ==>
        legs[i].index != legs[j].index
  }

  lemma {:induction false} ReshapeApart(legs: Legs, b: BookingId, rooms: nat, target: nat, checkin: Date,
                                        checkout: Date, next: LegId)
    requires forall i :: i in legs && Live(legs[i], b) ==> legs[i].index < rooms
    requires NotSplit(legs, b) && forall i :: i in legs ==> i < next
    ensures NotSplit(Reshape(legs, b, rooms, target, checkin, checkout, next), b)
  {
    var t := Reshape(legs, b, rooms, target, checkin, checkout, next);
    forall i, j | i in t && j in t && i != j && Live(t[i], b) && Live(t[j], b) ensures t[i].index != t[j].index {
      if i < next && j < next {
        assert legs[i].index != legs[j].index;
      }
    }
  }

  lemma {:induction false} ReshapeTiles(legs: Legs, b: BookingId, rooms: nat, target: nat, lo: Date, hi: Date,
                                        checkin: Date, checkout: Date, next: LegId)
    requires Tiled(legs, b, None, rooms, lo, hi) && NotSplit(legs, b) && lo < hi && checkin < checkout && target >= 1
    requires forall i :: i in legs ==> i < next
    ensures Tiled(Reshape(legs, b, rooms, target, checkin, checkout, next), b, None, target, checkin, checkout)
  {
    var t := Reshape(legs, b, rooms, target, checkin, checkout, next);
    assert forall i :: i in legs && Live(legs[i], b) ==> On(legs[i], b, None);
    ReshapeApart(legs, b, rooms, target, checkin, checkout, next);
    forall k: nat, d | k < target && checkin <= d < checkout ensures Covered(t, b, None, k, d) {
      if k < rooms {
        assert Covered(legs, b, None, k, lo);
        var i :| i in legs && On(legs[i], b, None) && legs[i].index == k && Covers(legs[i], lo);
        assert On(t[i], b, None) && Covers(t[i], d);
      } else {
        var i := next + (k - rooms);
        assert i in t && On(t[i], b, None) && t[i].index == k && Covers(t[i], d);
      }
    }
  }

  /** Reshaping touches no other booking's segments and no released one. */
  lemma {:induction false} ReshapeTouches(legs: Legs, b: BookingId, count: nat, target: nat, checkin: Date,
                                          checkout: Date, next: LegId, at: int)
    requires (forall i :: i in legs ==> i < next) && StampedBy(legs, b, at)
    ensures var t := Reshape(legs, b, count, target, checkin, checkout, next);
            SameElsewhere(legs, t, b) && StampedBy(t, b, at)
    ensures forall i :: i in Reshape(legs, b, count, target, checkin, checkout, next) && i !in legs ==>
              i < next + target
  {
  }

  function LiveIds(legs: Legs, b: BookingId): set<LegId> {
    set i | i in legs && Live(legs[i], b)
  }

  lemma {:induction false} OnlyLive(legs: Legs, id: BookingId, i: LegId)
    requires |LiveIds(legs, id)| == 1 && i in LiveIds(legs, id)
    ensures forall j :: j in legs && Live(legs[j], id) <==> j == i
  {
    assert LiveIds(legs, id) == {i} + (LiveIds(legs, id) - {i});
    assert forall j :: j in legs && Live(legs[j], id) <==> j in LiveIds(legs, id);
  }

  /** An unsplit stay has exactly one live segment per room. */
  lemma {:induction false} CountsRooms(legs: Legs, b: BookingId, rooms: nat, lo: Date, hi: Date)
    requires Tiled(legs, b, None, rooms, lo, hi) && NotSplit(legs, b) && lo < hi
    ensures |LiveIds(legs, b)| == rooms
  {
    var ids := LiveIds(legs, b);
    forall k: nat | k < rooms ensures HasPosition(legs, ids, k) {
      assert Covered(legs, b, None, k, lo);
    }
    SameSize(legs, ids, rooms);
  }

  ghost predicate HasPosition(legs: Legs, ids: set<LegId>, k: nat) {
    exists i :: i in ids && i in legs && legs[i].index == k
  }

  lemma {:induction false} SameSize(legs: Legs, ids: set<LegId>, n: nat)
    requires forall i :: i in ids ==> i in legs && legs[i].index < n
    requires forall i, j :: i in ids && j in ids && i != j ==> legs[i].index != legs[j].index
    requires forall k: nat :: k < n ==> HasPosition(legs, ids, k)
    ensures |ids| == n
  {
    if n > 0 {
      assert HasPosition(legs, ids, n - 1);
      var i :| i in ids && i in legs && legs[i].index == n - 1;
      forall k: nat | k < n - 1 ensures HasPosition(legs, ids - {i}, k) {
        assert HasPosition(legs, ids, k);
        var j :| j in ids && j in legs && legs[j].index == k;
        assert j in ids - {i};
      }
      SameSize(legs, ids - {i}, n - 1);
    } else {
      assert ids == {};
    }
  }

  // ---- the same for segments of which only the start is known ----

  lemma {:induction false} LaidIsAnchored(legs: Legs, b: BookingId, stamp: Option<int>, rooms: int, lo: Date, hi: Date,
                                          tiled: bool)
    requires Laid(legs, b, stamp, rooms, lo, hi, tiled) && rooms >= 1 && lo < hi
    ensures Anchored(legs, b, stamp, lo) && (stamp == None ==> HasLive(legs, b))
  {
    if tiled { assert Covered(legs, b, stamp, 0, lo); }
    var i :| i in legs && On(legs[i], b, stamp) && legs[i].index == 0 && legs[i].checkin <= lo;
    assert stamp == None ==> Live(legs[i], b);
  }

  lemma {:induction false} CreateLays(legs: Legs, b: BookingId, rooms: int, lo: Date, hi: Date, next: LegId,
                                      tiled: bool)
    requires rooms >= 1 && lo < hi && forall i :: i in legs ==> i < next && legs[i].booking != b
    ensures Laid(Create(legs, b, rooms, lo, hi, next), b, None, rooms, lo, hi, tiled)
  {
    CreateTiles(legs, b, rooms, lo, hi, next);
    LaidIsAnchored(Create(legs, b, rooms, lo, hi, next), b, None, rooms, lo, hi, true);
  }

  lemma {:induction false} ReleaseAllLays(legs: Legs, b: BookingId, rooms: int, lo: Date, hi: Date, now: int,
                                          tiled: bool)
    requires Laid(legs, b, None, rooms, lo, hi, tiled) && StampedBy(legs, b, now - 1)
    ensures var t := ReleaseAll(legs, b, now);
            Laid(t, b, Some(now), rooms, lo, hi, tiled) && !HasLive(t, b) && StampedBy(t, b, now)
  {
    if tiled {
      ReleaseAllTiles(legs, b, rooms, lo, hi, now);
    } else {
      var i :| i in legs && On(legs[i], b, None) && legs[i].index == 0 && legs[i].checkin <= lo;
      assert On(ReleaseAll(legs, b, now)[i], b, Some(now));
    }
  }

  lemma {:induction false} CutLays(legs: Legs, b: BookingId, rooms: int, lo: Date, hi: Date, cut: Date, now: int,
                                   tiled: bool)
    requires Laid(legs, b, None, rooms, lo, hi, tiled) && lo < cut < hi && StampedBy(legs, b, now)
    ensures var t := CutAt(legs, b, cut, now); Laid(t, b, None, rooms, lo, cut, tiled) && StampedBy(t, b, now)
  {
    if tiled {
      CutTiles(legs, b, rooms, lo, hi, cut, now);
    } else {
      var i :| i in legs && On(legs[i], b, None) && legs[i].index == 0 && legs[i].checkin <= lo;
      assert On(CutAt(legs, b, cut, now)[i], b, None);
    }
  }

  lemma {:induction false} StretchLays(legs: Legs, b: BookingId, rooms: int, lo: Date, end: Date, later: Date,
                                       keep: set<LegId>, tiled: bool)
    requires Laid(legs, b, None, rooms, lo, end, tiled) && lo < end < later
    ensures Laid(Stretch(legs, b, end, later, keep), b, None, rooms, lo, later, tiled)
  {
    if tiled {
      StretchTiles(legs, b, rooms, lo, end, later, keep);
    } else {
      var i :| i in legs && On(legs[i], b, None) && legs[i].index == 0 && legs[i].checkin <= lo;
      assert On(Stretch(legs, b, end, later, keep)[i], b, None);
    }
  }

  lemma {:induction false} RestoreLays(legs: Legs, b: BookingId, rooms: int, lo: Date, hi: Date, at: int,
                                       keep: set<LegId>, tiled: bool)
    requires Laid(legs, b, Some(at), rooms, lo, hi, tiled) && StampedBy(legs, b, at)
    requires rooms >= 1 && lo < hi && !HasLive(legs, b)
    ensures Laid(Restore(legs, b, keep), b, None, rooms, lo, hi, tiled)
  {
    if tiled {
      RestoreTiles(legs, b, rooms, lo, hi, at, keep);
    } else {
      var i :| i in legs && On(legs[i], b, Some(at)) && legs[i].index == 0 && legs[i].checkin <= lo;
      assert LastReleased(legs, b, i);
      assert On(Restore(legs, b, keep)[i], b, None);
    }
  }

  /** Deleting the highest positions leaves the first. */
  lemma {:induction false} ReshapeAnchors(legs: Legs, b: BookingId, count: nat, target: nat, lo: Date,
                                          checkin: Date, checkout: Date, next: LegId)
    requires Anchored(legs, b, None, lo) && target >= 1 && forall i :: i in legs ==> i < next
    ensures Anchored(Reshape(legs, b, count, target, checkin, checkout, next), b, None, checkin)
  {
    var i :| i in legs && On(legs[i], b, None) && legs[i].index == 0 && legs[i].checkin <= lo;
    assert On(Reshape(legs, b, count, target, checkin, checkout, next)[i], b, None);
  }

  // ---- physical rooms ----

  /** The same segments but for which physical room each is in. */
  ghost predicate SameShape(legs: Legs, next: Legs) {
    && next.Keys == legs.Keys
    && forall i :: i in legs ==> next[i] == legs[i].(unit := next[i].unit)
  }

  lemma {:induction false} SameShapeLays(legs: Legs, next: Legs, b: BookingId, stamp: Option<int>, rooms: int,
                                         lo: Date, hi: Date, tiled: bool)
    requires SameShape(legs, next) && Laid(legs, b, stamp, rooms, lo, hi, tiled)
    ensures Laid(next, b, stamp, rooms, lo, hi, tiled)
  {
    if tiled {
      forall k: nat, d | k < rooms && lo <= d < hi ensures Covered(next, b, stamp, k, d) {
        assert Covered(legs, b, stamp, k, d);
        var i :| i in legs && On(legs[i], b, stamp) && legs[i].index == k && Covers(legs[i], d);
        assert On(next[i], b, stamp) && Covers(next[i], d);
      }
    } else {
      var i :| i in legs && On(legs[i], b, stamp) && legs[i].index == 0 && legs[i].checkin <= lo;
      assert On(next[i], b, stamp);
    }
  }

  lemma {:induction false} SameShapeLive(legs: Legs, next: Legs, b: BookingId)
    requires SameShape(legs, next)
    ensures HasLive(next, b) == HasLive(legs, b)
  {
    if HasLive(legs, b) {
      var i :| i in legs && Live(legs[i], b);
      assert Live(next[i], b);
    }
  }
}
