/** Taking rooms out of a room type's calendar and giving them back, night by night
    (packages/db/src/inventory.ts). */
module Inventory {
  import opened Tables
  import opened Wrappers

  /** The nights of a half-open stay [lo, hi). */
  function Nights(lo: Date, hi: Date): seq<Date>
    decreases hi - lo
  {
    if lo < hi then [lo] + Nights(lo + 1, hi) else []
  }

  /** The nights of [lo, hi) are exactly its dates, in order and without repeats. */
  lemma {:induction false} NightsAre(lo: Date, hi: Date)
    ensures |Nights(lo, hi)| == if lo < hi then hi - lo else 0
    ensures forall i :: 0 <= i < |Nights(lo, hi)| ==> Nights(lo, hi)[i] == lo + i
    ensures forall d :: d in Nights(lo, hi) <==> lo <= d < hi
    decreases hi - lo
  {
    if lo >= hi {
    } else {
      NightsAre(lo + 1, hi);
      var rest := Nights(lo + 1, hi);
      forall d ensures d in Nights(lo, hi) <==> lo <= d < hi {
        assert d in Nights(lo, hi) <==> d == lo || d in rest;
      }
    }
  }

  method StayNights(lo: Date, hi: Date) returns (out: seq<Date>)
    ensures out == Nights(lo, hi)
  {
    out := [];
    var d := lo;
    while d < hi
      invariant lo <= d && (lo <= hi ==> d <= hi)
      invariant out + Nights(d, hi) == Nights(lo, hi)
      decreases hi - d
    {
      assert out + Nights(d, hi) == (out + [d]) + Nights(d + 1, hi);
      out := out + [d];
      d := d + 1;
    }
    assert out + [] == out;
  }

  /** An opening calendar: no night sells more rooms than there are. */
  predicate Sound(opening: Calendar) {
    forall d :: d in opening ==> 0 <= opening[d].toSell <= opening[d].physical
  }

  datatype Taking = Taken(calendar: Calendar) | Full(date: Date)

  predicate HasRoom(c: Calendar, d: Date, rooms: int) {
    d in c && c[d].open && c[d].toSell >= rooms
  }

  /** One conditional decrement per night, stopping at the first night that matches no row. */
  function TakeNights(c: Calendar, nights: seq<Date>, rooms: int): Taking {
    if nights == [] then Taken(c)
    else
      var d := nights[0];
      if HasRoom(c, d, rooms)
      then TakeNights(c[d := c[d].(toSell := c[d].toSell - rooms)], nights[1..], rooms)
      else Full(d)
  }

  /** One capped increment per night; a night without a row is not touched. */
  function GiveNights(c: Calendar, nights: seq<Date>, rooms: int): Calendar {
    if nights == [] then c
    else
      var d := nights[0];
      var next := if d in c then c[d := Returned(c[d], rooms)] else c;
      GiveNights(next, nights[1..], rooms)
  }

  function Returned(day: Day, rooms: int): Day {
    day.(toSell := if day.toSell + rooms < day.physical then day.toSell + rooms else day.physical)
  }

  method ReserveStay(tx: Database, nights: seq<Date>, rooms: int) returns (full: Option<Date>)
    modifies tx`calendar
    ensures match TakeNights(old(tx.calendar), nights, rooms) {
              case Taken(c) => full == None && tx.calendar == c
              case Full(d) => full == Some(d)
            }
  {
    var i := 0;
    while i < |nights|
      invariant 0 <= i <= |nights|
      invariant TakeNights(tx.calendar, nights[i..], rooms) == TakeNights(old(tx.calendar), nights, rooms)
    {
      var d := nights[i];
      assert nights[i..][1..] == nights[i + 1..];
      if !HasRoom(tx.calendar, d, rooms) {
        return Some(d);
      }
      tx.calendar := tx.calendar[d := tx.calendar[d].(toSell := tx.calendar[d].toSell - rooms)];
      i := i + 1;
    }
    return None;
  }

  method ReleaseStay(tx: Database, nights: seq<Date>, rooms: int)
    modifies tx`calendar
    ensures tx.calendar == GiveNights(old(tx.calendar), nights, rooms)
  {
    var i := 0;
    while i < |nights|
      invariant 0 <= i <= |nights|
      invariant GiveNights(tx.calendar, nights[i..], rooms) == GiveNights(old(tx.calendar), nights, rooms)
    {
      var d := nights[i];
      assert nights[i..][1..] == nights[i + 1..];
      if d in tx.calendar {
        tx.calendar := tx.calendar[d := Returned(tx.calendar[d], rooms)];
      }
      i := i + 1;
    }
  }

  // What the loops amount to on the nights of a stay: all or nothing, each night once.

  predicate CanTake(c: Calendar, lo: Date, hi: Date, rooms: int) {
    forall d :: lo <= d < hi ==> HasRoom(c, d, rooms)
  }

  function Take(c: Calendar, lo: Date, hi: Date, rooms: int): Calendar {
    map d | d in c :: if lo <= d < hi then c[d].(toSell := c[d].toSell - rooms) else c[d]
  }

  function Give(c: Calendar, lo: Date, hi: Date, rooms: int): Calendar {
    map d | d in c :: if lo <= d < hi then Returned(c[d], rooms) else c[d]
  }

  /** A stay is taken whole or not at all, and the night reported is the first one that is full. */
  lemma {:induction false} TakesAllOrNothing(c: Calendar, lo: Date, hi: Date, rooms: int)
    ensures CanTake(c, lo, hi, rooms) ==> TakeNights(c, Nights(lo, hi), rooms) == Taken(Take(c, lo, hi, rooms))
    ensures !CanTake(c, lo, hi, rooms) ==>
              exists d :: lo <= d < hi && !HasRoom(c, d, rooms) && CanTake(c, lo, d, rooms)
                          && TakeNights(c, Nights(lo, hi), rooms) == Full(d)
    decreases hi - lo
  {
    if lo >= hi {
      assert Take(c, lo, hi, rooms) == c;
    } else if HasRoom(c, lo, rooms) {
      var next := c[lo := c[lo].(toSell := c[lo].toSell - rooms)];
      assert Nights(lo, hi)[1..] == Nights(lo + 1, hi);
      TakesAllOrNothing(next, lo + 1, hi, rooms);
      assert Take(next, lo + 1, hi, rooms) == Take(c, lo, hi, rooms);
      assert forall d :: lo < d ==> HasRoom(next, d, rooms) == HasRoom(c, d, rooms);
      if !CanTake(c, lo, hi, rooms) {
        assert !CanTake(next, lo + 1, hi, rooms);
        var d :| lo + 1 <= d < hi && !HasRoom(next, d, rooms) && CanTake(next, lo + 1, d, rooms)
                 && TakeNights(next, Nights(lo + 1, hi), rooms) == Full(d);
        assert CanTake(c, lo, d, rooms);
      }
    } else {
      assert CanTake(c, lo, lo, rooms);
    }
  }

  lemma {:induction false} GivesEachNightOnce(c: Calendar, lo: Date, hi: Date, rooms: int)
    ensures GiveNights(c, Nights(lo, hi), rooms) == Give(c, lo, hi, rooms)
    decreases hi - lo
  {
    if lo >= hi {
      assert Give(c, lo, hi, rooms) == c;
    } else {
      var next := if lo in c then c[lo := Returned(c[lo], rooms)] else c;
      assert Nights(lo, hi)[1..] == Nights(lo + 1, hi);
      GivesEachNightOnce(next, lo + 1, hi, rooms);
      assert Give(next, lo + 1, hi, rooms) == Give(c, lo, hi, rooms);
    }
  }
}
