/** Many reservations at once on one room type (packages/db/src/inventory.ts): each is a transaction of
    one conditional decrement per night. A row it has changed stays locked until it commits or rolls
    back; a decrement of a row another transaction has locked waits. */
module Concurrency {
  import opened Tables
  import opened Inventory

  datatype Phase = Running | Committed | RolledBack

  /** A reservation of [lo, hi). It has taken the nights [lo, next); images holds what it overwrote. */
  datatype Txn = Txn(lo: Date, hi: Date, rooms: int, next: Date, phase: Phase, images: map<Date, Day>)

  datatype State = State(calendar: Calendar, txns: seq<Txn>)

  datatype Event = Begin(lo: Date, hi: Date, rooms: int) | Advance(t: nat) | Commit(t: nat) | RollBack(t: nat)

  predicate HasTaken(x: Txn, d: Date) {
    x.lo <= d < x.next
  }

  /** A running transaction other than t has changed the row of this night. */
  predicate LockedByOther(s: State, t: nat, d: Date) {
    exists u :: 0 <= u < |s.txns| && u != t && InFlight(s, u, d)
  }

  predicate IsRunning(s: State, t: nat) {
    t < |s.txns| && s.txns[t].phase == Running
  }

  predicate InFlight(s: State, t: nat, d: Date) {
    IsRunning(s, t) && HasTaken(s.txns[t], d)
  }

  /** Rolling back writes the before-images back over the rows. */
  function Undone(s: State, t: nat): State
    requires t < |s.txns|
  {
    var x := s.txns[t];
    State(map d | d in s.calendar :: if d in x.images then x.images[d] else s.calendar[d],
          s.txns[t := x.(phase := RolledBack)])
  }

  /** One decrement: it takes the night, or finds too few rooms and the transaction rolls back. */
  function Advanced(s: State, t: nat): State
    requires t < |s.txns|
  {
    var x := s.txns[t];
    var d := x.next;
    if HasRoom(s.calendar, d, x.rooms) then
      State(s.calendar[d := s.calendar[d].(toSell := s.calendar[d].toSell - x.rooms)],
            s.txns[t := x.(next := d + 1, images := x.images[d := s.calendar[d]])])
    else Undone(s, t)
  }

  /** A step that is not enabled, because the transaction is over or must wait, changes nothing. */
  function Step(s: State, e: Event): State {
    match e
    case Begin(lo, hi, rooms) =>
      if lo < hi && rooms >= 1 then s.(txns := s.txns + [Txn(lo, hi, rooms, lo, Running, map[])]) else s
    case Advance(t) =>
      if IsRunning(s, t) && s.txns[t].next < s.txns[t].hi && !LockedByOther(s, t, s.txns[t].next)
      then Advanced(s, t)
      else s
    case Commit(t) =>
      if IsRunning(s, t) && s.txns[t].next == s.txns[t].hi
      then s.(txns := s.txns[t := s.txns[t].(phase := Committed)])
      else s
    case RollBack(t) =>
      if IsRunning(s, t) then Undone(s, t) else s
  }

  function Run(s: State, events: seq<Event>): State
    decreases |events|
  {
    if events == [] then s else Run(Step(s, events[0]), events[1..])
  }

  // ---- what every interleaving keeps ----

  /** The rooms of a night a transaction has out: committed, or taken and still in flight. */
  function Taking(x: Txn, d: Date): int {
    if x.phase != RolledBack && HasTaken(x, d) then x.rooms else 0
  }

  function TakingFirst(txns: seq<Txn>, n: nat, d: Date): int
    requires n <= |txns|
  {
    if n == 0 then 0 else TakingFirst(txns, n - 1, d) + Taking(txns[n - 1], d)
  }

  /** The before-images are exactly the rows taken, each with its rooms put back. */
  ghost predicate ImagesOk(s: State, x: Txn) {
    && (forall d :: d in x.images <==> HasTaken(x, d))
    && forall d :: HasTaken(x, d) ==> ImageOk(s, x, d)
  }

  ghost predicate ImageOk(s: State, x: Txn, d: Date) {
    d in s.calendar && d in x.images && x.images[d] == s.calendar[d].(toSell := s.calendar[d].toSell + x.rooms)
  }

  ghost predicate TxnOk(s: State, x: Txn) {
    && x.lo <= x.next <= x.hi && x.rooms >= 1
    && (x.phase == Committed ==> x.next == x.hi)
    && (x.phase == Running ==> ImagesOk(s, x))
  }

  /** No night is in flight in two transactions. */
  ghost predicate LocksExclusive(s: State) {
    forall t: nat, u: nat, d {:trigger InFlight(s, t, d), InFlight(s, u, d)} ::
      InFlight(s, t, d) && InFlight(s, u, d) ==> t == u
  }

  ghost predicate NightOk(s: State, opening: Calendar, d: Date) {
    if d in opening
    then d in s.calendar && s.calendar[d] == opening[d].(toSell := s.calendar[d].toSell) && 0 <= s.calendar[d].toSell
         && s.calendar[d].toSell + TakingFirst(s.txns, |s.txns|, d) == opening[d].toSell
    else d !in s.calendar && TakingFirst(s.txns, |s.txns|, d) == 0
  }

  ghost predicate Inv(s: State, opening: Calendar) {
    && (forall d :: NightOk(s, opening, d))
    && (forall t :: 0 <= t < |s.txns| ==> TxnOk(s, s.txns[t]))
    && LocksExclusive(s)
  }

  lemma {:induction false} TakingChange(txns: seq<Txn>, t: nat, x: Txn, n: nat, d: Date)
    requires t < |txns| && n <= |txns|
    ensures TakingFirst(txns[t := x], n, d) ==
              TakingFirst(txns, n, d) + if t < n then Taking(x, d) - Taking(txns[t], d) else 0
  {
    if n == 0 {
    } else {
      TakingChange(txns, t, x, n - 1, d);
    }
  }

  lemma {:induction false} TakingAppend(txns: seq<Txn>, x: Txn, n: nat, d: Date)
    requires n <= |txns|
    ensures TakingFirst(txns + [x], n, d) == TakingFirst(txns, n, d)
  {
    if n == 0 {
    } else {
      TakingAppend(txns, x, n - 1, d);
    }
  }

  lemma FlightsShrink(s: State, w: State)
    requires LocksExclusive(s)
    requires forall t: nat, d {:trigger InFlight(w, t, d)} :: InFlight(w, t, d) ==> InFlight(s, t, d)
    ensures LocksExclusive(w)
  {
    forall a: nat, b: nat, d | InFlight(w, a, d) && InFlight(w, b, d) ensures a == b {
      assert InFlight(s, a, d) && InFlight(s, b, d);
    }
  }

  lemma {:induction false} BeginKeeps(s: State, opening: Calendar, lo: Date, hi: Date, rooms: int)
    requires Inv(s, opening) && lo < hi && rooms >= 1
    ensures Inv(Step(s, Begin(lo, hi, rooms)), opening)
  {
    var x := Txn(lo, hi, rooms, lo, Running, map[]);
    var u := s.(txns := s.txns + [x]);
    forall d ensures NightOk(u, opening, d) {
      assert NightOk(s, opening, d);
      TakingAppend(s.txns, x, |s.txns|, d);
    }
    forall t | 0 <= t < |u.txns| ensures TxnOk(u, u.txns[t]) {
      if t < |s.txns| { assert TxnOk(s, s.txns[t]); }
    }
    FlightsShrink(s, u);
  }

  lemma {:induction false} UndoneNight(s: State, opening: Calendar, t: nat, d: Date)
    requires Inv(s, opening) && IsRunning(s, t)
    ensures NightOk(Undone(s, t), opening, d)
  {
    assert NightOk(s, opening, d) && TxnOk(s, s.txns[t]);
    TakingChange(s.txns, t, s.txns[t].(phase := RolledBack), |s.txns|, d);
  }

  lemma {:induction false} UndoneTxn(s: State, opening: Calendar, t: nat, u: nat)
    requires Inv(s, opening) && IsRunning(s, t) && u < |s.txns|
    ensures TxnOk(Undone(s, t), Undone(s, t).txns[u])
  {
    assert TxnOk(s, s.txns[t]) && TxnOk(s, s.txns[u]);
    var w := Undone(s, t);
    if u != t && s.txns[u].phase == Running {
      forall d | HasTaken(s.txns[u], d) ensures ImageOk(w, s.txns[u], d) {
        assert ImageOk(s, s.txns[u], d) && InFlight(s, u, d) && !InFlight(s, t, d);
      }
    }
  }

  /** Writing the before-images back loses nobody else's rooms, because nobody else could change them. */
  lemma {:induction false} UndoneKeeps(s: State, opening: Calendar, t: nat)
    requires Inv(s, opening) && IsRunning(s, t)
    ensures Inv(Undone(s, t), opening)
  {
    var w := Undone(s, t);
    forall d ensures NightOk(w, opening, d) { UndoneNight(s, opening, t, d); }
    forall u | 0 <= u < |w.txns| ensures TxnOk(w, w.txns[u]) { UndoneTxn(s, opening, t, u); }
    FlightsShrink(s, w);
  }

  lemma {:induction false} TakesKeeps(s: State, opening: Calendar, t: nat)
    requires Inv(s, opening) && IsRunning(s, t) && s.txns[t].next < s.txns[t].hi
    requires !LockedByOther(s, t, s.txns[t].next) && HasRoom(s.calendar, s.txns[t].next, s.txns[t].rooms)
    ensures Inv(Advanced(s, t), opening)
  {
    var w := Advanced(s, t);
    var x := s.txns[t];
    var night := x.next;
    assert TxnOk(s, x);
    forall d ensures NightOk(w, opening, d) {
      assert NightOk(s, opening, d);
      TakingChange(s.txns, t, w.txns[t], |s.txns|, d);
    }
    forall u | 0 <= u < |w.txns| ensures TxnOk(w, w.txns[u]) {
      assert TxnOk(s, s.txns[u]);
      assert u != t && s.txns[u].phase == Running ==> !HasTaken(s.txns[u], night) by {
        assert InFlight(s, u, night) <==> IsRunning(s, u) && HasTaken(s.txns[u], night);
      }
      assert forall d :: HasTaken(s.txns[u], d) && IsRunning(s, u) ==> ImageOk(s, s.txns[u], d);
    }
    forall a: nat, b: nat, d | InFlight(w, a, d) && InFlight(w, b, d) ensures a == b {
      if d != night {
        assert InFlight(s, a, d) && InFlight(s, b, d);
      } else {
        assert a == t || InFlight(s, a, night);
        assert b == t || InFlight(s, b, night);
      }
    }
  }

  lemma {:induction false} StepKeeps(s: State, opening: Calendar, e: Event)
    requires Inv(s, opening)
    ensures Inv(Step(s, e), opening)
  {
    match e
    case Begin(lo, hi, rooms) =>
      if lo < hi && rooms >= 1 { BeginKeeps(s, opening, lo, hi, rooms); }
    case Advance(t) =>
      if Step(s, e) != s {
        if HasRoom(s.calendar, s.txns[t].next, s.txns[t].rooms) {
          TakesKeeps(s, opening, t);
        } else {
          UndoneKeeps(s, opening, t);
        }
      }
    case Commit(t) =>
      if IsRunning(s, t) && s.txns[t].next == s.txns[t].hi {
        var u := Step(s, e);
        forall d ensures NightOk(u, opening, d) {
          assert NightOk(s, opening, d);
          TakingChange(s.txns, t, u.txns[t], |s.txns|, d);
        }
        forall k | 0 <= k < |u.txns| ensures TxnOk(u, u.txns[k]) { assert TxnOk(s, s.txns[k]); }
        FlightsShrink(s, u);
      }
    case RollBack(t) =>
      if IsRunning(s, t) { UndoneKeeps(s, opening, t); }
  }

  lemma {:induction false} RunKeeps(s: State, opening: Calendar, events: seq<Event>)
    requires Inv(s, opening)
    ensures Inv(Run(s, events), opening)
    decreases |events|
  {
    if events == [] {
    } else {
      StepKeeps(s, opening, events[0]);
      RunKeeps(Step(s, events[0]), opening, events[1..]);
    }
  }

  lemma {:induction false} TakingIsPositive(s: State, opening: Calendar, n: nat, t: nat, d: Date)
    requires Inv(s, opening) && n <= |s.txns|
    ensures 0 <= TakingFirst(s.txns, n, d) && (t < n ==> Taking(s.txns[t], d) <= TakingFirst(s.txns, n, d))
  {
    if n == 0 {
    } else {
      TakingIsPositive(s, opening, n - 1, t, d);
      assert TxnOk(s, s.txns[n - 1]);
    }
  }

  /** Whatever the interleaving: stock plus what is committed or in flight never changes on any night,
      and nothing is oversold. */
  lemma {:induction false} NeverOversold(opening: Calendar, events: seq<Event>, d: Date)
    requires Sound(opening) && d in opening
    ensures var s := Run(State(opening, []), events);
            && d in s.calendar && 0 <= s.calendar[d].toSell
            && s.calendar[d].toSell + TakingFirst(s.txns, |s.txns|, d) == opening[d].toSell
            && 0 <= TakingFirst(s.txns, |s.txns|, d) <= opening[d].physical
  {
    var start := State(opening, []);
    forall e ensures NightOk(start, opening, e) {}
    RunKeeps(start, opening, events);
    var s := Run(start, events);
    assert NightOk(s, opening, d);
    TakingIsPositive(s, opening, |s.txns|, 0, d);
  }

  /** Every reservation but one. */
  function Others(txns: seq<Txn>, t: nat): seq<Txn>
    requires t < |txns|
  {
    txns[..t] + txns[t + 1..]
  }

  lemma {:induction false} TakingSplits(txns: seq<Txn>, t: nat, n: nat, d: Date)
    requires t < |txns| && n <= |txns|
    ensures TakingFirst(txns, n, d) ==
              if n <= t then TakingFirst(Others(txns, t), n, d)
              else TakingFirst(Others(txns, t), n - 1, d) + Taking(txns[t], d)
  {
    if n == 0 {
    } else {
      TakingSplits(txns, t, n - 1, d);
    }
  }

  /** A committed reservation has all its nights; after one that was rolled back every night has the stock the
      other reservations alone leave it. */
  lemma {:induction false} AllOrNothing(opening: Calendar, events: seq<Event>, t: nat, d: Date)
    requires Sound(opening) && t < |Run(State(opening, []), events).txns|
    ensures d in opening ==> d in Run(State(opening, []), events).calendar
    ensures var s := Run(State(opening, []), events);
            var x := s.txns[t];
            && (x.phase == Committed ==> Taking(x, d) == if x.lo <= d < x.hi then x.rooms else 0)
            && (x.phase == RolledBack && d in opening ==>
                  s.calendar[d].toSell == opening[d].toSell - TakingFirst(Others(s.txns, t), |s.txns| - 1, d))
            && (x.phase != RolledBack && HasTaken(x, d) ==> d in opening && opening[d].toSell >= x.rooms)
  {
    var start := State(opening, []);
    forall e ensures NightOk(start, opening, e) {}
    RunKeeps(start, opening, events);
    var s := Run(start, events);
    assert TxnOk(s, s.txns[t]) && NightOk(s, opening, d);
    TakingIsPositive(s, opening, |s.txns|, t, d);
    TakingSplits(s.txns, t, |s.txns|, d);
  }

  /** Rolling back, whether asked to or on a full night, puts back exactly the rooms taken, on exactly the nights
      taken, and the reservation is over for good. */
  lemma {:induction false} RollBackPutsBack(s: State, opening: Calendar, e: Event, t: nat, d: Date)
    requires Inv(s, opening) && d in opening && t < |s.txns| && Step(s, e).txns[t].phase == RolledBack
    ensures d in s.calendar && d in Step(s, e).calendar
    ensures var x, given := s.txns[t], Step(s, e).calendar[d].toSell - s.calendar[d].toSell;
            && (x.phase == Running ==> given == if HasTaken(x, d) then x.rooms else 0)
            && (x.phase == RolledBack && (e == Advance(t) || e == Commit(t) || e == RollBack(t)) ==> Step(s, e) == s)
  {
    assert NightOk(s, opening, d) && TxnOk(s, s.txns[t]);
    StepKeeps(s, opening, e);
    assert NightOk(Step(s, e), opening, d);
  }

  // ---- nobody waits for ever ----

  /** The running transaction furthest along its calendar. */
  lemma {:induction false} Furthest(s: State, n: nat) returns (t: nat)
    requires n <= |s.txns| && exists u :: 0 <= u < n && s.txns[u].phase == Running
    ensures t < n && s.txns[t].phase == Running
    ensures forall u :: 0 <= u < n && s.txns[u].phase == Running ==> s.txns[u].next <= s.txns[t].next
  {
    if exists u :: 0 <= u < n - 1 && s.txns[u].phase == Running {
      t := Furthest(s, n - 1);
      if s.txns[n - 1].phase == Running && s.txns[n - 1].next > s.txns[t].next { t := n - 1; }
    } else {
      t := n - 1;
    }
  }

  /** Nights are taken in date order, so there is no deadlock: while any reservation is running, one of
      them can commit or take (or be refused) its next night without waiting. */
  lemma {:induction false} NoDeadlock(s: State, opening: Calendar) returns (t: nat)
    requires Inv(s, opening) && exists u :: 0 <= u < |s.txns| && s.txns[u].phase == Running
    ensures IsRunning(s, t)
    ensures Step(s, Commit(t)) != s || Step(s, Advance(t)) != s
  {
    t := Furthest(s, |s.txns|);
    var x := s.txns[t];
    assert TxnOk(s, x);
    if x.next == x.hi {
      assert Step(s, Commit(t)).txns[t].phase == Committed;
    } else {
      assert !LockedByOther(s, t, x.next);
      assert Step(s, Advance(t)).txns[t] != x;
    }
  }

  // ---- what each step does ----

  /** A reservation of at least one night and one room begins with nothing taken; any other is no reservation. */
  lemma BeginSays(s: State, lo: Date, hi: Date, rooms: int)
    ensures Step(s, Begin(lo, hi, rooms)) ==
              if lo < hi && 1 <= rooms
              then State(s.calendar, s.txns + [Txn(lo, hi, rooms, lo, Running, map[])]) else s
  {
  }

  /** Its next night, once no other running reservation has taken it, is decremented if it is open with enough rooms;
      otherwise the reservation is rolled back. */
  lemma AdvanceSays(s: State, t: nat)
    requires t < |s.txns| && s.txns[t].phase == Running && s.txns[t].next < s.txns[t].hi
    ensures var x := s.txns[t]; var d := x.next; var w := Step(s, Advance(t));
            if exists u :: 0 <= u < |s.txns| && u != t && s.txns[u].phase == Running
                           && s.txns[u].lo <= d < s.txns[u].next
            then w == s
            else if d in s.calendar && s.calendar[d].open && s.calendar[d].toSell >= x.rooms then
              w.calendar == s.calendar[d := s.calendar[d].(toSell := s.calendar[d].toSell - x.rooms)]
              && w.txns == s.txns[t := x.(next := d + 1, images := x.images[d := s.calendar[d]])]
            else w.txns == s.txns[t := x.(phase := RolledBack)]
  {
    var d := s.txns[t].next;
    assert LockedByOther(s, t, d) <==> exists u :: 0 <= u < |s.txns| && u != t && s.txns[u].phase == Running
                                                   && s.txns[u].lo <= d < s.txns[u].next by {
      assert forall u: nat :: u < |s.txns| ==>
          (InFlight(s, u, d) <==> s.txns[u].phase == Running && s.txns[u].lo <= d < s.txns[u].next);
    }
  }

  /** It commits once it has its last night. */
  lemma CommitSays(s: State, t: nat)
    requires t < |s.txns| && s.txns[t].phase == Running
    ensures Step(s, Commit(t)) ==
              if s.txns[t].next == s.txns[t].hi then s.(txns := s.txns[t := s.txns[t].(phase := Committed)]) else s
  {
  }
}
