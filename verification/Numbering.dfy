/** Gap-free numbering (packages/db/src/sequences.ts, bookings.ts): transactions take numbers from shared
    series, each by an upsert whose row lock lasts until the transaction commits or rolls back. A series is
    a property's document type and period, or a day of booking references. */
module Numbering {
  import opened Wrappers

  /** The number a series hands out next; a series with no row starts at 1. */
  function NextOf<K>(table: map<K, nat>, k: K): nat {
    if k in table then table[k] else 1
  }

  class Sequences<K(==)> {
    var table: map<K, nat>

    constructor ()
      ensures table == map[]
    {
      table := map[];
    }

    /** Insert the series at 2, handing out 1, or bump it and hand out the value it had. */
    method NextNumber(k: K) returns (n: nat)
      modifies this
      ensures n == NextOf(old(table), k) && table == old(table)[k := n + 1]
    {
      var next := if k in table then table[k] + 1 else 2;
      table := table[k := next];
      n := next - 1;
    }
  }

  datatype Number<K> = Number(series: K, n: nat)
  datatype Phase = Running | Committed | RolledBack

  /** taken: the numbers handed to it, in order; images: what its series held before. */
  datatype Txn<K> = Txn(phase: Phase, taken: seq<Number<K>>, images: map<K, nat>)

  /** issued: the numbers of committed transactions, in commit order. */
  datatype State<K> = State(table: map<K, nat>, txns: seq<Txn<K>>, issued: seq<Number<K>>)

  datatype Event<K> = Begin | Take(t: nat, k: K) | Commit(t: nat) | RollBack(t: nat)

  predicate IsRunning<K(==)>(s: State<K>, t: nat) {
    t < |s.txns| && s.txns[t].phase == Running
  }

  predicate Holds<K(==)>(s: State<K>, t: nat, k: K) {
    IsRunning(s, t) && k in s.txns[t].images
  }

  predicate HeldByOther<K(==)>(s: State<K>, t: nat, k: K) {
    exists u: nat :: u < |s.txns| && u != t && Holds(s, u, k)
  }

  function Taken<K(==)>(s: State<K>, t: nat, k: K): State<K>
    requires t < |s.txns|
  {
    var x, n := s.txns[t], NextOf(s.table, k);
    var images := if k in x.images then x.images else x.images[k := n];
    State(s.table[k := n + 1], s.txns[t := Txn(Running, x.taken + [Number(k, n)], images)], s.issued)
  }

  /** A rollback puts the series back where they were; one that had no row starts at 1 again. */
  function Undone<K(==)>(s: State<K>, t: nat): State<K>
    requires t < |s.txns|
  {
    var x := s.txns[t];
    State(map k | k in s.table :: if k in x.images then x.images[k] else s.table[k],
          s.txns[t := x.(phase := RolledBack)], s.issued)
  }

  /** An event that is not enabled, or must wait for a lock, changes nothing. */
  function Step<K(==)>(s: State<K>, e: Event<K>): State<K> {
    match e
    case Begin => s.(txns := s.txns + [Txn(Running, [], map[])])
    case Take(t, k) => if IsRunning(s, t) && !HeldByOther(s, t, k) then Taken(s, t, k) else s
    case Commit(t) =>
      if IsRunning(s, t)
      then State(s.table, s.txns[t := s.txns[t].(phase := Committed)], s.issued + s.txns[t].taken)
      else s
    case RollBack(t) => if IsRunning(s, t) then Undone(s, t) else s
  }

  function Run<K(==)>(s: State<K>, events: seq<Event<K>>): State<K>
    decreases |events|
  {
    if events == [] then s else Run(Step(s, events[0]), events[1..])
  }

  function Empty<K>(): State<K> {
    State(map[], [], [])
  }

  // ---- every interleaving numbers without gaps ----

  function Of<K(==)>(numbers: seq<Number<K>>, k: K): seq<nat> {
    if numbers == [] then []
    else Of(numbers[..|numbers| - 1], k) + if numbers[|numbers| - 1].series == k then [numbers[|numbers| - 1].n] else []
  }

  /** From lo up to but not including hi. */
  function Counting(lo: nat, hi: nat): (r: seq<nat>)
    ensures lo <= hi ==> |r| == hi - lo && forall i :: 0 <= i < |r| ==> r[i] == lo + i
    decreases hi - lo
  {
    if lo >= hi then [] else Counting(lo, hi - 1) + [hi - 1]
  }

  lemma {:induction false} OfJoins<K>(a: seq<Number<K>>, b: seq<Number<K>>, k: K)
    ensures Of(a + b, k) == Of(a, k) + Of(b, k)
  {
    if b == [] {
      assert a + b == a;
    } else {
      assert (a + b)[..|a + b| - 1] == a + b[..|b| - 1];
      OfJoins(a, b[..|b| - 1], k);
    }
  }

  lemma CountingJoins(lo: nat, mid: nat, hi: nat)
    requires lo <= mid <= hi
    ensures Counting(lo, mid) + Counting(mid, hi) == Counting(lo, hi)
  {}

  /** What a running transaction has taken from a series runs on from where it found it. */
  predicate TxnOk<K(==)>(s: State<K>, t: nat, k: K) {
    t < |s.txns| && (IsRunning(s, t) ==>
      if k in s.txns[t].images
      then 1 <= s.txns[t].images[k] <= NextOf(s.table, k) && k in s.table
           && Of(s.txns[t].taken, k) == Counting(s.txns[t].images[k], NextOf(s.table, k))
           && Of(s.issued, k) == Counting(1, s.txns[t].images[k])
      else Of(s.txns[t].taken, k) == [])
  }

  /** A series nobody holds has issued every number below its next one, in order. */
  ghost predicate SeriesOk<K(!new)>(s: State<K>, k: K) {
    && 1 <= NextOf(s.table, k)
    && ((forall t: nat :: !Holds(s, t, k)) ==> Of(s.issued, k) == Counting(1, NextOf(s.table, k)))
  }

  ghost predicate Inv<K(!new)>(s: State<K>) {
    && (forall k :: SeriesOk(s, k))
    && (forall t: nat, k :: t < |s.txns| ==> TxnOk(s, t, k))
    && forall t: nat, u: nat, k :: Holds(s, t, k) && Holds(s, u, k) ==> t == u
  }

  lemma BeginKeeps<K(!new)>(s: State<K>)
    requires Inv(s)
    ensures Inv(Step(s, Begin))
  {
    var w := Step(s, Begin);
    forall t: nat, k | t < |w.txns| ensures TxnOk(w, t, k) { assert t < |s.txns| ==> TxnOk(s, t, k); }
    forall k ensures SeriesOk(w, k) {
      assert SeriesOk(s, k);
      assert forall t: nat :: Holds(s, t, k) ==> Holds(w, t, k);
    }
    forall t: nat, u: nat, k | Holds(w, t, k) && Holds(w, u, k) ensures t == u {
      assert Holds(s, t, k) && Holds(s, u, k);
    }
  }

  lemma TakeSeries<K(!new)>(s: State<K>, t: nat, k: K)
    requires Inv(s) && IsRunning(s, t) && !HeldByOther(s, t, k)
    ensures TxnOk(Taken(s, t, k), t, k)
  {
    var x, n := s.txns[t], NextOf(s.table, k);
    assert TxnOk(s, t, k) && SeriesOk(s, k);
    OfJoins(x.taken, [Number(k, n)], k);
    assert [Number(k, n)][..0] == [];
    if k !in x.images { assert forall u: nat :: !Holds(s, u, k); }
  }

  lemma TakeOthers<K(!new)>(s: State<K>, t: nat, k: K, u: nat, j: K)
    requires Inv(s) && IsRunning(s, t) && !HeldByOther(s, t, k) && u < |s.txns| && (u != t || j != k)
    ensures TxnOk(Taken(s, t, k), u, j)
  {
    assert TxnOk(s, u, j);
    if u == t {
      OfJoins(s.txns[t].taken, [Number(k, NextOf(s.table, k))], j);
      assert [Number(k, NextOf(s.table, k))][..0] == [];
    } else if j == k {
      assert !Holds(s, u, k);
    }
  }

  lemma TakeKeeps<K(!new)>(s: State<K>, t: nat, k: K)
    requires Inv(s) && IsRunning(s, t) && !HeldByOther(s, t, k)
    ensures Inv(Taken(s, t, k))
  {
    var w := Taken(s, t, k);
    forall u: nat, j | u < |w.txns| ensures TxnOk(w, u, j) {
      if u == t && j == k { TakeSeries(s, t, k); } else { TakeOthers(s, t, k, u, j); }
    }
    forall u: nat, j ensures Holds(w, u, j) <==> Holds(s, u, j) || (u == t && j == k) {}
    forall j ensures SeriesOk(w, j) {
      assert SeriesOk(s, j);
      if j == k { assert Holds(w, t, k); }
    }
  }

  lemma CommitKeeps<K(!new)>(s: State<K>, t: nat)
    requires Inv(s) && IsRunning(s, t)
    ensures Inv(Step(s, Event<K>.Commit(t)))
  {
    var w := Step(s, Event<K>.Commit(t));
    var x := s.txns[t];
    forall u: nat, j ensures Holds(w, u, j) <==> Holds(s, u, j) && u != t {}
    forall u: nat, j | u < |w.txns| ensures TxnOk(w, u, j) {
      assert TxnOk(s, u, j) && TxnOk(s, t, j);
      OfJoins(s.issued, x.taken, j);
      if Holds(s, u, j) && u != t { assert !Holds(s, t, j); }
    }
    forall j ensures SeriesOk(w, j) {
      assert SeriesOk(s, j) && TxnOk(s, t, j);
      OfJoins(s.issued, x.taken, j);
      if Holds(s, t, j) { CountingJoins(1, x.images[j], NextOf(s.table, j)); }
    }
  }

  lemma UndoneKeeps<K(!new)>(s: State<K>, t: nat)
    requires Inv(s) && IsRunning(s, t)
    ensures Inv(Undone(s, t))
  {
    var w := Undone(s, t);
    forall u: nat, j ensures Holds(w, u, j) <==> Holds(s, u, j) && u != t {}
    forall u: nat, j | u < |w.txns| ensures TxnOk(w, u, j) {
      assert TxnOk(s, u, j) && TxnOk(s, t, j);
      if Holds(s, u, j) && u != t { assert !Holds(s, t, j); }
    }
    forall j ensures SeriesOk(w, j) { assert SeriesOk(s, j) && TxnOk(s, t, j); }
  }

  lemma {:induction false} RunKeeps<K(!new)>(s: State<K>, events: seq<Event<K>>)
    requires Inv(s)
    ensures Inv(Run(s, events))
    decreases |events|
  {
    if events == [] {
    } else {
      var w := Step(s, events[0]);
      if w != s {
        match events[0]
        case Begin => BeginKeeps(s);
        case Take(t, k) => TakeKeeps(s, t, k);
        case Commit(t) => CommitKeeps(s, t);
        case RollBack(t) => UndoneKeeps(s, t);
      }
      RunKeeps(w, events[1..]);
    }
  }

  /** However transactions interleave, commit or roll back, a series nobody is holding has issued exactly
      1, 2, 3 and so on up to its next value, in commit order; one that is being held has issued exactly
      the numbers below what its holder found. */
  lemma {:induction false} GapFree<K(!new)>(events: seq<Event<K>>, k: K, t: nat)
    ensures var s := Run(Empty<K>(), events);
            && ((forall u: nat :: !Holds(s, u, k)) ==> Of(s.issued, k) == Counting(1, NextOf(s.table, k)))
            && (Holds(s, t, k) ==> Of(s.issued, k) == Counting(1, s.txns[t].images[k]))
  {
    var start := Empty<K>();
    forall j ensures SeriesOk(start, j) {}
    RunKeeps(start, events);
    var s := Run(start, events);
    assert SeriesOk(s, k);
    if Holds(s, t, k) { assert TxnOk(s, t, k); }
  }

  // ---- what each step does ----

  /** A running transaction takes a series' next number once no other running one holds the series, bumps it, and
      keeps what it found there first. */
  lemma TakeSays<K>(s: State<K>, t: nat, k: K)
    requires t < |s.txns| && s.txns[t].phase == Running
    ensures var x, n := s.txns[t], if k in s.table then s.table[k] else 1;
            Step(s, Take(t, k)) ==
              if exists u: nat :: u < |s.txns| && u != t && s.txns[u].phase == Running && k in s.txns[u].images then s
              else State(s.table[k := n + 1],
                         s.txns[t := Txn(Running, x.taken + [Number(k, n)],
                                         if k in x.images then x.images else x.images[k := n])], s.issued)
  {
    assert HeldByOther(s, t, k) <==>
        exists u: nat :: u < |s.txns| && u != t && s.txns[u].phase == Running && k in s.txns[u].images by {
      assert forall u: nat :: u < |s.txns| ==>
          (Holds(s, u, k) <==> s.txns[u].phase == Running && k in s.txns[u].images);
    }
  }

  /** Its numbers are issued when it commits, in the order it took them; rolled back, it issues none and its series
      read as it found them. */
  lemma EndSays<K>(s: State<K>, t: nat, k: K)
    requires t < |s.txns| && s.txns[t].phase == Running
    ensures Step(s, Event<K>.Commit(t)) ==
              State(s.table, s.txns[t := s.txns[t].(phase := Committed)], s.issued + s.txns[t].taken)
    ensures var w := Step(s, Event<K>.RollBack(t));
            && w.issued == s.issued && w.txns == s.txns[t := s.txns[t].(phase := RolledBack)]
            && (k in w.table <==> k in s.table)
            && (k in s.table ==> w.table[k] == if k in s.txns[t].images then s.txns[t].images[k] else s.table[k])
  {
  }
}
