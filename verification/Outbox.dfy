/** The outbox table of channel events (packages/db/src/outbox.ts). A row's id is its place in the table,
    which is kept in order of creation; instants are whole seconds. */
module Outbox {
  import opened Wrappers

  datatype PushStatus = Pending | Processing | Delivered | DeadLetter

  /** claims and requeues count how often the row has been claimed and put back; the table does not store them. */
  datatype Row = Row(
    status: PushStatus, attempts: nat, maxAttempts: nat, lastError: Option<string>, updatedAt: int,
    claims: nat, requeues: nat)

  function NewRow(maxAttempts: nat, now: int): Row {
    Row(Pending, 0, maxAttempts, None, now, 0, 0)
  }

  function Claimed(r: Row, now: int): Row {
    r.(status := Processing, updatedAt := now, claims := r.claims + 1)
  }

  function Shortened(error: string): string {
    if |error| <= 500 then error else error[..500]
  }

  function Sent(r: Row, attempts: nat, now: int): Row {
    r.(status := Delivered, attempts := attempts, lastError := None, updatedAt := now)
  }

  function Retried(r: Row, attempts: nat, error: string, now: int): Row {
    r.(attempts := attempts, lastError := Some(Shortened(error)), updatedAt := now)
  }

  function Buried(r: Row, attempts: nat, error: string, now: int): Row {
    r.(status := DeadLetter, attempts := attempts, lastError := Some(Shortened(error)), updatedAt := now)
  }

  predicate IsStale(r: Row, now: int, olderThan: int) {
    r.status == Processing && r.updatedAt < now - olderThan
  }

  predicate Exhausted(r: Row) {
    r.attempts >= r.maxAttempts
  }

  /** A row stuck in processing goes back to pending, or is dead-lettered when its attempts are used up. */
  function Requeued(r: Row, now: int, olderThan: int): Row {
    if !IsStale(r, now, olderThan) then r
    else if Exhausted(r) then
      r.(status := DeadLetter, updatedAt := now,
         lastError := if r.lastError.Some? then r.lastError else Some("worker died with attempts exhausted"))
    else r.(status := Pending, updatedAt := now, requeues := r.requeues + 1)
  }

  /** A row before and after a sweep. Only one in processing and not touched for so long is changed: with attempts
      left it is pending again, with none it is dead, its last error kept if it has one. */
  predicate Swept(was: Row, now: Row, at: int, olderThan: int) {
    if was.status != Processing || at - olderThan <= was.updatedAt then now == was
    else if was.attempts < was.maxAttempts then
      now == was.(status := Pending, updatedAt := at, requeues := was.requeues + 1)
    else
      && now == was.(status := DeadLetter, updatedAt := at, lastError := now.lastError)
      && now.lastError == if was.lastError == None then Some("worker died with attempts exhausted") else was.lastError
  }

  function AllRequeued(rows: seq<Row>, now: int, olderThan: int): (r: seq<Row>)
    ensures |r| == |rows|
  {
    seq(|rows|, i requires 0 <= i < |rows| => Requeued(rows[i], now, olderThan))
  }

  /** These rows claimed, the others as they were. */
  function WithClaimed(rows: seq<Row>, ids: set<nat>, now: int): (r: seq<Row>)
    ensures |r| == |rows|
  {
    seq(|rows|, i requires 0 <= i < |rows| => if i in ids then Claimed(rows[i], now) else rows[i])
  }

  function Ids(ids: seq<nat>): set<nat> {
    set i | i in ids
  }

  predicate Claimable(rows: seq<Row>, locked: set<nat>, i: nat) {
    i < |rows| && rows[i].status == Pending && i !in locked
  }

  class OutboxTable {
    var rows: seq<Row>

    constructor ()
      ensures rows == []
    {
      rows := [];
    }

    method Enqueue(maxAttempts: nat, now: int) returns (id: nat)
      modifies this
      ensures id == |old(rows)| && rows == old(rows) + [Row(Pending, 0, maxAttempts, None, now, 0, 0)]
    {
      id := |rows|;
      rows := rows + [NewRow(maxAttempts, now)];
    }

    /** Up to limit pending rows, oldest first, passing over those another claim has locked. */
    method ClaimPending(limit: nat, locked: set<nat>, now: int) returns (ids: seq<nat>)
      modifies this
      ensures |ids| <= limit && forall a, b :: 0 <= a < b < |ids| ==> ids[a] < ids[b]
      ensures forall k :: 0 <= k < |ids| ==>
                ids[k] < |old(rows)| && old(rows)[ids[k]].status == Pending && ids[k] !in locked
      ensures forall i: nat :: i < |old(rows)| && old(rows)[i].status == Pending && i !in locked && i !in ids ==>
                |ids| == limit && forall k :: 0 <= k < |ids| ==> ids[k] < i
      ensures |rows| == |old(rows)| && forall i: nat :: i < |rows| && i !in ids ==> rows[i] == old(rows)[i]
      ensures forall i: nat :: i < |rows| && i in ids ==>
                rows[i] == old(rows)[i].(status := Processing, updatedAt := now, claims := old(rows)[i].claims + 1)
      ensures rows == WithClaimed(old(rows), Ids(ids), now)
    {
      ids := [];
      var i := 0;
      ghost var before := rows;
      while i < |rows| && |ids| < limit
        invariant 0 <= i <= |rows| == |before| && |ids| <= limit
        invariant forall k :: 0 <= k < |ids| ==> ids[k] < i && Claimable(before, locked, ids[k])
        invariant forall a, b :: 0 <= a < b < |ids| ==> ids[a] < ids[b]
        invariant forall j: nat :: j < i && Claimable(before, locked, j) ==> j in ids
        invariant forall j: nat :: j < |rows| ==> rows[j] == if j in ids then Claimed(before[j], now) else before[j]
      {
        if rows[i].status == Pending && i !in locked {
          rows := rows[i := Claimed(rows[i], now)];
          ids := ids + [i];
        }
        i := i + 1;
      }
    }

    method MarkSent(id: nat, attempts: nat, now: int)
      requires id < |rows|
      modifies this
      ensures rows == old(rows)[id := old(rows)[id].(status := Delivered, attempts := attempts, lastError := None,
                                                     updatedAt := now)]
      ensures rows == old(rows)[id := Sent(old(rows)[id], attempts, now)]
    {
      rows := rows[id := Sent(rows[id], attempts, now)];
    }

    method MarkRetry(id: nat, attempts: nat, error: string, now: int)
      requires id < |rows|
      modifies this
      ensures rows == old(rows)[id := old(rows)[id].(attempts := attempts, updatedAt := now, lastError :=
                                        Some(if |error| <= 500 then error else error[..500]))]
      ensures rows == old(rows)[id := Retried(old(rows)[id], attempts, error, now)]
    {
      rows := rows[id := Retried(rows[id], attempts, error, now)];
    }

    method MarkFailed(id: nat, attempts: nat, error: string, now: int)
      requires id < |rows|
      modifies this
      ensures rows == old(rows)[id := old(rows)[id].(status := DeadLetter, attempts := attempts, updatedAt := now,
                                        lastError := Some(if |error| <= 500 then error else error[..500]))]
      ensures rows == old(rows)[id := Buried(old(rows)[id], attempts, error, now)]
    {
      rows := rows[id := Buried(rows[id], attempts, error, now)];
    }

    /** Two updates, the exhausted rows first. */
    method RequeueStale(now: int, olderThan: int)
      requires olderThan >= 0
      modifies this
      ensures |rows| == |old(rows)| && forall i: nat :: i < |rows| ==>
                Swept(old(rows)[i], rows[i], now, olderThan)
      ensures rows == AllRequeued(old(rows), now, olderThan)
    {
      ghost var before := rows;
      var i := 0;
      while i < |rows|
        invariant 0 <= i <= |rows| == |before|
        invariant forall j :: 0 <= j < |rows| ==>
                    rows[j] == if j < i && Exhausted(before[j]) then Requeued(before[j], now, olderThan) else before[j]
      {
        if IsStale(rows[i], now, olderThan) && Exhausted(rows[i]) {
          var error :=
            if rows[i].lastError.Some? then rows[i].lastError else Some("worker died with attempts exhausted");
          rows := rows[i := rows[i].(status := DeadLetter, lastError := error, updatedAt := now)];
        }
        i := i + 1;
      }
      i := 0;
      while i < |rows|
        invariant 0 <= i <= |rows| == |before|
        invariant forall j :: 0 <= j < |rows| ==>
                    rows[j] == if j < i || Exhausted(before[j]) then Requeued(before[j], now, olderThan) else before[j]
      {
        if IsStale(rows[i], now, olderThan) && !Exhausted(rows[i]) {
          rows := rows[i := rows[i].(status := Pending, updatedAt := now, requeues := rows[i].requeues + 1)];
        }
        i := i + 1;
      }
    }
  }
}
