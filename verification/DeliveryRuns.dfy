/** What every run of relays and workers keeps, and that every event is settled in the end. */
module DeliveryRuns {
  import opened Wrappers
  import opened Outbox
  import opened Delivery

  lemma {:induction false} RunKeeps(s: State, events: seq<(Event, int)>)
    requires Inv(s)
    ensures Inv(Run(s, events))
    decreases |events|
  {
    if events == [] {
    } else {
      StepKeeps(s, events[0].0, events[0].1);
      RunKeeps(Step(s, events[0].0, events[0].1), events[1..]);
    }
  }

  /** Whatever crashes: no row is in two open claims, a row is claimed once and then once more for every
      time it was put back, and it reads as delivered only when the channel has accepted it. */
  lemma {:induction false} ClaimedOnce(events: seq<(Event, int)>, q: nat, r: nat, i: nat)
    ensures var s := Run(EMPTY, events);
            && (q in s.claims && r in s.claims && i in s.claims[q] && i in s.claims[r] ==> q == r)
            && (i < |s.rows| ==> s.rows[i].claims <= s.rows[i].requeues + 1)
            && (i < |s.rows| && s.rows[i].status == PushStatus.Delivered ==> i in s.accepted)
  {
    RunKeeps(EMPTY, events);
    var s := Run(EMPTY, events);
    assert i < |s.rows| ==> RowOk(s, i);
  }

  predicate Delivers(s: State, w: State, i: nat) {
    i < |s.rows| && i < |w.rows| && w.rows[i].status == PushStatus.Delivered && s.rows[i].status != PushStatus.Delivered
  }

  predicate Buries(s: State, w: State, i: nat) {
    i < |s.rows| && i < |w.rows| && w.rows[i].status == DeadLetter && s.rows[i].status != DeadLetter
  }

  lemma BuriedExhausted(s: State, v: Verdict, now: int, i: nat)
    requires Inv(s) && Buries(s, BuryRow(s, v, now), i)
    ensures Exhausted(BuryRow(s, v, now).rows[i])
  {
    assert VerdictOk(s, v);
  }

  lemma SweptExhausted(s: State, now: int, i: nat)
    ensures !Delivers(s, RequeueRows(s, now), i)
    ensures Buries(s, RequeueRows(s, now), i) ==> Exhausted(RequeueRows(s, now).rows[i])
  {}

  lemma MarkedAccepted(s: State, k: nat, now: int, i: nat)
    requires Inv(s)
    ensures !Buries(s, MarkRow(s, k, now), i)
    ensures Delivers(s, MarkRow(s, k, now), i) ==> k == i && i in s.accepted
  {
    if k in s.jobs { assert JobOk(s, k); }
  }

  /** The steps that write rows. */
  predicate Writes(e: Event) {
    e.Enqueue? || e.Claim? || e.Mark? || e.Listen? || e.Requeue? || e.Replay?
  }

  lemma OthersWriteNothing(s: State, e: Event, now: int)
    requires !Writes(e)
    ensures Step(s, e, now).rows == s.rows
  {
    match e
    case Lock(r, ids) => assert LockRows(s, r, ids).rows == s.rows;
    case Add(k) => assert AddJob(s, k).rows == s.rows;
    case Push(k, ok) => assert PushJob(s, k, ok).rows == s.rows;
    case Finish(k) => assert FinishJob(s, k).rows == s.rows;
    case _ =>
  }

  /** A step marks a row delivered only after an accepted push, and buries one only with its attempts used up. */
  lemma {:induction false} MarkedForCause(s: State, e: Event, now: int, i: nat)
    requires Inv(s)
    ensures Delivers(s, Step(s, e, now), i) ==> e == Mark(i) && i in s.accepted
    ensures Buries(s, Step(s, e, now), i) ==> Exhausted(Step(s, e, now).rows[i])
  {
    if !Writes(e) {
      OthersWriteNothing(s, e, now);
    } else {
      match e
      case Mark(k) => MarkedAccepted(s, k, now, i);
      case Listen(v) => if Buries(s, BuryRow(s, v, now), i) { BuriedExhausted(s, v, now, i); }
      case Requeue => SweptExhausted(s, now, i);
      case Claim(r) => assert Claims(s, ClaimRows(s, r, now), i);
      case Replay(k) => assert Claims(s, ReplayRow(s, k), i);
      case Enqueue(max) => assert Claims(s, EnqueueRow(s, max, now), i);
    }
  }

  predicate Claims(s: State, w: State, i: nat) {
    i < |s.rows| && i < |w.rows| ==> w.rows[i].status in {s.rows[i].status, PushStatus.Pending, Processing}
  }

  // ---- from any state, without further crashes, every row is settled ----

  /** Waiting with no one to move it: only time brings such a row back. */
  predicate Orphan(s: State, i: nat) {
    && i < |s.rows| && s.rows[i].status == Processing && i !in s.jobs && i !in s.held
    && Verdict(i, s.rows[i].maxAttempts) !in s.verdicts
  }

  /** What a claimed row can still take: its job's steps, and the one that adds the job. */
  function Full(r: Row): nat {
    5 * r.maxAttempts + 2
  }

  function JobWeight(j: Job): int {
    var left := 5 * (j.max - j.made);
    match j.stage
    case Waiting => left + 1
    case Pushing => left
    case Accepted | Refused => left - 1
    case Done | Retrying => left - 2
  }

  function StatusWeight(s: State, i: nat): int
    requires i < |s.rows|
  {
    if s.rows[i].status == PushStatus.Pending then Full(s.rows[i]) + if Locked(s, i) then 2 else 3
    else if Orphan(s, i) then Full(s.rows[i]) + 4
    else if s.rows[i].status == Processing then 1
    else 0
  }

  function QueueWeight(s: State, i: nat): int {
    if i in s.jobs then JobWeight(s.jobs[i]) else 0
  }

  function Times(n: nat, x: nat): nat {
    n * x
  }

  function Weight(s: State, i: nat): int
    requires i < |s.rows|
  {
    StatusWeight(s, i) + QueueWeight(s, i) + Times(s.held[i], Full(s.rows[i]))
    + s.verdicts[Verdict(i, s.rows[i].maxAttempts)]
  }

  function MeasureFirst(s: State, n: nat): int
    requires n <= |s.rows|
  {
    if n == 0 then 0 else MeasureFirst(s, n - 1) + Weight(s, n - 1)
  }

  function Measure(s: State): int {
    MeasureFirst(s, |s.rows|)
  }

  ghost predicate OnlyOrphansStale(s: State, now: int) {
    forall i: nat :: i < |s.rows| && IsStale(s.rows[i], now, STALE_SECONDS) ==> Orphan(s, i)
  }

  /** A step that does something, and is no crash, replay or new event. */
  predicate Working(s: State, e: Event, now: int) {
    && Step(s, e, now) != s
    && (e.Lock? || e.Claim? || e.Add? || e.Take? || e.Push? || e.Mark? || e.Finish? || e.Listen? || e.Requeue?)
  }

  /** One that is no stale sweep either, unless the rows it takes back have no one working on them. */
  ghost predicate Useful(s: State, e: Event, now: int) {
    Working(s, e, now) && (e.Requeue? ==> OnlyOrphansStale(s, now))
  }

  lemma {:induction false} WeightNonNegative(s: State, i: nat)
    requires Inv(s) && i < |s.rows|
    ensures 0 <= Weight(s, i)
  {
    if i in s.jobs { assert JobOk(s, i); }
  }

  lemma {:induction false} MeasureNonNegative(s: State, n: nat)
    requires Inv(s) && n <= |s.rows|
    ensures 0 <= MeasureFirst(s, n)
  {
    if n == 0 {
    } else {
      MeasureNonNegative(s, n - 1);
      WeightNonNegative(s, n - 1);
    }
  }

  lemma {:induction false} MeasureDrops(s: State, w: State, n: nat, i: nat)
    requires |w.rows| == |s.rows| && i < |s.rows| && n <= |s.rows|
    requires forall j: nat :: j < |s.rows| ==> Weight(w, j) <= Weight(s, j)
    requires Weight(w, i) < Weight(s, i)
    ensures MeasureFirst(w, n) <= MeasureFirst(s, n) - if i < n then 1 else 0
  {
    if n == 0 {
    } else {
      MeasureDrops(s, w, n - 1, i);
    }
  }

  lemma OneLess(n: nat, x: nat)
    requires n > 0
    ensures Times(n, x) == Times(n - 1, x) + x
  {}

  lemma LockDrops(s: State, r: nat, ids: set<nat>, j: nat)
    requires Inv(s) && LockRows(s, r, ids) != s && j < |s.rows|
    ensures Weight(LockRows(s, r, ids), j) <= Weight(s, j) - if j in ids then 1 else 0
  {
    var w := LockRows(s, r, ids);
    if j in ids {
      assert CanLock(s, j);
      assert r in w.claims && j in w.claims[r] && Locked(w, j);
    } else {
      if Locked(s, j) {
        var q :| q in s.claims && j in s.claims[q];
        assert q in w.claims && j in w.claims[q];
      }
    }
  }

  lemma ClaimedStatus(s: State, r: nat, now: int, j: nat)
    requires Inv(s) && r in s.claims && j in s.claims[r]
    ensures j < |s.rows| && StatusWeight(s, j) == Full(s.rows[j]) + 2 && StatusWeight(ClaimRows(s, r, now), j) == 1
  {
    var w := ClaimRows(s, r, now);
    assert ClaimOk(s, r) && Locked(s, j);
    assert j in w.held && w.rows[j] == Claimed(s.rows[j], now);
  }

  lemma ClaimedHeld(s: State, r: nat, now: int, j: nat)
    requires r in s.claims && j in s.claims[r] && j < |s.rows|
    ensures Times(ClaimRows(s, r, now).held[j], Full(s.rows[j])) == Times(s.held[j], Full(s.rows[j])) + Full(s.rows[j])
  {
    assert ClaimRows(s, r, now).held[j] == s.held[j] + 1;
    OneLess(s.held[j] + 1, Full(s.rows[j]));
  }

  lemma ClaimedDrops(s: State, r: nat, now: int, j: nat)
    requires Inv(s) && r in s.claims && j in s.claims[r]
    ensures j < |s.rows| && Weight(ClaimRows(s, r, now), j) <= Weight(s, j) - 1
  {
    ClaimedStatus(s, r, now, j);
    ClaimedHeld(s, r, now, j);
    assert Full(ClaimRows(s, r, now).rows[j]) == Full(s.rows[j]);
  }

  lemma UnclaimedLock(s: State, r: nat, now: int, j: nat)
    requires r in s.claims && j !in s.claims[r]
    ensures Locked(s, j) ==> Locked(ClaimRows(s, r, now), j)
  {
    if Locked(s, j) {
      var w := ClaimRows(s, r, now);
      var q :| q in s.claims && j in s.claims[q];
      assert q in w.claims && j in w.claims[q];
    }
  }

  lemma UnclaimedSame(s: State, r: nat, now: int, j: nat)
    requires Inv(s) && r in s.claims && j !in s.claims[r] && j < |s.rows|
    ensures Weight(ClaimRows(s, r, now), j) <= Weight(s, j)
  {
    var w := ClaimRows(s, r, now);
    UnclaimedLock(s, r, now, j);
    assert w.held[j] == s.held[j] && w.rows[j] == s.rows[j];
    assert Orphan(w, j) <==> Orphan(s, j);
  }

  lemma ClaimDrops(s: State, r: nat, now: int, j: nat)
    requires Inv(s) && r in s.claims && j < |s.rows|
    ensures Weight(ClaimRows(s, r, now), j) <= Weight(s, j) - if j in s.claims[r] then 1 else 0
  {
    if j in s.claims[r] { ClaimedDrops(s, r, now, j); } else { UnclaimedSame(s, r, now, j); }
  }

  lemma SameLocks(s: State, w: State, j: nat)
    requires w.claims == s.claims
    ensures Locked(w, j) <==> Locked(s, j)
  {}

  lemma AddDrops(s: State, i: nat, j: nat)
    requires Inv(s) && i in s.held && j < |s.rows|
    ensures Weight(AddJob(s, i), j) <= Weight(s, j) - if j == i then 1 else 0
  {
    var w := AddJob(s, i);
    SameLocks(s, w, j);
    if j == i { OneLess(s.held[i], Full(s.rows[i])); }
  }

  /** A job step that lightens its job and leaves its row alone. */
  lemma JobStepDrops(s: State, w: State, i: nat, j: nat)
    requires Inv(s) && i in s.jobs && j < |s.rows| && w.rows == s.rows && w.claims == s.claims && w.held == s.held
    requires w.verdicts == s.verdicts
    requires i in w.jobs && w.jobs == s.jobs[i := w.jobs[i]] && JobWeight(w.jobs[i]) < JobWeight(s.jobs[i])
    ensures Weight(w, j) <= Weight(s, j) - if j == i then 1 else 0
  {
    SameLocks(s, w, j);
  }

  lemma MarkDrops(s: State, i: nat, now: int, j: nat)
    requires Inv(s) && MarkRow(s, i, now) != s && j < |s.rows|
    ensures Weight(MarkRow(s, i, now), j) <= Weight(s, j) - if j == i then 1 else 0
  {
    SameLocks(s, MarkRow(s, i, now), j);
    assert JobOk(s, i);
  }

  lemma FinishDrops(s: State, i: nat, j: nat)
    requires Inv(s) && FinishJob(s, i) != s && j < |s.rows|
    ensures Weight(FinishJob(s, i), j) <= Weight(s, j) - if j == i then 1 else 0
  {
    SameLocks(s, FinishJob(s, i), j);
    assert JobOk(s, i);
  }

  lemma BuryDrops(s: State, v: Verdict, now: int, j: nat)
    requires Inv(s) && v in s.verdicts && v.row < |s.rows| && !Locked(s, v.row) && j < |s.rows|
    ensures Weight(BuryRow(s, v, now), j) <= Weight(s, j) - if j == v.row then 1 else 0
  {
    var w := BuryRow(s, v, now);
    SameLocks(s, w, j);
    assert VerdictOk(s, v);
  }

  lemma RequeueDrops(s: State, now: int, j: nat)
    requires Inv(s) && OnlyOrphansStale(s, now) && j < |s.rows|
    ensures Weight(RequeueRows(s, now), j) <= Weight(s, j) - if IsStale(s.rows[j], now, STALE_SECONDS) then 1 else 0
  {
    SameLocks(s, RequeueRows(s, now), j);
  }

  lemma JobStepMeasure(s: State, w: State, i: nat)
    requires Inv(s) && i in s.jobs && w.rows == s.rows && w.claims == s.claims && w.held == s.held
    requires w.verdicts == s.verdicts
    requires i in w.jobs && w.jobs == s.jobs[i := w.jobs[i]] && JobWeight(w.jobs[i]) < JobWeight(s.jobs[i])
    ensures Measure(w) < Measure(s)
  {
    assert JobOk(s, i);
    forall j: nat | j < |s.rows| ensures Weight(w, j) <= Weight(s, j) - if j == i then 1 else 0 {
      JobStepDrops(s, w, i, j);
    }
    MeasureDrops(s, w, |s.rows|, i);
  }

  lemma RowStepMeasure(s: State, w: State, i: nat)
    requires |w.rows| == |s.rows| && i < |s.rows|
    requires forall j: nat :: j < |s.rows| ==> Weight(w, j) <= Weight(s, j) - if j == i then 1 else 0
    ensures Measure(w) < Measure(s)
  {
    MeasureDrops(s, w, |s.rows|, i);
  }

  lemma LockMeasure(s: State, r: nat, ids: set<nat>)
    requires Inv(s) && LockRows(s, r, ids) != s
    ensures Measure(LockRows(s, r, ids)) < Measure(s)
  {
    var w := LockRows(s, r, ids);
    var i :| i in ids;
    assert CanLock(s, i);
    forall j: nat | j < |s.rows| ensures Weight(w, j) <= Weight(s, j) - if j in ids then 1 else 0 {
      LockDrops(s, r, ids, j);
    }
    MeasureDrops(s, w, |s.rows|, i);
  }

  lemma ClaimMeasure(s: State, r: nat, now: int)
    requires Inv(s) && r in s.claims
    ensures Measure(ClaimRows(s, r, now)) < Measure(s)
  {
    var w := ClaimRows(s, r, now);
    assert ClaimOk(s, r);
    var i :| i in s.claims[r];
    forall j: nat | j < |s.rows| ensures Weight(w, j) <= Weight(s, j) - if j in s.claims[r] then 1 else 0 {
      ClaimDrops(s, r, now, j);
    }
    MeasureDrops(s, w, |s.rows|, i);
  }

  lemma RequeueMeasure(s: State, now: int)
    requires Inv(s) && OnlyOrphansStale(s, now) && RequeueRows(s, now) != s
    ensures Measure(RequeueRows(s, now)) < Measure(s)
  {
    var w := RequeueRows(s, now);
    forall j: nat | j < |s.rows|
      ensures Weight(w, j) <= Weight(s, j) - if IsStale(s.rows[j], now, STALE_SECONDS) then 1 else 0
    {
      RequeueDrops(s, now, j);
    }
    assert (forall i: nat :: i < |s.rows| ==> !IsStale(s.rows[i], now, STALE_SECONDS)) ==> w.rows == s.rows;
    var i: nat :| i < |s.rows| && IsStale(s.rows[i], now, STALE_SECONDS);
    MeasureDrops(s, w, |s.rows|, i);
  }

  lemma AddMeasure(s: State, i: nat)
    requires Inv(s) && AddJob(s, i) != s
    ensures Measure(AddJob(s, i)) < Measure(s)
  {
    var w := AddJob(s, i);
    forall j: nat | j < |s.rows| ensures Weight(w, j) <= Weight(s, j) - if j == i then 1 else 0 { AddDrops(s, i, j); }
    RowStepMeasure(s, w, i);
  }

  lemma PushMeasure(s: State, i: nat, ok: bool)
    requires Inv(s) && PushJob(s, i, ok) != s
    ensures Measure(PushJob(s, i, ok)) < Measure(s)
  {
    JobStepMeasure(s, PushJob(s, i, ok), i);
  }

  lemma MarkMeasure(s: State, i: nat, now: int)
    requires Inv(s) && MarkRow(s, i, now) != s
    ensures Measure(MarkRow(s, i, now)) < Measure(s)
  {
    var w := MarkRow(s, i, now);
    forall j: nat | j < |s.rows| ensures Weight(w, j) <= Weight(s, j) - if j == i then 1 else 0 {
      MarkDrops(s, i, now, j);
    }
    RowStepMeasure(s, w, i);
  }

  lemma FinishMeasure(s: State, i: nat)
    requires Inv(s) && FinishJob(s, i) != s
    ensures Measure(FinishJob(s, i)) < Measure(s)
  {
    var w := FinishJob(s, i);
    assert JobOk(s, i);
    forall j: nat | j < |s.rows| ensures Weight(w, j) <= Weight(s, j) - if j == i then 1 else 0 {
      FinishDrops(s, i, j);
    }
    RowStepMeasure(s, w, i);
  }

  lemma BuryMeasure(s: State, v: Verdict, now: int)
    requires Inv(s) && BuryRow(s, v, now) != s
    ensures Measure(BuryRow(s, v, now)) < Measure(s)
  {
    var w := BuryRow(s, v, now);
    forall j: nat | j < |s.rows| ensures Weight(w, j) <= Weight(s, j) - if j == v.row then 1 else 0 {
      BuryDrops(s, v, now, j);
    }
    RowStepMeasure(s, w, v.row);
  }

  /** Every useful step brings the end nearer, whichever way a push goes. */
  lemma UsefulDrops(s: State, e: Event, now: int)
    requires Inv(s) && Useful(s, e, now)
    ensures Inv(Step(s, e, now)) && Measure(Step(s, e, now)) < Measure(s)
  {
    StepKeeps(s, e, now);
    match e
    case Lock(r, ids) => LockMeasure(s, r, ids);
    case Claim(r) => ClaimMeasure(s, r, now);
    case Add(i) => AddMeasure(s, i);
    case Take(i) => JobStepMeasure(s, Step(s, e, now), i);
    case Push(i, ok) => PushMeasure(s, i, ok);
    case Mark(i) => MarkMeasure(s, i, now);
    case Finish(i) => FinishMeasure(s, i);
    case Listen(v) => BuryMeasure(s, v, now);
    case Requeue => RequeueMeasure(s, now);
  }

  ghost predicate UsefulRun(s: State, events: seq<(Event, int)>)
    decreases |events|
  {
    events == [] || (Useful(s, events[0].0, events[0].1) && UsefulRun(Step(s, events[0].0, events[0].1), events[1..]))
  }

  predicate AllSettled(s: State) {
    forall i :: 0 <= i < |s.rows| ==> Settled(s.rows[i])
  }

  /** The next step of a job, unless its row is locked. */
  lemma JobMoves(s: State, i: nat, now: int) returns (e: Event)
    requires Inv(s) && i in s.jobs && !Locked(s, i)
    ensures Useful(s, e, now)
  {
    assert JobOk(s, i);
    match s.jobs[i].stage
    case Waiting =>
      e := Take(i);
      assert Step(s, e, now).jobs[i].stage == Pushing;
    case Pushing =>
      e := Push(i, true);
      assert Step(s, e, now).jobs[i].stage == Accepted;
    case Accepted =>
      e := Mark(i);
      assert Step(s, e, now).jobs[i].stage == Done;
    case Refused =>
      e := Mark(i);
      assert Step(s, e, now).jobs[i].stage == Retrying;
    case Done =>
      e := Finish(i);
      assert i !in Step(s, e, now).jobs;
    case Retrying =>
      e := Finish(i);
      assert i !in Step(s, e, now).jobs || Step(s, e, now).jobs[i].stage == Waiting;
  }

  lemma ProcessingMoves(s: State, i: nat, now: int) returns (e: Event)
    requires Inv(s) && i < |s.rows| && s.rows[i].status == Processing && !Orphan(s, i)
    ensures Useful(s, e, now)
  {
    if Locked(s, i) { LockedPending(s, i); }
    if i in s.jobs {
      e := JobMoves(s, i, now);
    } else if i in s.held {
      e := Add(i);
      assert Step(s, e, now).held[i] == s.held[i] - 1;
    } else {
      var v := Verdict(i, s.rows[i].maxAttempts);
      e := Listen(v);
      assert Step(s, e, now).verdicts[v] == s.verdicts[v] - 1;
    }
  }

  lemma PendingMoves(s: State, i: nat, now: int) returns (e: Event)
    requires Inv(s) && i < |s.rows| && s.rows[i].status == PushStatus.Pending
    ensures Useful(s, e, now)
  {
    if r :| r in s.claims {
      e := Claim(r);
      assert r !in Step(s, e, now).claims;
    } else {
      e := Lock(0, {i});
      assert CanLock(s, i);
      assert 0 in Step(s, e, now).claims;
    }
  }

  /** While a row is unsettled there is a useful step to take. */
  lemma Moves(s: State) returns (e: Event, now: int)
    requires Inv(s) && !AllSettled(s)
    ensures Useful(s, e, now)
  {
    now := 0;
    if i: nat :| i < |s.rows| && s.rows[i].status == PushStatus.Pending {
      e := PendingMoves(s, i, now);
    } else if i: nat :| i < |s.rows| && s.rows[i].status == Processing && !Orphan(s, i) {
      e := ProcessingMoves(s, i, now);
    } else {
      var i: nat :| i < |s.rows| && !Settled(s.rows[i]);
      assert s.rows[i].status == Processing;
      e, now := Requeue, s.rows[i].updatedAt + STALE_SECONDS + 1;
      assert IsStale(s.rows[i], now, STALE_SECONDS);
      assert Step(s, e, now).rows[i].status != Processing;
    }
  }

  /** A run of useful steps cannot go on for longer than the measure, and it can stop only with every
      row delivered or dead-lettered. */
  lemma {:induction false} SettlesWithin(s: State, events: seq<(Event, int)>)
    requires Inv(s) && UsefulRun(s, events)
    ensures |events| <= Measure(s)
    ensures AllSettled(Run(s, events)) || exists e, now :: Useful(Run(s, events), e, now)
    decreases |events|
  {
    if events == [] {
      MeasureNonNegative(s, |s.rows|);
      if !AllSettled(s) { var e, now := Moves(s); }
    } else {
      UsefulDrops(s, events[0].0, events[0].1);
      SettlesWithin(Step(s, events[0].0, events[0].1), events[1..]);
    }
  }

  /** From whatever state the crashes left, some such run settles every row. */
  lemma {:induction false} CanSettle(s: State) returns (events: seq<(Event, int)>)
    requires Inv(s)
    ensures UsefulRun(s, events) && AllSettled(Run(s, events))
    decreases Measure(s)
  {
    events := [];
    if AllSettled(s) {
    } else {
      var e, now := Moves(s);
      UsefulDrops(s, e, now);
      MeasureNonNegative(s, |s.rows|);
      MeasureNonNegative(Step(s, e, now), |Step(s, e, now).rows|);
      var rest := CanSettle(Step(s, e, now));
      events := [(e, now)] + rest;
      assert events[1..] == rest;
    }
  }

  // ---- when rows go stale under those still working on them ----

  /** How often the row was put back between two states. */
  function PutBack(s: State, w: State, i: nat): nat
    requires i < |s.rows| && i < |w.rows|
  {
    if w.rows[i].requeues >= s.rows[i].requeues then w.rows[i].requeues - s.rows[i].requeues else 0
  }

  /** What putting rows back can cost: all the attempts of a row, once more for each time. */
  function CostFirst(s: State, w: State, n: nat): nat
    requires n <= |s.rows| && n <= |w.rows|
  {
    if n == 0 then 0 else CostFirst(s, w, n - 1) + Times(PutBack(s, w, n - 1), Full(s.rows[n - 1]) + 3)
  }

  function Cost(s: State, w: State): nat
    requires |w.rows| == |s.rows|
  {
    CostFirst(s, w, |s.rows|)
  }

  /** The same rows, some of them put back. */
  ghost predicate Onward(s: State, w: State) {
    && |w.rows| == |s.rows|
    && forall i: nat :: i < |s.rows| ==>
         w.rows[i].maxAttempts == s.rows[i].maxAttempts && w.rows[i].requeues >= s.rows[i].requeues
  }

  lemma ClaimOnward(s: State, r: nat, now: int)
    ensures Onward(s, ClaimRows(s, r, now))
  {}

  lemma MarkOnward(s: State, i: nat, now: int)
    ensures Onward(s, MarkRow(s, i, now))
  {}

  lemma BuryOnward(s: State, v: Verdict, now: int)
    ensures Onward(s, BuryRow(s, v, now))
  {}

  lemma SweepOnward(s: State, now: int)
    ensures Onward(s, RequeueRows(s, now))
  {}

  lemma WorkGoesOnward(s: State, e: Event, now: int)
    requires Working(s, e, now)
    ensures Onward(s, Step(s, e, now))
  {
    if !Writes(e) {
      OthersWriteNothing(s, e, now);
    } else {
      match e
      case Claim(r) => ClaimOnward(s, r, now);
      case Mark(i) => MarkOnward(s, i, now);
      case Listen(v) => BuryOnward(s, v, now);
      case Requeue => SweepOnward(s, now);
    }
  }

  lemma TimesAdd(a: nat, b: nat, x: nat)
    ensures Times(a + b, x) == Times(a, x) + Times(b, x)
  {}

  lemma {:induction false} CostsAdd(s: State, w: State, u: State, n: nat)
    requires Onward(s, w) && Onward(w, u) && n <= |s.rows|
    ensures CostFirst(s, u, n) == CostFirst(s, w, n) + CostFirst(w, u, n)
  {
    if n == 0 {
    } else {
      CostsAdd(s, w, u, n - 1);
      assert w.rows[n - 1].maxAttempts == s.rows[n - 1].maxAttempts;
      TimesAdd(PutBack(s, w, n - 1), PutBack(w, u, n - 1), Full(s.rows[n - 1]) + 3);
    }
  }

  /** A row put back weighs at most its attempts more; one given up weighs less. */
  lemma SweepWeight(s: State, now: int, j: nat)
    requires Inv(s) && j < |s.rows|
    ensures var w := RequeueRows(s, now);
            Weight(w, j) + (if IsStale(s.rows[j], now, STALE_SECONDS) then 1 else 0) <=
              Weight(s, j) + Times(PutBack(s, w, j), Full(s.rows[j]) + 3)
  {
    var w := RequeueRows(s, now);
    SameLocks(s, w, j);
    assert Times(0, Full(s.rows[j]) + 3) == 0 && Times(1, Full(s.rows[j]) + 3) == Full(s.rows[j]) + 3;
  }

  /** A row weighs at most its put-backs more, and one row weighs less than that. */
  ghost predicate WeighsAtMost(s: State, w: State, i: nat, j: nat)
    requires |w.rows| == |s.rows| && j < |s.rows|
  {
    Weight(w, j) + (if j == i then 1 else 0) <= Weight(s, j) + Times(PutBack(s, w, j), Full(s.rows[j]) + 3)
  }

  lemma {:induction false} WeightsSum(s: State, w: State, n: nat, i: nat)
    requires |w.rows| == |s.rows| && n <= |s.rows| && forall j: nat :: j < |s.rows| ==> WeighsAtMost(s, w, i, j)
    ensures MeasureFirst(w, n) + (if i < n then 1 else 0) <= MeasureFirst(s, n) + CostFirst(s, w, n)
  {
    if n == 0 {
    } else {
      WeightsSum(s, w, n - 1, i);
      assert WeighsAtMost(s, w, i, n - 1);
    }
  }

  lemma SweepMeasure(s: State, now: int)
    requires Inv(s) && RequeueRows(s, now) != s
    ensures Measure(RequeueRows(s, now)) + 1 <= Measure(s) + Cost(s, RequeueRows(s, now))
  {
    var w := RequeueRows(s, now);
    assert (forall i: nat :: i < |s.rows| ==> !IsStale(s.rows[i], now, STALE_SECONDS)) ==> w.rows == s.rows;
    var i: nat :| i < |s.rows| && IsStale(s.rows[i], now, STALE_SECONDS);
    forall j: nat | j < |s.rows| ensures WeighsAtMost(s, w, i, j) { SweepWeight(s, now, j); }
    WeightsSum(s, w, |s.rows|, i);
  }

  /** Any working step brings the end nearer, but for what the rows it puts back cost. */
  lemma WorkMeasure(s: State, e: Event, now: int)
    requires Inv(s) && Working(s, e, now)
    ensures Inv(Step(s, e, now)) && Onward(s, Step(s, e, now))
    ensures Measure(Step(s, e, now)) + 1 <= Measure(s) + Cost(s, Step(s, e, now))
  {
    WorkGoesOnward(s, e, now);
    StepKeeps(s, e, now);
    if e.Requeue? { SweepMeasure(s, now); } else { UsefulDrops(s, e, now); }
  }

  predicate WorkingRun(s: State, events: seq<(Event, int)>)
    decreases |events|
  {
    events == [] || (Working(s, events[0].0, events[0].1) && WorkingRun(Step(s, events[0].0, events[0].1), events[1..]))
  }

  /** However often rows go stale under those still working on them, a run takes at most the measure and, for
      every time a row was put back, all of that row's attempts once more. */
  lemma {:induction false} WorkEnds(s: State, events: seq<(Event, int)>)
    requires Inv(s) && WorkingRun(s, events)
    ensures Onward(s, Run(s, events)) && |events| <= Measure(s) + Cost(s, Run(s, events))
    ensures AllSettled(Run(s, events)) || exists e, now :: Working(Run(s, events), e, now)
    decreases |events|
  {
    if events == [] {
      MeasureNonNegative(s, |s.rows|);
      if !AllSettled(s) { var e, now := Moves(s); }
    } else {
      var w := Step(s, events[0].0, events[0].1);
      WorkMeasure(s, events[0].0, events[0].1);
      WorkEnds(w, events[1..]);
      CostsAdd(s, w, Run(s, events), |s.rows|);
    }
  }

  // ---- when a delivered row stays delivered ----

  /** Nothing is working on the row: no job, no relay still to add one, no verdict to come. */
  predicate Quiet(s: State, i: nat) {
    i < |s.rows| && i !in s.jobs && i !in s.held && Verdict(i, s.rows[i].maxAttempts) !in s.verdicts
  }

  predicate StaysDelivered(s: State, i: nat) {
    Quiet(s, i) && s.rows[i].status == PushStatus.Delivered
  }

  /** The steps of workers, and those that take something away. */
  predicate OfJob(e: Event) {
    e.Take? || e.Push? || e.Mark? || e.Finish? || e.Stall? || e.LoseJob? || e.MarkFails? || e.LoseHeld?
        || e.LoseVerdict? || e.LoseClaim?
  }

  lemma QuietMark(s: State, k: nat, now: int, i: nat)
    requires StaysDelivered(s, i)
    ensures StaysDelivered(MarkRow(s, k, now), i)
  {}

  lemma QuietFinish(s: State, k: nat, i: nat)
    requires StaysDelivered(s, i)
    ensures StaysDelivered(FinishJob(s, k), i)
  {}

  lemma QuietPush(s: State, k: nat, ok: bool, i: nat)
    requires StaysDelivered(s, i)
    ensures StaysDelivered(PushJob(s, k, ok), i)
  {}

  lemma QuietJobStep(s: State, e: Event, now: int, i: nat)
    requires StaysDelivered(s, i) && OfJob(e)
    ensures StaysDelivered(Step(s, e, now), i)
  {
    match e
    case Mark(k) => QuietMark(s, k, now, i);
    case Finish(k) => QuietFinish(s, k, i);
    case Push(k, ok) => QuietPush(s, k, ok, i);
    case Take(k) => assert Step(s, e, now).rows == s.rows;
    case Stall(k) => assert Step(s, e, now).rows == s.rows;
    case MarkFails(k) => assert Step(s, e, now).rows == s.rows;
    case LoseJob(k) => assert Step(s, e, now).rows == s.rows;
    case LoseHeld(k) => assert Step(s, e, now).rows == s.rows;
    case LoseVerdict(v) => assert Step(s, e, now).rows == s.rows;
    case LoseClaim(r) => assert Step(s, e, now).rows == s.rows;
  }

  lemma QuietClaim(s: State, r: nat, now: int, i: nat)
    requires Inv(s) && StaysDelivered(s, i)
    ensures StaysDelivered(ClaimRows(s, r, now), i)
  {
    if r in s.claims { assert ClaimOk(s, r); }
  }

  lemma QuietBury(s: State, v: Verdict, now: int, i: nat)
    requires Inv(s) && StaysDelivered(s, i)
    ensures StaysDelivered(BuryRow(s, v, now), i)
  {
    if v in s.verdicts { assert VerdictOk(s, v); }
  }

  lemma QuietAdd(s: State, k: nat, i: nat)
    requires StaysDelivered(s, i)
    ensures StaysDelivered(AddJob(s, k), i)
  {
    assert k in s.held ==> k != i;
  }

  lemma QuietRowStep(s: State, e: Event, now: int, i: nat)
    requires Inv(s) && StaysDelivered(s, i) && !OfJob(e)
    ensures StaysDelivered(Step(s, e, now), i)
  {
    match e
    case Claim(r) => QuietClaim(s, r, now, i);
    case Listen(v) => QuietBury(s, v, now, i);
    case Add(k) => QuietAdd(s, k, i);
    case _ =>
  }

  lemma {:induction false} QuietRun(s: State, events: seq<(Event, int)>, i: nat)
    requires Inv(s) && StaysDelivered(s, i)
    ensures StaysDelivered(Run(s, events), i)
    decreases |events|
  {
    if events == [] {
    } else {
      StepKeeps(s, events[0].0, events[0].1);
      if OfJob(events[0].0) {
        QuietJobStep(s, events[0].0, events[0].1, i);
      } else {
        QuietRowStep(s, events[0].0, events[0].1, i);
      }
      QuietRun(Step(s, events[0].0, events[0].1), events[1..], i);
    }
  }

  lemma {:induction false} RunJoins(s: State, a: seq<(Event, int)>, b: seq<(Event, int)>)
    ensures Run(s, a + b) == Run(Run(s, a), b)
    decreases |a|
  {
    if a == [] {
      assert a + b == b;
    } else {
      assert (a + b)[1..] == a[1..] + b;
      RunJoins(Step(s, a[0].0, a[0].1), a[1..], b);
    }
  }

  /** The row of a delivered event is not locked, so marks do not wait. */
  predicate Buriable(s: State, i: nat) {
    i < |s.rows| && s.rows[i].status == PushStatus.Delivered
  }

  lemma {:induction false} BuryByVerdict(s: State, i: nat) returns (events: seq<(Event, int)>)
    requires Inv(s) && Buriable(s, i) && Verdict(i, s.rows[i].maxAttempts) in s.verdicts
    ensures i < |Run(s, events).rows| && Run(s, events).rows[i].status == DeadLetter
  {
    if Locked(s, i) { LockedPending(s, i); }
    events := [(Listen(Verdict(i, s.rows[i].maxAttempts)), 0)];
    assert events[1..] == [];
  }

  /** A push refused once more. */
  lemma RefuseOnce(s: State, i: nat) returns (w: State)
    requires Inv(s) && Buriable(s, i) && AtStage(s, i, Waiting)
    ensures w == Run(s, [(Take(i), 0), (Push(i, false), 0), (Mark(i), 0), (Finish(i), 0)])
    ensures Inv(w) && Buriable(w, i) && w.rows[i].maxAttempts == s.rows[i].maxAttempts
    ensures if s.jobs[i].made + 1 < s.jobs[i].max then AtStage(w, i, Waiting) && w.jobs[i].made == s.jobs[i].made + 1
            else Verdict(i, w.rows[i].maxAttempts) in w.verdicts
  {
    var a := Step(s, Take(i), 0);
    var b := Step(a, Push(i, false), 0);
    StepKeeps(s, Take(i), 0);
    StepKeeps(a, Push(i, false), 0);
    w := RecordRefusal(b, i);
    FourSteps(s, (Take(i), 0), (Push(i, false), 0), (Mark(i), 0), (Finish(i), 0));
  }

  lemma RecordRefusal(s: State, i: nat) returns (w: State)
    requires Inv(s) && Buriable(s, i) && AtStage(s, i, Refused)
    ensures w == Step(Step(s, Mark(i), 0), Finish(i), 0)
    ensures Inv(w) && Buriable(w, i) && w.rows[i].maxAttempts == s.rows[i].maxAttempts
    ensures if s.jobs[i].made + 1 < s.jobs[i].max then AtStage(w, i, Waiting) && w.jobs[i].made == s.jobs[i].made + 1
            else Verdict(i, w.rows[i].maxAttempts) in w.verdicts
  {
    assert JobOk(s, i);
    if Locked(s, i) { LockedPending(s, i); }
    var c := Step(s, Mark(i), 0);
    w := Step(c, Finish(i), 0);
    StepKeeps(s, Mark(i), 0);
    StepKeeps(c, Finish(i), 0);
  }

  lemma FourSteps(s: State, a: (Event, int), b: (Event, int), c: (Event, int), d: (Event, int))
    ensures Run(s, [a, b, c, d]) == Step(Step(Step(Step(s, a.0, a.1), b.0, b.1), c.0, c.1), d.0, d.1)
  {
    assert [a, b, c, d][1..] == [b, c, d] && [b, c, d][1..] == [c, d] && [c, d][1..] == [d] && [d][1..] == [];
    var t := Step(s, a.0, a.1);
    var u := Step(t, b.0, b.1);
    assert Run(s, [a, b, c, d]) == Run(t, [b, c, d]) == Run(u, [c, d]);
    var v := Step(u, c.0, c.1);
    assert Run(u, [c, d]) == Run(v, [d]) == Step(v, d.0, d.1);
  }

  lemma {:induction false} BuryByJob(s: State, i: nat) returns (events: seq<(Event, int)>)
    requires Inv(s) && Buriable(s, i) && AtStage(s, i, Waiting)
    ensures i < |Run(s, events).rows| && Run(s, events).rows[i].status == DeadLetter
    decreases s.jobs[i].max - s.jobs[i].made
  {
    assert JobOk(s, i);
    var w := RefuseOnce(s, i);
    var first := [(Take(i), 0), (Push(i, false), 0), (Mark(i), 0), (Finish(i), 0)];
    var rest;
    if s.jobs[i].made + 1 < s.jobs[i].max {
      assert JobOk(w, i);
      rest := BuryByJob(w, i);
    } else {
      rest := BuryByVerdict(w, i);
    }
    RunJoins(s, first, rest);
    events := first + rest;
  }

  /** A delivered row can come to be dead-lettered exactly while something is still working on it: a job
      that outlived its mark, a claim taken before the row went stale, or an earlier job's verdict. */
  lemma {:induction false} BuriedAfterDeliveryIff(s: State, i: nat)
    requires Inv(s) && i < |s.rows| && s.rows[i].status == PushStatus.Delivered
    ensures !Quiet(s, i) <==>
      exists events :: i < |Run(s, events).rows| && Run(s, events).rows[i].status == DeadLetter
  {
    if Quiet(s, i) {
      forall events ensures StaysDelivered(Run(s, events), i) { QuietRun(s, events, i); }
    } else if Verdict(i, s.rows[i].maxAttempts) in s.verdicts {
      var events := BuryByVerdict(s, i);
    } else {
      var e := if i in s.jobs then Stall(i) else Add(i);
      var w := Step(s, e, 0);
      StepKeeps(s, e, 0);
      var rest := BuryByJob(w, i);
      var events := [(e, 0)] + rest;
      assert events[1..] == rest && Run(s, events) == Run(w, rest);
    }
  }

  // A relay claims the one row and is slow to add its job, so that the row goes stale, is put back and is claimed
  // again. The row is delivered for one claim while the job of the other is still to be added.

  const ROW := Row(Processing, 0, 1, None, 0, 1, 0)
  const CLAIMED := EMPTY.(rows := [ROW], held := multiset{0})
  const PUT_BACK := CLAIMED.(rows := [ROW.(status := PushStatus.Pending, updatedAt := 121, requeues := 1)])
  const AGAIN := ROW.(updatedAt := 121, claims := 2, requeues := 1)
  const CLAIMED_TWICE := EMPTY.(rows := [AGAIN], held := multiset{0, 0})
  const PUSHED := EMPTY.(rows := [AGAIN], held := multiset{0}, jobs := map[0 := Job(0, 1, Accepted)], accepted := {0})
  const DELIVERED := EMPTY.(rows := [AGAIN.(status := PushStatus.Delivered, attempts := 1, updatedAt := 122)],
                            held := multiset{0}, accepted := {0})

  const CLAIMING := [(Enqueue(1), 0), (Lock(0, {0}), 0), (Claim(0), 0), (Requeue, 121)]
  const RECLAIMING := [(Lock(1, {0}), 121), (Claim(1), 121), (Add(0), 122), (Take(0), 122)]
  const DELIVERING := [(Push(0, true), 122), (Mark(0), 122), (Finish(0), 122)]

  /** Before each claim the row is pending and one relay has locked it. */
  const LOCKED := EMPTY.(rows := [NewRow(1, 0)], claims := map[0 := {0}])
  const LOCKED_AGAIN := PUT_BACK.(claims := map[1 := {0}])

  lemma FirstClaim()
    ensures Step(EMPTY.(rows := [NewRow(1, 0)]), Lock(0, {0}), 0) == LOCKED && Step(LOCKED, Claim(0), 0) == CLAIMED
  {
    assert CanLock(EMPTY.(rows := [NewRow(1, 0)]), 0);
  }

  lemma SecondClaim()
    ensures Step(PUT_BACK, Lock(1, {0}), 121) == LOCKED_AGAIN && Step(LOCKED_AGAIN, Claim(1), 121) == CLAIMED_TWICE
  {
    assert CanLock(PUT_BACK, 0);
  }

  lemma ClaimingRun()
    ensures Run(EMPTY, CLAIMING) == PUT_BACK
  {
    FirstClaim();
    assert Step(CLAIMED, Requeue, 121) == PUT_BACK;
    FourSteps(EMPTY, CLAIMING[0], CLAIMING[1], CLAIMING[2], CLAIMING[3]);
  }

  lemma ReclaimingRun()
    ensures Run(PUT_BACK, RECLAIMING) == PUSHED.(jobs := map[0 := Job(0, 1, Pushing)], accepted := {})
  {
    SecondClaim();
    assert Step(CLAIMED_TWICE, Add(0), 122) == PUSHED.(jobs := map[0 := Job(0, 1, Waiting)], accepted := {});
    FourSteps(PUT_BACK, RECLAIMING[0], RECLAIMING[1], RECLAIMING[2], RECLAIMING[3]);
  }

  lemma DeliveringRun()
    ensures Run(PUSHED.(jobs := map[0 := Job(0, 1, Pushing)], accepted := {}), DELIVERING) == DELIVERED
  {
    var a := PUSHED.(jobs := map[0 := Job(0, 1, Pushing)], accepted := {});
    var c := Step(PUSHED, Mark(0), 122);
    assert Step(a, DELIVERING[0].0, 122) == PUSHED;
    assert c == DELIVERED.(jobs := map[0 := Job(0, 1, Done)]);
    assert Step(c, Finish(0), 122) == DELIVERED;
    assert DELIVERING[1..] == [DELIVERING[1], DELIVERING[2]] && DELIVERING[1..][1..] == [DELIVERING[2]];
    assert Run(PUSHED, DELIVERING[1..]) == Run(c, [DELIVERING[2]]);
  }

  /** No step of this run is a crash, the row ends delivered, and it can still come to be dead-lettered. */
  lemma BuriedAfterDelivery()
    ensures Run(EMPTY, CLAIMING + RECLAIMING + DELIVERING) == DELIVERED && 0 in DELIVERED.accepted
    ensures DELIVERED.rows[0].status == PushStatus.Delivered && !Quiet(DELIVERED, 0)
    ensures exists events :: 0 < |Run(DELIVERED, events).rows| && Run(DELIVERED, events).rows[0].status == DeadLetter
  {
    ClaimingRun();
    ReclaimingRun();
    DeliveringRun();
    RunJoins(EMPTY, CLAIMING + RECLAIMING, DELIVERING);
    RunJoins(EMPTY, CLAIMING, RECLAIMING);
    assert Inv(EMPTY);
    RunKeeps(EMPTY, CLAIMING + RECLAIMING + DELIVERING);
    BuriedAfterDeliveryIff(DELIVERED, 0);
  }
}
