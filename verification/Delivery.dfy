/** Delivery of outbox rows by relays, a job queue and workers that may die at any step
    (apps/worker/src/main.ts). The queue keeps one job per row id and ignores a second. */
module Delivery {
  import opened Wrappers
  import opened Outbox

  const STALE_SECONDS := 120

  /** Where a worker is with a job: waiting to be taken, pushing, push accepted or refused but not yet
      recorded, recorded as sent, or recorded as a failed attempt. */
  datatype Stage = Waiting | Pushing | Accepted | Refused | Done | Retrying

  /** made is BullMQ's attemptsMade; max is the row's maxAttempts when the job was added. */
  datatype Job = Job(made: nat, max: nat, stage: Stage)

  /** A failed event whose listener has not run yet. */
  datatype Verdict = Verdict(row: nat, attempts: nat)

  datatype State = State(
    rows: seq<Row>,
    claims: map<nat, set<nat>>,  // each relay's open claim and the rows it has locked
    held: multiset<nat>,         // rows a claim returned that no relay has added yet
    jobs: map<nat, Job>,
    verdicts: multiset<Verdict>,
    accepted: set<nat>)          // rows the channel has accepted at least once

  datatype Event =
    | Enqueue(maxAttempts: nat)
    | Lock(relay: nat, ids: set<nat>) | Claim(relay: nat) | Add(row: nat)
    | Take(row: nat) | Push(row: nat, ok: bool) | Mark(row: nat) | Finish(row: nat)
    | Listen(verdict: Verdict) | Requeue | Replay(row: nat)
    | LoseClaim(relay: nat) | LoseHeld(row: nat) | Stall(row: nat) | LoseJob(row: nat)
    | MarkFails(row: nat) | LoseVerdict(verdict: Verdict)

  predicate Locked(s: State, i: nat) {
    exists r :: r in s.claims && i in s.claims[r]
  }

  predicate AtStage(s: State, i: nat, stage: Stage) {
    i in s.jobs && s.jobs[i].stage == stage
  }

  predicate CanLock(s: State, i: nat) {
    i < |s.rows| && s.rows[i].status == Pending && !Locked(s, i)
  }

  function WithStage(s: State, i: nat, stage: Stage): State
    requires i in s.jobs
  {
    s.(jobs := s.jobs[i := s.jobs[i].(stage := stage)])
  }

  function EnqueueRow(s: State, max: nat, now: int): State {
    if max >= 1 then s.(rows := s.rows + [NewRow(max, now)]) else s
  }

  /** SELECT ... FOR UPDATE SKIP LOCKED: only pending rows no other claim has locked. */
  function LockRows(s: State, r: nat, ids: set<nat>): State {
    if r !in s.claims && ids != {} && forall i :: i in ids ==> CanLock(s, i)
    then s.(claims := s.claims[r := ids])
    else s
  }

  function ClaimRows(s: State, r: nat, now: int): State {
    if r in s.claims
    then s.(rows := WithClaimed(s.rows, s.claims[r], now), claims := s.claims - {r},
            held := s.held + multiset(s.claims[r]))
    else s
  }

  function AddJob(s: State, i: nat): State {
    if i in s.held && i < |s.rows|
    then s.(held := s.held - multiset{i},
            jobs := if i in s.jobs then s.jobs else s.jobs[i := Job(0, s.rows[i].maxAttempts, Waiting)])
    else s
  }

  function PushJob(s: State, i: nat, ok: bool): State {
    if AtStage(s, i, Pushing)
    then WithStage(s, i, if ok then Accepted else Refused).(accepted := if ok then s.accepted + {i} else s.accepted)
    else s
  }

  /** The worker writes down how its push went. A write to a row that an open claim has locked waits. */
  function MarkRow(s: State, i: nat, now: int): State {
    if i !in s.jobs || i >= |s.rows| || Locked(s, i) then s
    else if s.jobs[i].stage == Accepted then
      WithStage(s, i, Done).(rows := s.rows[i := Sent(s.rows[i], s.jobs[i].made + 1, now)])
    else if s.jobs[i].stage == Refused then
      WithStage(s, i, Retrying).(rows := s.rows[i := Retried(s.rows[i], s.jobs[i].made + 1, "push failed", now)])
    else s
  }

  /** A finished job leaves the queue; a failed attempt waits for the next, or with none left raises the verdict. */
  function FinishJob(s: State, i: nat): State {
    if i !in s.jobs then s else
      var job := s.jobs[i];
      if job.stage == Done then s.(jobs := s.jobs - {i})
      else if job.stage != Retrying then s
      else if job.made + 1 < job.max then s.(jobs := s.jobs[i := Job(job.made + 1, job.max, Waiting)])
      else s.(jobs := s.jobs - {i}, verdicts := s.verdicts + multiset{Verdict(i, job.made + 1)})
  }

  /** The failed listener buries the row. */
  function BuryRow(s: State, v: Verdict, now: int): State {
    if v in s.verdicts && v.row < |s.rows| && !Locked(s, v.row)
    then s.(verdicts := s.verdicts - multiset{v},
        rows := s.rows[v.row := Buried(s.rows[v.row], v.attempts, "push failed", now)])
    else s
  }

  function RequeueRows(s: State, now: int): State {
    s.(rows := AllRequeued(s.rows, now, STALE_SECONDS))
  }

  /** An operator puts a dead letter back, once its job has left the queue. */
  function ReplayRow(s: State, i: nat): State {
    if i < |s.rows| && s.rows[i].status == DeadLetter && i !in s.jobs
    then s.(rows := s.rows[i := s.rows[i].(status := Pending, requeues := s.rows[i].requeues + 1)])
    else s
  }

  /** An event that is not enabled changes nothing. */
  function Step(s: State, e: Event, now: int): State {
    match e
    case Enqueue(max) => EnqueueRow(s, max, now)
    case Lock(r, ids) => LockRows(s, r, ids)
    case Claim(r) => ClaimRows(s, r, now)
    case Add(i) => AddJob(s, i)
    case Take(i) => if AtStage(s, i, Waiting) then WithStage(s, i, Pushing) else s
    case Push(i, ok) => PushJob(s, i, ok)
    case Mark(i) => MarkRow(s, i, now)
    case Finish(i) => FinishJob(s, i)
    case Listen(v) => BuryRow(s, v, now)
    case Requeue => RequeueRows(s, now)
    case Replay(i) => ReplayRow(s, i)
    case LoseClaim(r) => s.(claims := s.claims - {r})
    case LoseHeld(i) => s.(held := s.held - multiset{i})
    case Stall(i) => if i in s.jobs then WithStage(s, i, Waiting) else s
    case LoseJob(i) => s.(jobs := s.jobs - {i})
    case MarkFails(i) =>
      if AtStage(s, i, Accepted) then WithStage(s, i, Refused)
      else if AtStage(s, i, Refused) then WithStage(s, i, Retrying)
      else s
    case LoseVerdict(v) => s.(verdicts := s.verdicts - multiset{v})
  }

  function Run(s: State, events: seq<(Event, int)>): State
    decreases |events|
  {
    if events == [] then s else Run(Step(s, events[0].0, events[0].1), events[1..])
  }

  const EMPTY := State([], map[], multiset{}, map[], multiset{}, {})

  // ---- what holds however the steps fall ----

  predicate Settled(r: Row) {
    r.status == Delivered || r.status == DeadLetter
  }

  predicate JobOk(s: State, i: nat) {
    && i < |s.rows| && i in s.jobs && s.jobs[i].made < s.jobs[i].max == s.rows[i].maxAttempts
    && (s.jobs[i].stage == Accepted || s.jobs[i].stage == Done ==> i in s.accepted)
    && (s.jobs[i].stage == Done ==> Settled(s.rows[i]))
  }

  predicate RowOk(s: State, i: nat) {
    && i < |s.rows| && s.rows[i].maxAttempts >= 1
    && (s.rows[i].status == Delivered ==> i in s.accepted)
    && s.rows[i].claims <= s.rows[i].requeues + 1
    && (s.rows[i].status == Pending ==> s.rows[i].claims <= s.rows[i].requeues)
  }

  predicate ClaimOk(s: State, r: nat) {
    r in s.claims && s.claims[r] != {} && forall i :: i in s.claims[r] ==> i < |s.rows| && s.rows[i].status == Pending
  }

  ghost predicate Exclusive(s: State) {
    forall q, r, i :: q in s.claims && r in s.claims && i in s.claims[q] && i in s.claims[r] ==> q == r
  }

  predicate VerdictOk(s: State, v: Verdict) {
    v.row < |s.rows| && v.attempts == s.rows[v.row].maxAttempts
  }

  ghost predicate Inv(s: State) {
    && (forall i: nat :: i < |s.rows| ==> RowOk(s, i))
    && (forall i :: i in s.jobs ==> JobOk(s, i))
    && (forall r :: r in s.claims ==> ClaimOk(s, r))
    && Exclusive(s)
    && (forall i :: i in s.held ==> i < |s.rows|)
    && forall v :: v in s.verdicts ==> VerdictOk(s, v)
  }

  lemma EnqueueKeeps(s: State, max: nat, now: int)
    requires Inv(s)
    ensures Inv(EnqueueRow(s, max, now))
  {
    var w := EnqueueRow(s, max, now);
    forall i: nat | i < |w.rows| ensures RowOk(w, i) { assert i < |s.rows| ==> RowOk(s, i); }
    forall i | i in w.jobs ensures JobOk(w, i) { assert JobOk(s, i); }
    forall r | r in w.claims ensures ClaimOk(w, r) { assert ClaimOk(s, r); }
    forall v | v in w.verdicts ensures VerdictOk(w, v) { assert VerdictOk(s, v); }
  }

  lemma LockKeeps(s: State, r: nat, ids: set<nat>)
    requires Inv(s)
    ensures Inv(LockRows(s, r, ids))
  {
    var w := LockRows(s, r, ids);
    if w != s {
      forall i | i in ids ensures CanLock(s, i) && forall q :: q in s.claims ==> i !in s.claims[q] {}
      forall i: nat | i < |w.rows| ensures RowOk(w, i) { assert RowOk(s, i); }
      forall i | i in w.jobs ensures JobOk(w, i) { assert JobOk(s, i); }
      forall q | q in w.claims ensures ClaimOk(w, q) { assert q in s.claims ==> ClaimOk(s, q); }
    }
  }

  lemma ClaimKeeps(s: State, r: nat, now: int)
    requires Inv(s)
    ensures Inv(ClaimRows(s, r, now))
  {
    var w := ClaimRows(s, r, now);
    if w != s {
      assert ClaimOk(s, r);
      forall i: nat | i < |w.rows| ensures RowOk(w, i) { assert RowOk(s, i); }
      forall i | i in w.jobs ensures JobOk(w, i) { assert JobOk(s, i); }
      forall q | q in w.claims ensures ClaimOk(w, q) {
        assert ClaimOk(s, q);
        forall i | i in s.claims[q] ensures i !in s.claims[r] {}
      }
      forall v | v in w.verdicts ensures VerdictOk(w, v) { assert VerdictOk(s, v); }
    }
  }

  /** Steps that leave the rows and the claims alone. */
  lemma JobsKeep(s: State, w: State)
    requires Inv(s) && w.rows == s.rows && w.claims == s.claims && s.accepted <= w.accepted
    requires forall i :: i in w.jobs ==> JobOk(w, i)
    requires forall i :: i in w.held ==> i in s.held
    requires forall v :: v in w.verdicts ==> VerdictOk(s, v)
    ensures Inv(w)
  {
    forall i: nat | i < |w.rows| ensures RowOk(w, i) { assert RowOk(s, i); }
    forall r | r in w.claims ensures ClaimOk(w, r) { assert ClaimOk(s, r); }
    forall v | v in w.verdicts ensures VerdictOk(w, v) { assert VerdictOk(s, v); }
  }

  lemma AddKeeps(s: State, i: nat)
    requires Inv(s)
    ensures Inv(AddJob(s, i))
  {
    var w := AddJob(s, i);
    forall j | j in w.jobs ensures JobOk(w, j) {
      if j in s.jobs { assert JobOk(s, j); } else { assert RowOk(s, i); }
    }
    JobsKeep(s, w);
  }

  lemma StageKeeps(s: State, i: nat, stage: Stage, accepted: set<nat>)
    requires Inv(s) && i in s.jobs && stage != Done && s.accepted <= accepted && (stage == Accepted ==> i in accepted)
    ensures Inv(WithStage(s, i, stage).(accepted := accepted))
  {
    var w := WithStage(s, i, stage).(accepted := accepted);
    forall j | j in w.jobs ensures JobOk(w, j) { assert JobOk(s, j); }
    JobsKeep(s, w);
  }

  lemma FinishKeeps(s: State, i: nat)
    requires Inv(s)
    ensures Inv(FinishJob(s, i))
  {
    var w := FinishJob(s, i);
    if i in s.jobs { assert JobOk(s, i); }
    forall j | j in w.jobs ensures JobOk(w, j) { assert JobOk(s, j); }
    JobsKeep(s, w);
  }

  /** Steps that rewrite rows which no open claim has locked. */
  lemma RowsKeep(s: State, w: State)
    requires Inv(s) && w.claims == s.claims && w.held == s.held && w.accepted == s.accepted && |w.rows| == |s.rows|
    requires forall i: nat :: i < |s.rows| ==> RowOk(w, i)
    requires forall i: nat :: i < |s.rows| ==> w.rows[i].maxAttempts == s.rows[i].maxAttempts
    requires forall i: nat :: i < |s.rows| && Locked(s, i) ==> w.rows[i] == s.rows[i]
    requires forall i :: i in w.jobs ==> JobOk(w, i)
    requires w.verdicts <= s.verdicts
    ensures Inv(w)
  {
    forall r | r in w.claims ensures ClaimOk(w, r) {
      assert ClaimOk(s, r);
      assert forall i :: i in s.claims[r] ==> Locked(s, i);
    }
    forall v | v in w.verdicts ensures VerdictOk(w, v) { assert v in s.verdicts && VerdictOk(s, v); }
  }

  lemma MarkKeeps(s: State, i: nat, now: int)
    requires Inv(s)
    ensures Inv(MarkRow(s, i, now))
  {
    var w := MarkRow(s, i, now);
    if w != s {
      assert JobOk(s, i);
      forall j: nat | j < |s.rows| ensures RowOk(w, j) { assert RowOk(s, j); }
      forall j | j in w.jobs ensures JobOk(w, j) { assert JobOk(s, j); }
      RowsKeep(s, w);
    }
  }

  lemma BuryKeeps(s: State, v: Verdict, now: int)
    requires Inv(s)
    ensures Inv(BuryRow(s, v, now))
  {
    var w := BuryRow(s, v, now);
    if w != s {
      forall j: nat | j < |s.rows| ensures RowOk(w, j) { assert RowOk(s, j); }
      forall j | j in w.jobs ensures JobOk(w, j) { assert JobOk(s, j); }
      RowsKeep(s, w);
    }
  }

  lemma RequeueKeeps(s: State, now: int)
    requires Inv(s)
    ensures Inv(RequeueRows(s, now))
  {
    var w := RequeueRows(s, now);
    forall j: nat | j < |s.rows| ensures RowOk(w, j) { assert RowOk(s, j); }
    forall j | j in w.jobs ensures JobOk(w, j) { assert JobOk(s, j); }
    forall j: nat | j < |s.rows| && Locked(s, j) ensures w.rows[j] == s.rows[j] { LockedPending(s, j); }
    RowsKeep(s, w);
  }

  lemma LockedPending(s: State, i: nat)
    requires Inv(s) && Locked(s, i)
    ensures i < |s.rows| && s.rows[i].status == Pending
  {
    var r :| r in s.claims && i in s.claims[r];
    assert ClaimOk(s, r);
  }

  lemma ReplayKeeps(s: State, i: nat)
    requires Inv(s)
    ensures Inv(ReplayRow(s, i))
  {
    var w := ReplayRow(s, i);
    if w != s {
      forall j: nat | j < |s.rows| ensures RowOk(w, j) { assert RowOk(s, j); }
      forall j | j in w.jobs ensures JobOk(w, j) { assert JobOk(s, j); }
      forall j: nat | j < |s.rows| && Locked(s, j) ensures w.rows[j] == s.rows[j] { LockedPending(s, j); }
      RowsKeep(s, w);
    }
  }

  lemma LostClaimKeeps(s: State, r: nat)
    requires Inv(s)
    ensures Inv(s.(claims := s.claims - {r}))
  {
    var w := s.(claims := s.claims - {r});
    forall j: nat | j < |s.rows| ensures RowOk(w, j) { assert RowOk(s, j); }
    forall j | j in w.jobs ensures JobOk(w, j) { assert JobOk(s, j); }
    forall q | q in w.claims ensures ClaimOk(w, q) { assert ClaimOk(s, q); }
    forall v | v in w.verdicts ensures VerdictOk(w, v) { assert VerdictOk(s, v); }
  }

  /** A lost job, or a hold or verdict lost. */
  lemma LossKeeps(s: State, w: State)
    requires Inv(s) && w == s.(held := w.held, jobs := w.jobs, verdicts := w.verdicts)
    requires w.held <= s.held && w.verdicts <= s.verdicts
    requires forall i :: i in w.jobs ==> i in s.jobs && w.jobs[i] == s.jobs[i]
    ensures Inv(w)
  {
    forall j | j in w.jobs ensures JobOk(w, j) { assert JobOk(s, j); }
    forall v | v in w.verdicts ensures VerdictOk(s, v) { assert v in s.verdicts; }
    JobsKeep(s, w);
  }

  /** Steps in which something is lost. */
  predicate Loses(e: Event) {
    e.LoseClaim? || e.LoseHeld? || e.Stall? || e.LoseJob? || e.MarkFails? || e.LoseVerdict?
  }

  lemma LossStepKeeps(s: State, e: Event, now: int)
    requires Inv(s) && Loses(e)
    ensures Inv(Step(s, e, now))
  {
    match e
    case LoseClaim(r) => LostClaimKeeps(s, r);
    case LoseHeld(i) => LossKeeps(s, Step(s, e, now));
    case Stall(i) => if i in s.jobs { StageKeeps(s, i, Waiting, s.accepted); }
    case LoseJob(i) => LossKeeps(s, Step(s, e, now));
    case MarkFails(i) =>
      if AtStage(s, i, Accepted) {
        StageKeeps(s, i, Refused, s.accepted);
      } else if AtStage(s, i, Refused) {
        StageKeeps(s, i, Retrying, s.accepted);
      }
    case LoseVerdict(v) => LossKeeps(s, Step(s, e, now));
  }

  lemma PushKeeps(s: State, i: nat, ok: bool)
    requires Inv(s)
    ensures Inv(PushJob(s, i, ok))
  {
    if i in s.jobs {
      StageKeeps(s, i, if ok then Accepted else Refused, if ok then s.accepted + {i} else s.accepted);
    }
  }

  lemma StepKeeps(s: State, e: Event, now: int)
    requires Inv(s)
    ensures Inv(Step(s, e, now))
  {
    if Loses(e) {
      LossStepKeeps(s, e, now);
    } else {
      match e
      case Enqueue(max) => EnqueueKeeps(s, max, now);
      case Lock(r, ids) => LockKeeps(s, r, ids);
      case Claim(r) => ClaimKeeps(s, r, now);
      case Add(i) => AddKeeps(s, i);
      case Take(i) => if i in s.jobs { StageKeeps(s, i, Pushing, s.accepted); }
      case Push(i, ok) => PushKeeps(s, i, ok);
      case Mark(i) => MarkKeeps(s, i, now);
      case Finish(i) => FinishKeeps(s, i);
      case Listen(v) => BuryKeeps(s, v, now);
      case Requeue => RequeueKeeps(s, now);
      case Replay(i) => ReplayKeeps(s, i);
    }
  }
}
