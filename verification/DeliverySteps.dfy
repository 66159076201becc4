/** What each step of a delivery does, and where an accepted push, an attempt and a verdict come from
    (apps/worker/src/main.ts). */
module DeliverySteps {
  import opened Wrappers
  import opened Outbox
  import opened Delivery
  import opened DeliveryRuns

  // ---- relays ----

  /** No open claim has locked the row. */
  predicate Unlocked(s: State, i: nat) {
    forall r :: r in s.claims ==> i !in s.claims[r]
  }

  /** A relay that has no claim open locks rows that are pending and that nobody has locked, and only locks them. */
  lemma LockSays(s: State, r: nat, ids: set<nat>, now: int)
    ensures Step(s, Lock(r, ids), now) ==
              if r !in s.claims && ids != {}
                 && forall i :: i in ids ==>
                      i < |s.rows| && s.rows[i].status == PushStatus.Pending && Unlocked(s, i)
              then s.(claims := s.claims[r := ids]) else s
  {
    if r !in s.claims && ids != {} && LockRows(s, r, ids) == s {
      assert r in s.claims[r := ids];
      var i :| i in ids && !CanLock(s, i);
    }
  }

  /** Its claim then has exactly those rows processing, and holds each to be added to the queue once more. */
  lemma ClaimSays(s: State, r: nat, now: int, i: nat)
    requires r in s.claims && i < |s.rows|
    ensures var w, mine := Step(s, Claim(r), now), i in s.claims[r];
            && |w.rows| == |s.rows| && w.claims == s.claims - {r} && w.jobs == s.jobs && w.verdicts == s.verdicts
            && w.accepted == s.accepted && w.held[i] == s.held[i] + (if mine then 1 else 0)
            && w.rows[i] == s.rows[i].(status := w.rows[i].status, updatedAt := w.rows[i].updatedAt,
                                       claims := s.rows[i].claims + (if mine then 1 else 0))
            && (mine ==> w.rows[i].status == Processing && w.rows[i].updatedAt == now)
            && (!mine ==> w.rows[i] == s.rows[i])
  {
  }

  /** A row is added as a job of no attempts made, unless the queue has one for it already. */
  lemma AddSays(s: State, i: nat, now: int)
    requires i in s.held && i < |s.rows|
    ensures var w := Step(s, Add(i), now);
            && w == s.(held := w.held, jobs := w.jobs) && w.held == s.held - multiset{i}
            && i in w.jobs && w.jobs == s.jobs[i := w.jobs[i]]
            && w.jobs[i] == if i in s.jobs then s.jobs[i] else Job(0, s.rows[i].maxAttempts, Waiting)
  {
  }

  // ---- workers ----

  /** A job taken is pushed once, and then its push was accepted or refused. */
  lemma PushSays(s: State, i: nat, ok: bool, now: int)
    requires i in s.jobs
    ensures var job := s.jobs[i];
            && Step(s, Take(i), now).jobs
               == s.jobs[i := if job.stage == Waiting then Job(job.made, job.max, Pushing) else job]
            && Step(s, Push(i, ok), now).jobs
               == s.jobs[i := if job.stage == Pushing then Job(job.made, job.max, if ok then Accepted else Refused)
                              else job]
            && Step(s, Push(i, ok), now).rows == Step(s, Take(i), now).rows == s.rows
  {
  }

  /** What a worker writes down: a row it sent, with the attempt, or only the attempt and its error. */
  lemma MarkSays(s: State, i: nat, now: int)
    requires i in s.jobs && i < |s.rows| && Unlocked(s, i)
    ensures var w, job, row := Step(s, Mark(i), now), s.jobs[i], s.rows[i];
            && (job.stage == Accepted ==>
                  w == s.(jobs := s.jobs[i := Job(job.made, job.max, Done)],
                          rows := s.rows[i := row.(status := PushStatus.Delivered, attempts := job.made + 1,
                                                   lastError := None, updatedAt := now)]))
            && (job.stage == Refused ==>
                  w == s.(jobs := s.jobs[i := Job(job.made, job.max, Retrying)],
                          rows := s.rows[i := row.(attempts := job.made + 1, lastError := Some("push failed"),
                                                   updatedAt := now)]))
            && (job.stage != Accepted && job.stage != Refused ==> w == s)
  {
  }

  /** A job that is done leaves the queue. A failed attempt counts, and the job waits for the next while it has one;
      with none left it leaves the queue with a verdict on its row. */
  lemma FinishSays(s: State, i: nat, now: int)
    requires i in s.jobs
    ensures var w, job := Step(s, Finish(i), now), s.jobs[i];
            && (job.stage == Done ==> w == s.(jobs := s.jobs - {i}))
            && (job.stage == Retrying && job.made + 1 < job.max ==>
                  w == s.(jobs := s.jobs[i := Job(job.made + 1, job.max, Waiting)]))
            && (job.stage == Retrying && job.made + 1 >= job.max ==>
                  w == s.(jobs := s.jobs - {i}, verdicts := s.verdicts + multiset{Verdict(i, job.made + 1)}))
            && (job.stage != Done && job.stage != Retrying ==> w == s)
  {
  }

  /** The listener buries the row with the attempts of its verdict. */
  lemma ListenSays(s: State, v: Verdict, now: int)
    requires v in s.verdicts && v.row < |s.rows| && Unlocked(s, v.row)
    ensures Step(s, Listen(v), now) ==
              s.(verdicts := s.verdicts - multiset{v},
                 rows := s.rows[v.row := s.rows[v.row].(status := DeadLetter, attempts := v.attempts, updatedAt := now,
                                                        lastError := Some("push failed"))])
  {
  }

  /** The sweep looks at rows two minutes old, and an operator replays a dead letter whose job is gone. */
  lemma SweepSays(s: State, now: int, i: nat)
    requires i < |s.rows|
    ensures var w := Step(s, Requeue, now);
            w == s.(rows := w.rows) && |w.rows| == |s.rows| && Swept(s.rows[i], w.rows[i], now, 120)
    ensures Step(s, Replay(i), now) ==
              if s.rows[i].status == DeadLetter && i !in s.jobs
              then s.(rows := s.rows[i :=
                     s.rows[i].(status := PushStatus.Pending, requeues := s.rows[i].requeues + 1)])
              else s
  {
  }

  // ---- where things come from, over whole runs ----

  /** A push of the row that the channel accepted, at this place of the run. */
  predicate AcceptedAt(s: State, events: seq<(Event, int)>, k: nat, i: nat) {
    k < |events| && events[k].0 == Push(i, true) && AtStage(Run(s, events[..k]), i, Pushing)
  }

  lemma {:induction false} RunOneMore(s: State, events: seq<(Event, int)>)
    requires events != []
    ensures var last := events[|events| - 1];
            Run(s, events) == Step(Run(s, events[..|events| - 1]), last.0, last.1)
    decreases |events|
  {
    if |events| == 1 {
      assert events[1..] == [];
    } else {
      RunOneMore(Step(s, events[0].0, events[0].1), events[1..]);
      assert events[1..][..|events| - 2] == events[..|events| - 1][1..];
    }
  }

  lemma AcceptedSteps(s: State, e: Event, now: int, i: nat)
    ensures i in Step(s, e, now).accepted <==> i in s.accepted || (e == Push(i, true) && AtStage(s, i, Pushing))
  {
    match e
    case Lock(r, ids) => assert LockRows(s, r, ids).accepted == s.accepted;
    case Mark(j) => assert MarkRow(s, j, now).accepted == s.accepted;
    case Finish(j) => assert FinishJob(s, j).accepted == s.accepted;
    case _ =>
  }

  /** A row counts as accepted exactly when a push of it was, somewhere in the run. */
  lemma {:induction false} AcceptedIff(s: State, events: seq<(Event, int)>, i: nat)
    requires i !in s.accepted
    ensures i in Run(s, events).accepted <==> exists k: nat :: AcceptedAt(s, events, k, i)
    decreases |events|
  {
    if events == [] {
    } else {
      var front, last := events[..|events| - 1], events[|events| - 1];
      RunOneMore(s, events);
      AcceptedIff(s, front, i);
      AcceptedSteps(Run(s, front), last.0, last.1, i);
      forall k: nat | k < |front| ensures AcceptedAt(s, front, k, i) <==> AcceptedAt(s, events, k, i) {
        assert front[..k] == events[..k];
      }
      assert AcceptedAt(s, events, |front|, i) <==> last.0 == Push(i, true) && AtStage(Run(s, front), i, Pushing);
      if k: nat :| AcceptedAt(s, events, k, i) {
        assert k < |front| ==> AcceptedAt(s, front, k, i);
      }
      if k: nat :| AcceptedAt(s, front, k, i) {
        assert AcceptedAt(s, events, k, i);
      }
    }
  }

  /** So, in every run, a row reads as delivered only after a push of it that the channel accepted. */
  lemma {:induction false} DeliveredWasPushed(events: seq<(Event, int)>, i: nat) returns (k: nat)
    requires i < |Run(EMPTY, events).rows| && Run(EMPTY, events).rows[i].status == PushStatus.Delivered
    ensures AcceptedAt(EMPTY, events, k, i)
  {
    ClaimedOnce(events, 0, 0, i);
    AcceptedIff(EMPTY, events, i);
    k :| AcceptedAt(EMPTY, events, k, i);
  }
}
