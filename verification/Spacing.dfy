/** Retry timing over whole runs: how far apart the claims of a job are, what keeps them
    apart when several workers are at work, and when they come at the latest. */
module Spacing {
  import opened Wrappers
  import opened EventLog
  import opened Queue
  import opened QueueRuns
  import Timestamps

  function Min(a: int, b: int): (m: int)
    ensures a >= 0 && b >= 0 ==> m >= 0
  {
    if a <= b then a else b
  }

  /** The least time between the k-th claim of a job and the next one: five minutes
      or the backoff after k attempts, whichever is shorter. */
  function Gap(q: Settings, k: nat): Time {
    Min(STALE, Backoff(k, q.retryDelaySeconds) * SECOND)
  }

  /** When a job was last claimed. */
  function LastClaim(claims: seq<Claim>, job: nat): Time
    requires Claims(claims, job) > 0
  {
    var n := |claims| - 1;
    if claims[n].job == job then claims[n].at else LastClaim(claims[..n], job)
  }

  /** Every claim keeps its distance from the previous claim of the same job. */
  ghost predicate Spaced(q: Settings, claims: seq<Claim>) {
    claims == [] ||
    var before, c := claims[..|claims| - 1], claims[|claims| - 1];
    && Spaced(q, before)
    && (Claims(before, c.job) > 0 ==>
      c.at >= LastClaim(before, c.job) + Gap(q, Claims(before, c.job)))
  }

  lemma LastClaimStep(claims: seq<Claim>, c: Claim)
    ensures forall i: nat | i != c.job && Claims(claims, i) > 0 ::
      Claims(claims + [c], i) > 0 && LastClaim(claims + [c], i) == LastClaim(claims, i)
    ensures Claims(claims + [c], c.job) > 0 && LastClaim(claims + [c], c.job) == c.at
    ensures forall i: nat :: Claims(claims + [c], i) == Claims(claims, i) + (if i == c.job then 1 else 0)
  {
    assert (claims + [c])[..|claims|] == claims;
  }

  lemma {:induction false} SpacedAt(q: Settings, claims: seq<Claim>, x: nat, y: nat)
    requires Spaced(q, claims) && x < y < |claims| && claims[x].job == claims[y].job
    requires forall z | x < z < y :: claims[z].job != claims[x].job
    ensures claims[y].at >= claims[x].at + Gap(q, Claims(claims[..x + 1], claims[x].job))
  {
    var n := |claims| - 1;
    if y < n {
      SpacedAt(q, claims[..n], x, y);
      assert claims[..n][..x + 1] == claims[..x + 1];
    } else {
      LastIs(claims[..n], x);
      assert claims[..n][..x + 1] == claims[..x + 1];
    }
  }

  lemma {:induction false} LastIs(claims: seq<Claim>, x: nat)
    requires x < |claims| && forall z | x < z < |claims| :: claims[z].job != claims[x].job
    ensures Claims(claims, claims[x].job) == Claims(claims[..x + 1], claims[x].job) > 0
    ensures LastClaim(claims, claims[x].job) == claims[x].at
  {
    var n := |claims| - 1;
    if x < n {
      LastIs(claims[..n], x);
      assert claims[..n][..x + 1] == claims[..x + 1];
    } else {
      assert claims[..x + 1] == claims;
    }
  }

  /** A row in flight is marked with the time of its last claim. */
  ghost predicate FlightTimes(w: World) {
    forall i: nat | i < |w.jobs| && w.jobs[i].status.InFlight? ::
      Claims(w.claims, i) > 0 && w.jobs[i].claimedAt == Some(LastClaim(w.claims, i))
  }

  /** The row may not be claimed too early, whenever a worker tries. */
  ghost predicate SafeRow(q: Settings, j: Job, claims: seq<Claim>, i: nat) {
    Claims(claims, i) > 0 ==>
      forall now: Time | Eligible(j, now, q.maxAttempts) ::
        now >= LastClaim(claims, i) + Gap(q, Claims(claims, i))
  }

  ghost predicate Safe(q: Settings, w: World) {
    forall i: nat | i < |w.jobs| :: SafeRow(q, w.jobs[i], w.claims, i)
  }

  /** When a try that failed for now may be repeated. */
  function NextAfterFailure(q: Settings, t: Task): Option<Time> {
    NextAttempt(Update(q, t, Temporary("")))
  }

  /** Recording the worker's try is harmless: unless it sets a row in flight, with attempts
      left, to fail for now, the next time it sets is neither too early for the last claim
      of the row nor beyond year 9999. */
  ghost predicate RecordSafe(q: Settings, w: World, worker: nat) {
    KnownTask(w, worker) && w.outcomes[w.tasks[worker].claim].Some?
    && w.outcomes[w.tasks[worker].claim].value.Temporary? ==>
      var t := w.tasks[worker];
      var j, r := w.jobs[t.job], NextAfterFailure(q, t);
      (j.status.InFlight? && Claims(w.claims, t.job) > 0 && j.attempts < q.maxAttempts && r.Some?) ==>
        LastClaim(w.claims, t.job) + Gap(q, j.attempts) <= r.value < Timestamps.YEAR_10000
  }

  lemma FlightTimesKept(q: Settings, w: World, a: Action)
    requires FlightTimes(w)
    ensures FlightTimes(Apply(q, w, a))
  {
    hide RetryTime, Eligible;
    if a.ClaimNext? {
      LastClaimStep(w.claims, Claim(FirstEligible(w.jobs, a.now, q.maxAttempts), a.now));
    }
  }

  lemma SafeKept(q: Settings, w: World, a: Action)
    requires Inv(q, w) && FlightTimes(w) && Safe(q, w)
    requires a.Record? ==> RecordSafe(q, w, a.worker)
    ensures Safe(q, Apply(q, w, a))
  {
    match a
    case Enqueue(specs, at) =>
      NoClaimsBeyond(w.claims, |w.jobs|);
      forall i: nat | i < |Apply(q, w, a).jobs| ensures SafeRow(q, Apply(q, w, a).jobs[i], w.claims, i) {
        if i < |w.jobs| {
          assert SafeRow(q, w.jobs[i], w.claims, i);
        }
      }
    case ClaimNext(worker, now) => ClaimKeepsSafe(q, w, worker, now);
    case Record(worker, _) => RecordSafeIff(q, w, worker, a.at);
    case _ =>
  }

  lemma ClaimKeepsSafe(q: Settings, w: World, worker: nat, now: Time)
    requires Safe(q, w)
    ensures Safe(q, Apply(q, w, ClaimNext(worker, now)))
  {
    var n := FirstEligible(w.jobs, now, q.maxAttempts);
    if worker !in w.tasks && n < |w.jobs| {
      var w' := Apply(q, w, ClaimNext(worker, now));
      LastClaimStep(w.claims, Claim(n, now));
      forall i: nat | i < |w'.jobs| ensures SafeRow(q, w'.jobs[i], w'.claims, i) {
        assert SafeRow(q, w.jobs[i], w.claims, i);
      }
    }
  }

  /** A record keeps the table safe exactly when it is harmless. */
  lemma RecordSafeIff(q: Settings, w: World, worker: nat, at: Time)
    requires Inv(q, w) && FlightTimes(w) && Safe(q, w)
    ensures Safe(q, Apply(q, w, Record(worker, at))) <==> RecordSafe(q, w, worker)
  {
    var w' := Apply(q, w, Record(worker, at));
    if KnownTask(w, worker) && w.outcomes[w.tasks[worker].claim].Some? {
      var t := w.tasks[worker];
      RecordedSafeIff(q, w.jobs[t.job], w.claims, t, w.outcomes[t.claim].value);
      assert SafeRow(q, w.jobs[t.job], w.claims, t.job);
      if SafeRow(q, w'.jobs[t.job], w.claims, t.job) {
        forall i: nat | i < |w'.jobs| ensures SafeRow(q, w'.jobs[i], w.claims, i) {
          if i != t.job {
            assert SafeRow(q, w.jobs[i], w.claims, i);
          }
        }
      }
    }
  }

  lemma RecordedSafeIff(q: Settings, j: Job, claims: seq<Claim>, t: Task, o: Outcome)
    requires SafeRow(q, j, claims, t.job) && j.attempts == Claims(claims, t.job)
    ensures SafeRow(q, Recorded(q, j, t, o), claims, t.job) <==>
      var r := NextAfterFailure(q, t);
      ((o.Temporary? && j.status.InFlight? && Claims(claims, t.job) > 0 && j.attempts < q.maxAttempts && r.Some?) ==>
        LastClaim(claims, t.job) + Gap(q, j.attempts) <= r.value < Timestamps.YEAR_10000)
  {
    hide RetryTime, Gap;
    var j', r := Recorded(q, j, t, o), NextAfterFailure(q, t);
    if o.Temporary? && j.status.InFlight? && Claims(claims, t.job) > 0 && j.attempts < q.maxAttempts && r.Some? {
      assert Eligible(j', r.value, q.maxAttempts);
      var early := LastClaim(claims, t.job) + Gap(q, j.attempts) - 1;
      assert r.value >= Timestamps.YEAR_10000 ==> Eligible(j', early, q.maxAttempts);
    }
  }

  lemma SpacedKept(q: Settings, w: World, a: Action)
    requires Safe(q, w) && Spaced(q, w.claims)
    ensures Spaced(q, Apply(q, w, a).claims)
  {
    if a.ClaimNext? {
      var i := FirstEligible(w.jobs, a.now, q.maxAttempts);
      if a.worker !in w.tasks && i < |w.jobs| {
        var claims := w.claims + [Claim(i, a.now)];
        assert claims[..|claims| - 1] == w.claims;
        assert SafeRow(q, w.jobs[i], w.claims, i);
      }
    }
  }

  predicate OnlyClaims(actions: seq<Action>) {
    forall a | a in actions :: a.ClaimNext?
  }

  /** The claims stay spaced, whatever is claimed next and when. */
  ghost predicate KeepsSpacing(q: Settings, w: World) {
    forall more | OnlyClaims(more) :: Spaced(q, Run(q, w, more).claims)
  }

  lemma {:induction false} ClaimsKeepSpacing(q: Settings, w: World, more: seq<Action>)
    requires Safe(q, w) && Spaced(q, w.claims) && OnlyClaims(more)
    ensures Safe(q, Run(q, w, more)) && Spaced(q, Run(q, w, more).claims)
  {
    if more != [] {
      var before, a := more[..|more| - 1], more[|more| - 1];
      assert a in more;
      ClaimsKeepSpacing(q, w, before);
      ClaimKeepsSafe(q, Run(q, w, before), a.worker, a.now);
      SpacedKept(q, Run(q, w, before), a);
    }
  }

  /** A worker that is idle. */
  lemma {:induction false} IdleWorker(tasks: map<nat, Task>) returns (worker: nat)
    ensures worker !in tasks
  {
    var busy := tasks.Keys;
    var above: nat := 0;
    while busy != {}
      invariant forall v | v in tasks && v !in busy :: v < above
      decreases busy
    {
      var v :| v in busy;
      busy := busy - {v};
      above := if v < above then above else v + 1;
    }
    worker := above;
  }

  /** If a row may be claimed too early, idle workers that claim all that is due at that
      moment get to it: the claims before go to lower ids, each once. */
  lemma {:induction false} UnsafeBreaks(q: Settings, w: World, i: nat, now: Time) returns (more: seq<Action>)
    requires i < |w.jobs| && Eligible(w.jobs[i], now, q.maxAttempts) && Claims(w.claims, i) > 0
    requires now < LastClaim(w.claims, i) + Gap(q, Claims(w.claims, i))
    ensures OnlyClaims(more) && !Spaced(q, Run(q, w, more).claims)
    decreases i - FirstEligible(w.jobs, now, q.maxAttempts)
  {
    var n := FirstEligible(w.jobs, now, q.maxAttempts);
    var worker := IdleWorker(w.tasks);
    var a := ClaimNext(worker, now);
    var w' := Apply(q, w, a);
    assert w'.claims == w.claims + [Claim(n, now)] && w'.claims[..|w.claims|] == w.claims;
    RunOne(q, w, a);
    if n == i {
      more := [a];
    } else {
      LastClaimStep(w.claims, Claim(n, now));
      NextEligible(w.jobs, n, now, q.maxAttempts);
      var rest := UnsafeBreaks(q, w', i, now);
      more := [a] + rest;
      RunConcat(q, w, [a], rest);
    }
  }

  /** What has just been claimed is not due again at the same time. */
  lemma NextEligible(jobs: seq<Job>, n: nat, now: Time, maxAttempts: nat)
    requires n < |jobs| && n == FirstEligible(jobs, now, maxAttempts)
    ensures FirstEligible(jobs[n := Claimed(jobs[n], now)], now, maxAttempts) > n
  {
    var jobs' := jobs[n := Claimed(jobs[n], now)];
    assert forall k | 0 <= k < n :: jobs'[k] == jobs[k];
    assert !Eligible(jobs'[n], now, maxAttempts);
  }

  /** Every record of the run is harmless. */
  ghost predicate RecordsSafe(q: Settings, actions: seq<Action>) {
    actions == [] ||
    var before, a := actions[..|actions| - 1], actions[|actions| - 1];
    RecordsSafe(q, before) && (a.Record? ==> RecordSafe(q, Run(q, EMPTY, before), a.worker))
  }

  lemma {:induction false} RunFlightTimes(q: Settings, actions: seq<Action>)
    ensures FlightTimes(Run(q, EMPTY, actions))
  {
    if actions != [] {
      RunFlightTimes(q, actions[..|actions| - 1]);
      FlightTimesKept(q, Run(q, EMPTY, actions[..|actions| - 1]), actions[|actions| - 1]);
    }
  }

  lemma {:induction false} SafeRun(q: Settings, actions: seq<Action>)
    requires RecordsSafe(q, actions)
    ensures Safe(q, Run(q, EMPTY, actions)) && Spaced(q, Run(q, EMPTY, actions).claims)
  {
    if actions != [] {
      var before, a := actions[..|actions| - 1], actions[|actions| - 1];
      SafeRun(q, before);
      QueueSafety(q, EMPTY, before);
      RunFlightTimes(q, before);
      SafeKept(q, Run(q, EMPTY, before), a);
      SpacedKept(q, Run(q, EMPTY, before), a);
    }
  }

  lemma SafeKeepsSpacing(q: Settings, w: World)
    requires Safe(q, w) && Spaced(q, w.claims)
    ensures KeepsSpacing(q, w)
  {
    forall more | OnlyClaims(more) ensures Spaced(q, Run(q, w, more).claims) {
      ClaimsKeepSpacing(q, w, more);
    }
  }

  lemma KeepsSpacingIsSafe(q: Settings, w: World)
    requires KeepsSpacing(q, w)
    ensures Safe(q, w)
  {
    forall i: nat | i < |w.jobs| ensures SafeRow(q, w.jobs[i], w.claims, i) {
      if Claims(w.claims, i) > 0 {
        forall now: Time | Eligible(w.jobs[i], now, q.maxAttempts)
          ensures now >= LastClaim(w.claims, i) + Gap(q, Claims(w.claims, i))
        {
          if now < LastClaim(w.claims, i) + Gap(q, Claims(w.claims, i)) {
            var more := UnsafeBreaks(q, w, i, now);
          }
        }
      }
    }
  }

  /** The exact condition for any number of workers. The records of a run are all
      harmless exactly when, from every state of the run, the claims stay spaced whatever
      is claimed next. */
  lemma {:induction false} SpacingExact(q: Settings, actions: seq<Action>)
    ensures RecordsSafe(q, actions) <==>
      forall n: nat | n <= |actions| :: KeepsSpacing(q, Run(q, EMPTY, actions[..n]))
  {
    if RecordsSafe(q, actions) {
      forall n: nat | n <= |actions| ensures KeepsSpacing(q, Run(q, EMPTY, actions[..n])) {
        SafePrefix(q, actions, n);
        SafeRun(q, actions[..n]);
        SafeKeepsSpacing(q, Run(q, EMPTY, actions[..n]));
      }
    }
    if forall n: nat | n <= |actions| :: KeepsSpacing(q, Run(q, EMPTY, actions[..n])) {
      SpacedRunIsSafe(q, actions);
    }
  }

  lemma {:induction false} SafePrefix(q: Settings, actions: seq<Action>, n: nat)
    requires RecordsSafe(q, actions) && n <= |actions|
    ensures RecordsSafe(q, actions[..n])
  {
    if n < |actions| {
      SafePrefix(q, actions[..|actions| - 1], n);
      assert actions[..|actions| - 1][..n] == actions[..n];
    } else {
      assert actions[..n] == actions;
    }
  }

  lemma {:induction false} SpacedRunIsSafe(q: Settings, actions: seq<Action>)
    requires forall n: nat | n <= |actions| :: KeepsSpacing(q, Run(q, EMPTY, actions[..n]))
    ensures RecordsSafe(q, actions)
  {
    if actions != [] {
      var m := |actions| - 1;
      var before := actions[..m];
      forall n: nat | n <= m ensures KeepsSpacing(q, Run(q, EMPTY, before[..n])) {
        assert before[..n] == actions[..n];
      }
      SpacedRunIsSafe(q, before);
      KeepsSpacingIsSafe(q, Run(q, EMPTY, before));
      assert actions[..m + 1] == actions;
      KeepsSpacingIsSafe(q, Run(q, EMPTY, actions));
      if actions[m].Record? {
        QueueSafety(q, EMPTY, before);
        RunFlightTimes(q, before);
        RecordSafeIff(q, Run(q, EMPTY, before), actions[m].worker, actions[m].at);
      }
    }
  }

  /** The worker's try is the last claim of its job: nobody has claimed the job since. */
  ghost predicate Current(w: World, worker: nat) {
    worker in w.tasks ==>
      forall k | w.tasks[worker].claim < k < |w.claims| :: w.claims[k].job != w.tasks[worker].job
  }

  /** Every try of the run is recorded while it is the last claim of its job. */
  ghost predicate RecordsCurrent(q: Settings, actions: seq<Action>) {
    actions == [] ||
    var before, a := actions[..|actions| - 1], actions[|actions| - 1];
    RecordsCurrent(q, before) && (a.Record? ==> Current(Run(q, EMPTY, before), a.worker))
  }

  /** All claims are made at times from which the longest delay ends before year 10000. */
  predicate InRange(q: Settings, actions: seq<Action>) {
    forall a | a in actions && a.ClaimNext? :: DelayInRange(a.now, q.retryDelaySeconds)
  }

  predicate ClaimsInRange(q: Settings, claims: seq<Claim>) {
    forall k | 0 <= k < |claims| :: DelayInRange(claims[k].at, q.retryDelaySeconds)
  }

  /** A row that failed for now waits for exactly the backoff after its last claim. */
  ghost predicate FailedTimes(q: Settings, w: World) {
    forall i: nat | i < |w.jobs| && Claims(w.claims, i) > 0 :: Waits(q, w.jobs[i], LastClaim(w.claims, i))
  }

  predicate Waits(q: Settings, j: Job, last: Time) {
    j.status.Failed? && j.retryable && j.attempts < q.maxAttempts ==>
      j.nextAttemptAt == last + Backoff(j.attempts, q.retryDelaySeconds) * SECOND
  }

  /** Someone has claimed the job of this task again, at least five minutes later. */
  ghost predicate Overtaken(w: World, t: Task) {
    exists k | t.claim < k < |w.claims| :: w.claims[k].job == t.job && w.claims[k].at >= t.now + STALE
  }

  /** A task is current, and its row is as the worker read it, or has been overtaken. */
  ghost predicate TaskStates(w: World) {
    forall worker | worker in w.tasks ::
      Overtaken(w, w.tasks[worker]) || (Current(w, worker) && StillRead(w, w.tasks[worker]))
  }

  ghost predicate StillRead(w: World, t: Task) {
    t.job < |w.jobs| && w.jobs[t.job].status.InFlight? && w.jobs[t.job].attempts == t.attempts
  }

  lemma CurrentIsLast(q: Settings, w: World, worker: nat)
    requires GoodTasks(q, w) && worker in w.tasks && Current(w, worker)
    ensures var t := w.tasks[worker];
      Claims(w.claims, t.job) > 0 && LastClaim(w.claims, t.job) == t.now
  {
    LastIs(w.claims, w.tasks[worker].claim);
  }

  lemma TaskStatesKept(q: Settings, w: World, a: Action)
    requires Inv(q, w) && FlightTimes(w) && TaskStates(w)
    requires a.Record? ==> Current(w, a.worker)
    ensures TaskStates(Apply(q, w, a))
  {
    match a
    case ClaimNext(worker, now) => ClaimKeepsTaskStates(q, w, worker, now);
    case Record(worker, at) => RecordKeepsTaskStates(q, w, worker, at);
    case _ =>
      var w' := Apply(q, w, a);
      forall v | v in w'.tasks
        ensures Overtaken(w', w'.tasks[v]) || (Current(w', v) && StillRead(w', w'.tasks[v]))
      {
        assert Overtaken(w, w.tasks[v]) || (Current(w, v) && StillRead(w, w.tasks[v]));
      }
  }

  lemma ClaimKeepsTaskStates(q: Settings, w: World, worker: nat, now: Time)
    requires GoodTasks(q, w) && FlightTimes(w) && TaskStates(w)
    ensures TaskStates(Apply(q, w, ClaimNext(worker, now)))
  {
    var n, w' := FirstEligible(w.jobs, now, q.maxAttempts), Apply(q, w, ClaimNext(worker, now));
    if worker !in w.tasks && n < |w.jobs| {
      forall v | v in w'.tasks
        ensures Overtaken(w', w'.tasks[v]) || (Current(w', v) && StillRead(w', w'.tasks[v]))
      {
        if v != worker {
          var t := w.tasks[v];
          if Overtaken(w, t) {
            var k :| t.claim < k < |w.claims| && w.claims[k].job == t.job && w.claims[k].at >= t.now + STALE;
            assert w'.claims[k] == w.claims[k];
          } else if t.job == n {
            CurrentIsLast(q, w, v);
            assert w'.claims[|w.claims|] == Claim(n, now);
          }
        }
      }
    }
  }

  lemma OneCurrent(q: Settings, w: World, v: nat, worker: nat)
    requires GoodTasks(q, w) && v in w.tasks && worker in w.tasks && Current(w, v) && Current(w, worker)
    requires w.tasks[v].job == w.tasks[worker].job
    ensures v == worker
  {
    assert w.claims[w.tasks[v].claim].job == w.claims[w.tasks[worker].claim].job;
  }

  lemma StaysOvertaken(w: World, w': World, t: Task)
    requires Overtaken(w, t) && w.claims == w'.claims
    ensures Overtaken(w', t)
  {
  }

  lemma RecordKeepsTaskStates(q: Settings, w: World, worker: nat, at: Time)
    requires GoodTasks(q, w) && TaskStates(w) && Current(w, worker)
    ensures TaskStates(Apply(q, w, Record(worker, at)))
  {
    hide Recorded, Overtaken, GoodTasks;
    var w' := Apply(q, w, Record(worker, at));
    forall v | v in w'.tasks
      ensures Overtaken(w', w'.tasks[v]) || (Current(w', v) && StillRead(w', w'.tasks[v]))
    {
      var t := w.tasks[v];
      if Overtaken(w, t) {
        StaysOvertaken(w, w', t);
      } else if worker in w.tasks && t.job == w.tasks[worker].job {
        OneCurrent(q, w, v, worker);
      }
    }
  }

  lemma FailedTimesKept(q: Settings, w: World, a: Action)
    requires Inv(q, w) && FailedTimes(q, w) && TaskStates(w) && ClaimsInRange(q, w.claims)
    requires a.Record? ==> Current(w, a.worker)
    ensures FailedTimes(q, Apply(q, w, a))
  {
    match a
    case Enqueue(_, _) =>
      NoClaimsBeyond(w.claims, |w.jobs|);
    case ClaimNext(_, now) =>
      LastClaimStep(w.claims, Claim(FirstEligible(w.jobs, now, q.maxAttempts), now));
    case Record(worker, at) => RecordKeepsFailedTimes(q, w, worker, at);
    case _ =>
  }

  lemma RecordKeepsFailedTimes(q: Settings, w: World, worker: nat, at: Time)
    requires Inv(q, w) && FailedTimes(q, w) && TaskStates(w) && ClaimsInRange(q, w.claims) && Current(w, worker)
    ensures FailedTimes(q, Apply(q, w, Record(worker, at)))
  {
    if KnownTask(w, worker) {
      CurrentWaits(q, w, worker);
      hide Inv, TaskStates, ClaimsInRange, Current, Recorded, Waits;
    }
  }

  /** The last claim of a job, recorded, makes it wait as it should. */
  lemma CurrentWaits(q: Settings, w: World, worker: nat)
    requires Inv(q, w) && TaskStates(w) && ClaimsInRange(q, w.claims) && FailedTimes(q, w)
    requires KnownTask(w, worker) && Current(w, worker)
    ensures var t := w.tasks[worker];
      Claims(w.claims, t.job) > 0 && forall o :: Waits(q, Recorded(q, w.jobs[t.job], t, o), LastClaim(w.claims, t.job))
  {
    var t := w.tasks[worker];
    CurrentIsLast(q, w, worker);
    assert w.claims[t.claim].at == t.now && DelayInRange(t.now, q.retryDelaySeconds);
    RetryTimeInRange(t.now, t.attempts, q.retryDelaySeconds);
    assert Waits(q, w.jobs[t.job], LastClaim(w.claims, t.job));
  }

  lemma ClaimsInRangeKept(q: Settings, w: World, a: Action)
    requires ClaimsInRange(q, w.claims) && (a.ClaimNext? ==> DelayInRange(a.now, q.retryDelaySeconds))
    ensures ClaimsInRange(q, Apply(q, w, a).claims)
  {
  }

  /** What holds in every state of a run whose tries are recorded in order. */
  ghost predicate Orderly(q: Settings, w: World) {
    Inv(q, w) && FlightTimes(w) && TaskStates(w) && FailedTimes(q, w) && ClaimsInRange(q, w.claims)
  }

  lemma {:induction false} CurrentRun(q: Settings, actions: seq<Action>)
    requires InRange(q, actions) && RecordsCurrent(q, actions)
    ensures Orderly(q, Run(q, EMPTY, actions))
  {
    if actions != [] {
      var before, a := actions[..|actions| - 1], actions[|actions| - 1];
      assert a in actions;
      CurrentRun(q, before);
      var w := Run(q, EMPTY, before);
      InvKept(q, w, a);
      FlightTimesKept(q, w, a);
      TaskStatesKept(q, w, a);
      FailedTimesKept(q, w, a);
      ClaimsInRangeKept(q, w, a);
    }
  }

  lemma CurrentIsSafe(q: Settings, w: World, worker: nat)
    requires Orderly(q, w) && Current(w, worker)
    ensures RecordSafe(q, w, worker)
  {
    if KnownTask(w, worker) {
      var t := w.tasks[worker];
      CurrentIsLast(q, w, worker);
      assert w.claims[t.claim].at == t.now && DelayInRange(t.now, q.retryDelaySeconds);
      RetryTimeInRange(t.now, t.attempts, q.retryDelaySeconds);
    }
  }

  lemma {:induction false} CurrentRecordsSafe(q: Settings, actions: seq<Action>)
    requires InRange(q, actions) && RecordsCurrent(q, actions)
    ensures RecordsSafe(q, actions)
  {
    if actions != [] {
      var before, a := actions[..|actions| - 1], actions[|actions| - 1];
      CurrentRecordsSafe(q, before);
      if a.Record? {
        CurrentRun(q, before);
        CurrentIsSafe(q, Run(q, EMPTY, before), a.worker);
      }
    }
  }

  /** Any number of workers, crashes at any point, jobs added at any time: if every try is
      recorded while it is the last claim of its job, consecutive claims of a job are at
      least five minutes or the backoff apart. */
  lemma CurrentRecordsSpaceAttempts(q: Settings, actions: seq<Action>, x: nat, y: nat)
    requires InRange(q, actions) && RecordsCurrent(q, actions)
    requires Consecutive(Run(q, EMPTY, actions).claims, x, y)
    ensures var claims := Run(q, EMPTY, actions).claims;
      var k := Claims(claims[..x + 1], claims[x].job);
      claims[y].at - claims[x].at >= Min(5 * 60, q.retryDelaySeconds * Pow2(Min(k - 1, 10))) * 1_000_000_000
  {
    CurrentRecordsSafe(q, actions);
    SafeRun(q, actions);
    var claims := Run(q, EMPTY, actions).claims;
    SpacedAt(q, claims, x, y);
    HasClaim(claims[..x + 1], x);
    hide RecordsCurrent, RecordsSafe, Spaced, Run, Safe, Gap;
    GapIs(q, Claims(claims[..x + 1], claims[x].job));
  }

  lemma GapIs(q: Settings, k: nat)
    requires k > 0
    ensures Gap(q, k) == Min(5 * 60, q.retryDelaySeconds * Pow2(Min(k - 1, 10))) * 1_000_000_000
  {
  }

  /** Claims x and y are consecutive claims of one job. */
  predicate Consecutive(claims: seq<Claim>, x: nat, y: nat) {
    && x < y < |claims| && claims[x].job == claims[y].job
    && forall z | x < z < y :: claims[z].job != claims[x].job
  }

  /** Tries are recorded within five minutes of their claims, by a clock that no claim
      made so far was ahead of. */
  ghost predicate RecordsTimely(q: Settings, actions: seq<Action>) {
    actions == [] ||
    var before, a := actions[..|actions| - 1], actions[|actions| - 1];
    && RecordsTimely(q, before)
    && (a.Record? ==>
      var w := Run(q, EMPTY, before);
      && (a.worker in w.tasks ==> a.at < w.tasks[a.worker].now + 5 * 60 * 1_000_000_000)
      && forall k | 0 <= k < |w.claims| :: w.claims[k].at <= a.at)
  }

  lemma {:induction false} TimelyIsCurrent(q: Settings, actions: seq<Action>)
    requires RecordsTimely(q, actions)
    ensures RecordsCurrent(q, actions)
  {
    if actions != [] {
      var before, a := actions[..|actions| - 1], actions[|actions| - 1];
      TimelyIsCurrent(q, before);
      TasksOfCurrentRun(q, before);
    }
  }

  lemma {:induction false} TasksOfCurrentRun(q: Settings, actions: seq<Action>)
    requires RecordsCurrent(q, actions)
    ensures TaskStates(Run(q, EMPTY, actions))
  {
    if actions != [] {
      var before, a := actions[..|actions| - 1], actions[|actions| - 1];
      TasksOfCurrentRun(q, before);
      QueueSafety(q, EMPTY, before);
      RunFlightTimes(q, before);
      TaskStatesKept(q, Run(q, EMPTY, before), a);
    }
  }

  /** Any number of workers that record each try within five minutes of its claim. */
  lemma TimelyRecordsSpaceAttempts(q: Settings, actions: seq<Action>, x: nat, y: nat)
    requires InRange(q, actions) && RecordsTimely(q, actions)
    requires Consecutive(Run(q, EMPTY, actions).claims, x, y)
    ensures var claims := Run(q, EMPTY, actions).claims;
      var k := Claims(claims[..x + 1], claims[x].job);
      claims[y].at - claims[x].at >= Min(5 * 60, q.retryDelaySeconds * Pow2(Min(k - 1, 10))) * 1_000_000_000
  {
    TimelyIsCurrent(q, actions);
    CurrentRecordsSpaceAttempts(q, actions, x, y);
  }

  /** One worker, whose clock and delays stay in range. */
  predicate OneWorker(q: Settings, worker: nat, a: Action) {
    match a
    case Enqueue(_, _) => true
    case ClaimNext(v, now) => v == worker && DelayInRange(now, q.retryDelaySeconds)
    case Send(v, _) => v == worker
    case Record(v, _) => v == worker
    case Crash(v) => v == worker
  }

  /** One worker cannot be overtaken, however late it records. */
  lemma {:induction false} OneWorkerIsCurrent(q: Settings, worker: nat, actions: seq<Action>)
    requires forall a | a in actions :: OneWorker(q, worker, a)
    ensures InRange(q, actions) && RecordsCurrent(q, actions)
    ensures var w := Run(q, EMPTY, actions);
      w.tasks.Keys <= {worker} && (worker in w.tasks ==> w.tasks[worker].claim == |w.claims| - 1)
  {
    if actions != [] {
      var before, a := actions[..|actions| - 1], actions[|actions| - 1];
      assert forall x | x in before :: x in actions;
      assert a in actions;
      OneWorkerIsCurrent(q, worker, before);
    }
  }

  lemma RunIsSpaced(q: Settings, worker: nat, actions: seq<Action>)
    requires forall a | a in actions :: OneWorker(q, worker, a)
    ensures Spaced(q, Run(q, EMPTY, actions).claims)
  {
    OneWorkerIsCurrent(q, worker, actions);
    CurrentRecordsSafe(q, actions);
    SafeRun(q, actions);
  }

  /** With one worker, crashes at any point and jobs added at any time, two consecutive
      claims of a job are at least five minutes or the backoff apart. */
  lemma AttemptSpacing(q: Settings, worker: nat, actions: seq<Action>, x: nat, y: nat)
    requires forall a | a in actions :: OneWorker(q, worker, a)
    requires Consecutive(Run(q, EMPTY, actions).claims, x, y)
    ensures var claims := Run(q, EMPTY, actions).claims;
      var k := Claims(claims[..x + 1], claims[x].job);
      claims[y].at - claims[x].at >= Min(5 * 60, q.retryDelaySeconds * Pow2(Min(k - 1, 10))) * 1_000_000_000
  {
    OneWorkerIsCurrent(q, worker, actions);
    CurrentRecordsSpaceAttempts(q, actions, x, y);
  }

  const BUSY := Temporary("Telegram returned HTTP 503 Service Unavailable")

  /** Worker 0 claims and its send fails; it is slow to record that. */
  lemma SlowWorker(q: Settings, j: Job) returns (actions: seq<Action>)
    requires q == Settings(5, 60) && j == NewJob(JobSpec("e", "f", "c", "p"), 0)
    ensures actions == [Enqueue([j.spec], 0), ClaimNext(0, 0), Send(0, BUSY)]
    ensures Run(q, EMPTY, actions) ==
      World([Claimed(j, 0)], map[0 := Task(0, 1, 0, 0)], [Claim(0, 0)], [Some(BUSY)])
  {
    RunStep(q, [], Enqueue([j.spec], 0));
    assert Run(q, EMPTY, []) == EMPTY;
    assert Run(q, EMPTY, [] + [Enqueue([j.spec], 0)]).jobs == [j];
    RunStep(q, [Enqueue([j.spec], 0)], ClaimNext(0, 0));
    RunStep(q, [Enqueue([j.spec], 0), ClaimNext(0, 0)], Send(0, BUSY));
    actions := [Enqueue([j.spec], 0), ClaimNext(0, 0), Send(0, BUSY)];
    assert actions == [Enqueue([j.spec], 0), ClaimNext(0, 0)] + [Send(0, BUSY)];
    assert [Enqueue([j.spec], 0), ClaimNext(0, 0)] == [Enqueue([j.spec], 0)] + [ClaimNext(0, 0)];
    assert [Enqueue([j.spec], 0)] == [] + [Enqueue([j.spec], 0)];
  }

  /** One worker is needed. With two, the first may record its failure after the job
      has been claimed again; the third claim then comes at the time of the second. */
  lemma TwoWorkersBreakSpacing()
    ensures exists q: Settings, actions: seq<Action> ::
      (forall a | a in actions :: OneWorker(q, 0, a) || OneWorker(q, 1, a)) && !Spaced(q, Run(q, EMPTY, actions).claims)
  {
    hide Run, Apply, Spaced, OneWorker;
    var q, j := Settings(5, 60), NewJob(JobSpec("e", "f", "c", "p"), 0);
    var slow := SlowWorker(q, j);
    var w := Run(q, EMPTY, slow);
    var actions := slow + [ClaimNext(1, STALE)] + [Record(0, STALE)] + [ClaimNext(0, STALE)];
    ThreeSteps(q, slow, ClaimNext(1, STALE), Record(0, STALE), ClaimNext(0, STALE));
    SecondClaimThenLateFailure(q, j, w);
    NotSpaced(q);
    assert !Spaced(q, Run(q, EMPTY, actions).claims);
    BothInRange(q, j, slow, actions);
  }

  lemma BothInRange(q: Settings, j: Job, slow: seq<Action>, actions: seq<Action>)
    requires q == Settings(5, 60)
    requires slow == [Enqueue([j.spec], 0), ClaimNext(0, 0), Send(0, BUSY)]
    requires actions == slow + [ClaimNext(1, STALE)] + [Record(0, STALE)] + [ClaimNext(0, STALE)]
    ensures forall a | a in actions :: OneWorker(q, 0, a) || OneWorker(q, 1, a)
  {
  }

  lemma ThreeSteps(q: Settings, actions: seq<Action>, a: Action, b: Action, c: Action)
    ensures Run(q, EMPTY, actions + [a] + [b] + [c]) ==
      Apply(q, Apply(q, Apply(q, Run(q, EMPTY, actions), a), b), c)
  {
    RunStep(q, actions, a);
    RunStep(q, actions + [a], b);
    RunStep(q, actions + [a] + [b], c);
  }

  lemma SecondClaimThenLateFailure(q: Settings, j: Job, w: World)
    requires q == Settings(5, 60) && j == NewJob(JobSpec("e", "f", "c", "p"), 0)
    requires w == World([Claimed(j, 0)], map[0 := Task(0, 1, 0, 0)], [Claim(0, 0)], [Some(BUSY)])
    ensures var w' := Apply(q, Apply(q, Apply(q, w, ClaimNext(1, STALE)), Record(0, STALE)), ClaimNext(0, STALE));
      w'.claims == [Claim(0, 0), Claim(0, STALE), Claim(0, STALE)]
  {
    var w1 := Apply(q, w, ClaimNext(1, STALE));
    assert w1.jobs == [Claimed(Claimed(j, 0), STALE)];
    assert w1.tasks[0] == Task(0, 1, 0, 0) && w1.outcomes[0] == Some(BUSY);
    var w2 := Apply(q, w1, Record(0, STALE));
    assert RetryTime(0, 1, 60) == Some(60 * SECOND) by {
      assert Backoff(1, 60) == 60 * Pow2(0);
    }
    assert w2.jobs[0].status.Failed? && w2.jobs[0].retryable && w2.jobs[0].attempts == 2;
    assert w2.jobs[0].nextAttemptAt == 60 * SECOND;
  }

  lemma NotSpaced(q: Settings)
    requires q.retryDelaySeconds > 0
    ensures !Spaced(q, [Claim(0, 0), Claim(0, STALE), Claim(0, STALE)])
  {
    var two := [Claim(0, 0), Claim(0, STALE)];
    assert [Claim(0, 0), Claim(0, STALE), Claim(0, STALE)][..2] == two;
    LastClaimStep([Claim(0, 0)], Claim(0, STALE));
    assert two == [Claim(0, 0)] + [Claim(0, STALE)];
    BackoffBounds(Claims(two, 0), q.retryDelaySeconds);
  }
}
