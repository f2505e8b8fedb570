/** All runs of the queue: any number of workers that claim, send, record and
    crash, with jobs added at any time. */
module QueueRuns {
  import opened Wrappers
  import opened EventLog
  import opened Queue
  import opened Text
  import opened Arithmetic
  import Timestamps

  datatype Settings = Settings(maxAttempts: nat, retryDelaySeconds: nat)

  /** How a try ends, with the message of a failure. `NoChannel` means that nothing was sent. */
  datatype Outcome = Delivered | Temporary(error: string) | Permanent(error: string) | NoChannel

  function ErrorText(o: Outcome): string {
    match o
    case Delivered => ""
    case Temporary(error) => error
    case Permanent(error) => error
    case NoChannel => "notification channel is not configured"
  }

  /** The job a worker has claimed, with what it read then and the number of the claim. */
  datatype Task = Task(job: nat, attempts: nat, now: Time, claim: nat)

  datatype Claim = Claim(job: nat, at: Time)

  /** The table, the workers at work, and the history of all claims with the
      outcome of each, as far as there is one. */
  datatype World = World(
    jobs: seq<Job>, tasks: map<nat, Task>, claims: seq<Claim>, outcomes: seq<Option<Outcome>>)

  datatype Action =
    | Enqueue(specs: seq<JobSpec>, at: Time)
    | ClaimNext(worker: nat, now: Time)
    | Send(worker: nat, outcome: Outcome)
    | Record(worker: nat, at: Time)
    | Crash(worker: nat)

  const EMPTY := World([], map[], [], [])

  function NewRows(specs: seq<JobSpec>, at: Time): (rows: seq<Job>)
    ensures |rows| == |specs|
    ensures forall i | 0 <= i < |rows| :: rows[i] == NewJob(specs[i], at)
  {
    seq(|specs|, i requires 0 <= i < |specs| => NewJob(specs[i], at))
  }

  function Update(q: Settings, t: Task, o: Outcome): FailureUpdate {
    FailureUpdate(
      t.attempts, ErrorText(o), q.maxAttempts, q.retryDelaySeconds, o.Temporary?, t.now)
  }

  /** The row after its try has been recorded; unchanged if that panics. */
  function Recorded(q: Settings, j: Job, t: Task, o: Outcome): Job {
    if o.Delivered? then Completed(j, t.now) else FailedRow(j, Update(q, t, o))
  }

  predicate KnownTask(w: World, worker: nat) {
    worker in w.tasks && w.tasks[worker].job < |w.jobs| && w.tasks[worker].claim < |w.outcomes|
  }

  /** One step; an action that is not possible changes nothing. A try is recorded with the
      time that the worker read before its claim, whatever the clock says by then. */
  function Apply(q: Settings, w: World, a: Action): World {
    match a
    case Enqueue(specs, at) => w.(jobs := w.jobs + NewRows(specs, at))
    case ClaimNext(worker, now) =>
      var i := FirstEligible(w.jobs, now, q.maxAttempts);
      if worker in w.tasks || i == |w.jobs| then w else
      World(
        w.jobs[i := Claimed(w.jobs[i], now)],
        w.tasks[worker := Task(i, w.jobs[i].attempts + 1, now, |w.claims|)],
        w.claims + [Claim(i, now)],
        w.outcomes + [None])
    case Send(worker, outcome) =>
      if KnownTask(w, worker) && w.outcomes[w.tasks[worker].claim].None?
      then w.(outcomes := w.outcomes[w.tasks[worker].claim := Some(outcome)])
      else w
    case Record(worker, _) =>
      if KnownTask(w, worker) && w.outcomes[w.tasks[worker].claim].Some? then
        var t := w.tasks[worker];
        w.(jobs := w.jobs[t.job := Recorded(q, w.jobs[t.job], t, w.outcomes[t.claim].value)],
           tasks := w.tasks - {worker})
      else w
    case Crash(worker) => w.(tasks := w.tasks - {worker})
  }

  function Run(q: Settings, w: World, actions: seq<Action>): World {
    if actions == [] then w
    else Apply(q, Run(q, w, actions[..|actions| - 1]), actions[|actions| - 1])
  }

  lemma {:induction false} RunConcat(q: Settings, w: World, first: seq<Action>, second: seq<Action>)
    ensures Run(q, w, first + second) == Run(q, Run(q, w, first), second)
  {
    if second == [] {
      assert first + second == first;
    } else {
      var n := |second| - 1;
      RunConcat(q, w, first, second[..n]);
      assert (first + second)[..|first + second| - 1] == first + second[..n];
    }
  }

  lemma RunStep(q: Settings, actions: seq<Action>, a: Action)
    ensures Run(q, EMPTY, actions + [a]) == Apply(q, Run(q, EMPTY, actions), a)
  {
    assert (actions + [a])[..|actions|] == actions;
  }

  lemma RunOne(q: Settings, w: World, a: Action)
    ensures Run(q, w, [a]) == Apply(q, w, a)
  {
    assert [a][..0] == [];
  }

  /** No run changes the fixed columns of a row. */
  lemma {:induction false} RunKeepsSpecs(q: Settings, w: World, actions: seq<Action>)
    ensures Specs(w.jobs) <= Specs(Run(q, w, actions).jobs)
  {
    if actions != [] {
      RunKeepsSpecs(q, w, actions[..|actions| - 1]);
    }
  }

  /** Columns of one row that belong together. */
  predicate GoodRow(q: Settings, j: Job) {
    && j.attempts <= q.maxAttempts
    && (j.claimedAt.Some? <==> j.status.InFlight?)
    && (j.sentAt.Some? <==> j.status.Sent?)
    && (j.status.Pending? <==> j.attempts == 0)
    && (j.status.Pending? ==> j.retryable)
    && (j.status.Failed? ==> j.lastError.Some?)
    && (j.status.Pending? || j.status.Sent? ==> j.lastError.None?)
  }

  ghost predicate GoodRows(q: Settings, jobs: seq<Job>) {
    forall i | 0 <= i < |jobs| :: GoodRow(q, jobs[i])
  }

  /** How often a job has been claimed. */
  function Claims(claims: seq<Claim>, job: nat): nat {
    if claims == [] then 0
    else Claims(claims[..|claims| - 1], job) + (if claims[|claims| - 1].job == job then 1 else 0)
  }

  predicate IsSend(o: Option<Outcome>) {
    o.Some? && !o.value.NoChannel?
  }

  /** How often a job has been sent. */
  function Sends(claims: seq<Claim>, outcomes: seq<Option<Outcome>>, job: nat): nat
    requires |claims| == |outcomes|
  {
    if claims == [] then 0 else
      var n := |claims| - 1;
      Sends(claims[..n], outcomes[..n], job) + (if claims[n].job == job && IsSend(outcomes[n]) then 1 else 0)
  }

  ghost predicate CountsAgree(jobs: seq<Job>, claims: seq<Claim>) {
    && (forall k | 0 <= k < |claims| :: claims[k].job < |jobs|)
    && (forall i: nat | i < |jobs| :: jobs[i].attempts == Claims(claims, i))
  }

  ghost predicate GoodTasks(q: Settings, w: World) {
    && |w.claims| == |w.outcomes|
    && (forall worker | worker in w.tasks ::
      var t := w.tasks[worker];
      && t.job < |w.jobs| && t.claim < |w.claims|
      && w.claims[t.claim] == Claim(t.job, t.now)
      && w.jobs[t.job].attempts >= 1)
    && (forall v, worker | v in w.tasks && worker in w.tasks && w.tasks[v].claim == w.tasks[worker].claim ::
      v == worker)
  }

  /** Some try of the job delivered. */
  ghost predicate WasDelivered(w: World, i: nat) {
    exists k | 0 <= k < |w.claims| && k < |w.outcomes| :: w.claims[k].job == i && w.outcomes[k] == Some(Delivered)
  }

  ghost predicate SentWasDelivered(w: World) {
    forall i: nat | i < |w.jobs| && w.jobs[i].status.Sent? :: WasDelivered(w, i)
  }

  /** Jobs never claimed come after all others. */
  ghost predicate PendingLast(jobs: seq<Job>) {
    forall i, j | 0 <= i < j < |jobs| && jobs[i].status.Pending? :: jobs[j].status.Pending?
  }

  ghost predicate Inv(q: Settings, w: World) {
    && GoodRows(q, w.jobs) && CountsAgree(w.jobs, w.claims) && GoodTasks(q, w)
    && SentWasDelivered(w) && PendingLast(w.jobs)
  }

  lemma RowsKept(q: Settings, w: World, a: Action)
    requires GoodRows(q, w.jobs) && GoodTasks(q, w)
    ensures GoodRows(q, Apply(q, w, a).jobs)
  {
  }

  lemma ClaimsStep(claims: seq<Claim>, c: Claim, job: nat)
    ensures Claims(claims + [c], job) == Claims(claims, job) + (if c.job == job then 1 else 0)
  {
    assert (claims + [c])[..|claims|] == claims;
  }

  lemma {:induction false} NoClaimsBeyond(claims: seq<Claim>, n: nat)
    requires forall k | 0 <= k < |claims| :: claims[k].job < n
    ensures forall i: nat | i >= n :: Claims(claims, i) == 0
  {
    if claims != [] {
      NoClaimsBeyond(claims[..|claims| - 1], n);
    }
  }

  lemma CountsKept(q: Settings, w: World, a: Action)
    requires CountsAgree(w.jobs, w.claims)
    ensures CountsAgree(Apply(q, w, a).jobs, Apply(q, w, a).claims)
  {
    match a
    case Enqueue(specs, at) =>
      EnqueueKeepsCounts(w.jobs, w.claims, NewRows(specs, at));
    case ClaimNext(worker, now) =>
      var i := FirstEligible(w.jobs, now, q.maxAttempts);
      if worker !in w.tasks && i < |w.jobs| {
        ClaimKeepsCounts(w.jobs, w.claims, i, now);
      }
    case Record(worker, _) =>
      if KnownTask(w, worker) && w.outcomes[w.tasks[worker].claim].Some? {
        var t := w.tasks[worker];
        UpdateKeepsCounts(w.jobs, w.claims, t.job, Recorded(q, w.jobs[t.job], t, w.outcomes[t.claim].value));
      }
    case Send(_, _) =>
    case Crash(_) =>
  }

  lemma EnqueueKeepsCounts(jobs: seq<Job>, claims: seq<Claim>, more: seq<Job>)
    requires CountsAgree(jobs, claims) && forall i | 0 <= i < |more| :: more[i].attempts == 0
    ensures CountsAgree(jobs + more, claims)
  {
    NoClaimsBeyond(claims, |jobs|);
    forall i: nat | i < |jobs + more| ensures (jobs + more)[i].attempts == Claims(claims, i) {
      if i >= |jobs| {
        assert (jobs + more)[i] == more[i - |jobs|];
      }
    }
  }

  lemma ClaimKeepsCounts(jobs: seq<Job>, claims: seq<Claim>, i: nat, now: Time)
    requires CountsAgree(jobs, claims) && i < |jobs|
    ensures CountsAgree(jobs[i := Claimed(jobs[i], now)], claims + [Claim(i, now)])
  {
    var jobs', claims' := jobs[i := Claimed(jobs[i], now)], claims + [Claim(i, now)];
    forall k: nat | k < |jobs'| ensures jobs'[k].attempts == Claims(claims', k) {
      ClaimsStep(claims, Claim(i, now), k);
    }
  }

  lemma UpdateKeepsCounts(jobs: seq<Job>, claims: seq<Claim>, i: nat, j: Job)
    requires CountsAgree(jobs, claims) && i < |jobs| && j.attempts == jobs[i].attempts
    ensures CountsAgree(jobs[i := j], claims)
  {
  }

  lemma TasksKept(q: Settings, w: World, a: Action)
    requires GoodTasks(q, w)
    ensures GoodTasks(q, Apply(q, w, a))
  {
    match a
    case ClaimNext(worker, now) => ClaimKeepsTasks(q, w, worker, now);
    case Record(worker, at) => RecordKeepsTasks(q, w, worker, at);
    case _ =>
  }

  lemma ClaimKeepsTasks(q: Settings, w: World, worker: nat, now: Time)
    requires GoodTasks(q, w)
    ensures GoodTasks(q, Apply(q, w, ClaimNext(worker, now)))
  {
    hide Eligible;
  }

  lemma RecordKeepsTasks(q: Settings, w: World, worker: nat, at: Time)
    requires GoodTasks(q, w)
    ensures GoodTasks(q, Apply(q, w, Record(worker, at)))
  {
    hide NextAttempt;
  }

  lemma DeliveredKept(q: Settings, w: World, a: Action)
    requires GoodTasks(q, w) && SentWasDelivered(w)
    ensures SentWasDelivered(Apply(q, w, a))
  {
    var w' := Apply(q, w, a);
    forall i: nat | i < |w'.jobs| && w'.jobs[i].status.Sent? ensures WasDelivered(w', i) {
      if i < |w.jobs| && w.jobs[i].status.Sent? {
        var k :| 0 <= k < |w.claims| && w.claims[k].job == i && w.outcomes[k] == Some(Delivered);
        assert w'.claims[k].job == i && w'.outcomes[k] == Some(Delivered);
      } else {
        var t := w.tasks[a.worker];
        assert w.claims[t.claim].job == i && w.outcomes[t.claim] == Some(Delivered);
      }
    }
  }

  lemma PendingLastKept(q: Settings, w: World, a: Action)
    requires GoodRows(q, w.jobs) && GoodTasks(q, w) && PendingLast(w.jobs)
    ensures PendingLast(Apply(q, w, a).jobs)
  {
    if a.ClaimNext? {
      assert forall k | 0 <= k < FirstEligible(w.jobs, a.now, q.maxAttempts) :: GoodRow(q, w.jobs[k]);
    }
  }

  lemma InvKept(q: Settings, w: World, a: Action)
    requires Inv(q, w)
    ensures Inv(q, Apply(q, w, a))
  {
    RowsKept(q, w, a);
    CountsKept(q, w, a);
    TasksKept(q, w, a);
    DeliveredKept(q, w, a);
    PendingLastKept(q, w, a);
  }

  /** The queue invariant holds in every state of every run. */
  lemma {:induction false} QueueSafety(q: Settings, w: World, actions: seq<Action>)
    requires Inv(q, w)
    ensures Inv(q, Run(q, w, actions))
  {
    if actions != [] {
      QueueSafety(q, w, actions[..|actions| - 1]);
      InvKept(q, Run(q, w, actions[..|actions| - 1]), actions[|actions| - 1]);
    }
  }

  lemma {:induction false} SendsAtMostClaims(claims: seq<Claim>, outcomes: seq<Option<Outcome>>, job: nat)
    requires |claims| == |outcomes|
    ensures Sends(claims, outcomes, job) <= Claims(claims, job)
  {
    if claims != [] {
      var n := |claims| - 1;
      SendsAtMostClaims(claims[..n], outcomes[..n], job);
    }
  }

  /** Over any run from the empty queue: the sends of a job are at most its attempts,
      those are at most the configured maximum, and a job marked sent was delivered. */
  lemma SendsBounded(q: Settings, actions: seq<Action>, i: nat)
    ensures var w := Run(q, EMPTY, actions);
      && |w.claims| == |w.outcomes|
      && (i < |w.jobs| ==>
        && Sends(w.claims, w.outcomes, i) <= w.jobs[i].attempts <= q.maxAttempts
        && (w.jobs[i].status.Sent? ==> WasDelivered(w, i)))
  {
    QueueSafety(q, EMPTY, actions);
    var w := Run(q, EMPTY, actions);
    SendsAtMostClaims(w.claims, w.outcomes, i);
  }

  /** Sent, or failed for good. */
  predicate Settled(j: Job) {
    j.status.Sent? || (j.status.Failed? && !j.retryable)
  }

  lemma SettledStep(q: Settings, w: World, a: Action, i: nat)
    requires i < |w.jobs| && Settled(w.jobs[i])
    ensures i < |Apply(q, w, a).jobs| && Apply(q, w, a).jobs[i] == w.jobs[i]
  {
  }

  /** Settled jobs never change again. */
  lemma {:induction false} SettledForever(q: Settings, w: World, actions: seq<Action>, i: nat)
    requires i < |w.jobs| && Settled(w.jobs[i])
    ensures i < |Run(q, w, actions).jobs| && Run(q, w, actions).jobs[i] == w.jobs[i]
  {
    if actions != [] {
      SettledForever(q, w, actions[..|actions| - 1], i);
      SettledStep(q, Run(q, w, actions[..|actions| - 1]), actions[|actions| - 1], i);
    }
  }

  /** No claim will ever pick the job again: it is settled or out of attempts. */
  predicate Dead(q: Settings, j: Job) {
    Settled(j) || j.attempts >= q.maxAttempts
  }

  lemma DeadStep(q: Settings, w: World, a: Action, i: nat)
    requires i < |w.jobs| && Dead(q, w.jobs[i])
    ensures i < |Apply(q, w, a).jobs| && Dead(q, Apply(q, w, a).jobs[i])
    ensures Claims(Apply(q, w, a).claims, i) == Claims(w.claims, i)
  {
    match a
    case ClaimNext(worker, now) =>
      var k := FirstEligible(w.jobs, now, q.maxAttempts);
      if worker !in w.tasks && k < |w.jobs| {
        assert k != i;
        ClaimsStep(w.claims, Claim(k, now), i);
      }
    case _ =>
  }

  lemma {:induction false} DeadIsNeverClaimed(q: Settings, w: World, actions: seq<Action>, i: nat)
    requires i < |w.jobs| && Dead(q, w.jobs[i])
    ensures i < |Run(q, w, actions).jobs| && Dead(q, Run(q, w, actions).jobs[i])
    ensures Claims(Run(q, w, actions).claims, i) == Claims(w.claims, i)
  {
    if actions != [] {
      var before, a := actions[..|actions| - 1], actions[|actions| - 1];
      DeadIsNeverClaimed(q, w, before, i);
      DeadStep(q, Run(q, w, before), a, i);
    }
  }

  /** When a job may be claimed next. */
  datatype Due = AtOnce | From(time: Time) | Never

  function DueOf(q: Settings, j: Job): Due {
    if Dead(q, j) then Never
    else match j.status
      case Pending => AtOnce
      case Failed => if j.nextAttemptAt >= Timestamps.YEAR_10000 then AtOnce else From(j.nextAttemptAt)
      case InFlight => if j.claimedAt.Some? then From(j.claimedAt.value + 5 * 60 * 1_000_000_000) else Never
      case Sent => Never
  }

  /** No job is stranded while it has attempts left: in every reachable state a job
      that is not dead becomes claimable at a known time and stays so until it changes. */
  lemma NotStranded(q: Settings, actions: seq<Action>, i: nat)
    requires i < |Run(q, EMPTY, actions).jobs|
    ensures var j := Run(q, EMPTY, actions).jobs[i];
      && (DueOf(q, j).Never? <==> Dead(q, j))
      && forall now: Time :: Eligible(j, now, q.maxAttempts) <==>
        DueOf(q, j).AtOnce? || (DueOf(q, j).From? && DueOf(q, j).time <= now)
  {
    QueueSafety(q, EMPTY, actions);
    assert GoodRow(q, Run(q, EMPTY, actions).jobs[i]);
  }

  /** Sum of the attempts of all jobs. */
  function Attempts(jobs: seq<Job>): nat {
    if jobs == [] then 0 else Attempts(jobs[..|jobs| - 1]) + jobs[|jobs| - 1].attempts
  }

  /** Attempts that the jobs still have. */
  function Left(q: Settings, jobs: seq<Job>): int {
    |jobs| * q.maxAttempts - Attempts(jobs)
  }

  lemma {:induction false} AttemptsUpdate(jobs: seq<Job>, i: nat, j: Job)
    requires i < |jobs|
    ensures Attempts(jobs[i := j]) == Attempts(jobs) - jobs[i].attempts + j.attempts
  {
    var n := |jobs| - 1;
    if i < n {
      AttemptsUpdate(jobs[..n], i, j);
      assert jobs[i := j][..n] == jobs[..n][i := j];
    } else {
      assert jobs[i := j][..n] == jobs[..n];
    }
  }

  lemma {:induction false} AttemptsOfNew(jobs: seq<Job>, more: seq<Job>)
    requires forall j | j in more :: j.attempts == 0
    ensures Attempts(jobs + more) == Attempts(jobs)
  {
    if more == [] {
      assert jobs + more == jobs;
    } else {
      var n := |more| - 1;
      assert (jobs + more)[..|jobs| + n] == jobs + more[..n];
      AttemptsOfNew(jobs, more[..n]);
      assert more[n] in more;
    }
  }

  lemma {:induction false} AttemptsBound(most: nat, jobs: seq<Job>, j: nat)
    requires j <= |jobs|
    requires forall i | 0 <= i < |jobs| :: jobs[i].attempts <= most
    requires forall i | j <= i < |jobs| :: jobs[i].attempts == 0
    ensures Attempts(jobs) <= j * most
  {
    if jobs != [] {
      var n := |jobs| - 1;
      if j <= n {
        AttemptsBound(most, jobs[..n], j);
      } else {
        AttemptsBound(most, jobs[..n], n);
        Distribute(n, most);
      }
    }
  }

  lemma ClaimsAreAttemptsStep(q: Settings, w: World, a: Action)
    requires GoodTasks(q, w)
    ensures |Apply(q, w, a).claims| - Attempts(Apply(q, w, a).jobs) == |w.claims| - Attempts(w.jobs)
  {
    match a
    case Enqueue(specs, at) =>
      AttemptsOfNew(w.jobs, NewRows(specs, at));
    case ClaimNext(worker, now) =>
      var i := FirstEligible(w.jobs, now, q.maxAttempts);
      if worker !in w.tasks && i < |w.jobs| {
        AttemptsUpdate(w.jobs, i, Claimed(w.jobs[i], now));
      }
    case Record(worker, _) =>
      if KnownTask(w, worker) && w.outcomes[w.tasks[worker].claim].Some? {
        var t := w.tasks[worker];
        AttemptsUpdate(w.jobs, t.job, Recorded(q, w.jobs[t.job], t, w.outcomes[t.claim].value));
      }
    case _ =>
  }

  lemma {:induction false} ClaimsAreAttempts(q: Settings, w: World, actions: seq<Action>)
    requires Inv(q, w)
    ensures var w' := Run(q, w, actions);
      |w'.claims| - Attempts(w'.jobs) == |w.claims| - Attempts(w.jobs)
  {
    if actions != [] {
      ClaimsAreAttempts(q, w, actions[..|actions| - 1]);
      QueueSafety(q, w, actions[..|actions| - 1]);
      ClaimsAreAttemptsStep(q, Run(q, w, actions[..|actions| - 1]), actions[|actions| - 1]);
    }
  }

  /** First attempts are first in, first out, and starvation is bounded: while job j
      has never been claimed, all claims of the whole run went to lower ids, and there
      were at most maxAttempts for each of those. */
  lemma StarvationBounded(q: Settings, actions: seq<Action>, j: nat)
    requires j < |Run(q, EMPTY, actions).jobs|
    requires Run(q, EMPTY, actions).jobs[j].status.Pending?
    ensures var w := Run(q, EMPTY, actions);
      && (forall k | 0 <= k < |w.claims| :: w.claims[k].job < j)
      && |w.claims| <= q.maxAttempts * j
  {
    QueueSafety(q, EMPTY, actions);
    ClaimsAreAttempts(q, EMPTY, actions);
    ClaimsBelowPending(q, Run(q, EMPTY, actions), j);
  }

  lemma ClaimsBelowPending(q: Settings, w: World, j: nat)
    requires Inv(q, w) && |w.claims| == Attempts(w.jobs)
    requires j < |w.jobs| && w.jobs[j].status.Pending?
    ensures forall k | 0 <= k < |w.claims| :: w.claims[k].job < j
    ensures |w.claims| <= q.maxAttempts * j
  {
    forall i | 0 <= i < |w.jobs| ensures w.jobs[i].attempts <= q.maxAttempts && (j <= i ==> w.jobs[i].attempts == 0) {
      assert GoodRow(q, w.jobs[i]);
    }
    AttemptsBound(q.maxAttempts, w.jobs, j);
    forall k | 0 <= k < |w.claims| ensures w.claims[k].job < j {
      HasClaim(w.claims, k);
    }
  }

  lemma {:induction false} HasClaim(claims: seq<Claim>, k: nat)
    requires k < |claims|
    ensures Claims(claims, claims[k].job) >= 1
  {
    if k < |claims| - 1 {
      HasClaim(claims[..|claims| - 1], k);
    }
  }

  /** A pending job keeps the queue busy: the next claim of an idle worker takes some
      job, and none with a higher id. */
  lemma PendingIsServed(q: Settings, w: World, worker: nat, now: Time, j: nat)
    requires q.maxAttempts > 0 && GoodRows(q, w.jobs)
    requires j < |w.jobs| && w.jobs[j].status.Pending? && worker !in w.tasks
    ensures var w' := Apply(q, w, ClaimNext(worker, now));
      |w'.claims| == |w.claims| + 1 && w'.claims[|w.claims|].job <= j
  {
    assert GoodRow(q, w.jobs[j]);
    assert Eligible(w.jobs[j], now, q.maxAttempts);
  }

  lemma {:induction false} JobsFixed(q: Settings, w: World, actions: seq<Action>)
    requires forall a | a in actions :: !a.Enqueue?
    ensures |Run(q, w, actions).jobs| == |w.jobs|
  {
    if actions != [] {
      assert actions[|actions| - 1] in actions;
      JobsFixed(q, w, actions[..|actions| - 1]);
    }
  }

  /** Without new jobs, only so many claims remain as the jobs have attempts left. */
  lemma ClaimsOnFixedJobs(q: Settings, w: World, actions: seq<Action>)
    requires Inv(q, w) && forall a | a in actions :: !a.Enqueue?
    ensures |Run(q, w, actions).claims| - |w.claims| <= Left(q, w.jobs)
  {
    ClaimsAreAttempts(q, w, actions);
    QueueSafety(q, w, actions);
    JobsFixed(q, w, actions);
    AttemptsBound(q.maxAttempts, Run(q, w, actions).jobs, |w.jobs|);
  }
}
