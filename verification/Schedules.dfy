/** When the claims of a job come whose tries all fail for now and which is claimed
    again as soon as it is due. */
module Schedules {
  import opened Wrappers
  import opened EventLog
  import opened Queue
  import opened QueueRuns
  import opened Spacing

  /** When a job was first claimed. */
  function FirstClaim(claims: seq<Claim>, job: nat): Time
    requires Claims(claims, job) > 0
  {
    var n := |claims| - 1;
    if Claims(claims[..n], job) > 0 then FirstClaim(claims[..n], job) else claims[n].at
  }

  /** Base delays between the first claim and the k-th. */
  function Total(k: nat): nat
    requires k > 0
  {
    if k <= 12 then Pow2(k - 1) - 1 else 2047 + 1024 * (k - 12)
  }

  lemma Sums(base: nat, k: nat)
    requires k > 0
    ensures Total(k + 1) * base == Total(k) * base + Backoff(k, base)
  {
    assert Pow2(10) == 1024 && Pow2(11) == 2048;
    var p := Pow2(Exponent(k));
    assert Total(k + 1) == Total(k) + p;
    assert (Total(k) + p) * base == Total(k) * base + base * p;
  }

  /** When the k-th claim is due. */
  function DueAt(q: Settings, first: Time, k: nat): Time
    requires k > 0
  {
    first + Total(k) * q.retryDelaySeconds * SECOND
  }

  lemma DueStep(q: Settings, first: Time, k: nat)
    requires k > 0
    ensures DueAt(q, first, k + 1) == DueAt(q, first, k) + Backoff(k, q.retryDelaySeconds) * SECOND
  {
    Sums(q.retryDelaySeconds, k);
  }

  /** If this claim takes job i again, the job has failed for now and has just become due. */
  ghost predicate PromptClaim(q: Settings, w: World, worker: nat, now: Time, i: nat) {
    worker !in w.tasks && i < |w.jobs| && FirstEligible(w.jobs, now, q.maxAttempts) == i && Claims(w.claims, i) > 0 ==>
      w.jobs[i].status.Failed? && w.jobs[i].nextAttemptAt == now
  }

  /** Every try of job i fails for now, and it is claimed again exactly when it is due. */
  ghost predicate Prompt(q: Settings, actions: seq<Action>, i: nat) {
    actions == [] ||
    var before, a := actions[..|actions| - 1], actions[|actions| - 1];
    Prompt(q, before, i) && (a.ClaimNext? ==> PromptClaim(q, Run(q, EMPTY, before), a.worker, a.now, i))
  }

  /** The last claim of the job came when that claim was due. */
  ghost predicate OnTime(q: Settings, claims: seq<Claim>, i: nat) {
    Claims(claims, i) > 0 ==> LastClaim(claims, i) == DueAt(q, FirstClaim(claims, i), Claims(claims, i))
  }

  lemma FirstClaimStep(claims: seq<Claim>, c: Claim, i: nat)
    ensures Claims(claims, i) > 0 ==>
      Claims(claims + [c], i) > 0 && FirstClaim(claims + [c], i) == FirstClaim(claims, i)
    ensures Claims(claims, i) == 0 && c.job == i ==>
      Claims(claims + [c], i) == 1 && FirstClaim(claims + [c], i) == c.at
  {
    assert (claims + [c])[..|claims|] == claims;
  }

  lemma OnTimeStep(q: Settings, w: World, worker: nat, now: Time, i: nat)
    requires Orderly(q, w) && OnTime(q, w.claims, i) && PromptClaim(q, w, worker, now, i)
    ensures OnTime(q, Apply(q, w, ClaimNext(worker, now)).claims, i)
  {
    hide TaskStates, FlightTimes, Inv, ClaimsInRange;
    var n := FirstEligible(w.jobs, now, q.maxAttempts);
    if worker !in w.tasks && n < |w.jobs| {
      FirstClaimStep(w.claims, Claim(n, now), i);
      LastClaimStep(w.claims, Claim(n, now));
      if n == i && Claims(w.claims, i) > 0 {
        assert Waits(q, w.jobs[i], LastClaim(w.claims, i));
        AttemptsAreClaims(q, w, i);
        DueStep(q, FirstClaim(w.claims, i), Claims(w.claims, i));
      }
    }
  }

  lemma AttemptsAreClaims(q: Settings, w: World, i: nat)
    requires Inv(q, w) && i < |w.jobs|
    ensures w.jobs[i].attempts == Claims(w.claims, i)
  {
  }

  lemma {:induction false} PromptRunIsOnTime(q: Settings, actions: seq<Action>, i: nat)
    requires InRange(q, actions) && RecordsCurrent(q, actions) && Prompt(q, actions, i)
    ensures OnTime(q, Run(q, EMPTY, actions).claims, i)
  {
    if actions != [] {
      var before, a := actions[..|actions| - 1], actions[|actions| - 1];
      assert InRange(q, before) by {
        assert forall x | x in before :: x in actions;
      }
      PromptRunIsOnTime(q, before, i);
      if a.ClaimNext? {
        CurrentRun(q, before);
        OnTimeStep(q, Run(q, EMPTY, before), a.worker, a.now, i);
      }
    }
  }

  /** In any run of any workers that record in order: if every try of a job fails for now
      and it is claimed again exactly when due, its m-th claim comes base*(2^(m-1) - 1)
      seconds after the first for m up to 12, and 1024*base apart beyond. */
  lemma Schedule(q: Settings, actions: seq<Action>, i: nat)
    requires InRange(q, actions) && RecordsCurrent(q, actions) && Prompt(q, actions, i)
    ensures ClaimsOnTime(q, Run(q, EMPTY, actions).claims, i)
  {
    AllOnTime(q, actions, i);
  }

  /** Claim x came when due, counted from the first claim of its job. */
  ghost predicate ClaimOnTime(q: Settings, claims: seq<Claim>, x: nat) {
    x < |claims| &&
    var i := claims[x].job;
    var m := Claims(claims[..x + 1], i);
    m > 0 && Claims(claims, i) > 0 && claims[x].at == DueAt(q, FirstClaim(claims, i), m)
  }

  /** The m-th claim of the job came when due, for every m. */
  ghost predicate ClaimsOnTime(q: Settings, claims: seq<Claim>, i: nat) {
    forall x: nat | x < |claims| && claims[x].job == i :: ClaimOnTime(q, claims, x)
  }

  lemma {:induction false} AllOnTime(q: Settings, actions: seq<Action>, i: nat)
    requires InRange(q, actions) && RecordsCurrent(q, actions) && Prompt(q, actions, i)
    ensures ClaimsOnTime(q, Run(q, EMPTY, actions).claims, i)
  {
    if actions != [] {
      var before, a := actions[..|actions| - 1], actions[|actions| - 1];
      assert InRange(q, before) by {
        assert forall x | x in before :: x in actions;
      }
      AllOnTime(q, before, i);
      PromptRunIsOnTime(q, actions, i);
      var claims, claims' := Run(q, EMPTY, before).claims, Run(q, EMPTY, actions).claims;
      ClaimsGrow(q, Run(q, EMPTY, before), a);
      forall x: nat | x < |claims'| && claims'[x].job == i ensures ClaimOnTime(q, claims', x) {
        if x == |claims| {
          assert claims'[..x + 1] == claims';
          assert claims' == claims + [claims'[x]];
          LastClaimStep(claims, claims'[x]);
        } else {
          assert claims[x] == claims'[x];
          assert ClaimOnTime(q, claims, x);
          ClaimStaysOnTime(q, claims, claims', x);
        }
      }
    }
  }

  lemma ClaimsGrow(q: Settings, w: World, a: Action)
    ensures var claims, claims' := w.claims, Apply(q, w, a).claims;
      && (claims' == claims || (|claims'| == |claims| + 1 && claims'[..|claims|] == claims))
      && forall x | 0 <= x < |claims| :: claims'[x] == claims[x]
  {
  }

  lemma ClaimStaysOnTime(q: Settings, claims: seq<Claim>, claims': seq<Claim>, x: nat)
    requires ClaimOnTime(q, claims, x)
    requires claims' == claims || (|claims'| == |claims| + 1 && claims'[..|claims|] == claims)
    ensures ClaimOnTime(q, claims', x)
  {
    if claims' != claims {
      assert claims' == claims + [claims'[|claims|]];
      FirstClaimStep(claims, claims'[|claims|], claims[x].job);
      assert claims'[..x + 1] == claims[..x + 1];
    }
  }

  /** One worker, one job: it is added, claimed m times when due, and fails each time. */
  function PromptRun(q: Settings, spec: JobSpec, first: Time, m: nat): seq<Action> {
    if m == 0 then [Enqueue([spec], first)] else
      var now := DueAt(q, first, m);
      PromptRun(q, spec, first, m - 1) + [ClaimNext(0, now)] + [Send(0, BUSY)] + [Record(0, now)]
  }

  ghost predicate AfterRounds(q: Settings, w: World, first: Time, m: nat) {
    && |w.jobs| == 1 && w.tasks == map[] && |w.claims| == |w.outcomes| == m && w.jobs[0].attempts == m
    && (forall k | 0 <= k < m :: w.claims[k] == Claim(0, DueAt(q, first, k + 1)))
    && (m == 0 ==> w.jobs[0].status.Pending?)
    && (0 < m < q.maxAttempts ==>
      w.jobs[0].status.Failed? && w.jobs[0].retryable && w.jobs[0].nextAttemptAt == DueAt(q, first, m + 1))
  }

  lemma PromptMore(q: Settings, actions: seq<Action>, a: Action, i: nat)
    requires Prompt(q, actions, i)
    requires a.ClaimNext? ==> PromptClaim(q, Run(q, EMPTY, actions), a.worker, a.now, i)
    ensures Prompt(q, actions + [a], i)
  {
    assert (actions + [a])[..|actions|] == actions;
  }

  lemma RoundOfRun(q: Settings, w: World, first: Time, m: nat)
    requires 0 < m <= q.maxAttempts && AfterRounds(q, w, first, m - 1)
    requires DelayInRange(DueAt(q, first, m), q.retryDelaySeconds)
    ensures var now := DueAt(q, first, m);
      && PromptClaim(q, w, 0, now, 0)
      && AfterRounds(q,
        Apply(q, Apply(q, Apply(q, w, ClaimNext(0, now)), Send(0, BUSY)), Record(0, now)), first, m)
  {
    var now := DueAt(q, first, m);
    DueStep(q, first, m);
    RetryTimeInRange(now, m, q.retryDelaySeconds);
    hide RetryTime, DueAt;
    var w1 := Apply(q, w, ClaimNext(0, now));
    assert w1.jobs == [Claimed(w.jobs[0], now)] && w1.tasks[0] == Task(0, m, now, m - 1);
    var w2 := Apply(q, w1, Send(0, BUSY));
    assert w2.outcomes[m - 1] == Some(BUSY);
    var w3 := Apply(q, w2, Record(0, now));
    assert w3.tasks == map[];
  }

  lemma {:induction false} PromptRunIsOneWorker(q: Settings, spec: JobSpec, first: Time, m: nat)
    requires forall k | 0 < k <= m :: DelayInRange(DueAt(q, first, k), q.retryDelaySeconds)
    ensures forall a | a in PromptRun(q, spec, first, m) :: OneWorker(q, 0, a)
  {
    hide DueAt, DelayInRange;
    if m > 0 {
      PromptRunIsOneWorker(q, spec, first, m - 1);
      assert DelayInRange(DueAt(q, first, m), q.retryDelaySeconds);
    }
  }

  lemma PromptRound(q: Settings, before: seq<Action>, first: Time, m: nat)
    requires 0 < m <= q.maxAttempts && AfterRounds(q, Run(q, EMPTY, before), first, m - 1) && Prompt(q, before, 0)
    requires DelayInRange(DueAt(q, first, m), q.retryDelaySeconds)
    ensures var now := DueAt(q, first, m);
      var actions := before + [ClaimNext(0, now)] + [Send(0, BUSY)] + [Record(0, now)];
      AfterRounds(q, Run(q, EMPTY, actions), first, m) && Prompt(q, actions, 0)
  {
    var now := DueAt(q, first, m);
    var a, b, c := ClaimNext(0, now), Send(0, BUSY), Record(0, now);
    RoundOfRun(q, Run(q, EMPTY, before), first, m);
    hide DueAt, DelayInRange, PromptClaim, AfterRounds, Apply, Run, Prompt;
    RunStep(q, before, a);
    RunStep(q, before + [a], b);
    RunStep(q, before + [a] + [b], c);
    PromptMore(q, before, a, 0);
    PromptMore(q, before + [a], b, 0);
    PromptMore(q, before + [a] + [b], c, 0);
  }

  /** Such runs exist: the job is claimed exactly at its due times, as often as it has
      attempts, and the run meets what the schedule asks for. */
  lemma {:induction false} ScheduleIsRealised(q: Settings, spec: JobSpec, first: Time, m: nat)
    requires m <= q.maxAttempts
    requires forall k | 0 < k <= m :: DelayInRange(DueAt(q, first, k), q.retryDelaySeconds)
    ensures var actions := PromptRun(q, spec, first, m);
      && AfterRounds(q, Run(q, EMPTY, actions), first, m) && Prompt(q, actions, 0)
      && InRange(q, actions) && RecordsCurrent(q, actions)
  {
    if m == 0 {
      RunOne(q, EMPTY, Enqueue([spec], first));
      assert Run(q, EMPTY, []) == EMPTY && [Enqueue([spec], first)][..0] == [];
    } else {
      ScheduleIsRealised(q, spec, first, m - 1);
      PromptRound(q, PromptRun(q, spec, first, m - 1), first, m);
    }
    PromptRunIsOneWorker(q, spec, first, m);
    OneWorkerIsCurrent(q, 0, PromptRun(q, spec, first, m));
  }
}
