/** Passes of the notification worker, as parts of runs of the queue. */
module Passes {
  import opened Wrappers
  import opened Queue
  import opened QueueRuns
  import Spacing
  import Deliveries

  /** What a pass at one time by worker 0 consists of. */
  predicate StepOfPass(a: Action, now: Time) {
    match a
    case Enqueue(_, _) => true
    case ClaimNext(worker, at) => worker == 0 && at == now
    case Send(worker, _) => worker == 0
    case Record(worker, _) => worker == 0
    case Crash(worker) => worker == 0
  }

  /** A pass keeps to what the spacing of attempts asks of one worker. */
  lemma PassIsOneWorker(q: Settings, actions: seq<Action>, now: Time)
    requires DelayInRange(now, q.retryDelaySeconds)
    requires forall a | a in actions :: StepOfPass(a, now)
    ensures forall a | a in actions :: Spacing.OneWorker(q, 0, a)
  {
  }

  /** One pass as a run: its time and its steps. */
  datatype Pass = Pass(now: Time, steps: seq<Action>)

  ghost predicate IsPass(pass: Pass) {
    forall a | a in pass.steps :: StepOfPass(a, pass.now)
  }

  function Steps(passes: seq<Pass>): seq<Action> {
    if passes == [] then [] else Steps(passes[..|passes| - 1]) + passes[|passes| - 1].steps
  }

  lemma {:induction false} PassesAreOneWorker(q: Settings, passes: seq<Pass>)
    requires forall pass | pass in passes :: IsPass(pass) && DelayInRange(pass.now, q.retryDelaySeconds)
    ensures forall a | a in Steps(passes) :: Spacing.OneWorker(q, 0, a)
  {
    if passes != [] {
      var n := |passes| - 1;
      PassesAreOneWorker(q, passes[..n]);
      assert passes[n] in passes;
      PassIsOneWorker(q, passes[n].steps, passes[n].now);
    }
  }

  /** The worker calls `deliver_due` again and again. Over any number of passes, each at
      its own time, whatever fails in them, the attempts of every job stay spaced. */
  lemma PassesKeepSpacing(q: Settings, passes: seq<Pass>)
    requires forall pass | pass in passes :: IsPass(pass) && DelayInRange(pass.now, q.retryDelaySeconds)
    ensures Spacing.Spaced(q, Run(q, EMPTY, Steps(passes)).claims)
  {
    PassesAreOneWorker(q, passes);
    Spacing.RunIsSpaced(q, 0, Steps(passes));
  }

  lemma {:induction false} PassesAreByOne(passes: seq<Pass>)
    requires forall pass | pass in passes :: IsPass(pass)
    ensures Deliveries.ByOne(0, Steps(passes))
  {
    if passes != [] {
      var n := |passes| - 1;
      PassesAreByOne(passes[..n]);
      assert IsPass(passes[n]);
    }
  }

  /** Over any number of passes, whatever the delays, no state can lead to a second delivery
      exactly if every crash is harmless: none loses the record of a delivery of a job that
      has attempts left. */
  lemma PassesDeliverOnce(q: Settings, passes: seq<Pass>)
    requires forall pass | pass in passes :: IsPass(pass)
    ensures Deliveries.HarmlessRun(q, EMPTY, Steps(passes)) <==>
      forall n: nat | n <= |Steps(passes)| :: Deliveries.NeverTwice(q, Run(q, EMPTY, Steps(passes)[..n]))
  {
    PassesAreByOne(passes);
    Deliveries.OneWorkerIsAlone(q, 0, Steps(passes));
    Deliveries.RepeatsExact(q, Steps(passes));
  }

  lemma {:induction false} NoCrashes(q: Settings, actions: seq<Action>)
    requires forall a | a in actions :: !a.Crash?
    ensures Deliveries.LosesNothing(q, EMPTY, actions)
  {
    if actions != [] {
      NoCrashes(q, actions[..|actions| - 1]);
    }
  }

  lemma {:induction false} NoCrashesInPasses(passes: seq<Pass>)
    requires forall pass | pass in passes :: forall a | a in pass.steps :: !a.Crash?
    ensures forall a | a in Steps(passes) :: !a.Crash?
  {
    if passes != [] {
      var n := |passes| - 1;
      NoCrashesInPasses(passes[..n]);
      assert passes[n] in passes;
    }
  }

  /** After passes that end without an error, each job has been delivered at most once, and
      exactly once if it is marked sent. */
  lemma OrderlyPassesDeliverOnce(q: Settings, passes: seq<Pass>, i: nat)
    requires forall pass | pass in passes :: IsPass(pass) && forall a | a in pass.steps :: !a.Crash?
    requires var w := Run(q, EMPTY, Steps(passes)); i < |w.jobs| && 0 !in w.tasks
    ensures var w := Run(q, EMPTY, Steps(passes));
      |w.claims| == |w.outcomes|
      && Deliveries.Deliveries(w.claims, w.outcomes, i) == if w.jobs[i].status.Sent? then 1 else 0
  {
    PassesAreByOne(passes);
    Deliveries.OneWorkerIsAlone(q, 0, Steps(passes));
    NoCrashesInPasses(passes);
    NoCrashes(q, Steps(passes));
    Deliveries.LosesNothingIsHarmless(q, Steps(passes));
    Deliveries.DeliveredAtMostOnce(q, Steps(passes), i);
    Deliveries.DeliveredIffSent(q, Steps(passes), i);
  }

  /** Tries from this claim on have no outcome yet or were delivered. */
  predicate AllDelivered(w: World, from: nat) {
    forall k | from <= k < |w.outcomes| :: w.outcomes[k].None? || w.outcomes[k] == Some(Delivered)
  }

  /** Outcomes are not taken back. */
  lemma DeliveredBefore(q: Settings, w: World, a: Action, from: nat)
    requires AllDelivered(Apply(q, w, a), from)
    ensures AllDelivered(w, from)
  {
    hide Recorded;
    var w' := Apply(q, w, a);
    forall k | from <= k < |w.outcomes| ensures w.outcomes[k].None? || w.outcomes[k] == Some(Delivered) {
      assert w.outcomes[k].Some? ==> w'.outcomes[k] == w.outcomes[k];
    }
  }

  /** A row during a pass whose sends all succeed: in the hands of the worker, or as
      before, or sent; and if it is not as before, it was due. */
  ghost predicate RowInPass(q: Settings, w: World, before: Job, i: nat, now: Time) {
    i < |w.jobs| &&
    if 0 in w.tasks && w.tasks[0].job == i then Eligible(before, now, q.maxAttempts)
    else w.jobs[i] == before || (Eligible(before, now, q.maxAttempts) && w.jobs[i].status.Sent?)
  }

  ghost predicate InPass(q: Settings, start: World, w: World, now: Time) {
    && |start.claims| == |start.outcomes| <= |w.claims| == |w.outcomes|
    && (0 in w.tasks ==>
      var t := w.tasks[0];
      && |start.claims| <= t.claim < |w.outcomes|
      && t.job < |w.jobs| && w.jobs[t.job].status.InFlight?)
    && forall i: nat | i < |start.jobs| :: RowInPass(q, w, start.jobs[i], i, now)
  }

  lemma InPassStep(q: Settings, start: World, w: World, a: Action, now: Time)
    requires InPass(q, start, w, now) && StepOfPass(a, now) && !a.Crash?
    requires AllDelivered(w, |start.claims|)
    ensures InPass(q, start, Apply(q, w, a), now)
  {
    hide RetryTime;
    var w' := Apply(q, w, a);
    forall i: nat | i < |start.jobs| ensures RowInPass(q, w', start.jobs[i], i, now) {
      assert RowInPass(q, w, start.jobs[i], i, now);
    }
  }

  lemma {:induction false} InPassRun(q: Settings, start: World, actions: seq<Action>, now: Time)
    requires |start.claims| == |start.outcomes| && 0 !in start.tasks
    requires forall a | a in actions :: StepOfPass(a, now) && !a.Crash?
    requires AllDelivered(Run(q, start, actions), |start.claims|)
    ensures InPass(q, start, Run(q, start, actions), now)
  {
    if actions != [] {
      var before, a := actions[..|actions| - 1], actions[|actions| - 1];
      assert a in actions && forall x | x in before :: x in actions;
      DeliveredBefore(q, Run(q, start, before), a, |start.claims|);
      InPassRun(q, start, before, now);
      InPassStep(q, start, Run(q, start, before), a, now);
    }
  }

  predicate DueBy(due: Due, now: Time) {
    due.AtOnce? || (due.From? && due.time <= now)
  }

  /** Every job that was due is sent, and every other job is as it was. */
  ghost predicate DueAreSent(q: Settings, jobs: seq<Job>, jobs': seq<Job>, now: Time) {
    && |jobs| <= |jobs'|
    && forall i: nat | i < |jobs| ::
      if DueBy(DueOf(q, jobs[i]), now) then jobs'[i].status.Sent? else jobs'[i] == jobs[i]
  }

  /** A pass in which all sends succeed and that ends because nothing is due. */
  lemma PassSendsAll(q: Settings, start: World, actions: seq<Action>, now: Time)
    requires Inv(q, start) && 0 !in start.tasks
    requires forall a | a in actions :: StepOfPass(a, now) && !a.Crash?
    requires var w := Run(q, start, actions);
      && 0 !in w.tasks && AllDelivered(w, |start.claims|)
      && FirstEligible(w.jobs, now, q.maxAttempts) == |w.jobs|
    ensures DueAreSent(q, start.jobs, Run(q, start, actions).jobs, now)
  {
    InPassRun(q, start, actions, now);
    RunKeepsSpecs(q, start, actions);
    var w := Run(q, start, actions);
    assert |Specs(start.jobs)| <= |Specs(w.jobs)|;
    forall i: nat | i < |start.jobs|
      ensures if DueBy(DueOf(q, start.jobs[i]), now) then w.jobs[i].status.Sent? else w.jobs[i] == start.jobs[i]
    {
      assert GoodRow(q, start.jobs[i]) && RowInPass(q, w, start.jobs[i], i, now);
      assert Eligible(start.jobs[i], now, q.maxAttempts) <==> DueBy(DueOf(q, start.jobs[i]), now);
    }
  }

  /** Attempts that the jobs of the longer table have left, counted before the pass. */
  function Allowance(q: Settings, jobs: seq<Job>, longer: seq<Job>): int {
    |longer| * q.maxAttempts - Attempts(jobs)
  }

  /** A pass cannot claim more often than that. */
  lemma ClaimsOfPass(q: Settings, start: World, actions: seq<Action>)
    requires Inv(q, start)
    ensures var w := Run(q, start, actions);
      |w.claims| - |start.claims| <= Allowance(q, start.jobs, w.jobs)
  {
    ClaimsAreAttempts(q, start, actions);
    QueueSafety(q, start, actions);
    AttemptsBound(q.maxAttempts, Run(q, start, actions).jobs, |Run(q, start, actions).jobs|);
  }
}
