/** How often a job is delivered: once at most, unless two workers are at work on it at
    once or a crash loses the record of a delivery while the job has attempts left. */
module Deliveries {
  import opened Wrappers
  import opened Queue
  import opened QueueRuns
  import opened EventLog
  import opened Spacing

  function Deliveries(claims: seq<Claim>, outcomes: seq<Option<Outcome>>, job: nat): nat
    requires |claims| == |outcomes|
  {
    if claims == [] then 0 else
      var n := |claims| - 1;
      Deliveries(claims[..n], outcomes[..n], job)
      + (if claims[n].job == job && outcomes[n] == Some(Delivered) then 1 else 0)
  }

  lemma {:induction false} DeliveriesUpdate(
    claims: seq<Claim>, outcomes: seq<Option<Outcome>>, k: nat, o: Outcome, job: nat)
    requires |claims| == |outcomes| && k < |claims| && outcomes[k].None?
    ensures Deliveries(claims, outcomes[k := Some(o)], job) ==
      Deliveries(claims, outcomes, job) + (if claims[k].job == job && o.Delivered? then 1 else 0)
  {
    var n := |claims| - 1;
    if k < n {
      DeliveriesUpdate(claims[..n], outcomes[..n], k, o, job);
      assert outcomes[k := Some(o)][..n] == outcomes[..n][k := Some(o)];
    } else {
      assert outcomes[k := Some(o)][..n] == outcomes[..n];
    }
  }

  lemma DeliveriesStep(claims: seq<Claim>, outcomes: seq<Option<Outcome>>, c: Claim, job: nat)
    requires |claims| == |outcomes|
    ensures Deliveries(claims + [c], outcomes + [None], job) == Deliveries(claims, outcomes, job)
  {
    assert (claims + [c])[..|claims|] == claims && (outcomes + [None])[..|claims|] == outcomes;
  }

  lemma {:induction false} NoDeliveriesBeyond(claims: seq<Claim>, outcomes: seq<Option<Outcome>>, n: nat)
    requires |claims| == |outcomes| && forall k | 0 <= k < |claims| :: claims[k].job < n
    ensures forall i: nat | i >= n :: Deliveries(claims, outcomes, i) == 0
  {
    if claims != [] {
      NoDeliveriesBeyond(claims[..|claims| - 1], outcomes[..|claims| - 1], n);
    }
  }

  /** The worker has delivered job i and not recorded it yet. */
  predicate Unrecorded(w: World, worker: nat, i: nat) {
    KnownTask(w, worker) && w.tasks[worker].job == i && w.outcomes[w.tasks[worker].claim] == Some(Delivered)
  }

  /** A claim takes a job that no worker is at work on. */
  predicate Alone(q: Settings, w: World, a: Action) {
    a.ClaimNext? && a.worker !in w.tasks ==>
      forall v | v in w.tasks :: w.tasks[v].job != FirstEligible(w.jobs, a.now, q.maxAttempts)
  }

  /** A crash loses no delivery of a job that has attempts left. */
  predicate Harmless(q: Settings, w: World, a: Action) {
    a.Crash? ==>
      forall i: nat | i < |w.jobs| && Unrecorded(w, a.worker, i) :: w.jobs[i].attempts >= q.maxAttempts
  }

  /** Every claim of the run from w takes a job that no worker is at work on. */
  ghost predicate AloneRun(q: Settings, w: World, actions: seq<Action>) {
    actions == [] ||
    var before, a := actions[..|actions| - 1], actions[|actions| - 1];
    AloneRun(q, w, before) && Alone(q, Run(q, w, before), a)
  }

  /** Every crash of the run from w is harmless. */
  ghost predicate HarmlessRun(q: Settings, w: World, actions: seq<Action>) {
    actions == [] ||
    var before, a := actions[..|actions| - 1], actions[|actions| - 1];
    HarmlessRun(q, w, before) && Harmless(q, Run(q, w, before), a)
  }

  /** No two workers are at work on one job, and its row is as the worker left it. */
  ghost predicate Apart(w: World) {
    && (forall u, v | u in w.tasks && v in w.tasks && w.tasks[u].job == w.tasks[v].job :: u == v)
    && (forall v | v in w.tasks :: KnownTask(w, v) && Held(w, w.tasks[v]))
  }

  predicate Held(w: World, t: Task) {
    t.job < |w.jobs| && w.jobs[t.job].status.InFlight? && w.jobs[t.job].claimedAt == Some(t.now)
  }

  lemma ApartKept(q: Settings, w: World, a: Action)
    requires GoodTasks(q, w) && Apart(w) && Alone(q, w, a)
    ensures Apart(Apply(q, w, a))
  {
    hide Recorded;
  }

  lemma {:induction false} ApartRun(q: Settings, actions: seq<Action>)
    requires AloneRun(q, EMPTY, actions)
    ensures Apart(Run(q, EMPTY, actions)) && Inv(q, Run(q, EMPTY, actions))
  {
    QueueSafety(q, EMPTY, actions);
    if actions != [] {
      var before := actions[..|actions| - 1];
      ApartRun(q, before);
      ApartKept(q, Run(q, EMPTY, before), actions[|actions| - 1]);
    }
  }

  ghost predicate IsUnrecorded(w: World, i: nat) {
    exists v :: Unrecorded(w, v, i)
  }

  /** A job has been delivered at most once. If it has, it is marked sent, or a worker is
      about to record that, or no attempt is left (unless nothing at all was lost); and no
      other worker is at work on it. */
  ghost predicate Once(q: Settings, w: World, strict: bool) {
    && |w.claims| == |w.outcomes|
    && (forall i: nat | i < |w.jobs| :: OnceAt(q, w, i, strict))
    && (forall v | v in w.tasks && KnownTask(w, v) ::
      Unrecorded(w, v, w.tasks[v].job) || Deliveries(w.claims, w.outcomes, w.tasks[v].job) == 0)
  }

  ghost predicate OnceAt(q: Settings, w: World, i: nat, strict: bool)
    requires i < |w.jobs| && |w.claims| == |w.outcomes|
  {
    && Deliveries(w.claims, w.outcomes, i) <= 1
    && (Deliveries(w.claims, w.outcomes, i) == 1 ==>
      w.jobs[i].status.Sent? || IsUnrecorded(w, i) || (!strict && w.jobs[i].attempts >= q.maxAttempts))
  }

  /** What the proofs below keep. */
  ghost predicate Tidy(q: Settings, w: World, strict: bool) {
    Inv(q, w) && Apart(w) && Once(q, w, strict)
  }

  lemma OnceKept(q: Settings, w: World, a: Action, strict: bool)
    requires Tidy(q, w, strict) && Alone(q, w, a) && Harmless(q, w, a)
    requires strict && a.Crash? ==> forall i: nat :: !Unrecorded(w, a.worker, i)
    ensures Tidy(q, Apply(q, w, a), strict)
  {
    InvKept(q, w, a);
    ApartKept(q, w, a);
    match a
    case Enqueue(specs, at) => EnqueueKeepsOnce(q, w, specs, at, strict);
    case ClaimNext(worker, now) => ClaimKeepsOnce(q, w, worker, now, strict);
    case Send(worker, o) => SendKeepsOnce(q, w, worker, o, strict);
    case Record(worker, at) => RecordKeepsOnce(q, w, worker, at, strict);
    case Crash(worker) => CrashKeepsOnce(q, w, worker, strict);
  }

  /** Steps that change no outcome and no task but that of one worker. */
  lemma StillUnrecorded(w: World, w': World, worker: nat, i: nat)
    requires IsUnrecorded(w, i) && !Unrecorded(w, worker, i)
    requires |w.jobs| <= |w'.jobs| && w.outcomes <= w'.outcomes
    requires forall v | v in w.tasks && v != worker :: v in w'.tasks && w'.tasks[v] == w.tasks[v]
    ensures IsUnrecorded(w', i)
  {
    var v :| Unrecorded(w, v, i);
    assert Unrecorded(w', v, i);
  }

  lemma EnqueueKeepsOnce(q: Settings, w: World, specs: seq<JobSpec>, at: Time, strict: bool)
    requires Tidy(q, w, strict)
    ensures Once(q, Apply(q, w, Enqueue(specs, at)), strict)
  {
    var w' := Apply(q, w, Enqueue(specs, at));
    NoDeliveriesBeyond(w.claims, w.outcomes, |w.jobs|);
    forall i: nat | i < |w'.jobs| ensures OnceAt(q, w', i, strict) {
      if i < |w.jobs| {
        assert OnceAt(q, w, i, strict);
        if IsUnrecorded(w, i) {
          var v :| Unrecorded(w, v, i);
          assert Unrecorded(w', v, i);
        }
      }
    }
  }

  lemma ClaimKeepsOnce(q: Settings, w: World, worker: nat, now: Time, strict: bool)
    requires Tidy(q, w, strict) && Alone(q, w, ClaimNext(worker, now))
    ensures Once(q, Apply(q, w, ClaimNext(worker, now)), strict)
  {
    var n, w' := FirstEligible(w.jobs, now, q.maxAttempts), Apply(q, w, ClaimNext(worker, now));
    if worker !in w.tasks && n < |w.jobs| {
      assert !IsUnrecorded(w, n);
      assert OnceAt(q, w, n, strict);
      forall i: nat ensures Deliveries(w'.claims, w'.outcomes, i) == Deliveries(w.claims, w.outcomes, i) {
        DeliveriesStep(w.claims, w.outcomes, Claim(n, now), i);
      }
      forall i: nat | i < |w'.jobs| ensures OnceAt(q, w', i, strict) {
        assert OnceAt(q, w, i, strict);
        if IsUnrecorded(w, i) {
          StillUnrecorded(w, w', worker, i);
        }
      }
    }
  }

  lemma SendKeepsOnce(q: Settings, w: World, worker: nat, o: Outcome, strict: bool)
    requires Tidy(q, w, strict)
    ensures Once(q, Apply(q, w, Send(worker, o)), strict)
  {
    var w' := Apply(q, w, Send(worker, o));
    if KnownTask(w, worker) && w.outcomes[w.tasks[worker].claim].None? {
      var t := w.tasks[worker];
      forall i: nat
        ensures Deliveries(w'.claims, w'.outcomes, i) ==
          Deliveries(w.claims, w.outcomes, i) + (if t.job == i && o.Delivered? then 1 else 0)
      {
        DeliveriesUpdate(w.claims, w.outcomes, t.claim, o, i);
      }
      forall i: nat | i < |w'.jobs| ensures OnceAt(q, w', i, strict) {
        assert OnceAt(q, w, i, strict);
        if IsUnrecorded(w, i) {
          var v :| Unrecorded(w, v, i);
          assert Unrecorded(w', v, i);
        }
        if i == t.job && o.Delivered? {
          assert Unrecorded(w', worker, i);
        }
      }
    }
  }

  lemma RecordKeepsOnce(q: Settings, w: World, worker: nat, at: Time, strict: bool)
    requires Tidy(q, w, strict)
    ensures Once(q, Apply(q, w, Record(worker, at)), strict)
  {
    hide RetryTime;
    var w' := Apply(q, w, Record(worker, at));
    if KnownTask(w, worker) && w.outcomes[w.tasks[worker].claim].Some? {
      var t := w.tasks[worker];
      assert Held(w, t);
      forall i: nat | i < |w'.jobs| ensures OnceAt(q, w', i, strict) {
        assert OnceAt(q, w, i, strict);
        if i != t.job && IsUnrecorded(w, i) {
          StillUnrecorded(w, w', worker, i);
        }
      }
    }
  }

  lemma CrashKeepsOnce(q: Settings, w: World, worker: nat, strict: bool)
    requires Tidy(q, w, strict) && Harmless(q, w, Crash(worker))
    requires strict ==> forall i: nat :: !Unrecorded(w, worker, i)
    ensures Once(q, Apply(q, w, Crash(worker)), strict)
  {
    var w' := Apply(q, w, Crash(worker));
    forall i: nat | i < |w'.jobs| ensures OnceAt(q, w', i, strict) {
      assert OnceAt(q, w, i, strict);
      if IsUnrecorded(w, i) && !Unrecorded(w, worker, i) {
        StillUnrecorded(w, w', worker, i);
      }
    }
  }

  lemma {:induction false} OnceRun(q: Settings, w: World, actions: seq<Action>, strict: bool)
    requires Tidy(q, w, strict) && AloneRun(q, w, actions) && HarmlessRun(q, w, actions)
    requires strict ==> LosesNothing(q, w, actions)
    ensures Tidy(q, Run(q, w, actions), strict)
  {
    if actions != [] {
      var before := actions[..|actions| - 1];
      OnceRun(q, w, before, strict);
      OnceKept(q, Run(q, w, before), actions[|actions| - 1], strict);
    }
  }

  /** No crash of the run from w loses the record of a delivery at all. */
  ghost predicate LosesNothing(q: Settings, w: World, actions: seq<Action>) {
    actions == [] ||
    var before, a := actions[..|actions| - 1], actions[|actions| - 1];
    && LosesNothing(q, w, before)
    && (a.Crash? ==> forall i: nat :: !Unrecorded(Run(q, w, before), a.worker, i))
  }

  /** No job has been delivered twice. */
  ghost predicate NoneTwice(w: World) {
    |w.claims| == |w.outcomes| && forall i: nat :: Deliveries(w.claims, w.outcomes, i) <= 1
  }

  /** No job will have been delivered twice, whatever comes next, if claims are alone and
      crashes harmless from now on. */
  ghost predicate NeverTwice(q: Settings, w: World) {
    forall more | AloneRun(q, w, more) && HarmlessRun(q, w, more) :: NoneTwice(Run(q, w, more))
  }

  lemma TidyIsOnce(q: Settings, w: World, strict: bool)
    requires Tidy(q, w, strict)
    ensures NoneTwice(w)
  {
    NoDeliveriesBeyond(w.claims, w.outcomes, |w.jobs|);
    forall i: nat ensures Deliveries(w.claims, w.outcomes, i) <= 1 {
      assert i < |w.jobs| ==> OnceAt(q, w, i, strict);
    }
  }

  lemma TidyStaysOnce(q: Settings, w: World)
    requires Tidy(q, w, false)
    ensures NeverTwice(q, w)
  {
    forall more | AloneRun(q, w, more) && HarmlessRun(q, w, more) ensures NoneTwice(Run(q, w, more)) {
      OnceRun(q, w, more, false);
      TidyIsOnce(q, Run(q, w, more), false);
    }
  }

  lemma {:induction false} Prefix(q: Settings, actions: seq<Action>, n: nat)
    requires n <= |actions|
    ensures AloneRun(q, EMPTY, actions) ==> AloneRun(q, EMPTY, actions[..n])
    ensures HarmlessRun(q, EMPTY, actions) ==> HarmlessRun(q, EMPTY, actions[..n])
  {
    if n < |actions| {
      Prefix(q, actions[..|actions| - 1], n);
      assert actions[..|actions| - 1][..n] == actions[..n];
    } else {
      assert actions[..n] == actions;
    }
  }

  lemma {:induction false} Plus(q: Settings, w: World, first: seq<Action>, second: seq<Action>)
    requires AloneRun(q, w, first) && HarmlessRun(q, w, first)
    requires AloneRun(q, Run(q, w, first), second) && HarmlessRun(q, Run(q, w, first), second)
    ensures AloneRun(q, w, first + second) && HarmlessRun(q, w, first + second)
  {
    hide Alone, Harmless, Apply;
    if second == [] {
      assert first + second == first;
    } else {
      var n := |second| - 1;
      Plus(q, w, first, second[..n]);
      RunConcat(q, w, first, second[..n]);
      assert (first + second)[..|first + second| - 1] == first + second[..n];
    }
  }

  lemma OneStep(q: Settings, w: World, a: Action)
    requires Alone(q, w, a) && Harmless(q, w, a)
    ensures AloneRun(q, w, [a]) && HarmlessRun(q, w, [a])
  {
    assert [a][..0] == [] && Run(q, w, [a][..0]) == w;
  }

  lemma TwoSteps(q: Settings, w: World, a: Action, b: Action)
    requires Alone(q, w, a) && Harmless(q, w, a)
    requires Alone(q, Apply(q, w, a), b) && Harmless(q, Apply(q, w, a), b)
    ensures Run(q, w, [a] + [b]) == Apply(q, Apply(q, w, a), b)
    ensures AloneRun(q, w, [a] + [b]) && HarmlessRun(q, w, [a] + [b])
  {
    RunConcat(q, w, [a], [b]);
    RunOne(q, w, a);
    RunOne(q, Apply(q, w, a), b);
    OneStep(q, w, a);
    OneStep(q, Apply(q, w, a), b);
    Plus(q, w, [a], [b]);
  }

  /** A claim whose worker dies delivers nothing. */
  lemma GiveUp(q: Settings, w: World, worker: nat, now: Time, i: nat)
    requires Inv(q, w) && w.tasks == map[] && FirstEligible(w.jobs, now, q.maxAttempts) < |w.jobs|
    ensures var n, a := FirstEligible(w.jobs, now, q.maxAttempts), ClaimNext(worker, now);
      var w' := Apply(q, Apply(q, w, a), Crash(worker));
      && Inv(q, w') && w'.tasks == map[] && w'.jobs == w.jobs[n := Claimed(w.jobs[n], now)]
      && Deliveries(w'.claims, w'.outcomes, i) == Deliveries(w.claims, w.outcomes, i)
      && Harmless(q, Apply(q, w, a), Crash(worker))
  {
    InvKept(q, w, ClaimNext(worker, now));
    InvKept(q, Apply(q, w, ClaimNext(worker, now)), Crash(worker));
    hide Inv;
    DeliveriesStep(w.claims, w.outcomes, Claim(FirstEligible(w.jobs, now, q.maxAttempts), now), i);
  }

  lemma DeliverNow(q: Settings, w: World, worker: nat, now: Time)
    requires |w.claims| == |w.outcomes| && w.tasks == map[]
    requires FirstEligible(w.jobs, now, q.maxAttempts) < |w.jobs|
    ensures var i := FirstEligible(w.jobs, now, q.maxAttempts);
      var w' := Apply(q, Apply(q, w, ClaimNext(worker, now)), Send(worker, Delivered));
      && |w'.claims| == |w'.outcomes|
      && Deliveries(w'.claims, w'.outcomes, i) == Deliveries(w.claims, w.outcomes, i) + 1
  {
    var i := FirstEligible(w.jobs, now, q.maxAttempts);
    DeliveriesStep(w.claims, w.outcomes, Claim(i, now), i);
    DeliveriesUpdate(w.claims + [Claim(i, now)], w.outcomes + [None], |w.claims|, Delivered, i);
  }

  /** With all workers idle, a row that may be claimed can be delivered, however often it
      has been before: a worker that gives up all lower rows that are due gets to it. */
  lemma {:induction false} CanDeliver(q: Settings, w: World, i: nat, now: Time) returns (more: seq<Action>)
    requires Inv(q, w) && w.tasks == map[]
    requires i < |w.jobs| && Eligible(w.jobs[i], now, q.maxAttempts)
    ensures AloneRun(q, w, more) && HarmlessRun(q, w, more)
    ensures var w' := Run(q, w, more);
      |w'.claims| == |w'.outcomes|
      && Deliveries(w'.claims, w'.outcomes, i) == Deliveries(w.claims, w.outcomes, i) + 1
    decreases i - FirstEligible(w.jobs, now, q.maxAttempts)
  {
    var n, a := FirstEligible(w.jobs, now, q.maxAttempts), ClaimNext(0, now);
    if n == i {
      DeliverNow(q, w, 0, now);
      more := [a] + [Send(0, Delivered)];
      TwoSteps(q, w, a, Send(0, Delivered));
    } else {
      GiveUp(q, w, 0, now, i);
      NextEligible(w.jobs, n, now, q.maxAttempts);
      var both := [a] + [Crash(0)];
      TwoSteps(q, w, a, Crash(0));
      hide Inv, Apply, Eligible, FirstEligible, Alone, Harmless;
      var rest := CanDeliver(q, Run(q, w, both), i, now);
      RunConcat(q, w, both, rest);
      Plus(q, w, both, rest);
      more := both + rest;
    }
  }

  /** The worker gives up, or records what it has an outcome for. */
  function Finish(w: World, worker: nat): Action {
    if KnownTask(w, worker) && w.outcomes[w.tasks[worker].claim].Some? then Record(worker, 0) else Crash(worker)
  }

  lemma FinishOne(q: Settings, w: World, worker: nat, i: nat)
    requires Inv(q, w) && Apart(w) && worker in w.tasks && i < |w.jobs|
    requires forall v | v in w.tasks :: w.tasks[v].job != i
    ensures var a := Finish(w, worker);
      var w' := Apply(q, w, a);
      && Alone(q, w, a) && Harmless(q, w, a) && Inv(q, w') && Apart(w')
      && w'.tasks == w.tasks - {worker} && |w'.jobs| == |w.jobs| && w'.jobs[i] == w.jobs[i]
      && w'.claims == w.claims && w'.outcomes == w.outcomes
  {
    InvKept(q, w, Finish(w, worker));
    ApartKept(q, w, Finish(w, worker));
    hide Recorded;
  }

  /** All workers can finish without touching a job that none of them is at work on. */
  lemma {:induction false} FinishAll(q: Settings, w: World, i: nat) returns (more: seq<Action>)
    requires Inv(q, w) && Apart(w) && i < |w.jobs|
    requires forall v | v in w.tasks :: w.tasks[v].job != i
    ensures AloneRun(q, w, more) && HarmlessRun(q, w, more)
    ensures var w' := Run(q, w, more);
      && Inv(q, w') && w'.tasks == map[] && i < |w'.jobs| && w'.jobs[i] == w.jobs[i]
      && w'.claims == w.claims && w'.outcomes == w.outcomes
    decreases w.tasks.Keys
  {
    if w.tasks == map[] {
      more := [];
    } else {
      var v :| v in w.tasks;
      var a := Finish(w, v);
      FinishOne(q, w, v, i);
      OneStep(q, w, a);
      RunOne(q, w, a);
      hide Inv, Apply, Apart, Alone, Harmless;
      var rest := FinishAll(q, Apply(q, w, a), i);
      RunConcat(q, w, [a], rest);
      Plus(q, w, [a], rest);
      more := [a] + rest;
    }
  }

  lemma {:induction false} DeliveredCounts(claims: seq<Claim>, outcomes: seq<Option<Outcome>>, k: nat)
    requires |claims| == |outcomes| && k < |claims| && outcomes[k] == Some(Delivered)
    ensures Deliveries(claims, outcomes, claims[k].job) >= 1
  {
    var n := |claims| - 1;
    if k < n {
      DeliveredCounts(claims[..n], outcomes[..n], k);
    }
  }

  /** A crash that loses the record of a delivery while the job has attempts left: some
      continuation delivers the job again. */
  lemma LostRecordRepeats(q: Settings, w: World, worker: nat, i: nat) returns (more: seq<Action>)
    requires Inv(q, w) && Apart(w)
    requires i < |w.jobs| && Unrecorded(w, worker, i) && w.jobs[i].attempts < q.maxAttempts
    ensures var lost := Apply(q, w, Crash(worker));
      var w' := Run(q, lost, more);
      && AloneRun(q, lost, more) && HarmlessRun(q, lost, more)
      && |w'.claims| == |w'.outcomes| && Deliveries(w'.claims, w'.outcomes, i) >= 2
  {
    var lost := Apply(q, w, Crash(worker));
    InvKept(q, w, Crash(worker));
    ApartKept(q, w, Crash(worker));
    var t := w.tasks[worker];
    assert Held(w, t);
    DeliveredCounts(w.claims, w.outcomes, t.claim);
    var finish := FinishAll(q, lost, i);
    var idle := Run(q, lost, finish);
    var rest := CanDeliver(q, idle, i, t.now + STALE);
    hide Inv, Apply, Apart;
    RunConcat(q, lost, finish, rest);
    Plus(q, lost, finish, rest);
    more := finish + rest;
  }

  lemma OnceStepIsHarmless(q: Settings, w: World, a: Action)
    requires Inv(q, w) && Apart(w) && NeverTwice(q, Apply(q, w, a))
    ensures Harmless(q, w, a)
  {
    forall i: nat | a.Crash? && i < |w.jobs| && Unrecorded(w, a.worker, i)
      ensures w.jobs[i].attempts >= q.maxAttempts
    {
      if w.jobs[i].attempts < q.maxAttempts {
        var more := LostRecordRepeats(q, w, a.worker, i);
      }
    }
  }

  lemma {:induction false} OnceRunIsHarmless(q: Settings, actions: seq<Action>)
    requires AloneRun(q, EMPTY, actions)
    requires forall n: nat | n <= |actions| :: NeverTwice(q, Run(q, EMPTY, actions[..n]))
    ensures HarmlessRun(q, EMPTY, actions)
  {
    hide NeverTwice, Apply, Alone, Harmless, Inv, Apart;
    if actions != [] {
      var m := |actions| - 1;
      var before, a := actions[..m], actions[m];
      forall n: nat | n <= m ensures NeverTwice(q, Run(q, EMPTY, before[..n])) {
        assert before[..n] == actions[..n];
      }
      OnceRunIsHarmless(q, before);
      ApartRun(q, before);
      assert actions[..m + 1] == actions && NeverTwice(q, Run(q, EMPTY, actions[..m + 1]));
      OnceStepIsHarmless(q, Run(q, EMPTY, before), a);
    }
  }

  /** The exact condition, for any number of workers that never claim a job another one is
      at work on: every crash of a run is harmless, so that none loses the record of a
      delivery while the job has attempts left, exactly when no state of the run can lead
      to a second delivery of any job. */
  lemma RepeatsExact(q: Settings, actions: seq<Action>)
    requires AloneRun(q, EMPTY, actions)
    ensures HarmlessRun(q, EMPTY, actions) <==>
      forall n: nat | n <= |actions| :: NeverTwice(q, Run(q, EMPTY, actions[..n]))
  {
    if HarmlessRun(q, EMPTY, actions) {
      forall n: nat | n <= |actions| ensures NeverTwice(q, Run(q, EMPTY, actions[..n])) {
        Prefix(q, actions, n);
        assert Tidy(q, EMPTY, false);
        OnceRun(q, EMPTY, actions[..n], false);
        TidyStaysOnce(q, Run(q, EMPTY, actions[..n]));
      }
    }
    if forall n: nat | n <= |actions| :: NeverTwice(q, Run(q, EMPTY, actions[..n])) {
      OnceRunIsHarmless(q, actions);
    }
  }

  /** So no job is delivered twice; and when no worker is at work on it, a job marked sent
      has been delivered, and a delivered job is marked sent or out of attempts. */
  lemma DeliveredAtMostOnce(q: Settings, actions: seq<Action>, i: nat)
    requires AloneRun(q, EMPTY, actions) && HarmlessRun(q, EMPTY, actions)
    ensures var w := Run(q, EMPTY, actions);
      && |w.claims| == |w.outcomes|
      && Deliveries(w.claims, w.outcomes, i) <= 1
      && (i < |w.jobs| && AtRest(w, i) ==>
        && (w.jobs[i].status.Sent? ==> Deliveries(w.claims, w.outcomes, i) == 1)
        && (Deliveries(w.claims, w.outcomes, i) == 1 ==>
          w.jobs[i].status.Sent? || w.jobs[i].attempts >= q.maxAttempts))
  {
    RepeatsExact(q, actions);
    assert actions[..|actions|] == actions;
    var w := Run(q, EMPTY, actions);
    assert Run(q, w, []) == w && NoneTwice(w) by {
      assert AloneRun(q, w, []) && HarmlessRun(q, w, []);
    }
    OnceRun(q, EMPTY, actions, false);
    if i < |w.jobs| {
      assert OnceAt(q, w, i, false);
      if w.jobs[i].status.Sent? {
        SentCounts(q, w, i);
      }
    }
  }

  predicate AtRest(w: World, i: nat) {
    forall v | v in w.tasks :: w.tasks[v].job != i
  }

  lemma SentCounts(q: Settings, w: World, i: nat)
    requires Inv(q, w) && i < |w.jobs| && w.jobs[i].status.Sent?
    ensures Deliveries(w.claims, w.outcomes, i) >= 1
  {
    assert WasDelivered(w, i);
    var k :| 0 <= k < |w.claims| && k < |w.outcomes| && w.claims[k].job == i && w.outcomes[k] == Some(Delivered);
    DeliveredCounts(w.claims, w.outcomes, k);
  }

  lemma {:induction false} LosesNothingIsHarmless(q: Settings, actions: seq<Action>)
    requires LosesNothing(q, EMPTY, actions)
    ensures HarmlessRun(q, EMPTY, actions)
  {
    if actions != [] {
      LosesNothingIsHarmless(q, actions[..|actions| - 1]);
    }
  }

  /** If no crash loses the record of a delivery, a job that no worker is at work on has
      been delivered exactly if it is marked sent. */
  lemma DeliveredIffSent(q: Settings, actions: seq<Action>, i: nat)
    requires AloneRun(q, EMPTY, actions) && LosesNothing(q, EMPTY, actions)
    requires i < |Run(q, EMPTY, actions).jobs| && AtRest(Run(q, EMPTY, actions), i)
    ensures var w := Run(q, EMPTY, actions);
      |w.claims| == |w.outcomes| && (Deliveries(w.claims, w.outcomes, i) == 1 <==> w.jobs[i].status.Sent?)
  {
    LosesNothingIsHarmless(q, actions);
    assert Tidy(q, EMPTY, true);
    OnceRun(q, EMPTY, actions, true);
    var w := Run(q, EMPTY, actions);
    assert OnceAt(q, w, i, true);
    if w.jobs[i].status.Sent? {
      SentCounts(q, w, i);
    }
  }

  /** All by one worker. */
  predicate ByOne(worker: nat, actions: seq<Action>) {
    forall a | a in actions :: a.Enqueue? || a.worker == worker
  }

  /** One worker never claims a job that is being worked on. */
  lemma {:induction false} OneWorkerIsAlone(q: Settings, worker: nat, actions: seq<Action>)
    requires ByOne(worker, actions)
    ensures AloneRun(q, EMPTY, actions) && Run(q, EMPTY, actions).tasks.Keys <= {worker}
  {
    if actions != [] {
      var before, a := actions[..|actions| - 1], actions[|actions| - 1];
      assert a in actions && forall x | x in before :: x in actions;
      OneWorkerIsAlone(q, worker, before);
    }
  }

  /** Whenever a job is claimed, the tries that other workers are at work on are less than
      five minutes old. */
  ghost predicate Punctual(q: Settings, actions: seq<Action>) {
    actions == [] ||
    var before, a := actions[..|actions| - 1], actions[|actions| - 1];
    && Punctual(q, before)
    && (a.ClaimNext? ==>
      var tasks := Run(q, EMPTY, before).tasks;
      a.worker !in tasks ==> forall v | v in tasks :: a.now < tasks[v].now + 5 * 60 * 1_000_000_000)
  }

  /** Workers that finish in time never share a job. */
  lemma {:induction false} PunctualIsAlone(q: Settings, actions: seq<Action>)
    requires Punctual(q, actions)
    ensures AloneRun(q, EMPTY, actions)
  {
    if actions != [] {
      var before, a := actions[..|actions| - 1], actions[|actions| - 1];
      PunctualIsAlone(q, before);
      ApartRun(q, before);
      var w := Run(q, EMPTY, before);
      forall v | a.ClaimNext? && a.worker !in w.tasks && v in w.tasks
        ensures w.tasks[v].job != FirstEligible(w.jobs, a.now, q.maxAttempts)
      {
        assert Held(w, w.tasks[v]);
      }
    }
  }

  /** Any number of workers that finish each try within five minutes deliver no job twice,
      if crashes are harmless. */
  lemma PunctualDeliverOnce(q: Settings, actions: seq<Action>, i: nat)
    requires Punctual(q, actions) && HarmlessRun(q, EMPTY, actions)
    ensures var w := Run(q, EMPTY, actions);
      |w.claims| == |w.outcomes| && Deliveries(w.claims, w.outcomes, i) <= 1
  {
    PunctualIsAlone(q, actions);
    DeliveredAtMostOnce(q, actions, i);
  }

  /** Claiming alone is needed: two workers that are both about to send one job deliver it
      twice, without any crash or record. */
  lemma SharedJobRepeats(q: Settings, w: World, u: nat, v: nat)
    requires GoodTasks(q, w) && u in w.tasks && v in w.tasks && u != v
    requires w.tasks[u].job == w.tasks[v].job
    requires w.outcomes[w.tasks[u].claim].None? && w.outcomes[w.tasks[v].claim].None?
    ensures var w' := Apply(q, Apply(q, w, Send(u, Delivered)), Send(v, Delivered));
      |w'.claims| == |w'.outcomes|
      && Deliveries(w'.claims, w'.outcomes, w.tasks[u].job) == Deliveries(w.claims, w.outcomes, w.tasks[u].job) + 2
  {
    var s, t, i := w.tasks[u], w.tasks[v], w.tasks[u].job;
    var w1 := Apply(q, w, Send(u, Delivered));
    DeliveriesUpdate(w.claims, w.outcomes, s.claim, Delivered, i);
    DeliveriesUpdate(w1.claims, w1.outcomes, t.claim, Delivered, i);
  }
}
