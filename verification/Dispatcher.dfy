/** One pass of the notification worker over the store. */
module Dispatcher {
  import opened Wrappers
  import opened Model
  import opened EventLog
  import opened Queue
  import opened QueueRuns
  import opened EventStore
  import opened Passes
  import T = Tables

  /** What a send comes to: success, a failure that the channel has classified, or another
      error, such as one of the connection. */
  datatype SendResult =
    | Accepted
    | NotificationFailure(temporary: bool, error: string)
    | OtherFailure(error: string)

  /** `failure_is_retryable` */
  predicate FailureIsRetryable(r: SendResult) {
    !r.NotificationFailure? || r.temporary
  }

  /** What happens around one round of a pass: the events accepted just before it and
      when, whether the database works, and what the send comes to. */
  datatype Turn = Turn(arrivals: seq<Event>, at: Time, claimOk: bool, send: SendResult, recordOk: bool)

  /** What ends a pass early: a database error, or a panic over the next retry time. */
  datatype PassError = Database | Panicked

  /** How a round ends: with an error, with nothing due, or with a recorded try. */
  datatype RoundEnd = Stopped(error: PassError) | Idle | Tried(delivered: bool)

  /** Rows marked as sent. */
  function SentRows(jobs: seq<Job>): nat {
    if jobs == [] then 0
    else SentRows(jobs[..|jobs| - 1]) + (if jobs[|jobs| - 1].status.Sent? then 1 else 0)
  }

  lemma {:induction false} SentRowsUpdate(jobs: seq<Job>, i: nat, j: Job)
    requires i < |jobs|
    ensures SentRows(jobs[i := j]) ==
      SentRows(jobs) - (if jobs[i].status.Sent? then 1 else 0) + (if j.status.Sent? then 1 else 0)
  {
    var n := |jobs| - 1;
    if i < n {
      SentRowsUpdate(jobs[..n], i, j);
      assert jobs[i := j][..n] == jobs[..n][i := j];
    } else {
      assert jobs[i := j][..n] == jobs[..n];
    }
  }

  lemma {:induction false} SentRowsOfNew(jobs: seq<Job>, longer: seq<Job>)
    requires jobs <= longer
    requires forall i | |jobs| <= i < |longer| :: longer[i].status.Pending?
    ensures SentRows(longer) == SentRows(jobs)
    decreases |longer|
  {
    if |longer| == |jobs| {
      assert longer == jobs;
    } else {
      SentRowsOfNew(jobs, longer[..|longer| - 1]);
    }
  }

  /** No row below `upTo` may be claimed at this time. */
  ghost predicate Swept(jobs: seq<Job>, upTo: nat, now: Time, maxAttempts: nat) {
    forall k | 0 <= k < |jobs| && k < upTo :: !Eligible(jobs[k], now, maxAttempts)
  }

  predicate Increasing(ids: seq<nat>) {
    forall i, j | 0 <= i < j < |ids| :: ids[i] < ids[j]
  }

  /** After its try has been recorded, a job is not due again at the same time. */
  lemma NotDueAgain(q: Settings, j: Job, t: Task, o: Outcome)
    requires j.status.InFlight? && j.attempts == t.attempts
    requires q.retryDelaySeconds > 0 && DelayInRange(t.now, q.retryDelaySeconds)
    ensures !Eligible(Recorded(q, j, t, o), t.now, q.maxAttempts)
  {
    RetryTimeInRange(t.now, t.attempts, q.retryDelaySeconds);
  }

  lemma ClaimSendsNothing(jobs: seq<Job>, i: nat, now: Time, maxAttempts: nat)
    requires i < |jobs| && Eligible(jobs[i], now, maxAttempts)
    ensures SentRows(jobs[i := Claimed(jobs[i], now)]) == SentRows(jobs)
  {
    SentRowsUpdate(jobs, i, Claimed(jobs[i], now));
  }

  lemma RecordSends(q: Settings, jobs: seq<Job>, i: nat, t: Task, o: Outcome)
    requires i < |jobs| && jobs[i].status.InFlight?
    ensures SentRows(jobs[i := Recorded(q, jobs[i], t, o)]) == SentRows(jobs) + (if o.Delivered? then 1 else 0)
    ensures Recorded(q, jobs[i], t, o).spec == jobs[i].spec
  {
    SentRowsUpdate(jobs, i, Recorded(q, jobs[i], t, o));
  }

  lemma RecordLands(q: Settings, j: Job, t: Task, o: Outcome)
    requires !o.Temporary? || t.attempts >= q.maxAttempts || RetryTime(t.now, t.attempts, q.retryDelaySeconds).Some?
    ensures !Recorded(q, j, t, o).status.InFlight?
    ensures Recorded(q, j, t, o).attempts == j.attempts && Recorded(q, j, t, o).spec == j.spec
  {
  }

  /** The rows added between two states of the table. */
  lemma RowsAdded(jobs: seq<Job>, longer: seq<Job>, at: Time) returns (specs: seq<JobSpec>)
    requires jobs <= longer && forall i | |jobs| <= i < |longer| :: longer[i] == NewJob(longer[i].spec, at)
    ensures longer == jobs + NewRows(specs, at)
  {
    specs := Specs(longer)[|jobs|..];
    assert forall k | 0 <= k < |specs| :: specs[k] == longer[|jobs| + k].spec;
  }

  /** The world between two rounds of a pass by worker 0. */
  ghost predicate Between(w: World, jobs: seq<Job>) {
    w.jobs == jobs && 0 !in w.tasks && |w.claims| == |w.outcomes|
  }

  /** The rounds in between claimed these jobs, one after the other, with these outcomes. */
  ghost predicate Extends(w: World, w': World, ids: seq<nat>, outcomes: seq<Outcome>, now: Time) {
    && |ids| == |outcomes|
    && w'.claims == w.claims + seq(|ids|, k requires 0 <= k < |ids| => Claim(ids[k], now))
    && w'.outcomes == w.outcomes + seq(|ids|, k requires 0 <= k < |ids| => Some(outcomes[k]))
  }

  lemma ExtendsMore(
    w: World, w1: World, w2: World, ids: seq<nat>, outcomes: seq<Outcome>, id: nat, o: Outcome, now: Time)
    requires Extends(w, w1, ids, outcomes, now) && Extends(w1, w2, [id], [o], now)
    ensures Extends(w, w2, ids + [id], outcomes + [o], now)
  {
    assert w2.claims == w1.claims + [Claim(id, now)] && w2.outcomes == w1.outcomes + [Some(o)];
    var n, all := |ids|, ids + [id];
    assert seq(n + 1, k requires 0 <= k < n + 1 => Claim(all[k], now))
      == seq(n, k requires 0 <= k < n => Claim(ids[k], now)) + [Claim(id, now)];
    var ends := outcomes + [o];
    assert seq(n + 1, k requires 0 <= k < n + 1 => Some(ends[k]))
      == seq(n, k requires 0 <= k < n => Some(outcomes[k])) + [Some(o)];
  }

  lemma ExtendsNone(w: World, w1: World, w2: World, ids: seq<nat>, outcomes: seq<Outcome>, now: Time)
    requires Extends(w, w1, ids, outcomes, now) && w2.claims == w1.claims && w2.outcomes == w1.outcomes
    ensures Extends(w, w2, ids, outcomes, now)
  {
  }

  lemma ExtendsOne(w: World, w': World, id: nat, o: Outcome, now: Time)
    requires w'.claims == w.claims + [Claim(id, now)] && w'.outcomes == w.outcomes + [Some(o)]
    ensures Extends(w, w', [id], [o], now)
  {
  }

  lemma ArrivalsAreSteps(q: Settings, w: World, longer: seq<Job>, at: Time, now: Time) returns (actions: seq<Action>)
    requires Between(w, w.jobs)
    requires w.jobs <= longer && forall i | |w.jobs| <= i < |longer| :: longer[i] == NewJob(longer[i].spec, at)
    ensures forall a | a in actions :: StepOfPass(a, now) && a.Enqueue?
    ensures var w' := Run(q, w, actions);
      Between(w', longer) && w'.claims == w.claims && w'.outcomes == w.outcomes
  {
    var specs := RowsAdded(w.jobs, longer, at);
    actions := [Enqueue(specs, at)];
    RunOne(q, w, Enqueue(specs, at));
  }

  /** A round in which the outcome of the try is not recorded. */
  lemma BrokenRoundIsSteps(q: Settings, w: World, now: Time, o: Outcome) returns (actions: seq<Action>)
    requires Between(w, w.jobs) && FirstEligible(w.jobs, now, q.maxAttempts) < |w.jobs|
    ensures forall a | a in actions :: StepOfPass(a, now)
    ensures var i, w' := FirstEligible(w.jobs, now, q.maxAttempts), Run(q, w, actions);
      Between(w', w.jobs[i := Claimed(w.jobs[i], now)]) && Extends(w, w', [i], [o], now)
  {
    var a, b, c := ClaimNext(0, now), Send(0, o), Crash(0);
    actions := [a] + [b] + [c];
    RunThree(q, w, a, b, c);
    ExtendsOne(w, Run(q, w, actions), FirstEligible(w.jobs, now, q.maxAttempts), o, now);
  }

  /** A round that claims, tries and records. */
  lemma RoundIsSteps(q: Settings, w: World, now: Time, o: Outcome, t: Task) returns (actions: seq<Action>)
    requires Between(w, w.jobs) && FirstEligible(w.jobs, now, q.maxAttempts) < |w.jobs|
    requires t.now == now && t.attempts == w.jobs[FirstEligible(w.jobs, now, q.maxAttempts)].attempts + 1
    ensures forall a | a in actions :: StepOfPass(a, now) && !a.Crash?
    ensures var i, w' := FirstEligible(w.jobs, now, q.maxAttempts), Run(q, w, actions);
      && Between(w', w.jobs[i := Recorded(q, Claimed(w.jobs[i], now), t, o)])
      && Extends(w, w', [i], [o], now)
  {
    var a, b, c := ClaimNext(0, now), Send(0, o), Record(0, now);
    actions := [a] + [b] + [c];
    RunThree(q, w, a, b, c);
    var w2 := Apply(q, Apply(q, w, a), b);
    var i := FirstEligible(w.jobs, now, q.maxAttempts);
    assert w2.tasks[0] == Task(i, t.attempts, now, |w.claims|) && w2.outcomes[|w.claims|] == Some(o);
    assert Recorded(q, w2.jobs[i], w2.tasks[0], o) == Recorded(q, w2.jobs[i], t, o);
    ExtendsOne(w, Run(q, w, actions), i, o, now);
  }

  lemma RunThree(q: Settings, w: World, a: Action, b: Action, c: Action)
    ensures Run(q, w, [a] + [b] + [c]) == Apply(q, Apply(q, Apply(q, w, a), b), c)
  {
    RunConcat(q, w, [a] + [b], [c]);
    RunConcat(q, w, [a], [b]);
    RunOne(q, w, a);
    RunOne(q, Apply(q, w, a), b);
    RunOne(q, Apply(q, Apply(q, w, a), b), c);
  }

  /** Accepts that come in while the pass is running. */
  method AcceptArrivals(store: ServerEventStore, arrivals: seq<Event>, now: Time)
    requires store.Valid()
    modifies store
    ensures store.Valid()
    ensures old(store.jobs) <= store.jobs
    ensures forall i | |old(store.jobs)| <= i < |store.jobs| :: store.jobs[i] == NewJob(store.jobs[i].spec, now)
  {
    hide T.Consistent, T.Accept, Valid;
    for k := 0 to |arrivals|
      invariant store.Valid()
      invariant old(store.jobs) <= store.jobs
      invariant forall i | |old(store.jobs)| <= i < |store.jobs| :: store.jobs[i] == NewJob(store.jobs[i].spec, now)
    {
      var _ := store.Accept(arrivals[k], now, true);
    }
  }

  /** The rows are not in flight. */
  ghost predicate Landed(jobs: seq<Job>, ids: seq<nat>) {
    forall k | 0 <= k < |ids| :: ids[k] < |jobs| && !jobs[ids[k]].status.InFlight?
  }

  /** Rows other than these are as before, but for new rows. */
  ghost predicate OthersKept(jobs: seq<Job>, jobs': seq<Job>, ids: seq<nat>) {
    |jobs| <= |jobs'| && forall i: nat | i < |jobs| && i !in ids :: jobs'[i] == jobs[i]
  }

  lemma LandedMore(jobs: seq<Job>, jobs': seq<Job>, claimed: seq<nat>, ids: seq<nat>)
    requires Landed(jobs, claimed) && OthersKept(jobs, jobs', ids) && Landed(jobs', ids)
    ensures Landed(jobs', claimed + ids)
  {
    forall k | 0 <= k < |claimed + ids|
      ensures (claimed + ids)[k] < |jobs'| && !jobs'[(claimed + ids)[k]].status.InFlight?
    {
      if k >= |claimed| {
        assert (claimed + ids)[k] == ids[k - |claimed|];
      } else if claimed[k] in ids {
        var m :| 0 <= m < |ids| && ids[m] == claimed[k];
      }
    }
  }

  datatype DispatcherError = NoChannels | NoAttempts

  class NotificationDispatcher {
    const channels: set<string>
    const settings: Settings

    constructor (channels: set<string>, settings: Settings)
      ensures this.channels == channels && this.settings == settings
    {
      this.channels := channels;
      this.settings := settings;
    }

    /** `new`: at least one channel and one attempt. */
    static method New(channels: set<string>, settings: Settings)
      returns (r: Result<NotificationDispatcher, DispatcherError>)
      ensures r == Err(NoChannels) <==> channels == {}
      ensures r == Err(NoAttempts) <==> channels != {} && settings.maxAttempts == 0
      ensures r.Ok? ==> r.value.channels == channels && r.value.settings == settings
    {
      if channels == {} {
        return Err(NoChannels);
      }
      if settings.maxAttempts == 0 {
        return Err(NoAttempts);
      }
      var dispatcher := new NotificationDispatcher(channels, settings);
      return Ok(dispatcher);
    }

    /** How a try for a channel ends: nothing is sent if it is not configured. */
    function OutcomeOf(channel: string, turn: Turn): Outcome {
      if channel !in channels then NoChannel
      else if turn.send.Accepted? then Delivered
      else if FailureIsRetryable(turn.send) then Temporary(turn.send.error)
      else Permanent(turn.send.error)
    }

    /** The row after a failure: when it may be tried again depends on the attempts left. */
    ghost predicate FailedAs(j: Job, error: string, retryable: bool, now: Time) {
      && j.status.Failed? && j.retryable == retryable && j.lastError == Some(error)
      && if retryable && j.attempts < settings.maxAttempts
         then RetryTime(now, j.attempts, settings.retryDelaySeconds) == Some(j.nextAttemptAt)
         else j.nextAttemptAt == now
    }

    /** The row after a recorded try. */
    ghost predicate EndsAs(j: Job, turn: Turn, now: Time) {
      j.claimedAt.None? &&
      if j.spec.channel !in channels then FailedAs(j, "notification channel is not configured", false, now)
      else match turn.send
        case Accepted => j.status.Sent? && j.sentAt == Some(now) && j.lastError.None?
        case NotificationFailure(temporary, error) => FailedAs(j, error, temporary, now)
        case OtherFailure(error) => FailedAs(j, error, true, now)
    }

    /** Every job is as its last try left it. */
    ghost predicate Ended(jobs: seq<Job>, ids: seq<nat>, turns: seq<Turn>, now: Time) {
      |ids| <= |turns| &&
      forall k | 0 <= k < |ids| && (forall m | k < m < |ids| :: ids[m] != ids[k]) ::
        ids[k] < |jobs| && EndsAs(jobs[ids[k]], turns[k], now)
    }

    lemma EndedMore(jobs: seq<Job>, jobs': seq<Job>, claimed: seq<nat>, id: nat, turns: seq<Turn>, now: Time)
      requires Ended(jobs, claimed, turns, now) && OthersKept(jobs, jobs', [id])
      requires |claimed| < |turns| && id < |jobs'| && EndsAs(jobs'[id], turns[|claimed|], now)
      ensures Ended(jobs', claimed + [id], turns, now)
    {
      hide EndsAs;
      var ids := claimed + [id];
      forall k | 0 <= k < |ids| && (forall m | k < m < |ids| :: ids[m] != ids[k])
        ensures ids[k] < |jobs'| && EndsAs(jobs'[ids[k]], turns[k], now)
      {
        if k < |claimed| {
          assert ids[|claimed|] == id && ids[k] == claimed[k];
          forall m | k < m < |claimed| ensures claimed[m] != claimed[k] {
            assert ids[m] == claimed[m];
          }
        }
      }
    }

    lemma EndedStays(jobs: seq<Job>, jobs': seq<Job>, claimed: seq<nat>, turns: seq<Turn>, now: Time)
      requires Ended(jobs, claimed, turns, now) && OthersKept(jobs, jobs', [])
      ensures Ended(jobs', claimed, turns, now)
    {
      hide EndsAs;
    }

    lemma RecordEnds(j: Job, t: Task, turn: Turn, now: Time)
      requires j.status.InFlight? && j.attempts == t.attempts && t.now == now
      requires var o := OutcomeOf(j.spec.channel, turn);
        !o.Temporary? || t.attempts >= settings.maxAttempts
        || RetryTime(now, t.attempts, settings.retryDelaySeconds).Some?
      ensures EndsAs(Recorded(settings, j, t, OutcomeOf(j.spec.channel, turn)), turn, now)
    {
      hide RetryTime;
    }

    /** The outcomes of the tries of these jobs. */
    ghost function OutcomesOf(jobs: seq<Job>, ids: seq<nat>, turns: seq<Turn>): seq<Outcome>
      requires |ids| <= |turns| && forall k | 0 <= k < |ids| :: ids[k] < |jobs|
    {
      seq(|ids|, k requires 0 <= k < |ids| => OutcomeOf(jobs[ids[k]].spec.channel, turns[k]))
    }

    /** From one world to the other these jobs were claimed, and tried as the turns say. */
    ghost predicate Tries(w: World, w': World, jobs: seq<Job>, ids: seq<nat>, turns: seq<Turn>, now: Time) {
      && |ids| <= |turns| && (forall k | 0 <= k < |ids| :: ids[k] < |jobs|)
      && Extends(w, w', ids, OutcomesOf(jobs, ids, turns), now)
    }

    lemma OutcomesGrow(jobs: seq<Job>, longer: seq<Job>, ids: seq<nat>, id: nat, turns: seq<Turn>)
      requires Specs(jobs) <= Specs(longer) && id < |longer|
      requires |ids| < |turns| && forall k | 0 <= k < |ids| :: ids[k] < |jobs|
      ensures forall k | 0 <= k < |ids + [id]| :: (ids + [id])[k] < |longer|
      ensures OutcomesOf(longer, ids, turns) == OutcomesOf(jobs, ids, turns)
      ensures OutcomesOf(longer, ids + [id], turns) ==
        OutcomesOf(jobs, ids, turns) + [OutcomeOf(longer[id].spec.channel, turns[|ids|])]
    {
      assert |Specs(jobs)| <= |Specs(longer)|;
      forall i | 0 <= i < |jobs| ensures jobs[i].spec == longer[i].spec {
        assert Specs(jobs)[i] == Specs(longer)[i];
      }
    }

    /** The delay is positive, and short enough for every time to stay in range. */
    predicate DelayCounts(now: Time) {
      settings.retryDelaySeconds > 0 && DelayInRange(now, settings.retryDelaySeconds)
    }

    /** Recording this try panics: it failed for now, and has no next time. */
    predicate Panics(jobs: seq<Job>, id: nat, turn: Turn, now: Time) {
      && id < |jobs| && jobs[id].spec.channel in channels
      && (turn.send.OtherFailure? || (turn.send.NotificationFailure? && turn.send.temporary))
      && jobs[id].attempts < settings.maxAttempts
      && RetryTime(now, jobs[id].attempts, settings.retryDelaySeconds).None?
    }

    /** No database error in these rounds. */
    predicate Working(turns: seq<Turn>, n: nat) {
      n <= |turns| && forall k | 0 <= k < n :: turns[k].claimOk && turns[k].recordOk
    }

    /** The database works, sends succeed, and all jobs are for configured channels. */
    ghost predicate Untroubled(turns: seq<Turn>, jobs: seq<Job>) {
      && (forall k | 0 <= k < |turns| :: turns[k].claimOk && turns[k].send.Accepted? && turns[k].recordOk)
      && forall i | 0 <= i < |jobs| :: jobs[i].spec.channel in channels
    }

    lemma TroubleStopped(turns: seq<Turn>, jobs: seq<Job>, claimed: seq<nat>, error: PassError, now: Time)
      requires |claimed| <= |turns|
      requires error.Database? ==>
        || (|claimed| < |turns| && !turns[|claimed|].claimOk)
        || (claimed != [] && !turns[|claimed| - 1].recordOk)
      requires error.Panicked? ==>
        claimed != [] && Panics(jobs, claimed[|claimed| - 1], turns[|claimed| - 1], now)
      ensures !Untroubled(turns, jobs)
    {
    }

    lemma UntroubledPass(
      w: World, actions: seq<Action>, before: seq<Job>, jobs: seq<Job>, claimed: seq<nat>, turns: seq<Turn>,
      now: Time)
      requires Between(w, before) && Between(Run(settings, w, actions), jobs)
      requires Tries(w, Run(settings, w, actions), jobs, claimed, turns, now)
      requires forall a | a in actions :: StepOfPass(a, now) && !a.Crash?
      requires |claimed| < |turns| ==> FirstEligible(jobs, now, settings.maxAttempts) == |jobs|
      ensures Inv(settings, w) && Untroubled(turns, jobs) && Allowance(settings, before, jobs) < |turns| ==>
        DueAreSent(settings, before, jobs, now)
    {
      if Inv(settings, w) && Untroubled(turns, jobs) && Allowance(settings, w.jobs, jobs) < |turns| {
        ClaimsOfPass(settings, w, actions);
        TriesDelivered(w, Run(settings, w, actions), jobs, claimed, turns, now);
        PassSendsAll(settings, w, actions, now);
      }
    }

    lemma TriesDelivered(
      w: World, w': World, jobs: seq<Job>, claimed: seq<nat>, turns: seq<Turn>, now: Time)
      requires Tries(w, w', jobs, claimed, turns, now) && Untroubled(turns, jobs) && |w.claims| == |w.outcomes|
      ensures AllDelivered(w', |w.claims|) && |w'.claims| == |w.claims| + |claimed|
    {
    }

    /** `deliver_due`. The pass is a run of the queue by one worker at one time, so that
        everything proved of runs holds of it. It claims these jobs, one a round, and
        each try ends as its round says. Without a database error it returns the number
        of jobs that became sent, it has recorded every try, and it stops before the
        limit only when nothing is due; every job is as its last try left it: sent, failed
        for now or failed for good, as the send came out. The ids claimed increase if the retry delay is
        positive. A database error or a panic ends the pass; a job may then stay in
        flight. From any state of a run, if nothing goes wrong and the limit exceeds the
        attempts left, every job that is due gets sent and no other changes. */
    method DeliverDue(store: ServerEventStore, now: Time, limit: nat, turns: seq<Turn>, ghost w: World)
      returns (r: Result<nat, PassError>, ghost claimed: seq<nat>, ghost sent: nat, ghost actions: seq<Action>)
      requires store.Valid() && |turns| == limit && Between(w, store.jobs)
      modifies store
      ensures store.Valid()
      ensures SentRows(store.jobs) == old(SentRows(store.jobs)) + sent
      ensures Tries(w, Run(settings, w, actions), store.jobs, claimed, turns, now)
      ensures |claimed| <= limit
      ensures r.Ok? ==>
        && r.value == sent && Working(turns, |claimed|)
        && Landed(store.jobs, claimed) && Ended(store.jobs, claimed, turns, now)
        && (|claimed| < limit ==>
          turns[|claimed|].claimOk && FirstEligible(store.jobs, now, settings.maxAttempts) == |store.jobs|)
      ensures r == Err(Database) ==>
        || (|claimed| < limit && !turns[|claimed|].claimOk)
        || (claimed != [] && !turns[|claimed| - 1].recordOk)
      ensures r == Err(Panicked) ==>
        claimed != [] && Panics(store.jobs, claimed[|claimed| - 1], turns[|claimed| - 1], now)
      ensures DelayCounts(now) ==> r != Err(Panicked)
      ensures DelayCounts(now) ==> Increasing(claimed)
      ensures forall a | a in actions :: StepOfPass(a, now) && (a.Crash? ==> r.Err?)
      ensures Between(Run(settings, w, actions), store.jobs)
      ensures (
        && Inv(settings, w) && Untroubled(turns, store.jobs)
        && Allowance(settings, old(store.jobs), store.jobs) < limit) ==>
        r.Ok? && DueAreSent(settings, old(store.jobs), store.jobs, now)
    {
      hide T.Consistent, StepOfPass, SentRows, Tries, Swept, IncreasingBelow, Increasing, FirstEligible;
      hide DelayCounts, Between, Run, Specs, Landed, OthersKept, Panics, Inv, Untroubled, DueAreSent, Allowance;
      hide Ended, EndsAs;
      var delivered := 0;
      claimed, sent, actions := [], 0, [];
      ghost var swept: nat := 0;
      PassStarts(w, store.jobs, turns, now);
      NoneSwept(store.jobs, now);
      for i := 0 to limit
        invariant store.Valid()
        invariant SentRows(store.jobs) == old(SentRows(store.jobs)) + sent
        invariant delivered == sent && |claimed| == i
        invariant Tries(w, Run(settings, w, actions), store.jobs, claimed, turns, now)
        invariant Working(turns, i) && Landed(store.jobs, claimed) && Ended(store.jobs, claimed, turns, now)
        invariant DelayCounts(now) ==> IncreasingBelow(claimed, swept)
        invariant swept <= |store.jobs| && Swept(store.jobs, swept, now, settings.maxAttempts)
        invariant forall a | a in actions :: StepOfPass(a, now) && !a.Crash?
        invariant Between(Run(settings, w, actions), store.jobs)
      {
        ghost var w1 := Run(settings, w, actions);
        ghost var jobs := store.jobs;
        var end, ids, steps := Round(store, now, turns[i], swept, w1);
        AfterRound(w, w1, steps, jobs, store.jobs, claimed, ids, turns, now);
        RunConcat(settings, w, actions, steps);
        actions := actions + steps;
        if ids != [] {
          if DelayCounts(now) {
            Increases(claimed, ids[0], swept);
          }
          assert claimed + ids == claimed + [ids[0]];
        } else {
          assert claimed + ids == claimed;
        }
        claimed := claimed + ids;
        assert |claimed| == i + |ids|;
        if end.Stopped? {
          TroubleStopped(turns, store.jobs, claimed, end.error, now);
          return Err(end.error), claimed, sent, actions;
        }
        LandedMore(jobs, store.jobs, claimed[..i], ids);
        if ids == [] {
          EndedStays(jobs, store.jobs, claimed[..i], turns, now);
        } else {
          EndedMore(jobs, store.jobs, claimed[..i], ids[0], turns, now);
        }
        if end.Idle? {
          break;
        }
        if end.delivered {
          delivered := delivered + 1;
          sent := sent + 1;
        }
        swept := if DelayCounts(now) then ids[0] + 1 else 0;
        NoneSwept(store.jobs, now);
      }
      UntroubledPass(w, actions, old(store.jobs), store.jobs, claimed, turns, now);
      return Ok(delivered), claimed, sent, actions;
    }

    lemma NothingTried(w: World, w': World, jobs: seq<Job>, turns: seq<Turn>, now: Time)
      requires w'.claims == w.claims && w'.outcomes == w.outcomes
      ensures Tries(w, w', jobs, [], turns, now)
    {
    }

    lemma PassStarts(w: World, jobs: seq<Job>, turns: seq<Turn>, now: Time)
      requires Between(w, jobs)
      ensures var w' := Run(settings, w, []);
        Between(w', jobs) && Tries(w, w', jobs, [], turns, now)
    {
    }

    lemma NoneSwept(jobs: seq<Job>, now: Time)
      ensures Swept(jobs, 0, now, settings.maxAttempts) && IncreasingBelow([], 0) && Landed(jobs, [])
      ensures forall turns :: Ended(jobs, [], turns, now)
    {
    }

    predicate IncreasingBelow(ids: seq<nat>, bound: nat)
      ensures IncreasingBelow(ids, bound) ==> Increasing(ids)
    {
      Increasing(ids) && forall k | 0 <= k < |ids| :: ids[k] < bound
    }

    lemma Increases(ids: seq<nat>, id: nat, swept: nat)
      requires IncreasingBelow(ids, swept) && swept <= id
      ensures IncreasingBelow(ids + [id], id + 1)
    {
    }

    /** The history of a pass after one more round. */
    lemma AfterRound(
      w: World, w1: World, steps: seq<Action>, jobs: seq<Job>, longer: seq<Job>, claimed: seq<nat>, ids: seq<nat>,
      turns: seq<Turn>, now: Time)
      requires |claimed| < |turns| && Tries(w, w1, jobs, claimed, turns, now)
      requires Between(w1, jobs) && Between(Run(settings, w1, steps), longer) && |ids| <= 1
      requires Tries(w1, Run(settings, w1, steps), longer, ids, [turns[|claimed|]], now)
      ensures Tries(w, Run(settings, w1, steps), longer, claimed + ids, turns, now)
    {
      var w2 := Run(settings, w1, steps);
      RunKeepsSpecs(settings, w1, steps);
      hide Run, Extends;
      if ids == [] {
        assert claimed + ids == claimed;
        SpecsGrow(w1.jobs, longer);
        assert OutcomesOf(longer, claimed, turns) == OutcomesOf(w1.jobs, claimed, turns);
        NoClaim(w1, w2, ids, OutcomesOf(longer, ids, [turns[|claimed|]]), now);
        ExtendsNone(w, w1, w2, claimed, OutcomesOf(w1.jobs, claimed, turns), now);
      } else {
        OutcomesGrow(w1.jobs, longer, claimed, ids[0], turns);
        var o := OutcomeOf(longer[ids[0]].spec.channel, turns[|claimed|]);
        assert ids == [ids[0]] && OutcomesOf(longer, ids, [turns[|claimed|]]) == [o];
        ExtendsMore(w, w1, w2, claimed, OutcomesOf(w1.jobs, claimed, turns), ids[0], o, now);
      }
    }

    lemma NoClaim(w: World, w': World, ids: seq<nat>, outcomes: seq<Outcome>, now: Time)
      requires ids == [] && Extends(w, w', ids, outcomes, now)
      ensures w'.claims == w.claims && w'.outcomes == w.outcomes
    {
    }

    lemma SpecsGrow(jobs: seq<Job>, longer: seq<Job>)
      requires Specs(jobs) <= Specs(longer)
      ensures |jobs| <= |longer| && forall i | 0 <= i < |jobs| :: jobs[i].spec == longer[i].spec
    {
      assert |Specs(jobs)| <= |Specs(longer)|;
      forall i | 0 <= i < |jobs| ensures jobs[i].spec == longer[i].spec {
        assert Specs(jobs)[i] == Specs(longer)[i];
      }
    }

    lemma SameStart(w: World, w1: World, w2: World, jobs: seq<Job>, ids: seq<nat>, turns: seq<Turn>, now: Time)
      requires Tries(w1, w2, jobs, ids, turns, now) && w1.claims == w.claims && w1.outcomes == w.outcomes
      ensures Tries(w, w2, jobs, ids, turns, now)
    {
    }

    lemma SweptGrows(jobs: seq<Job>, longer: seq<Job>, swept: nat, now: Time)
      requires jobs <= longer && swept <= |jobs| && Swept(jobs, swept, now, settings.maxAttempts)
      ensures Swept(longer, swept, now, settings.maxAttempts)
    {
      hide Eligible;
      assert forall k | 0 <= k < swept :: longer[k] == jobs[k];
    }

    /** One round of the pass: claim, send, record. */
    method Round(store: ServerEventStore, now: Time, turn: Turn, ghost swept: nat, ghost w: World)
      returns (end: RoundEnd, ghost ids: seq<nat>, ghost steps: seq<Action>)
      requires store.Valid() && Between(w, store.jobs)
      requires swept <= |store.jobs| && Swept(store.jobs, swept, now, settings.maxAttempts)
      modifies store
      ensures store.Valid() && |old(store.jobs)| <= |store.jobs|
      ensures SentRows(store.jobs) == old(SentRows(store.jobs)) + (if end.Tried? && end.delivered then 1 else 0)
      ensures |ids| <= 1 && (ids == [] <==> end.Idle? || !turn.claimOk)
      ensures end == Stopped(Database) <==> !turn.claimOk || (ids != [] && !turn.recordOk)
      ensures end == Stopped(Panicked) <==>
        ids != [] && turn.claimOk && turn.recordOk && Panics(store.jobs, ids[0], turn, now)
      ensures DelayCounts(now) ==> end != Stopped(Panicked)
      ensures OthersKept(old(store.jobs), store.jobs, ids) && (!end.Stopped? ==> Landed(store.jobs, ids))
      ensures !end.Stopped? && ids != [] ==> ids[0] < |store.jobs| && EndsAs(store.jobs[ids[0]], turn, now)
      ensures end.Idle? ==> FirstEligible(store.jobs, now, settings.maxAttempts) == |store.jobs|
      ensures ids != [] ==> swept <= ids[0] < |store.jobs|
      ensures end.Tried? && DelayCounts(now) ==> Swept(store.jobs, ids[0] + 1, now, settings.maxAttempts)
      ensures forall a | a in steps :: StepOfPass(a, now) && (a.Crash? ==> end.Stopped?)
      ensures Between(Run(settings, w, steps), store.jobs)
      ensures Tries(w, Run(settings, w, steps), store.jobs, ids, [turn], now)
    {
      hide T.Consistent, SentRows, StepOfPass, Eligible, FirstEligible, Tries, Swept, DelayInRange, EndsAs;
      ids := [];
      AcceptArrivals(store, turn.arrivals, turn.at);
      SentRowsOfNew(old(store.jobs), store.jobs);
      SweptGrows(old(store.jobs), store.jobs, swept, now);
      steps := ArrivalsAreSteps(settings, w, store.jobs, turn.at, now);
      hide Between;
      ghost var w1 := Run(settings, w, steps);
      if !turn.claimOk {
        NothingTried(w, w1, store.jobs, [turn], now);
        return Stopped(Database), ids, steps;
      }
      ghost var more;
      end, ids, more := ClaimAndTry(store, now, turn, swept, w1);
      RunConcat(settings, w, steps, more);
      SameStart(w, w1, Run(settings, w1, more), store.jobs, ids, [turn], now);
      steps := steps + more;
    }

    lemma OneTry(w: World, w': World, jobs: seq<Job>, id: nat, turn: Turn, now: Time)
      requires id < |jobs| && Extends(w, w', [id], [OutcomeOf(jobs[id].spec.channel, turn)], now)
      ensures Tries(w, w', jobs, [id], [turn], now)
    {
      hide OutcomeOf, Extends;
      assert OutcomesOf(jobs, [id], [turn]) == [OutcomeOf(jobs[id].spec.channel, turn)];
    }

    /** The part of a round that needs the database. */
    method ClaimAndTry(store: ServerEventStore, now: Time, turn: Turn, ghost swept: nat, ghost w: World)
      returns (end: RoundEnd, ghost ids: seq<nat>, ghost steps: seq<Action>)
      requires store.Valid() && Between(w, store.jobs)
      requires swept <= |store.jobs| && Swept(store.jobs, swept, now, settings.maxAttempts)
      modifies store`jobs
      ensures store.Valid() && |old(store.jobs)| == |store.jobs|
      ensures SentRows(store.jobs) == old(SentRows(store.jobs)) + (if end.Tried? && end.delivered then 1 else 0)
      ensures |ids| <= 1 && (ids == [] <==> end.Idle?)
      ensures end == Stopped(Database) <==> ids != [] && !turn.recordOk
      ensures end == Stopped(Panicked) <==> ids != [] && turn.recordOk && Panics(store.jobs, ids[0], turn, now)
      ensures DelayCounts(now) ==> end != Stopped(Panicked)
      ensures OthersKept(old(store.jobs), store.jobs, ids) && (!end.Stopped? ==> Landed(store.jobs, ids))
      ensures !end.Stopped? && ids != [] ==> ids[0] < |store.jobs| && EndsAs(store.jobs[ids[0]], turn, now)
      ensures end.Idle? ==> FirstEligible(store.jobs, now, settings.maxAttempts) == |store.jobs|
      ensures ids != [] ==> swept <= ids[0] < |store.jobs|
      ensures end.Tried? && DelayCounts(now) ==> Swept(store.jobs, ids[0] + 1, now, settings.maxAttempts)
      ensures forall a | a in steps :: StepOfPass(a, now) && (a.Crash? ==> end.Stopped?)
      ensures Between(Run(settings, w, steps), store.jobs)
      ensures Tries(w, Run(settings, w, steps), store.jobs, ids, [turn], now)
    {
      hide T.Consistent, Recorded, Eligible, DelayInRange, SentRows, StepOfPass, Apply, Extends, OutcomeOf, Tries;
      hide EndsAs;
      ids, steps := [], [];
      ghost var rows := store.jobs;
      var job := store.ClaimNotification(now, settings.maxAttempts);
      if job.None? {
        NothingTried(w, w, store.jobs, [turn], now);
        return Idle, ids, steps;
      }
      hide Run;
      ghost var id, row := job.value.id, Claimed(rows[job.value.id], now);
      ids := [id];
      ClaimSendsNothing(rows, id, now, settings.maxAttempts);
      var outcome := OutcomeOf(job.value.spec.channel, turn);
      ghost var task := Task(id, job.value.attempts, now, 0);
      var panicked := false;
      if turn.recordOk {
        panicked := RecordOutcome(store, job.value, outcome, now);
      }
      TemporaryIff(job.value.spec.channel, turn);
      if !turn.recordOk || panicked {
        steps := BrokenRoundIsSteps(settings, w, now, outcome);
        OneTry(w, Run(settings, w, steps), store.jobs, id, turn, now);
        NoPanicInRange(store.jobs, id, turn, now);
        return Stopped(if turn.recordOk then Panicked else Database), ids, steps;
      }
      RecordSends(settings, rows[id := row], id, task, outcome);
      RecordLands(settings, row, task, outcome);
      RecordEnds(row, task, turn, now);
      steps := RoundIsSteps(settings, w, now, outcome, task);
      OneTry(w, Run(settings, w, steps), store.jobs, id, turn, now);
      if DelayCounts(now) {
        NotDueAgain(settings, row, task, outcome);
      }
      return Tried(outcome.Delivered?), ids, steps;
    }

    lemma TemporaryIff(channel: string, turn: Turn)
      ensures OutcomeOf(channel, turn).Temporary? <==>
        channel in channels
        && (turn.send.OtherFailure? || (turn.send.NotificationFailure? && turn.send.temporary))
    {
    }

    lemma NoPanicInRange(jobs: seq<Job>, id: nat, turn: Turn, now: Time)
      requires id < |jobs|
      ensures DelayCounts(now) ==> !Panics(jobs, id, turn, now)
    {
      if DelayCounts(now) {
        RetryTimeInRange(now, jobs[id].attempts, settings.retryDelaySeconds);
      }
    }

    /** The update after a try: completed, failed for now or failed for good. */
    method RecordOutcome(store: ServerEventStore, job: NotificationJob, outcome: Outcome, now: Time)
      returns (panicked: bool)
      requires store.Valid() && job.id < |store.jobs|
      modifies store`jobs
      ensures store.Valid()
      ensures panicked <==>
        outcome.Temporary? && job.attempts < settings.maxAttempts
        && RetryTime(now, job.attempts, settings.retryDelaySeconds).None?
      ensures store.jobs == old(store.jobs)[job.id :=
        Recorded(settings, old(store.jobs)[job.id], Task(job.id, job.attempts, now, 0), outcome)]
      ensures panicked ==> store.jobs == old(store.jobs)
    {
      hide RetryTime;
      panicked := false;
      if outcome.Delivered? {
        store.CompleteNotification(job.id, now);
      } else {
        panicked := store.FailNotification(job.id, FailureUpdate(
          job.attempts, ErrorText(outcome), settings.maxAttempts, settings.retryDelaySeconds,
          outcome.Temporary?, now));
      }
    }
  }
}
