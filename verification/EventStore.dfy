/** The server's store. Its methods run one transaction each: either all changes
    of the transaction are made or none. */
module EventStore {
  import opened Wrappers
  import opened Model
  import opened Policy
  import opened Rendering
  import opened AlertHistory
  import opened EventLog
  import opened Queue
  import T = Tables

  /** What a claim hands to the worker. */
  datatype NotificationJob = NotificationJob(
    id: nat, spec: JobSpec, status: JobStatus, attempts: nat, nextAttemptAt: Time,
    lastError: Option<string>, retryable: bool, sentAt: Option<Time>)

  /** `transition_alert` and `save_alert` on the alerts as the transaction sees them. */
  method TransitionAlert(alerts: map<string, AlertRecord>, e: Event)
    returns (saved: map<string, AlertRecord>, alert: AlertRecord)
    ensures alert == Transition(T.Find(alerts, e.fingerprint), e)
    ensures saved == alerts[e.fingerprint := alert]
  {
    var existing := T.Find(alerts, e.fingerprint);
    match e.state {
      case Firing =>
        if existing.Some? && existing.value.status.Firing? {
          alert := existing.value;
          alert := alert.(severity := e.severity, eventType := e.eventType);
          alert := alert.(source := e.source, hostId := e.hostId);
          alert := alert.(lastSeen := e.occurredAt, resolvedAt := None);
          alert := alert.(eventCount := alert.eventCount + 1, lastEventId := e.eventId);
        } else if existing.Some? {
          alert := existing.value;
          alert := alert.(status := AlertStatus.Firing);
          alert := alert.(severity := e.severity, eventType := e.eventType);
          alert := alert.(source := e.source, hostId := e.hostId);
          alert := alert.(openedAt := e.occurredAt, lastSeen := e.occurredAt, resolvedAt := None);
          alert := alert.(eventCount := 1, lastEventId := e.eventId);
        } else {
          alert := NewAlert(e, AlertStatus.Firing);
        }
      case Resolved =>
        if existing.Some? {
          alert := existing.value;
          alert := alert.(status := AlertStatus.Resolved, severity := e.severity);
          alert := alert.(lastSeen := e.occurredAt, resolvedAt := Some(e.occurredAt));
          alert := alert.(eventCount := alert.eventCount + 1, lastEventId := e.eventId);
        } else {
          alert := NewAlert(e, AlertStatus.Resolved);
        }
      case Info =>
        if existing.Some? && existing.value.status.Firing? {
          alert := existing.value;
          alert := alert.(lastSeen := e.occurredAt);
          alert := alert.(eventCount := alert.eventCount + 1, lastEventId := e.eventId);
        } else if existing.Some? {
          alert := existing.value;
          alert := alert.(status := AlertStatus.Info);
          alert := alert.(severity := e.severity, eventType := e.eventType);
          alert := alert.(source := e.source, hostId := e.hostId);
          alert := alert.(lastSeen := e.occurredAt, resolvedAt := None);
          alert := alert.(eventCount := alert.eventCount + 1, lastEventId := e.eventId);
        } else {
          alert := NewAlert(e, AlertStatus.Info);
        }
    }
    saved := alerts[e.fingerprint := alert];
  }

  /** A row as it is when an event is announced on one of these channels. */
  predicate IsAnnouncement(j: Job, e: Event, channels: seq<string>, payload: string, now: Time) {
    && j.spec.eventId == e.eventId && j.spec.fingerprint == e.fingerprint
    && j.spec.channel in channels && j.spec.payload == payload
    && j.status.Pending? && j.attempts == 0 && j.nextAttemptAt == now
    && j.lastError.None? && j.retryable && j.claimedAt.None? && j.sentAt.None?
  }

  predicate Announced(jobs: seq<Job>, e: Event, channel: string) {
    exists k | 0 <= k < |jobs| :: jobs[k].spec.eventId == e.eventId && jobs[k].spec.channel == channel
  }

  /** `enqueue_notifications` on the jobs as the transaction sees them. */
  method EnqueueNotifications(jobs: seq<Job>, e: Event, channels: seq<string>, payload: string, now: Time)
    returns (queued: seq<Job>)
    ensures queued == T.InsertOrIgnore(jobs, Announce(e, channels, payload), now)
    ensures jobs <= queued
    ensures forall k | |jobs| <= k < |queued| :: IsAnnouncement(queued[k], e, channels, payload, now)
    ensures forall c | c in channels :: Announced(queued, e, c)
  {
    queued := jobs;
    ghost var specs := Announce(e, channels, payload);
    AnnounceAt(e, channels, payload);
    hide IsAnnouncement, Announced, T.HasKey, Announce;
    for i := 0 to |channels|
      invariant queued == T.InsertOrIgnore(jobs, specs[..i], now)
      invariant jobs <= queued
      invariant forall k | |jobs| <= k < |queued| :: IsAnnouncement(queued[k], e, channels, payload, now)
      invariant forall j | 0 <= j < i :: Announced(queued, e, channels[j])
    {
      assert specs[..i + 1][..i] == specs[..i];
      ghost var before := queued;
      queued := InsertRow(queued, e, channels, i, payload, now);
      forall j | 0 <= j < i ensures Announced(queued, e, channels[j]) {
        StaysAnnounced(before, queued, e, channels[j]);
      }
    }
    assert specs[..|channels|] == specs;
  }

  lemma AnnounceAt(e: Event, channels: seq<string>, payload: string)
    ensures var specs := Announce(e, channels, payload);
      |specs| == |channels| && forall i | 0 <= i < |channels| :: specs[i] == JobFor(e, channels[i], payload)
  {
  }

  lemma StaysAnnounced(jobs: seq<Job>, longer: seq<Job>, e: Event, channel: string)
    requires jobs <= longer && Announced(jobs, e, channel)
    ensures Announced(longer, e, channel)
  {
    var k :| 0 <= k < |jobs| && jobs[k].spec.eventId == e.eventId && jobs[k].spec.channel == channel;
    assert longer[k] == jobs[k];
  }

  /** INSERT OR IGNORE of the row for one channel. */
  method InsertRow(jobs: seq<Job>, e: Event, channels: seq<string>, i: nat, payload: string, now: Time)
    returns (queued: seq<Job>)
    requires i < |channels|
    ensures queued == T.InsertOrIgnore(jobs, [JobFor(e, channels[i], payload)], now)
    ensures jobs <= queued && |queued| <= |jobs| + 1
    ensures |queued| == |jobs| + 1 ==> IsAnnouncement(queued[|jobs|], e, channels, payload, now)
    ensures Announced(queued, e, channels[i])
  {
    var spec := JobSpec(e.eventId, e.fingerprint, channels[i], payload);
    var known := HasRow(jobs, spec);
    queued := jobs;
    if !known {
      queued := queued + [Job(spec, Pending, 0, now, None, true, None, None)];
      assert queued[|jobs|].spec == spec;
    }
    assert [JobFor(e, channels[i], payload)][..0] == [];
  }

  /** Whether the unique key of a job is taken. */
  method HasRow(jobs: seq<Job>, s: JobSpec) returns (found: bool)
    ensures found == T.HasKey(jobs, s)
  {
    for i := 0 to |jobs|
      invariant forall k | 0 <= k < i ::
        !(jobs[k].spec.eventId == s.eventId && jobs[k].spec.channel == s.channel)
    {
      if jobs[i].spec.eventId == s.eventId && jobs[i].spec.channel == s.channel {
        return true;
      }
    }
    return false;
  }

  /** The body of the transaction, on the tables as it sees them. */
  method AcceptInTransaction(cfg: Config, t: T.Tables, e: Event, now: Time)
    returns (t': T.Tables, r: Result<T.EventResult, T.AcceptError>)
    requires Model.Valid(e, cfg.formats)
    ensures (t', r) == T.Accept(cfg, t, e, now)
  {
    if e.eventId in t.events {
      if t.events[e.eventId] != e {
        return t, Err(T.Conflict);
      }
      if e.fingerprint !in t.alerts {
        return t, Err(T.MissingAlert);
      }
      return t, Ok(T.EventResult(true, t.alerts[e.fingerprint]));
    }
    var events := t.events[e.eventId := e];
    var alerts, alert := TransitionAlert(t.alerts, e);
    var jobs := t.jobs;
    if !e.state.Firing? || alert.eventCount == 1 {
      var channels := ChannelsFor(cfg.rules, e);
      jobs := EnqueueNotifications(jobs, e, channels, RenderEvent(e, alert, cfg.templates), now);
    }
    return T.Tables(events, alerts, jobs), Ok(T.EventResult(false, alert));
  }

  class ServerEventStore {
    const cfg: Config
    var events: map<string, Event>
    var alerts: map<string, AlertRecord>
    var jobs: seq<Job>

    /** The committed events, in commit order. */
    ghost var log: seq<Event>

    function Contents(): T.Tables
      reads this
    {
      T.Tables(events, alerts, jobs)
    }

    /** The tables are what the log determines. */
    ghost predicate Valid()
      reads this
    {
      T.Consistent(cfg, log, Contents())
    }

    constructor (cfg: Config)
      ensures Valid() && this.cfg == cfg && log == [] && jobs == []
    {
      this.cfg := cfg;
      events, alerts, jobs, log := map[], map[], [], [];
    }

    /** `accept`. `dbOk` is false when the database fails at any statement or at the
        commit; the transaction is then rolled back. */
    method Accept(e: Event, now: Time, dbOk: bool) returns (r: Result<T.EventResult, T.AcceptError>)
      requires Valid()
      modifies this
      ensures Valid()
      ensures !dbOk && Model.Valid(e, cfg.formats) ==>
        r == Err(T.Database) && Contents() == old(Contents()) && log == old(log)
      ensures dbOk || !Model.Valid(e, cfg.formats) ==>
        (Contents(), r) == T.Accept(cfg, old(Contents()), e, now)
      ensures log == old(log) + (if r.Ok? && !r.value.duplicate then [e] else [])
      ensures r.Ok? ==> dbOk && e in log
      ensures old(jobs) <= jobs
      ensures forall i | |old(jobs)| <= i < |jobs| :: jobs[i] == NewJob(jobs[i].spec, now)
      ensures r.Ok? && !r.value.duplicate ==>
        T.AddsRows(cfg, old(log), e, r.value.alert, old(jobs), jobs, now)
      ensures r.Err? || r.value.duplicate ==> Contents() == old(Contents())
    {
      hide Check, Specs, JobsOf, AlertAfter, Of, T.AddsRows, FiringAfter;
      var reason := Check(e, cfg.formats);
      if reason.Some? {
        return Err(T.Invalid(reason.value));
      }
      if !dbOk {
        return Err(T.Database);
      }
      var t';
      t', r := AcceptInTransaction(cfg, Contents(), e, now);
      T.AcceptSummary(cfg, log, Contents(), e, now, t', r);
      T.AcceptAddsRows(cfg, log, Contents(), e, now, t', r);
      events, alerts, jobs := t'.events, t'.alerts, t'.jobs;
      if r.Ok? && !r.value.duplicate {
        log := log + [e];
      }
    }

    /** `claim_notification`: the row with the lowest id among those that are due. */
    method ClaimNotification(now: Time, maxAttempts: nat) returns (r: Option<NotificationJob>)
      requires Valid()
      modifies this`jobs
      ensures Valid()
      ensures var i := FirstEligible(old(jobs), now, maxAttempts);
        if i == |old(jobs)| then r.None? && jobs == old(jobs)
        else
          && jobs == old(jobs)[i := Claimed(old(jobs)[i], now)]
          && r.Some? && r.value.id == i
      ensures r.None? ==>
        jobs == old(jobs) && forall k | 0 <= k < |old(jobs)| :: !Claimable(old(jobs)[k], now, maxAttempts)
      ensures r.Some? ==>
        var i := r.value.id;
        && i < |old(jobs)| && Claimable(old(jobs)[i], now, maxAttempts)
        && (forall k | 0 <= k < i :: !Claimable(old(jobs)[k], now, maxAttempts))
        && var j := old(jobs)[i];
        && jobs == old(jobs)[i := j.(status := InFlight, attempts := j.attempts + 1, claimedAt := Some(now))]
        && r.value == NotificationJob(
          i, j.spec, InFlight, j.attempts + 1, j.nextAttemptAt, j.lastError, j.retryable, j.sentAt)
    {
      hide T.Consistent;
      var i := FirstDue(jobs, now, maxAttempts);
      if i == |jobs| {
        return None;
      }
      var row := jobs[i];
      T.UpdateKeepsConsistent(cfg, log, Contents(), i, Claimed(row, now));
      jobs := jobs[i := row.(status := InFlight, attempts := row.attempts + 1, claimedAt := Some(now))];
      return Some(NotificationJob(
        i, row.spec, InFlight, row.attempts + 1, row.nextAttemptAt, row.lastError, row.retryable, row.sentAt));
    }

    /** `complete_notification` */
    method CompleteNotification(id: nat, now: Time)
      requires Valid()
      modifies this`jobs
      ensures Valid()
      ensures jobs == if id < |old(jobs)| then old(jobs)[id := Completed(old(jobs)[id], now)] else old(jobs)
      ensures id < |old(jobs)| ==>
        var j := old(jobs)[id];
        jobs[id] == if !j.status.InFlight? then j
          else j.(status := Sent, sentAt := Some(now), claimedAt := None, lastError := None)
    {
      hide T.Consistent;
      if id < |jobs| && jobs[id].status.InFlight? {
        T.UpdateKeepsConsistent(cfg, log, Contents(), id, Completed(jobs[id], now));
        jobs := jobs[id := jobs[id].(status := Sent, sentAt := Some(now), claimedAt := None, lastError := None)];
      }
    }

    /** `fail_notification`. It panics before the update if the retry time is out of range. */
    method FailNotification(id: nat, update: FailureUpdate) returns (panicked: bool)
      requires Valid()
      modifies this`jobs
      ensures Valid()
      ensures panicked <==> NextAttempt(update).None?
      ensures jobs == if id < |old(jobs)| then old(jobs)[id := FailedRow(old(jobs)[id], update)] else old(jobs)
      ensures panicked ==> update.retryable && update.attempts < update.maxAttempts && jobs == old(jobs)
      ensures !panicked && id < |old(jobs)| ==>
        var j := old(jobs)[id];
        var due := if update.retryable && update.attempts < update.maxAttempts
          then RetryTime(update.now, update.attempts, update.retryDelaySeconds) else Some(update.now);
        jobs[id] == if !j.status.InFlight? then j
          else j.(status := Failed, nextAttemptAt := due.value, lastError := Some(update.error),
            retryable := update.retryable, claimedAt := None)
    {
      hide T.Consistent, RetryTime;
      var nextAttemptAt := Some(update.now);
      if update.retryable && update.attempts < update.maxAttempts {
        nextAttemptAt := RetryTime(update.now, update.attempts, update.retryDelaySeconds);
      }
      if nextAttemptAt.None? {
        return true;
      }
      if id < |jobs| && jobs[id].status.InFlight? {
        T.UpdateKeepsConsistent(cfg, log, Contents(), id, FailedRow(jobs[id], update));
        jobs := jobs[id := jobs[id].(status := Failed, nextAttemptAt := nextAttemptAt.value,
          lastError := Some(update.error), retryable := update.retryable, claimedAt := None)];
      }
      return false;
    }
  }

  lemma FirstIsFirst(jobs: seq<Job>, now: Time, maxAttempts: nat, i: nat)
    requires i <= |jobs| && (i < |jobs| ==> Claimable(jobs[i], now, maxAttempts))
    requires forall k | 0 <= k < i :: !Claimable(jobs[k], now, maxAttempts)
    ensures i == FirstEligible(jobs, now, maxAttempts)
  {
    forall k | 0 <= k < |jobs| ensures Eligible(jobs[k], now, maxAttempts) <==> Claimable(jobs[k], now, maxAttempts) {
      EligibleInNumbers(jobs[k], now, maxAttempts);
    }
  }

  /** SELECT ... ORDER BY id LIMIT 1 */
  method FirstDue(jobs: seq<Job>, now: Time, maxAttempts: nat) returns (i: nat)
    ensures i == FirstEligible(jobs, now, maxAttempts)
    ensures i <= |jobs| && (i < |jobs| ==> Claimable(jobs[i], now, maxAttempts))
    ensures forall k | 0 <= k < i :: !Claimable(jobs[k], now, maxAttempts)
  {
    i := 0;
    while i < |jobs| && !Claimable(jobs[i], now, maxAttempts)
      invariant i <= |jobs|
      invariant forall k | 0 <= k < i :: !Claimable(jobs[k], now, maxAttempts)
    {
      i := i + 1;
    }
    FirstIsFirst(jobs, now, maxAttempts, i);
  }
}
