/** The server's three tables, what a log of events makes of them, and the
    transaction that accepts one event. */
module Tables {
  import opened Wrappers
  import opened Model
  import opened Policy
  import opened Rendering
  import opened AlertHistory
  import opened EventLog
  import opened Queue
  import opened QueueRuns

  datatype Tables = Tables(events: map<string, Event>, alerts: map<string, AlertRecord>, jobs: seq<Job>)

  const EMPTY_TABLES := Tables(map[], map[], [])

  datatype AcceptError = Invalid(reason: ValidationError) | Conflict | MissingAlert | Database

  datatype EventResult = EventResult(duplicate: bool, alert: AlertRecord)

  function Find<T>(table: map<string, T>, key: string): Option<T> {
    if key in table then Some(table[key]) else None
  }

  /** UNIQUE(event_id, channel) */
  predicate HasKey(jobs: seq<Job>, s: JobSpec) {
    exists i | 0 <= i < |jobs| :: jobs[i].spec.eventId == s.eventId && jobs[i].spec.channel == s.channel
  }

  /** INSERT OR IGNORE of each job in turn. */
  function InsertOrIgnore(jobs: seq<Job>, specs: seq<JobSpec>, now: Time): seq<Job> {
    if specs == [] then jobs else
      var before, s := InsertOrIgnore(jobs, specs[..|specs| - 1], now), specs[|specs| - 1];
      if HasKey(before, s) then before else before + [NewJob(s, now)]
  }

  /** The alert after one more event. */
  function NextAlert(t: Tables, e: Event): AlertRecord {
    Transition(Find(t.alerts, e.fingerprint), e)
  }

  /** The jobs after one more event, given its alert. */
  function NextJobs(cfg: Config, t: Tables, e: Event, alert: AlertRecord, now: Time): seq<Job> {
    if !e.state.Firing? || alert.eventCount == 1
    then InsertOrIgnore(t.jobs, Announce(e, Channels(cfg.rules, e), RenderEvent(e, alert, cfg.templates)), now)
    else t.jobs
  }

  /** The transaction of `accept`: the tables afterwards and the answer. */
  function Accept(cfg: Config, t: Tables, e: Event, now: Time): (Tables, Result<EventResult, AcceptError>) {
    var reason := Check(e, cfg.formats);
    if reason.Some? then (t, Err(Invalid(reason.value)))
    else if e.eventId in t.events then
      if t.events[e.eventId] != e then (t, Err(Conflict))
      else if e.fingerprint !in t.alerts then (t, Err(MissingAlert))
      else (t, Ok(EventResult(true, t.alerts[e.fingerprint])))
    else
      var alert := NextAlert(t, e);
      (Tables(t.events[e.eventId := e], t.alerts[e.fingerprint := alert], NextJobs(cfg, t, e, alert, now)),
       Ok(EventResult(false, alert)))
  }

  /** The events table holds exactly the events of the log. */
  ghost predicate EventsAgree(log: seq<Event>, events: map<string, Event>) {
    && (forall e | e in log :: e.eventId in events && events[e.eventId] == e)
    && (forall id | id in events :: events[id] in log && events[id].eventId == id)
  }

  ghost predicate AlertsAgree(log: seq<Event>, alerts: map<string, AlertRecord>) {
    forall fingerprint :: Find(alerts, fingerprint) == AlertAfter(Of(log, fingerprint))
  }

  /** The tables are what the log determines. */
  ghost predicate Consistent(cfg: Config, log: seq<Event>, t: Tables) {
    && DistinctIds(log)
    && (forall e | e in log :: Valid(e, cfg.formats))
    && EventsAgree(log, t.events)
    && AlertsAgree(log, t.alerts)
    && Specs(t.jobs) == JobsOf(cfg, log)
  }

  /** Changing the delivery columns of a row keeps the tables consistent. */
  lemma UpdateKeepsConsistent(cfg: Config, log: seq<Event>, t: Tables, i: nat, j: Job)
    requires Consistent(cfg, log, t)
    requires i < |t.jobs| && j.spec == t.jobs[i].spec
    ensures Consistent(cfg, log, t.(jobs := t.jobs[i := j]))
  {
    UpdatesKeepSpecs(t.jobs, i, j);
  }

  predicate Fresh(log: seq<Event>, e: Event) {
    forall x | x in log :: x.eventId != e.eventId
  }

  lemma {:induction false} NothingIgnored(jobs: seq<Job>, specs: seq<JobSpec>, now: Time)
    requires forall s | s in specs :: !HasKey(jobs, s)
    requires DistinctKeys(specs)
    ensures InsertOrIgnore(jobs, specs, now) == jobs + NewRows(specs, now)
  {
    if specs == [] {
      assert jobs + NewRows(specs, now) == jobs;
    } else {
      var n := |specs| - 1;
      NothingIgnored(jobs, specs[..n], now);
      var before := jobs + NewRows(specs[..n], now);
      assert specs[n] in specs;
      forall i | 0 <= i < |before|
        ensures !(before[i].spec.eventId == specs[n].eventId && before[i].spec.channel == specs[n].channel)
      {
        if i >= |jobs| {
          assert before[i].spec == specs[i - |jobs|];
        } else {
          assert before[i] == jobs[i];
        }
      }
      assert NewRows(specs, now) == NewRows(specs[..n], now) + [NewJob(specs[n], now)];
    }
  }

  /** A notified event inserts one row for each of its channels, and none is ignored. */
  lemma AnnounceInsertsAll(cfg: Config, log: seq<Event>, t: Tables, e: Event, payload: string, now: Time)
    requires Consistent(cfg, log, t) && Fresh(log, e)
    ensures var specs := Announce(e, Channels(cfg.rules, e), payload);
      InsertOrIgnore(t.jobs, specs, now) == t.jobs + NewRows(specs, now)
  {
    var specs := Announce(e, Channels(cfg.rules, e), payload);
    JobIdsFromLog(cfg, log);
    DistinctFacts(Named(cfg.rules, e));
    forall i | 0 <= i < |t.jobs| ensures t.jobs[i].spec.eventId != e.eventId {
      assert Specs(t.jobs)[i] in JobsOf(cfg, log);
    }
    NothingIgnored(t.jobs, specs, now);
  }

  lemma SpecsConcat(jobs: seq<Job>, specs: seq<JobSpec>, now: Time)
    ensures Specs(jobs + NewRows(specs, now)) == Specs(jobs) + specs
  {
  }

  /** The count that the transaction tests tells whether the event is announced. */
  lemma CountTestsNotifies(history: seq<Event>, e: Event)
    ensures !e.state.Firing? || Transition(AlertAfter(history), e).eventCount == 1 <==> Notifies(history, e)
  {
    if e.state.Firing? {
      CountOneIffOpens(history, e);
      StepKeepsEarlier(history, e);
    }
  }

  lemma FreshEventAlert(log: seq<Event>, t: Tables, e: Event)
    requires AlertsAgree(log, t.alerts)
    ensures NextAlert(t, e) == Transition(AlertAfter(Of(log, e.fingerprint)), e)
    ensures NextAlert(t, e) == Describe(Of(log + [e], e.fingerprint))
  {
    hide Describe, Transition;
    var history := Of(log, e.fingerprint);
    assert Find(t.alerts, e.fingerprint) == AlertAfter(history);
    OfStep(log, e, e.fingerprint);
    AlertIsDescription(history);
    TransitionDescribes(history, e);
  }

  lemma FreshEventJobs(cfg: Config, log: seq<Event>, t: Tables, e: Event, now: Time)
    requires Consistent(cfg, log, t) && Fresh(log, e)
    ensures NextJobs(cfg, t, e, NextAlert(t, e), now) == t.jobs + NewRows(JobsFor(cfg, Of(log, e.fingerprint), e), now)
  {
    FreshEventAlert(log, t, e);
    hide RenderEvent, JobsOf, Describe, Transition, Consistent, NextAlert, Channels;
    var history := Of(log, e.fingerprint);
    CountTestsNotifies(history, e);
    AnnounceInsertsAll(cfg, log, t, e, PayloadOf(cfg, history, e), now);
    assert t.jobs + NewRows([], now) == t.jobs;
  }

  lemma AlertsAgreeStep(log: seq<Event>, alerts: map<string, AlertRecord>, e: Event)
    requires AlertsAgree(log, alerts)
    ensures AlertsAgree(log + [e], alerts[e.fingerprint := Transition(Find(alerts, e.fingerprint), e)])
  {
    var alerts' := alerts[e.fingerprint := Transition(Find(alerts, e.fingerprint), e)];
    forall f ensures Find(alerts', f) == AlertAfter(Of(log + [e], f)) {
      OfStep(log, e, f);
      assert Find(alerts, f) == AlertAfter(Of(log, f));
      var history := Of(log, f);
      if f == e.fingerprint {
        assert (history + [e])[..|history|] == history;
      } else {
        assert history + [] == history;
      }
    }
  }

  lemma EventsAgreeStep(log: seq<Event>, events: map<string, Event>, e: Event)
    requires EventsAgree(log, events) && DistinctIds(log) && Fresh(log, e)
    ensures EventsAgree(log + [e], events[e.eventId := e]) && DistinctIds(log + [e])
    ensures e.eventId !in events
  {
  }

  /** What accepting does, told from the log alone. A valid event with a new id is
      committed: the log grows by it, the answer is the alert described from the whole
      history of its fingerprint, and its jobs are added behind the others. Everything
      else leaves the tables alone: a repeated event is answered as a duplicate with the
      alert as it is now, and the same id with another payload is a conflict. */
  lemma AcceptFollowsLog(cfg: Config, log: seq<Event>, t: Tables, e: Event, now: Time)
    requires Consistent(cfg, log, t)
    ensures var (t', r) := Accept(cfg, t, e, now);
      if Valid(e, cfg.formats) && Fresh(log, e) then
        && Consistent(cfg, log + [e], t')
        && r == Ok(EventResult(false, Describe(Of(log + [e], e.fingerprint))))
        && t'.jobs == t.jobs + NewRows(JobsFor(cfg, Of(log, e.fingerprint), e), now)
      else
        && t' == t
        && (r.Err? && r.error.Invalid? <==> !Valid(e, cfg.formats))
        && (Valid(e, cfg.formats) && e in log ==>
          Of(log, e.fingerprint) != [] && r == Ok(EventResult(true, Describe(Of(log, e.fingerprint)))))
        && (Valid(e, cfg.formats) && e !in log ==> r == Err(Conflict))
  {
    if Valid(e, cfg.formats) {
      if Fresh(log, e) {
        EventsAgreeStep(log, t.events, e);
        AlertsAgreeStep(log, t.alerts, e);
        FreshEventAlert(log, t, e);
        FreshEventJobs(cfg, log, t, e, now);
        SpecsConcat(t.jobs, JobsFor(cfg, Of(log, e.fingerprint), e), now);
        JobsOfStep(cfg, log, e);
      } else {
        var x :| x in log && x.eventId == e.eventId;
        assert t.events[e.eventId] == x;
        if e in log {
          AlertIsDescription(Of(log, e.fingerprint));
          OwnEvent(log, e);
          assert Find(t.alerts, e.fingerprint) == AlertAfter(Of(log, e.fingerprint));
        }
      }
    }
  }

  /** The same, in the terms of a caller that keeps the log. */
  lemma AcceptSummary(
    cfg: Config, log: seq<Event>, t: Tables, e: Event, now: Time,
    t': Tables, r: Result<EventResult, AcceptError>)
    requires Consistent(cfg, log, t) && Valid(e, cfg.formats) && (t', r) == Accept(cfg, t, e, now)
    ensures var log' := log + (if r.Ok? && !r.value.duplicate then [e] else []);
      Consistent(cfg, log', t') && (r.Ok? ==> e in log')
    ensures t.jobs <= t'.jobs && forall i | |t.jobs| <= i < |t'.jobs| :: t'.jobs[i] == NewJob(t'.jobs[i].spec, now)
    ensures r.Err? ==> t' == t
  {
    hide Check, Specs, JobsOf, AlertAfter, Of;
    AcceptFollowsLog(cfg, log, t, e, now);
    assert log + [] == log;
  }

  /** The rows that accepting an event adds: one pending row for each of its channels if it
      does not fire or finds its alert not firing, with the event rendered for its alert. */
  ghost predicate AddsRows(
    cfg: Config, log: seq<Event>, e: Event, alert: AlertRecord, jobs: seq<Job>, jobs': seq<Job>, now: Time)
  {
    && jobs <= jobs'
    && alert == Describe(Of(log, e.fingerprint) + [e])
    && |jobs'| - |jobs| == (
      if !e.state.Firing? || !FiringAfter(Of(log, e.fingerprint)) then |Channels(cfg.rules, e)| else 0)
    && forall k: nat | k < |jobs'| - |jobs| ::
      jobs'[|jobs| + k] == Job(
        JobSpec(e.eventId, e.fingerprint, Channels(cfg.rules, e)[k], RenderEvent(e, alert, cfg.templates)),
        Pending, 0, now, None, true, None, None)
  }

  lemma AcceptAddsRows(
    cfg: Config, log: seq<Event>, t: Tables, e: Event, now: Time,
    t': Tables, r: Result<EventResult, AcceptError>)
    requires Consistent(cfg, log, t) && Valid(e, cfg.formats) && (t', r) == Accept(cfg, t, e, now)
    ensures r.Ok? && !r.value.duplicate ==> AddsRows(cfg, log, e, r.value.alert, t.jobs, t'.jobs, now)
    ensures r.Err? || r.value.duplicate ==> t' == t
  {
    hide Valid, Fresh, Accept, Consistent, Describe, FiringAfter, Of, JobsFor, NewRows, AddsRows;
    AcceptFollowsLog(cfg, log, t, e, now);
    OfStep(log, e, e.fingerprint);
    AnnouncementsAdd(cfg, log, e, t.jobs, now);
  }

  lemma AnnouncementsAdd(cfg: Config, log: seq<Event>, e: Event, jobs: seq<Job>, now: Time)
    ensures var history := Of(log, e.fingerprint);
      AddsRows(cfg, log, e, Describe(history + [e]), jobs, jobs + NewRows(JobsFor(cfg, history, e), now), now)
  {
    AddedRows(cfg, Of(log, e.fingerprint), e, jobs, now);
    hide Describe, RenderEvent, FiringAfter, Of, JobsFor, NewRows, Channels;
  }

  lemma AddedRows(cfg: Config, history: seq<Event>, e: Event, jobs: seq<Job>, now: Time)
    ensures var rows := NewRows(JobsFor(cfg, history, e), now);
      var channels := Channels(cfg.rules, e);
      && |rows| == (if !e.state.Firing? || !FiringAfter(history) then |channels| else 0)
      && forall k: nat | k < |rows| ::
        (jobs + rows)[|jobs| + k] == Job(
          JobSpec(e.eventId, e.fingerprint, channels[k], RenderEvent(e, Describe(history + [e]), cfg.templates)),
          Pending, 0, now, None, true, None, None)
  {
    AlertIsDescription(history);
    TransitionDescribes(history, e);
    hide Describe, Transition, RenderEvent, FiringAfter, AlertAfter, Channels;
  }

  lemma {:induction false} OwnEvent(log: seq<Event>, e: Event)
    requires e in log
    ensures e in Of(log, e.fingerprint)
  {
    var n := |log| - 1;
    if log[n] != e {
      OwnEvent(log[..n], e);
    }
  }

  /** Accepting an event a second time changes nothing, whatever happened in between. */
  lemma AcceptIsIdempotent(cfg: Config, log: seq<Event>, t: Tables, e: Event, now: Time)
    requires Consistent(cfg, log, t) && e in log
    ensures Accept(cfg, t, e, now).0 == t
    ensures Accept(cfg, t, e, now).1.Ok? && Accept(cfg, t, e, now).1.value.duplicate
  {
    AcceptFollowsLog(cfg, log, t, e, now);
  }

  lemma EmptyIsConsistent(cfg: Config)
    ensures Consistent(cfg, [], EMPTY_TABLES)
  {
  }

  /** Accepting the events of a log one after the other, each once. */
  function AcceptAll(cfg: Config, log: seq<Event>, now: Time): Tables {
    if log == [] then EMPTY_TABLES
    else Accept(cfg, AcceptAll(cfg, log[..|log| - 1], now), log[|log| - 1], now).0
  }

  lemma {:induction false} AcceptAllConsistent(cfg: Config, log: seq<Event>, now: Time)
    requires DistinctIds(log) && forall e | e in log :: Valid(e, cfg.formats)
    ensures Consistent(cfg, log, AcceptAll(cfg, log, now))
  {
    if log == [] {
      EmptyIsConsistent(cfg);
    } else {
      hide Check, Accept, Consistent, Of, Describe, JobsFor;
      var before, e := log[..|log| - 1], log[|log| - 1];
      AcceptAllConsistent(cfg, before, now);
      AcceptFollowsLog(cfg, before, AcceptAll(cfg, before, now), e, now);
      assert log == before + [e];
    }
  }

  lemma SameFinds<T>(a: map<string, T>, b: map<string, T>)
    requires forall k :: Find(a, k) == Find(b, k)
    ensures a == b
  {
    forall k ensures (k in a <==> k in b) && (k in a ==> a[k] == b[k]) {
      assert Find(a, k) == Find(b, k);
    }
  }

  /** A log determines its tables, up to what delivery and the clock do to the jobs. */
  lemma ConsistentUnique(cfg: Config, log: seq<Event>, t: Tables, u: Tables)
    requires Consistent(cfg, log, t) && Consistent(cfg, log, u)
    ensures t.events == u.events && t.alerts == u.alerts && Specs(t.jobs) == Specs(u.jobs)
  {
    AlertsUnique(log, t.alerts, u.alerts);
    EventsUnique(log, t.events, u.events);
  }

  lemma AlertsUnique(log: seq<Event>, a: map<string, AlertRecord>, b: map<string, AlertRecord>)
    requires AlertsAgree(log, a) && AlertsAgree(log, b)
    ensures a == b
  {
    forall k ensures Find(a, k) == Find(b, k) {
      assert Find(a, k) == AlertAfter(Of(log, k));
    }
    SameFinds(a, b);
  }

  lemma EventsUnique(log: seq<Event>, a: map<string, Event>, b: map<string, Event>)
    requires EventsAgree(log, a) && EventsAgree(log, b)
    ensures a == b
  {
    forall k ensures (k in a <==> k in b) && (k in a ==> a[k] == b[k]) {
      assert k in a ==> a[k] in log && a[k].eventId == k;
      assert k in b ==> b[k] in log && b[k].eventId == k;
    }
  }

  /** Two servers that committed the events of each fingerprint in the same order hold
      the same events and alerts and the same jobs, up to ids and delivery. */
  lemma TablesConfluence(cfg: Config, a: seq<Event>, t: Tables, b: seq<Event>, u: Tables)
    requires Consistent(cfg, a, t) && Consistent(cfg, b, u)
    requires forall fingerprint :: Of(a, fingerprint) == Of(b, fingerprint)
    ensures t.events == u.events && t.alerts == u.alerts
    ensures multiset(Specs(t.jobs)) == multiset(Specs(u.jobs))
  {
    CommitOrderConfluence(cfg, a, b);
    forall k ensures Find(t.alerts, k) == Find(u.alerts, k) {
      assert Find(t.alerts, k) == AlertAfter(Of(a, k)) && Of(a, k) == Of(b, k);
    }
    SameFinds(t.alerts, u.alerts);
    SameEvents(a, b);
    EventsUnique(b, t.events, u.events);
  }

  lemma SameEvents(a: seq<Event>, b: seq<Event>)
    requires forall fingerprint :: Of(a, fingerprint) == Of(b, fingerprint)
    ensures forall e :: e in a <==> e in b
  {
    forall e ensures e in a <==> e in b {
      assert Of(a, e.fingerprint) == Of(b, e.fingerprint);
      OfKeepsFingerprint(a, e.fingerprint);
      OfKeepsFingerprint(b, e.fingerprint);
      if e in a {
        OwnEvent(a, e);
      }
      if e in b {
        OwnEvent(b, e);
      }
    }
  }
}
