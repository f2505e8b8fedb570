/** What a log of accepted events determines: the alert of each fingerprint and
    the notification jobs. The server keeps both in tables, one event at a time. */
module EventLog {
  import opened Model
  import opened Policy
  import opened Rendering
  import opened AlertHistory

  datatype Config = Config(rules: seq<PolicyRule>, templates: MessageTemplates, formats: Formats)

  /** The columns of a notification job that never change. */
  datatype JobSpec = JobSpec(eventId: string, fingerprint: string, channel: string, payload: string)

  /** The events of one fingerprint, in order. */
  function Of(log: seq<Event>, fingerprint: string): seq<Event> {
    if log == [] then [] else
      var e := log[|log| - 1];
      Of(log[..|log| - 1], fingerprint) + (if e.fingerprint == fingerprint then [e] else [])
  }

  /** An event is announced unless it is a firing event of a firing alert. */
  ghost predicate Notifies(history: seq<Event>, e: Event) {
    !e.state.Firing? || !FiringAfter(history)
  }

  function JobFor(e: Event, channel: string, payload: string): JobSpec {
    JobSpec(e.eventId, e.fingerprint, channel, payload)
  }

  function Announce(e: Event, channels: seq<string>, payload: string): seq<JobSpec> {
    seq(|channels|, i requires 0 <= i < |channels| => JobFor(e, channels[i], payload))
  }

  /** The message of an event, given the earlier events of its fingerprint. */
  function PayloadOf(cfg: Config, history: seq<Event>, e: Event): string {
    RenderEvent(e, Transition(AlertAfter(history), e), cfg.templates)
  }

  /** The jobs of one event, given the earlier events of its fingerprint. */
  ghost function JobsFor(cfg: Config, history: seq<Event>, e: Event): seq<JobSpec> {
    if Notifies(history, e) then Announce(e, Channels(cfg.rules, e), PayloadOf(cfg, history, e)) else []
  }

  /** All jobs of a log, in the order they are made. */
  ghost function JobsOf(cfg: Config, log: seq<Event>): seq<JobSpec> {
    if log == [] then [] else
      var before, e := log[..|log| - 1], log[|log| - 1];
      JobsOf(cfg, before) + JobsFor(cfg, Of(before, e.fingerprint), e)
  }

  predicate DistinctIds(log: seq<Event>) {
    forall i, j | 0 <= i < j < |log| :: log[i].eventId != log[j].eventId
  }

  predicate DistinctKeys(jobs: seq<JobSpec>) {
    forall i, j | 0 <= i < j < |jobs| ::
      !(jobs[i].eventId == jobs[j].eventId && jobs[i].channel == jobs[j].channel)
  }

  lemma OfStep(log: seq<Event>, e: Event, fingerprint: string)
    ensures Of(log + [e], fingerprint) == Of(log, fingerprint) + (if e.fingerprint == fingerprint then [e] else [])
  {
    assert (log + [e])[..|log|] == log;
  }

  lemma JobsOfStep(cfg: Config, log: seq<Event>, e: Event)
    ensures JobsOf(cfg, log + [e]) == JobsOf(cfg, log) + JobsFor(cfg, Of(log, e.fingerprint), e)
  {
    assert (log + [e])[..|log|] == log;
  }

  lemma {:induction false} OfKeepsFingerprint(log: seq<Event>, fingerprint: string)
    ensures forall e | e in Of(log, fingerprint) :: e.fingerprint == fingerprint && e in log
    ensures Of(Of(log, fingerprint), fingerprint) == Of(log, fingerprint)
  {
    if log != [] {
      var before, e := log[..|log| - 1], log[|log| - 1];
      OfKeepsFingerprint(before, fingerprint);
      if e.fingerprint == fingerprint {
        OfStep(Of(before, fingerprint), e, fingerprint);
      } else {
        assert Of(before, fingerprint) + [] == Of(before, fingerprint);
      }
    }
  }

  /** The job announces the event on one of its channels. Its message is the event rendered
      with the alert that the whole history of the fingerprint describes. */
  ghost predicate AnnouncesOn(cfg: Config, history: seq<Event>, e: Event, job: JobSpec) {
    && job.eventId == e.eventId && job.fingerprint == e.fingerprint
    && job.channel in Channels(cfg.rules, e)
    && job.payload == RenderEvent(e, Describe(history + [e]), cfg.templates)
  }

  /** Event i of the log does not fire, or finds its alert not firing, and the job announces it. */
  ghost predicate MadeBy(cfg: Config, log: seq<Event>, i: nat, job: JobSpec) {
    i < |log| &&
    var e, history := log[i], Of(log[..i], log[i].fingerprint);
    (!e.state.Firing? || !FiringAfter(history)) && AnnouncesOn(cfg, history, e, job)
  }

  lemma MadeByEarlier(cfg: Config, log: seq<Event>, n: nat, i: nat, job: JobSpec)
    requires i < n <= |log|
    ensures MadeBy(cfg, log[..n], i, job) == MadeBy(cfg, log, i, job)
  {
    assert log[..n][..i] == log[..i];
  }

  lemma MadeByLast(cfg: Config, before: seq<Event>, e: Event, job: JobSpec)
    ensures MadeBy(cfg, before + [e], |before|, job) <==> job in JobsFor(cfg, Of(before, e.fingerprint), e)
  {
    assert (before + [e])[..|before|] == before;
    JobsForExact(cfg, Of(before, e.fingerprint), e, job);
  }

  /** A job exists for exactly those pairs of an event that notifies and one of its channels. */
  lemma JobTableExact(cfg: Config, log: seq<Event>, job: JobSpec)
    ensures job in JobsOf(cfg, log) <==> exists i: nat | i < |log| :: MadeBy(cfg, log, i, job)
  {
    if job in JobsOf(cfg, log) {
      var i := Maker(cfg, log, job);
    }
    if i: nat :| i < |log| && MadeBy(cfg, log, i, job) {
      MadeIsInTable(cfg, log, i, job);
    }
  }

  lemma {:induction false} Maker(cfg: Config, log: seq<Event>, job: JobSpec) returns (i: nat)
    requires job in JobsOf(cfg, log)
    ensures i < |log| && MadeBy(cfg, log, i, job)
  {
    hide MadeBy, JobsFor;
    var n := |log| - 1;
    assert log == log[..n] + [log[n]];
    if job in JobsOf(cfg, log[..n]) {
      i := Maker(cfg, log[..n], job);
      MadeByEarlier(cfg, log, n, i, job);
    } else {
      i := n;
      MadeByLast(cfg, log[..n], log[n], job);
    }
  }

  lemma {:induction false} MadeIsInTable(cfg: Config, log: seq<Event>, i: nat, job: JobSpec)
    requires i < |log| && MadeBy(cfg, log, i, job)
    ensures job in JobsOf(cfg, log)
  {
    hide MadeBy, JobsFor;
    var n := |log| - 1;
    assert log == log[..n] + [log[n]];
    if i < n {
      MadeByEarlier(cfg, log, n, i, job);
      MadeIsInTable(cfg, log[..n], i, job);
    } else {
      MadeByLast(cfg, log[..n], log[n], job);
    }
  }

  lemma JobsForExact(cfg: Config, history: seq<Event>, e: Event, job: JobSpec)
    ensures job in JobsFor(cfg, history, e) <==>
      (!e.state.Firing? || !FiringAfter(history)) && AnnouncesOn(cfg, history, e, job)
    ensures |JobsFor(cfg, history, e)| == if Notifies(history, e) then |Channels(cfg.rules, e)| else 0
  {
    AlertIsDescription(history);
    TransitionDescribes(history, e);
    hide Describe, Transition, RenderEvent, FiringAfter;
    var channels := Channels(cfg.rules, e);
    var jobs := Announce(e, channels, PayloadOf(cfg, history, e));
    assert forall i | 0 <= i < |channels| :: jobs[i].channel == channels[i];
    if job.channel in channels && job == JobFor(e, job.channel, PayloadOf(cfg, history, e)) {
      var i :| 0 <= i < |channels| && channels[i] == job.channel;
      assert jobs[i] == job;
    }
  }

  lemma {:induction false} JobIdsFromLog(cfg: Config, log: seq<Event>)
    ensures forall job | job in JobsOf(cfg, log) ::
      exists e :: e in log && e.eventId == job.eventId && e.fingerprint == job.fingerprint
  {
    if log != [] {
      var before, e := log[..|log| - 1], log[|log| - 1];
      JobIdsFromLog(cfg, before);
      forall job | job in JobsOf(cfg, log)
        ensures exists e :: e in log && e.eventId == job.eventId && e.fingerprint == job.fingerprint
      {
        if job in JobsOf(cfg, before) {
          var x :| x in before && x.eventId == job.eventId && x.fingerprint == job.fingerprint;
          assert x in log;
        } else {
          JobsForExact(cfg, Of(before, e.fingerprint), e, job);
          assert e in log;
        }
      }
    }
  }

  /** With distinct event ids, no two jobs share an event and a channel. */
  lemma {:induction false} JobKeysDistinct(cfg: Config, log: seq<Event>)
    requires DistinctIds(log)
    ensures DistinctKeys(JobsOf(cfg, log))
  {
    if log != [] {
      var before, e := log[..|log| - 1], log[|log| - 1];
      var earlier, added := JobsOf(cfg, before), JobsFor(cfg, Of(before, e.fingerprint), e);
      JobKeysDistinct(cfg, before);
      JobIdsFromLog(cfg, before);
      DistinctFacts(Named(cfg.rules, e));
      forall i | 0 <= i < |earlier| ensures earlier[i].eventId != e.eventId {
        assert earlier[i] in earlier;
        var x :| x in before && x.eventId == earlier[i].eventId;
      }
    }
  }

  /** The jobs of a fingerprint depend on its own events only. */
  lemma {:induction false} JobsOfFingerprint(cfg: Config, log: seq<Event>, job: JobSpec)
    ensures job in JobsOf(cfg, log) <==> job in JobsOf(cfg, Of(log, job.fingerprint))
  {
    if log != [] {
      var before, e := log[..|log| - 1], log[|log| - 1];
      var own := Of(before, job.fingerprint);
      JobsOfFingerprint(cfg, before, job);
      JobsForExact(cfg, Of(before, e.fingerprint), e, job);
      if e.fingerprint == job.fingerprint {
        OfKeepsFingerprint(before, job.fingerprint);
        JobsOfStep(cfg, own, e);
      } else {
        assert own + [] == own;
      }
    }
  }

  /** The order in which fingerprints are interleaved does not matter: two commit
      orders that agree on each fingerprint give the same alerts and the same jobs. */
  lemma CommitOrderConfluence(cfg: Config, a: seq<Event>, b: seq<Event>)
    requires DistinctIds(a) && DistinctIds(b)
    requires forall fingerprint :: Of(a, fingerprint) == Of(b, fingerprint)
    ensures forall fingerprint :: AlertAfter(Of(a, fingerprint)) == AlertAfter(Of(b, fingerprint))
    ensures multiset(JobsOf(cfg, a)) == multiset(JobsOf(cfg, b))
  {
    JobKeysDistinct(cfg, a);
    JobKeysDistinct(cfg, b);
    forall job: JobSpec ensures multiset(JobsOf(cfg, a))[job] == multiset(JobsOf(cfg, b))[job] {
      JobsOfFingerprint(cfg, a, job);
      JobsOfFingerprint(cfg, b, job);
      OccursOnce(JobsOf(cfg, a), job);
      OccursOnce(JobsOf(cfg, b), job);
    }
  }
}
