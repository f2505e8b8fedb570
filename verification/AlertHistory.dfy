/** One alert record summarises all events of one fingerprint. The record is kept
    up to date one event at a time; here it is also described from the whole
    history at once, and the two are shown to agree. */
module AlertHistory {
  import opened Wrappers
  import opened Model

  function NewAlert(e: Event, status: AlertStatus): AlertRecord {
    AlertRecord(
      e.fingerprint, status, e.severity, e.eventType, e.source, e.hostId, e.occurredAt, e.occurredAt,
      if e.state.Resolved? then Some(e.occurredAt) else None, 1, e.eventId)
  }

  /** The record after one more event (the rules of `transition_alert`). */
  function Transition(existing: Option<AlertRecord>, e: Event): AlertRecord {
    match e.state
    case Firing =>
      if existing.None? then NewAlert(e, AlertStatus.Firing)
      else if existing.value.status.Firing? then
        existing.value.(
          severity := e.severity, eventType := e.eventType, source := e.source, hostId := e.hostId,
          lastSeen := e.occurredAt, resolvedAt := None,
          eventCount := existing.value.eventCount + 1, lastEventId := e.eventId)
      else
        existing.value.(
          status := AlertStatus.Firing, severity := e.severity, eventType := e.eventType,
          source := e.source, hostId := e.hostId, openedAt := e.occurredAt,
          lastSeen := e.occurredAt, resolvedAt := None, eventCount := 1, lastEventId := e.eventId)
    case Resolved =>
      if existing.None? then NewAlert(e, AlertStatus.Resolved)
      else
        existing.value.(
          status := AlertStatus.Resolved, severity := e.severity, lastSeen := e.occurredAt,
          resolvedAt := Some(e.occurredAt),
          eventCount := existing.value.eventCount + 1, lastEventId := e.eventId)
    case Info =>
      if existing.None? then NewAlert(e, AlertStatus.Info)
      else if existing.value.status.Firing? then
        existing.value.(
          lastSeen := e.occurredAt,
          eventCount := existing.value.eventCount + 1, lastEventId := e.eventId)
      else
        existing.value.(
          status := AlertStatus.Info, severity := e.severity, eventType := e.eventType,
          source := e.source, hostId := e.hostId, lastSeen := e.occurredAt, resolvedAt := None,
          eventCount := existing.value.eventCount + 1, lastEventId := e.eventId)
  }

  /** The record left by a history, one event after the other. */
  function AlertAfter(h: seq<Event>): Option<AlertRecord> {
    if h == [] then None
    else Some(Transition(AlertAfter(h[..|h| - 1]), h[|h| - 1]))
  }

  /** The last event that is not informational is a firing one. */
  ghost predicate FiringAfter(h: seq<Event>) {
    exists i | 0 <= i < |h| :: h[i].state.Firing? && forall j | i < j < |h| :: h[j].state.Info?
  }

  /** Event i is a firing event that finds the alert not firing. */
  ghost predicate Opens(h: seq<Event>, i: nat) {
    i < |h| && h[i].state.Firing? && !FiringAfter(h[..i])
  }

  /** Event i is an informational event that finds the alert not firing. */
  ghost predicate Informs(h: seq<Event>, i: nat) {
    i < |h| && h[i].state.Info? && !FiringAfter(h[..i])
  }

  /** Event i rewrites the type, source and host of the record. */
  ghost predicate Describes(h: seq<Event>, i: nat) {
    i < |h| && (h[i].state.Firing? || Informs(h, i))
  }

  /** Event i rewrites the severity of the record. */
  ghost predicate Rates(h: seq<Event>, i: nat) {
    i < |h| && (h[i].state.Firing? || h[i].state.Resolved? || Informs(h, i))
  }

  /** The greatest index below n that satisfies p, or 0. */
  ghost function Last(n: nat, p: nat -> bool): (r: nat)
    ensures r == 0 || (r < n && p(r))
    ensures forall j | r < j < n :: !p(j)
  {
    if n == 0 then 0 else if p(n - 1) then n - 1 else Last(n - 1, p)
  }

  /** Where the current episode starts: the first event, or the last opening one. */
  ghost function EpisodeStart(h: seq<Event>): nat {
    Last(|h|, (i: nat) => Opens(h, i))
  }

  /** The event that the type, source and host were last taken from. */
  ghost function Describing(h: seq<Event>): nat {
    Last(|h|, (i: nat) => Describes(h, i))
  }

  /** The event that the severity was last taken from. */
  ghost function Rating(h: seq<Event>): nat {
    Last(|h|, (i: nat) => Rates(h, i))
  }

  ghost function StatusAfter(h: seq<Event>): AlertStatus
    requires h != []
  {
    if FiringAfter(h) then AlertStatus.Firing
    else if h[|h| - 1].state.Resolved? then AlertStatus.Resolved
    else AlertStatus.Info
  }

  /** The record described from the whole history. */
  ghost function Describe(h: seq<Event>): AlertRecord
    requires h != []
  {
    var last, start, described, rated := h[|h| - 1], EpisodeStart(h), Describing(h), Rating(h);
    AlertRecord(
      h[0].fingerprint, StatusAfter(h), h[rated].severity, h[described].eventType,
      h[described].source, h[described].hostId, h[start].occurredAt, last.occurredAt,
      if StatusAfter(h).Resolved? then Some(last.occurredAt) else None,
      |h| - start, last.eventId)
  }

  lemma FiringAfterStep(h: seq<Event>, e: Event)
    ensures FiringAfter(h + [e]) <==> e.state.Firing? || (e.state.Info? && FiringAfter(h))
  {
    var g := h + [e];
    if e.state.Firing? {
      assert g[|h|].state.Firing?;
    }
    if i :| 0 <= i < |h| && h[i].state.Firing? && forall j | i < j < |h| :: h[j].state.Info? {
      assert g[i].state.Firing?;
    }
    if i :| 0 <= i < |g| && g[i].state.Firing? && forall j | i < j < |g| :: g[j].state.Info? {
      if i < |h| {
        assert h[i].state.Firing? && forall j | i < j < |h| :: h[j] == g[j];
        assert g[|h|] == e;
      }
    }
  }

  lemma {:induction false} LastAgrees(n: nat, p: nat -> bool, q: nat -> bool)
    requires forall i: nat | i < n :: p(i) == q(i)
    ensures Last(n, p) == Last(n, q)
  {
    if n > 0 {
      LastAgrees(n - 1, p, q);
    }
  }

  lemma PrefixOf(h: seq<Event>, e: Event, i: nat)
    requires i <= |h|
    ensures (h + [e])[..i] == h[..i]
  {
  }

  /** Events that came later do not change what an earlier event did. */
  lemma StepKeepsEarlier(h: seq<Event>, e: Event)
    ensures forall i: nat | i < |h| :: Opens(h + [e], i) == Opens(h, i)
    ensures forall i: nat | i < |h| :: Describes(h + [e], i) == Describes(h, i)
    ensures forall i: nat | i < |h| :: Rates(h + [e], i) == Rates(h, i)
    ensures Opens(h + [e], |h|) == (e.state.Firing? && !FiringAfter(h))
    ensures Informs(h + [e], |h|) == (e.state.Info? && !FiringAfter(h))
  {
    forall i: nat | i <= |h| ensures (h + [e])[..i] == h[..i] {
      PrefixOf(h, e, i);
    }
    assert h[..|h|] == h;
  }

  lemma EpisodeStartStep(h: seq<Event>, e: Event)
    ensures EpisodeStart(h + [e]) == if e.state.Firing? && !FiringAfter(h) then |h| else EpisodeStart(h)
  {
    StepKeepsEarlier(h, e);
    var g := h + [e];
    LastAgrees(|h|, (i: nat) => Opens(g, i), (i: nat) => Opens(h, i));
  }

  lemma DescribingStep(h: seq<Event>, e: Event)
    ensures Describing(h + [e]) ==
      if e.state.Firing? || (e.state.Info? && !FiringAfter(h)) then |h| else Describing(h)
  {
    StepKeepsEarlier(h, e);
    var g := h + [e];
    LastAgrees(|h|, (i: nat) => Describes(g, i), (i: nat) => Describes(h, i));
  }

  lemma RatingStep(h: seq<Event>, e: Event)
    ensures Rating(h + [e]) ==
      if e.state.Firing? || e.state.Resolved? || (e.state.Info? && !FiringAfter(h)) then |h| else Rating(h)
  {
    StepKeepsEarlier(h, e);
    var g := h + [e];
    LastAgrees(|h|, (i: nat) => Rates(g, i), (i: nat) => Rates(h, i));
  }

  /** The pieces of the description after one more event. */
  lemma DescribeStep(h: seq<Event>, e: Event)
    requires h != []
    ensures var d, d' := Describe(h), Describe(h + [e]);
      var firing := FiringAfter(h);
      && d'.fingerprint == d.fingerprint && d'.lastSeen == e.occurredAt && d'.lastEventId == e.eventId
      && d'.status == (match e.state
        case Firing => AlertStatus.Firing
        case Resolved => AlertStatus.Resolved
        case Info => if firing then AlertStatus.Firing else AlertStatus.Info)
      && d'.severity == (if e.state.Info? && firing then d.severity else e.severity)
      && d'.resolvedAt == (if e.state.Resolved? then Some(e.occurredAt) else None)
  {
    FiringAfterStep(h, e);
    RatingStep(h, e);
  }

  lemma DescribeStepMore(h: seq<Event>, e: Event)
    requires h != []
    ensures var d, d' := Describe(h), Describe(h + [e]);
      var firing := FiringAfter(h);
      && (if e.state.Firing? || (e.state.Info? && !firing)
          then d'.eventType == e.eventType && d'.source == e.source && d'.hostId == e.hostId
          else d'.eventType == d.eventType && d'.source == d.source && d'.hostId == d.hostId)
      && (if e.state.Firing? && !firing
          then d'.openedAt == e.occurredAt && d'.eventCount == 1
          else d'.openedAt == d.openedAt && d'.eventCount == d.eventCount + 1)
  {
    EpisodeStartStep(h, e);
    DescribingStep(h, e);
  }

  /** One transition takes the description of a history to that of the longer one. */
  lemma TransitionDescribes(h: seq<Event>, e: Event)
    ensures Transition(if h == [] then None else Some(Describe(h)), e) == Describe(h + [e])
  {
    if h == [] {
      FirstDescription(e);
    } else {
      DescribeStep(h, e);
      DescribeStepMore(h, e);
    }
  }

  lemma FirstDescription(e: Event)
    ensures Transition(None, e) == Describe([] + [e])
  {
    FiringAfterStep([], e);
    assert [] + [e] == [e];
  }

  /** The incremental record is the description of the whole history. */
  lemma {:induction false} AlertIsDescription(h: seq<Event>)
    ensures AlertAfter(h) == if h == [] then None else Some(Describe(h))
  {
    if h != [] {
      var g, e := h[..|h| - 1], h[|h| - 1];
      AlertIsDescription(g);
      assert h == g + [e];
      TransitionDescribes(g, e);
    }
  }

  /** A firing event starts a new count exactly when it opens an episode. */
  lemma CountOneIffOpens(h: seq<Event>, e: Event)
    requires e.state.Firing?
    ensures Transition(AlertAfter(h), e).eventCount == 1 <==> Opens(h + [e], |h|)
  {
    AlertIsDescription(h);
    StepKeepsEarlier(h, e);
  }

  ghost predicate NoResolvedIn(h: seq<Event>, from: nat, to: nat)
    requires to <= |h|
  {
    forall j | from < j < to :: !h[j].state.Resolved?
  }

  lemma {:induction false} StaysFiring(h: seq<Event>, o: nat, k: nat)
    requires o < k <= |h| && h[o].state.Firing? && NoResolvedIn(h, o, k)
    ensures FiringAfter(h[..k])
    decreases k
  {
    var e := h[k - 1];
    if o == k - 1 {
      assert h[..k][o].state.Firing?;
    } else {
      StaysFiring(h, o, k - 1);
      assert h[..k] == h[..k - 1] + [e];
      FiringAfterStep(h[..k - 1], e);
    }
  }

  lemma {:induction false} OpenerExists(h: seq<Event>, k: nat) returns (o: nat)
    requires k < |h| && h[k].state.Firing?
    ensures o <= k && Opens(h, o) && NoResolvedIn(h, o, k + 1)
  {
    if Opens(h, k) {
      o := k;
    } else {
      var g := h[..k];
      var i :| 0 <= i < |g| && g[i].state.Firing? && forall j | i < j < |g| :: g[j].state.Info?;
      o := OpenerExists(h, i);
      assert forall j | i < j < k :: g[j] == h[j];
    }
  }

  /** Each firing event belongs to exactly one episode: there is exactly one opening
      event at or before it with no resolved event since. */
  lemma ExactlyOneOpener(h: seq<Event>, k: nat)
    requires k < |h| && h[k].state.Firing?
    ensures exists o: nat | o <= k :: Opens(h, o) && NoResolvedIn(h, o, k + 1)
    ensures forall o: nat, p: nat | o <= k && p <= k && Opens(h, o) && Opens(h, p)
      && NoResolvedIn(h, o, k + 1) && NoResolvedIn(h, p, k + 1) :: o == p
  {
    var o := OpenerExists(h, k);
    forall o: nat, p: nat | o < p <= k && Opens(h, o) && Opens(h, p) && NoResolvedIn(h, o, k + 1)
      ensures false
    {
      StaysFiring(h, o, p);
    }
  }
}
