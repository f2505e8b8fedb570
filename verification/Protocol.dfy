/** The whole pipeline: any number of agents with their spools, a network that loses
    and delays messages, the server's tables and its notification workers. */
module Protocol {
  import opened Model
  import opened EventLog
  import opened Queue
  import opened QueueRuns
  import S = Spool
  import T = Tables

  /** Where an agent is in a drain: events still to deliver, requests made for the first
      of them, and the request it waits for. */
  datatype Phase =
    | Idle
    | Draining(todo: seq<Event>, tries: nat)
    | Waiting(todo: seq<Event>, tries: nat, serial: nat)
    | Acked(todo: seq<Event>)

  /** Spool files by name; they survive crashes, the phase does not. */
  datatype AgentState = AgentState(spool: map<string, Event>, phase: Phase)

  /** `requests` and `acks` are messages on their way. `queued`, `posted` and `log` are
      history: what each agent ever queued, every request ever made, every commit. */
  datatype System = System(
    agents: seq<AgentState>, requests: map<nat, Event>, acks: set<nat>,
    events: map<string, Event>, alerts: map<string, AlertRecord>, queue: World,
    queued: set<(nat, Event)>, posted: map<nat, Event>, log: seq<Event>)

  /** `bind` gives the one event that an event id stands for. */
  datatype Setup = Setup(cfg: Config, settings: Settings, maxAttempts: nat, bind: string -> Event)

  datatype Action =
    | Enqueue(agent: nat, event: Event)
    | BeginDrain(agent: nat, names: seq<string>, limit: nat)
    | Post(agent: nat)
    | PostElsewhere(event: Event)
    | Serve(serial: nat, now: Time, dbOk: bool)
    | LoseRequest(serial: nat)
    | LoseAnswer(serial: nat)
    | Receive(agent: nat)
    | TimeOut(agent: nat)
    | Remove(agent: nat)
    | StopAgent(agent: nat)
    | CrashServer
    | Work(step: QueueRuns.Action)

  function Initial(n: nat): System {
    System(seq(n, i => AgentState(map[], Idle)), map[], {}, map[], map[], EMPTY, {}, map[], [])
  }

  function TablesOf(s: System): T.Tables {
    T.Tables(s.events, s.alerts, s.queue.jobs)
  }

  /** A valid event under its own id. */
  predicate Bound(p: Setup, e: Event) {
    p.bind(e.eventId) == e && Valid(e, p.cfg.formats)
  }

  function EventsAt(spool: map<string, Event>, names: seq<string>, limit: nat): seq<Event>
    requires forall name | name in names :: name in spool
  {
    var n := if |names| <= limit then |names| else limit;
    seq(n, i requires 0 <= i < n => spool[names[i]])
  }

  function WithPhase(s: System, a: nat, phase: Phase): System
    requires a < |s.agents|
  {
    s.(agents := s.agents[a := s.agents[a].(phase := phase)])
  }

  /** A new request gets a serial number that was never used. */
  ghost function NewSerial(posted: map<nat, Event>): (serial: nat)
    ensures serial !in posted
  {
    FreshExists(posted.Keys);
    var serial: nat :| serial !in posted;
    serial
  }

  lemma {:induction false} FreshExists(used: set<nat>)
    ensures exists n: nat :: n !in used
  {
    var n := Above(used);
    assert n !in used;
  }

  lemma {:induction false} Above(used: set<nat>) returns (n: nat)
    ensures forall x | x in used :: x < n
    decreases used
  {
    if used == {} {
      n := 0;
    } else {
      var x :| x in used;
      var m := Above(used - {x});
      assert used == (used - {x}) + {x};
      n := if m > x then m else x + 1;
    }
  }

  /** The server handles one request; a database failure rolls back. */
  ghost function Served(p: Setup, s: System, serial: nat, now: Time, dbOk: bool): System
    requires serial in s.requests
  {
    var e, rest := s.requests[serial], s.(requests := s.requests - {serial});
    if !dbOk then rest else
      var (t, r) := T.Accept(p.cfg, TablesOf(s), e, now);
      rest.(
        events := t.events, alerts := t.alerts, queue := s.queue.(jobs := t.jobs),
        acks := if r.Ok? then s.acks + {serial} else s.acks,
        log := if r.Ok? && !r.value.duplicate then s.log + [e] else s.log)
  }

  /** One step; an action that is not possible changes nothing. */
  ghost function Step(p: Setup, s: System, a: Action): System {
    match a
    case Enqueue(k, e) =>
      if k < |s.agents| && s.agents[k].phase.Idle? && Bound(p, e) && S.JsonName(e.eventId) !in s.agents[k].spool
      then s.(agents := s.agents[k := AgentState(s.agents[k].spool[S.JsonName(e.eventId) := e], Idle)],
              queued := s.queued + {(k, e)})
      else s
    case BeginDrain(k, names, limit) =>
      if k < |s.agents| && s.agents[k].phase.Idle? && S.Orders(names, s.agents[k].spool.Keys)
      then WithPhase(s, k, Draining(EventsAt(s.agents[k].spool, names, limit), 0))
      else s
    case Post(k) =>
      if k < |s.agents| && s.agents[k].phase.Draining? && s.agents[k].phase.todo != []
        && s.agents[k].phase.tries < p.maxAttempts
      then
        var phase, serial := s.agents[k].phase, NewSerial(s.posted);
        WithPhase(s, k, Waiting(phase.todo, phase.tries + 1, serial)).(
          requests := s.requests[serial := phase.todo[0]], posted := s.posted[serial := phase.todo[0]])
      else s
    case PostElsewhere(e) =>
      if Bound(p, e) then
        var serial := NewSerial(s.posted);
        s.(requests := s.requests[serial := e], posted := s.posted[serial := e])
      else s
    case Serve(serial, now, dbOk) => if serial in s.requests then Served(p, s, serial, now, dbOk) else s
    case LoseRequest(serial) => s.(requests := s.requests - {serial})
    case LoseAnswer(serial) => s.(acks := s.acks - {serial})
    case Receive(k) =>
      if k < |s.agents| && s.agents[k].phase.Waiting? && s.agents[k].phase.serial in s.acks
      then WithPhase(s, k, Acked(s.agents[k].phase.todo)).(acks := s.acks - {s.agents[k].phase.serial})
      else s
    case TimeOut(k) =>
      if k < |s.agents| && s.agents[k].phase.Waiting?
      then WithPhase(s, k, Draining(s.agents[k].phase.todo, s.agents[k].phase.tries))
      else s
    case Remove(k) =>
      if k < |s.agents| && s.agents[k].phase.Acked? && s.agents[k].phase.todo != [] then
        var todo := s.agents[k].phase.todo;
        s.(agents := s.agents[k := AgentState(
          s.agents[k].spool - {S.JsonName(todo[0].eventId)}, Draining(todo[1..], 0))])
      else s
    case StopAgent(k) => if k < |s.agents| then WithPhase(s, k, Idle) else s
    case CrashServer => s.(requests := map[], acks := {})
    case Work(step) => if step.Enqueue? then s else s.(queue := Apply(p.settings, s.queue, step))
  }

  ghost function RunSystem(p: Setup, n: nat, actions: seq<Action>): System {
    if actions == [] then Initial(n)
    else Step(p, RunSystem(p, n, actions[..|actions| - 1]), actions[|actions| - 1])
  }

  /** Spool files are named after the events they hold. */
  ghost predicate GoodSpool(p: Setup, spool: map<string, Event>) {
    forall name | name in spool :: Bound(p, spool[name]) && name == S.JsonName(spool[name].eventId)
  }

  /** What an agent in the middle of a drain may rely on. */
  ghost predicate GoodPhase(p: Setup, phase: Phase, posted: map<nat, Event>, log: seq<Event>) {
    match phase
    case Idle => true
    case Draining(todo, _) => forall e | e in todo :: Bound(p, e)
    case Waiting(todo, _, serial) =>
      (forall e | e in todo :: Bound(p, e)) && todo != [] && serial in posted && posted[serial] == todo[0]
    case Acked(todo) =>
      (forall e | e in todo :: Bound(p, e)) && todo != [] && todo[0] in log
  }

  ghost predicate GoodSpools(p: Setup, s: System) {
    forall k | 0 <= k < |s.agents| :: GoodSpool(p, s.agents[k].spool)
  }

  ghost predicate GoodPhases(p: Setup, s: System) {
    forall k | 0 <= k < |s.agents| :: GoodPhase(p, s.agents[k].phase, s.posted, s.log)
  }

  /** Answers on their way acknowledge committed events. */
  ghost predicate GoodMessages(p: Setup, s: System) {
    && (forall serial | serial in s.posted :: Bound(p, s.posted[serial]))
    && (forall serial | serial in s.requests :: serial in s.posted && s.posted[serial] == s.requests[serial])
    && (forall serial | serial in s.acks :: serial in s.posted && s.posted[serial] in s.log)
  }

  predicate InSpool(s: System, k: nat, e: Event) {
    k < |s.agents| && S.JsonName(e.eventId) in s.agents[k].spool && s.agents[k].spool[S.JsonName(e.eventId)] == e
  }

  /** No queued event is lost: it is in its spool or committed. */
  ghost predicate NoLoss(s: System) {
    forall q | q in s.queued :: InSpool(s, q.0, q.1) || q.1 in s.log
  }

  ghost predicate LogBound(p: Setup, log: seq<Event>) {
    forall e | e in log :: Bound(p, e)
  }

  ghost predicate SystemInv(p: Setup, s: System) {
    && GoodSpools(p, s) && GoodPhases(p, s) && GoodMessages(p, s) && NoLoss(s) && LogBound(p, s.log)
    && T.Consistent(p.cfg, s.log, TablesOf(s))
    && Inv(p.settings, s.queue)
  }

  /** What serving a request does to the log, the answers and the job table. */
  lemma ServedFacts(p: Setup, s: System, serial: nat, now: Time, dbOk: bool)
    requires SystemInv(p, s) && serial in s.requests
    ensures var s' := Served(p, s, serial, now, dbOk);
      && (s'.log == s.log || s'.log == s.log + [s.requests[serial]])
      && (s'.acks == s.acks || (s'.acks == s.acks + {serial} && s.requests[serial] in s'.log))
      && T.Consistent(p.cfg, s'.log, TablesOf(s'))
      && LogBound(p, s'.log) && Inv(p.settings, s'.queue)
      && s'.agents == s.agents && s'.queued == s.queued && s'.posted == s.posted
      && s'.requests == s.requests - {serial}
  {
    hide Valid, T.Accept, T.Consistent, Inv, GoodSpools, GoodPhases, NoLoss;
    var e := s.requests[serial];
    if dbOk {
      AcceptGrowsLog(p, s.log, TablesOf(s), e, now);
      var specs := AcceptIsEnqueue(p, s.log, s.queue, TablesOf(s), e, now);
      InvKept(p.settings, s.queue, QueueRuns.Enqueue(specs, now));
    }
  }

  lemma AcceptGrowsLog(p: Setup, log: seq<Event>, t: T.Tables, e: Event, now: Time)
    requires T.Consistent(p.cfg, log, t) && Bound(p, e) && LogBound(p, log)
    ensures var (t', r) := T.Accept(p.cfg, t, e, now);
      && r.Ok?
      && (if r.value.duplicate then e in log && t' == t else T.Consistent(p.cfg, log + [e], t'))
  {
    T.AcceptFollowsLog(p.cfg, log, t, e, now);
    if !T.Fresh(log, e) {
      var x :| x in log && x.eventId == e.eventId;
      assert Bound(p, x);
    }
  }

  /** For the queue, accepting an event is an enqueue step. */
  lemma AcceptIsEnqueue(p: Setup, log: seq<Event>, w: World, t: T.Tables, e: Event, now: Time)
    returns (specs: seq<JobSpec>)
    requires T.Consistent(p.cfg, log, t) && t.jobs == w.jobs
    ensures w.(jobs := T.Accept(p.cfg, t, e, now).0.jobs) == Apply(p.settings, w, QueueRuns.Enqueue(specs, now))
  {
    T.AcceptFollowsLog(p.cfg, log, t, e, now);
    if Valid(e, p.cfg.formats) && T.Fresh(log, e) {
      specs := JobsFor(p.cfg, Of(log, e.fingerprint), e);
    } else {
      specs := [];
      assert w.jobs + NewRows(specs, now) == w.jobs;
    }
  }

  lemma SpoolsKept(p: Setup, s: System, a: Action)
    requires GoodSpools(p, s)
    ensures GoodSpools(p, Step(p, s, a))
  {
    hide T.Accept, Apply, S.JsonName, Valid, S.Ascending, GoodSpool;
    match a
    case Enqueue(k, e) =>
      if k < |s.agents| {
        SpoolGrows(p, s.agents[k].spool, e);
      }
    case Remove(k) =>
      if k < |s.agents| && s.agents[k].phase.Acked? && s.agents[k].phase.todo != [] {
        SpoolShrinks(p, s.agents[k].spool, S.JsonName(s.agents[k].phase.todo[0].eventId));
      }
    case _ =>
  }

  lemma PhasesKept(p: Setup, s: System, a: Action)
    requires SystemInv(p, s)
    ensures GoodPhases(p, Step(p, s, a))
  {
    hide T.Consistent, Inv, Apply, S.JsonName, Valid, S.Orders, NoLoss, LogBound;
    hide Served, GoodSpool, NewSerial, EventsAt;
    match a
    case Serve(serial, now, dbOk) =>
      if serial in s.requests {
        ServedFacts(p, s, serial, now, dbOk);
        ServeKeepsPhases(p, s, Served(p, s, serial, now, dbOk));
      }
    case BeginDrain(k, names, limit) =>
      if k < |s.agents| && S.Orders(names, s.agents[k].spool.Keys) {
        ListedAreBound(p, s.agents[k].spool, names, limit);
      }
    case Post(k) =>
      PostKeepsPhases(p, s, k);
    case _ =>
  }

  lemma ServeKeepsPhases(p: Setup, s: System, s': System)
    requires GoodPhases(p, s) && s'.agents == s.agents && s'.posted == s.posted && s.log <= s'.log
    ensures GoodPhases(p, s')
  {
    hide Valid;
    forall k | 0 <= k < |s.agents| ensures GoodPhase(p, s.agents[k].phase, s.posted, s'.log) {
      assert GoodPhase(p, s.agents[k].phase, s.posted, s.log);
    }
  }

  lemma PostKeepsPhases(p: Setup, s: System, k: nat)
    requires GoodPhases(p, s)
    ensures GoodPhases(p, Step(p, s, Post(k)))
  {
    hide Valid, NewSerial;
  }

  lemma SpoolGrows(p: Setup, spool: map<string, Event>, e: Event)
    requires GoodSpool(p, spool)
    ensures Bound(p, e) ==> GoodSpool(p, spool[S.JsonName(e.eventId) := e])
  {
    hide Valid, S.JsonName;
  }

  lemma SpoolShrinks(p: Setup, spool: map<string, Event>, name: string)
    requires GoodSpool(p, spool)
    ensures GoodSpool(p, spool - {name})
  {
    hide Valid, S.JsonName;
  }

  lemma ListedAreBound(p: Setup, spool: map<string, Event>, names: seq<string>, limit: nat)
    requires GoodSpool(p, spool) && S.Orders(names, spool.Keys)
    ensures forall e | e in EventsAt(spool, names, limit) :: Bound(p, e)
  {
    hide Valid, S.JsonName, S.Ascending;
    assert forall i | 0 <= i < |names| :: names[i] in names;
  }

  lemma MessagesKept(p: Setup, s: System, a: Action)
    requires SystemInv(p, s)
    ensures GoodMessages(p, Step(p, s, a))
  {
    hide T.Consistent, Inv, Apply, S.JsonName, Valid, S.Orders, NoLoss, LogBound;
    hide Served, GoodSpool, NewSerial, EventsAt;
    match a
    case Serve(serial, now, dbOk) =>
      if serial in s.requests {
        ServedFacts(p, s, serial, now, dbOk);
      }
    case Post(k) => PostKeepsMessages(p, s, k);
    case PostElsewhere(e) => RequestKeepsMessages(p, s, e);
    case _ =>
  }

  lemma PostKeepsMessages(p: Setup, s: System, k: nat)
    requires GoodPhases(p, s) && GoodMessages(p, s)
    ensures GoodMessages(p, Step(p, s, Post(k)))
  {
    hide Valid, NewSerial;
  }

  lemma RequestKeepsMessages(p: Setup, s: System, e: Event)
    requires GoodMessages(p, s)
    ensures GoodMessages(p, Step(p, s, PostElsewhere(e)))
  {
    hide Valid, NewSerial;
  }

  lemma NothingLost(p: Setup, s: System, a: Action)
    requires SystemInv(p, s)
    ensures NoLoss(Step(p, s, a))
  {
    hide T.Consistent, Inv, Apply, Valid, S.Orders, S.JsonName, LogBound, Served;
    hide GoodMessages, GoodSpools, GoodPhases;
    match a
    case Serve(serial, now, dbOk) =>
      if serial in s.requests {
        ServedFacts(p, s, serial, now, dbOk);
        ServeLosesNothing(s, Served(p, s, serial, now, dbOk));
      }
    case Remove(k) =>
      if k < |s.agents| && s.agents[k].phase.Acked? && s.agents[k].phase.todo != [] {
        RemoveLosesNothing(p, s, k);
      }
    case _ =>
  }

  lemma ServeLosesNothing(s: System, s': System)
    requires NoLoss(s) && s'.agents == s.agents && s'.queued == s.queued && s.log <= s'.log
    ensures NoLoss(s')
  {
    hide S.JsonName;
    forall q | q in s.queued ensures InSpool(s', q.0, q.1) || q.1 in s'.log {
      assert InSpool(s, q.0, q.1) || q.1 in s.log;
    }
  }

  /** Only the acknowledged event leaves the spool. */
  lemma RemoveLosesNothing(p: Setup, s: System, k: nat)
    requires GoodSpools(p, s) && GoodPhases(p, s) && NoLoss(s)
    requires k < |s.agents| && s.agents[k].phase.Acked? && s.agents[k].phase.todo != []
    ensures NoLoss(Step(p, s, Remove(k)))
  {
    hide Valid, S.JsonName;
    var s', gone := Step(p, s, Remove(k)), s.agents[k].phase.todo[0];
    assert gone in s.agents[k].phase.todo;
    forall q | q in s.queued ensures InSpool(s', q.0, q.1) || q.1 in s.log {
      var e: Event := q.1;
      if InSpool(s, q.0, e) && q.0 == k && S.JsonName(e.eventId) == S.JsonName(gone.eventId) {
        S.NamesDiffer(e.eventId, gone.eventId);
        assert Bound(p, s.agents[k].spool[S.JsonName(e.eventId)]);
      }
    }
  }

  lemma TablesKept(p: Setup, s: System, a: Action)
    requires SystemInv(p, s)
    ensures var s' := Step(p, s, a);
      LogBound(p, s'.log) && T.Consistent(p.cfg, s'.log, TablesOf(s')) && Inv(p.settings, s'.queue)
  {
    hide T.Consistent, Inv, Apply, Valid, S.Orders, S.JsonName, Served;
    hide GoodMessages, GoodSpools, GoodPhases, NoLoss, LogBound;
    match a
    case Serve(serial, now, dbOk) =>
      if serial in s.requests {
        ServedFacts(p, s, serial, now, dbOk);
      }
    case Work(step) =>
      if !step.Enqueue? {
        InvKept(p.settings, s.queue, step);
        WorkKeepsConsistent(p, s.log, s.queue, TablesOf(s), step);
      }
    case _ =>
  }

  lemma WorkKeepsConsistent(p: Setup, log: seq<Event>, w: World, t: T.Tables, step: QueueRuns.Action)
    requires T.Consistent(p.cfg, log, t) && t.jobs == w.jobs && !step.Enqueue?
    ensures T.Consistent(p.cfg, log, t.(jobs := Apply(p.settings, w, step).jobs))
  {
    hide JobsOf, Check;
    WorkKeepsSpecs(p.settings, w, step);
  }

  lemma WorkKeepsSpecs(q: Settings, w: World, a: QueueRuns.Action)
    requires !a.Enqueue?
    ensures Specs(Apply(q, w, a).jobs) == Specs(w.jobs)
  {
  }

  lemma {:induction false} SystemInvAlways(p: Setup, n: nat, actions: seq<Action>)
    ensures SystemInv(p, RunSystem(p, n, actions))
  {
    if actions == [] {
      T.EmptyIsConsistent(p.cfg);
    } else {
      SystemInvAlways(p, n, actions[..|actions| - 1]);
      InvStep(p, RunSystem(p, n, actions[..|actions| - 1]), actions[|actions| - 1]);
    }
  }

  lemma InvStep(p: Setup, s: System, a: Action)
    requires SystemInv(p, s)
    ensures SystemInv(p, Step(p, s, a))
  {
    SpoolsKept(p, s, a);
    PhasesKept(p, s, a);
    MessagesKept(p, s, a);
    NothingLost(p, s, a);
    TablesKept(p, s, a);
  }

  /** What a step of the system is to the queue: nothing, or one of its own steps. */
  lemma StepOfQueue(p: Setup, s: System, a: Action) returns (steps: seq<QueueRuns.Action>)
    requires SystemInv(p, s)
    ensures Step(p, s, a).queue == Run(p.settings, s.queue, steps)
  {
    hide SystemInv, Apply;
    steps := [];
    match a
    case Serve(serial, now, dbOk) =>
      if serial in s.requests && dbOk {
        var specs := ServedIsEnqueue(p, s, serial, now);
        steps := [QueueRuns.Enqueue(specs, now)];
        RunOne(p.settings, s.queue, steps[0]);
      }
    case Work(step) =>
      if !step.Enqueue? {
        steps := [step];
        RunOne(p.settings, s.queue, step);
      }
    case _ =>
  }

  lemma ServedIsEnqueue(p: Setup, s: System, serial: nat, now: Time) returns (specs: seq<JobSpec>)
    requires SystemInv(p, s) && serial in s.requests
    ensures Served(p, s, serial, now, true).queue == Apply(p.settings, s.queue, QueueRuns.Enqueue(specs, now))
  {
    specs := AcceptIsEnqueue(p, s.log, s.queue, TablesOf(s), s.requests[serial], now);
  }

  /** The queue of a system run is the result of a queue run: what holds after every queue
      run holds of the pipeline. */
  lemma {:induction false} QueueOfSystem(p: Setup, n: nat, actions: seq<Action>) returns (steps: seq<QueueRuns.Action>)
    ensures RunSystem(p, n, actions).queue == Run(p.settings, EMPTY, steps)
  {
    if actions == [] {
      steps := [];
    } else {
      var before := actions[..|actions| - 1];
      SystemInvAlways(p, n, before);
      var earlier := QueueOfSystem(p, n, before);
      var more := StepOfQueue(p, RunSystem(p, n, before), actions[|actions| - 1]);
      RunConcat(p.settings, EMPTY, earlier, more);
      steps := earlier + more;
    }
  }

  /** In every state of the pipeline: a job is sent at most as often as it has attempts,
      and these are bounded; and while a job has never been claimed, all claims so far
      went to jobs before it, with at most the maximal attempts for each. */
  lemma NotificationsOfSystem(p: Setup, n: nat, actions: seq<Action>, i: nat)
    ensures var w := RunSystem(p, n, actions).queue;
      |w.claims| == |w.outcomes| && (i < |w.jobs| ==>
        && Sends(w.claims, w.outcomes, i) <= w.jobs[i].attempts <= p.settings.maxAttempts
        && (w.jobs[i].status.Sent? ==> WasDelivered(w, i))
        && (w.jobs[i].status.Pending? ==>
          |w.claims| <= p.settings.maxAttempts * i && forall k | 0 <= k < |w.claims| :: w.claims[k].job < i))
  {
    var steps := QueueOfSystem(p, n, actions);
    SendsBounded(p.settings, steps, i);
    if i < |Run(p.settings, EMPTY, steps).jobs| && Run(p.settings, EMPTY, steps).jobs[i].status.Pending? {
      StarvationBounded(p.settings, steps, i);
    }
  }

  /** Exactly-once effect on top of at-least-once delivery. After any interleaving of
      enqueues, requests, losses, retries, crashes and notification work: every event an
      agent queued is still in its spool or committed, and once it has left the spool it
      is committed exactly once; no event is committed twice; and the tables are those
      of accepting each committed event once, in commit order. */
  lemma ExactlyOnceEffect(p: Setup, n: nat, actions: seq<Action>, now: Time)
    ensures var s := RunSystem(p, n, actions);
      && (forall q | q in s.queued && !InSpool(s, q.0, q.1) :: multiset(s.log)[q.1] == 1)
      && DistinctIds(s.log)
      && var once := T.AcceptAll(p.cfg, s.log, now);
        s.events == once.events && s.alerts == once.alerts && Specs(s.queue.jobs) == Specs(once.jobs)
  {
    SystemInvAlways(p, n, actions);
    var s := RunSystem(p, n, actions);
    forall q | q in s.queued && !InSpool(s, q.0, q.1) ensures multiset(s.log)[q.1] == 1 {
      DistinctOnce(s.log, q.1);
    }
    T.AcceptAllConsistent(p.cfg, s.log, now);
    T.ConsistentUnique(p.cfg, s.log, TablesOf(s), T.AcceptAll(p.cfg, s.log, now));
  }

  lemma {:induction false} DistinctOnce(log: seq<Event>, e: Event)
    requires DistinctIds(log) && e in log
    ensures multiset(log)[e] == 1
  {
    var n := |log| - 1;
    assert log == log[..n] + [log[n]];
    if log[n] == e {
      assert e !in log[..n];
    } else {
      DistinctOnce(log[..n], e);
    }
  }

  /** One delivery without faults: list, post, serve, receive, remove. */
  ghost function DeliverFirst(p: Setup, s: System, k: nat, names: seq<string>, limit: nat, now: Time): System {
    var begun := Step(p, s, BeginDrain(k, names, limit));
    var sent := Step(p, begun, Post(k));
    var served := Step(p, sent, Serve(NewSerial(s.posted), now, true));
    Step(p, Step(p, served, Receive(k)), Remove(k))
  }

  /** The pipeline makes progress: from any reachable state, if nothing fails, the first
      queued event of an idle agent is committed and leaves the spool. */
  lemma DeliveryWithoutFaults(
    p: Setup, n: nat, actions: seq<Action>, k: nat, names: seq<string>, limit: nat, now: Time)
    requires p.maxAttempts > 0 && limit > 0 && names != []
    requires var s := RunSystem(p, n, actions);
      k < |s.agents| && s.agents[k].phase.Idle? && S.Orders(names, s.agents[k].spool.Keys)
    ensures var s := RunSystem(p, n, actions);
      var s' := DeliverFirst(p, s, k, names, limit, now);
      names[0] in s.agents[k].spool && s.agents[k].spool[names[0]] in s'.log
      && k < |s'.agents| && s'.agents[k].spool == s.agents[k].spool - {names[0]}
  {
    hide Valid, S.JsonName, S.Orders, T.Consistent, Served, Inv, NoLoss, LogBound, EventsAt, Apply;
    hide GoodPhases, GoodMessages;
    var s := RunSystem(p, n, actions);
    SystemInvAlways(p, n, actions);
    var sent := Step(p, Step(p, s, BeginDrain(k, names, limit)), Post(k));
    InvStep(p, s, BeginDrain(k, names, limit));
    InvStep(p, Step(p, s, BeginDrain(k, names, limit)), Post(k));
    FirstPosted(p, s, k, names, limit);
    ServedAnswers(p, sent, NewSerial(s.posted), now);
    hide NewSerial;
    FirstRemoved(p, Step(p, sent, Serve(NewSerial(s.posted), now, true)), k);
    assert GoodSpool(p, s.agents[k].spool);
  }

  lemma FirstRemoved(p: Setup, s: System, k: nat)
    requires k < |s.agents| && s.agents[k].phase.Waiting? && s.agents[k].phase.todo != []
    requires s.agents[k].phase.serial in s.acks
    ensures var s' := Step(p, Step(p, s, Receive(k)), Remove(k));
      && s'.log == s.log && |s'.agents| == |s.agents|
      && s'.agents[k].spool == s.agents[k].spool - {S.JsonName(s.agents[k].phase.todo[0].eventId)}
  {
    hide S.JsonName;
  }

  /** What the agent has asked for after listing its spool and posting once. */
  lemma FirstPosted(p: Setup, s: System, k: nat, names: seq<string>, limit: nat)
    requires p.maxAttempts > 0 && limit > 0 && names != []
    requires k < |s.agents| && s.agents[k].phase.Idle? && S.Orders(names, s.agents[k].spool.Keys)
    ensures var sent := Step(p, Step(p, s, BeginDrain(k, names, limit)), Post(k));
      var serial, todo := NewSerial(s.posted), EventsAt(s.agents[k].spool, names, limit);
      && |sent.agents| == |s.agents| && sent.agents[k] == AgentState(s.agents[k].spool, Waiting(todo, 1, serial))
      && names[0] in s.agents[k].spool && todo != [] && todo[0] == s.agents[k].spool[names[0]]
      && serial in sent.requests && sent.requests[serial] == todo[0]
  {
    hide S.Ascending, EventsAt;
    FirstListed(s.agents[k].spool, names, limit);
  }

  lemma FirstListed(spool: map<string, Event>, names: seq<string>, limit: nat)
    requires S.Orders(names, spool.Keys) && names != [] && limit > 0
    ensures names[0] in spool && EventsAt(spool, names, limit) != []
    ensures EventsAt(spool, names, limit)[0] == spool[names[0]]
  {
    hide S.Ascending;
    assert names[0] in names;
  }

  /** A working database commits every request and answers it. */
  lemma ServedAnswers(p: Setup, s: System, serial: nat, now: Time)
    requires SystemInv(p, s) && serial in s.requests
    ensures var s' := Served(p, s, serial, now, true);
      serial in s'.acks && s.requests[serial] in s'.log && s'.agents == s.agents
  {
    hide Valid, T.Accept, T.Consistent, Inv, GoodSpools, GoodPhases, NoLoss;
    AcceptGrowsLog(p, s.log, TablesOf(s), s.requests[serial], now);
  }
}
