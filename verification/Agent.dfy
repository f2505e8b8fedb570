/** Draining a spool to the server over a network that may lose requests and answers. */
module Agent {
  import opened Wrappers
  import opened Text
  import opened Model
  import opened Queue
  import opened EventStore
  import S = Spool
  import T = Tables

  /** What becomes of one request: lost on the way, failed by the server's database,
      accepted with the answer lost, or answered. */
  datatype Delivery = Lost | Failed | AnswerLost | Answered

  datatype DrainError = EmptyToken | NoAttempts | NotOpened | ListFailed | NotDelivered | NotRemoved

  /** The server takes the event: it is valid, and its id is new or already stands for it. */
  ghost predicate Acceptable(server: ServerEventStore, log: seq<Event>, e: Event) {
    Valid(e, server.cfg.formats) && (e in log || T.Fresh(log, e))
  }

  /** The request is processed, so that the event is committed if it is new. */
  predicate Processed(delivery: Delivery) {
    delivery.AnswerLost? || delivery.Answered?
  }

  /** `submit_event` and the server's side of it. */
  method SubmitEvent(server: ServerEventStore, e: Event, now: Time, delivery: Delivery) returns (acked: bool)
    requires server.Valid()
    modifies server
    ensures server.Valid()
    ensures acked <==> delivery.Answered? && Acceptable(server, old(server.log), e)
    ensures server.log == old(server.log) + (
      if Processed(delivery) && Valid(e, server.cfg.formats) && T.Fresh(old(server.log), e) then [e] else [])
  {
    T.AcceptFollowsLog(server.cfg, server.log, server.Contents(), e, now);
    hide T.Consistent, T.Accept, Check, T.Fresh;
    match delivery {
      case Lost =>
        acked := false;
      case Failed =>
        var _ := server.Accept(e, now, false);
        acked := false;
      case AnswerLost =>
        var _ := server.Accept(e, now, true);
        acked := false;
      case Answered =>
        var r := server.Accept(e, now, true);
        acked := r.Ok?;
    }
  }

  /** The event is taken by the server and one attempt is answered. */
  ghost predicate Delivers(
    server: ServerEventStore, log: seq<Event>, e: Event, maxAttempts: nat, net: nat -> Delivery) {
    Acceptable(server, log, e) && exists attempt | 1 <= attempt <= maxAttempts :: net(attempt).Answered?
  }

  /** `deliver_with_retry`: it reports success exactly when the server takes the event
      and some attempt is answered. The event is new in the log exactly when its id was
      new and some attempt was processed, answered or not. */
  method DeliverWithRetry(
    server: ServerEventStore, e: Event, maxAttempts: nat, now: Time, net: nat -> Delivery)
    returns (ok: bool)
    requires server.Valid() && maxAttempts > 0
    modifies server
    ensures server.Valid()
    ensures ok <==> Delivers(server, old(server.log), e, maxAttempts, net)
    ensures ok ==> e in server.log
    ensures server.log == old(server.log) + (
      if Valid(e, server.cfg.formats) && T.Fresh(old(server.log), e)
        && exists attempt | 1 <= attempt <= maxAttempts :: Processed(net(attempt))
      then [e] else [])
  {
    hide T.Consistent, Check;
    for attempt := 1 to maxAttempts + 1
      invariant server.Valid()
      invariant Acceptable(server, old(server.log), e) ==>
        forall k | 1 <= k < attempt :: !net(k).Answered?
      invariant server.log == old(server.log) + (
        if Valid(e, server.cfg.formats) && T.Fresh(old(server.log), e)
          && exists k | 1 <= k < attempt :: Processed(net(k))
        then [e] else [])
    {
      var acked := SubmitEvent(server, e, now, net(attempt));
      if acked {
        return true;
      }
    }
    return false;
  }

  /** The files of the first n names. */
  function FilesOf(names: seq<string>, n: nat): set<string>
    requires n <= |names|
  {
    set k | 0 <= k < n :: names[k]
  }

  /** The log grew by listed events only. */
  ghost predicate GrewBy(log: seq<Event>, log': seq<Event>, files: S.Directory, names: seq<string>, n: nat)
    requires n <= |names| && forall k | 0 <= k < n :: names[k] in files
  {
    log <= log' && forall x | x in log' :: x in log || exists k | 0 <= k < n :: x == files[names[k]].event
  }

  /** Delivery of one listed event. */
  method DeliverListed(
    server: ServerEventStore, e: Event, maxAttempts: nat, now: Time, net: nat -> Delivery,
    ghost log: seq<Event>, ghost files: S.Directory, ghost formats: Formats, ghost names: seq<string>, ghost i: nat)
    returns (ok: bool)
    requires server.Valid() && maxAttempts > 0
    requires S.Sound(files, formats) && S.Lists(files, names) && i < |names|
    requires forall k | 0 <= k < |names| :: names[k] in files && S.IsJson(names[k])
    requires GrewBy(log, server.log, files, names, i) && e == files[names[i]].event
    modifies server
    ensures server.Valid() && old(server.log) <= server.log
    ensures GrewBy(log, server.log, files, names, i + 1)
    ensures ok <==> Delivers(server, log, e, maxAttempts, net)
    ensures ok ==> e in server.log
    ensures names[i] in files - FilesOf(names, i) && S.JsonName(e.eventId) == names[i]
    ensures FilesOf(names, i + 1) == FilesOf(names, i) + {names[i]}
  {
    hide T.Consistent, S.Sound, S.Lists, S.IsJson, S.JsonName, Valid, T.Fresh, GrewBy, FilesOf;
    hide Acceptable, Processed, Delivers;
    ghost var before := server.log;
    StillDelivers(server, log, before, files, formats, names, i, maxAttempts, net);
    ok := DeliverWithRetry(server, e, maxAttempts, now, net);
    ghost var more := server.log[|before|..];
    assert more == [] || more == [e];
    assert server.log == before + more;
    GrewMore(log, before, more, files, names, i);
  }

  /** `drain`, holding the spool's lock. It removes a prefix of the listing: all of it,
      up to the limit, when it succeeds, and otherwise up to the first event that could
      not be delivered or removed. Every removed event has been committed, and nothing
      but listed events has. */
  method Drain(
    spool: S.Spool, server: ServerEventStore, token: string, limit: nat, maxAttempts: nat, now: Time,
    openOk: bool, listOk: bool, net: nat -> nat -> Delivery, fsOk: nat -> bool)
    returns (r: Result<nat, DrainError>, ghost names: seq<string>, ghost done: nat)
    requires spool.Valid() && server.Valid()
    modifies spool, server
    ensures spool.Valid() && server.Valid()
    ensures r == Err(EmptyToken) <==> IsBlank(token)
    ensures r == Err(NoAttempts) <==> !IsBlank(token) && maxAttempts == 0
    ensures r == Err(NotOpened) <==> !IsBlank(token) && maxAttempts > 0 && !openOk
    ensures r == Err(ListFailed) <==> !IsBlank(token) && maxAttempts > 0 && openOk && !listOk
    ensures S.Lists(old(spool.files), names)
      || (names == [] && r.Err? && (r.error.EmptyToken? || r.error.NoAttempts? || r.error.NotOpened?))
    ensures done <= |names| && done <= limit && forall k | 0 <= k < |names| :: names[k] in old(spool.files)
    ensures spool.files == old(spool.files) - FilesOf(names, done)
    ensures r.Ok? ==> r.value == done && (done == |names| || done == limit)
    ensures forall k | 0 <= k < done ::
      && old(spool.files)[names[k]].event in server.log && fsOk(k)
      && Delivers(server, old(server.log), old(spool.files)[names[k]].event, maxAttempts, net(k))
    ensures r.Err? && !r.error.NotDelivered? && !r.error.NotRemoved? ==> done == 0 && server.log == old(server.log)
    ensures r == Err(NotDelivered) ==>
      && done < |names| && done < limit
      && !Delivers(server, old(server.log), old(spool.files)[names[done]].event, maxAttempts, net(done))
    ensures r == Err(NotRemoved) ==>
      && done < |names| && done < limit && !fsOk(done)
      && Delivers(server, old(server.log), old(spool.files)[names[done]].event, maxAttempts, net(done))
    ensures GrewBy(old(server.log), server.log, old(spool.files), names,
      if r.Err? && (r.error.NotDelivered? || r.error.NotRemoved?) then done + 1 else done)
  {
    hide T.Consistent, S.Sound, S.IsJson, S.JsonName, S.Lists, Less, IsBlank, Check, T.Fresh, Delivers, GrewBy, FilesOf;
    names, done := [], 0;
    DrainStarts(server.log, spool.files, names);
    if IsBlank(token) {
      return Err(EmptyToken), names, done;
    }
    if maxAttempts == 0 {
      return Err(NoAttempts), names, done;
    }
    if !openOk {
      return Err(NotOpened), names, done;
    }
    var listed;
    listed, names := spool.List();
    ListedAreFiles(spool.files, names);
    DrainStarts(server.log, spool.files, names);
    S.SoundLists(spool.files, spool.formats);
    if !listOk || listed.Err? {
      return Err(ListFailed), names, done;
    }
    var events := if |listed.value| <= limit then listed.value else listed.value[..limit];
    var delivered := 0;
    for i := 0 to |events|
      invariant spool.Valid() && server.Valid()
      invariant delivered == done == i
      invariant spool.files == old(spool.files) - FilesOf(names, i)
      invariant GrewBy(old(server.log), server.log, old(spool.files), names, i)
      invariant forall k | 0 <= k < i ::
        && old(spool.files)[names[k]].event in server.log && fsOk(k)
        && Delivers(server, old(server.log), old(spool.files)[names[k]].event, maxAttempts, net(k))
    {
      var ok := DeliverListed(server, events[i], maxAttempts, now, net(i),
        old(server.log), old(spool.files), spool.formats, names, i);
      if !ok {
        return Err(NotDelivered), names, done;
      }
      var removed := spool.Remove(events[i], fsOk(i));
      if removed.Err? {
        return Err(NotRemoved), names, done;
      }
      delivered := delivered + 1;
      done := done + 1;
    }
    return Ok(delivered), names, done;
  }

  lemma DrainStarts(log: seq<Event>, files: S.Directory, names: seq<string>)
    requires forall k | 0 <= k < |names| :: names[k] in files && S.IsJson(names[k])
    ensures GrewBy(log, log, files, names, 0) && files == files - FilesOf(names, 0)
  {
  }

  lemma GrewMore(log: seq<Event>, log': seq<Event>, more: seq<Event>, files: S.Directory, names: seq<string>, i: nat)
    requires i < |names| && forall k | 0 <= k < |names| :: names[k] in files
    requires GrewBy(log, log', files, names, i) && (more == [] || more == [files[names[i]].event])
    ensures GrewBy(log, log' + more, files, names, i + 1)
  {
    forall x | x in log' + more && x !in log ensures exists k | 0 <= k < i + 1 :: x == files[names[k]].event {
      if x in log' {
        var k :| 0 <= k < i && x == files[names[k]].event;
      } else {
        assert x == files[names[i]].event;
      }
    }
  }

  lemma ListedAreFiles(files: S.Directory, names: seq<string>)
    requires S.Lists(files, names)
    ensures forall k | 0 <= k < |names| :: names[k] in files && S.IsJson(names[k])
  {
    assert forall k | 0 <= k < |names| :: names[k] in names;
  }

  /** What the server takes from a listing does not depend on earlier files. */
  lemma StillDelivers(
    server: ServerEventStore, log: seq<Event>, log': seq<Event>, files: S.Directory, formats: Formats,
    names: seq<string>, i: nat, maxAttempts: nat, net: nat -> Delivery)
    requires S.Sound(files, formats) && S.Lists(files, names) && i < |names|
    requires forall k | 0 <= k < |names| :: names[k] in files && S.IsJson(names[k])
    requires GrewBy(log, log', files, names, i)
    ensures var e := files[names[i]].event;
      && (Delivers(server, log', e, maxAttempts, net) <==> Delivers(server, log, e, maxAttempts, net))
      && names[i] in files - FilesOf(names, i) && S.JsonName(e.eventId) == names[i]
      && FilesOf(names, i + 1) == FilesOf(names, i) + {names[i]}
  {
    StillQueued(files, names, i);
    S.SoundName(files, formats, names[i]);
    hide Check, S.IsJson, Less, FilesOf;
    var e := files[names[i]].event;
    forall x | x in log' && x !in log ensures x.eventId != e.eventId {
      var k :| 0 <= k < i && x == files[names[k]].event;
      S.SoundName(files, formats, names[k]);
      S.SoundName(files, formats, names[i]);
      StillQueued(files, names, i);
    }
  }

  /** Names in a listing differ, so the files of earlier ones are others. */
  lemma StillQueued(files: S.Directory, names: seq<string>, i: nat)
    requires S.Lists(files, names) && i < |names|
    ensures names[i] in files - FilesOf(names, i) && S.IsJson(names[i])
    ensures forall k | 0 <= k < i :: names[k] != names[i]
    ensures FilesOf(names, i + 1) == FilesOf(names, i) + {names[i]}
  {
    assert names[i] in names;
    forall k | 0 <= k < i ensures names[k] != names[i] {
      LessIrreflexive(names[i]);
    }
  }
}
