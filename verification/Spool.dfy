/** The agent's spool: one file for each queued event. */
module Spool {
  import opened Wrappers
  import opened Text
  import opened Model

  /** A file of an event, and whether all of its encoding has been written. */
  datatype File = File(event: Event, complete: bool)

  type Directory = map<string, File>

  datatype SpoolError =
    | InvalidEvent(reason: ValidationError)
    | AlreadyQueued
    | TemporaryExists
    | Crashed
    | Undecodable
    | Missing

  function JsonName(id: string): string {
    id + ".json"
  }

  function TmpName(id: string): string {
    "." + id + ".tmp"
  }

  /** The extension of a file name is what follows its last dot, unless that dot comes first. */
  predicate IsJson(name: string) {
    |name| > 5 && name[|name| - 5..] == ".json"
  }

  /** Listed files are the events' files: a name that is not hidden, then ".json". */
  lemma NamesAre(id: string, name: string)
    ensures JsonName(id) == id + ".json" && TmpName(id) == "." + id + ".tmp"
    ensures IsJson(name) <==> exists stem :: stem != "" && name == stem + ".json"
  {
    if IsJson(name) {
      assert name == name[..|name| - 5] + ".json";
    }
    if stem :| stem != "" && name == stem + ".json" {
      assert name[|name| - 5..] == ".json";
    }
  }

  lemma NamesDiffer(a: string, b: string)
    ensures JsonName(a) == JsonName(b) <==> a == b
    ensures a != "" ==> IsJson(JsonName(a))
    ensures !IsJson(TmpName(a)) && JsonName(a) != TmpName(a)
  {
    assert JsonName(a)[..|a|] == a && JsonName(b)[..|b|] == b;
    assert JsonName(a)[|a|..] == ".json";
    var t := TmpName(a);
    assert t[|t| - 1] == 'p' && JsonName(a)[|JsonName(a)| - 1] == 'n';
    assert |t| > 5 ==> t[|t| - 5..][4] == t[|t| - 1];
  }

  /** The listed files are whole, hold valid events and are named after them. */
  ghost predicate Sound(files: Directory, formats: Formats) {
    forall name | name in files && IsJson(name) ::
      && files[name].complete && Valid(files[name].event, formats)
      && name == JsonName(files[name].event.eventId)
  }

  /** The queued events, by file name. */
  function Queued(files: Directory): map<string, Event> {
    map name | name in files && IsJson(name) :: files[name].event
  }

  /** The states that `enqueue` goes through: temporary file created, written and
      synced, renamed. A crash stops it after so many steps. */
  function EnqueueSteps(files: Directory, e: Event, formats: Formats, steps: nat): (Directory, Result<(), SpoolError>) {
    var reason := Check(e, formats);
    if reason.Some? then (files, Err(InvalidEvent(reason.value)))
    else if JsonName(e.eventId) in files then (files, Err(AlreadyQueued))
    else if TmpName(e.eventId) in files then (files, Err(TemporaryExists))
    else if steps == 0 then (files, Err(Crashed))
    else if steps == 1 then (files[TmpName(e.eventId) := File(e, false)], Err(Crashed))
    else if steps == 2 then (files[TmpName(e.eventId) := File(e, true)], Err(Crashed))
    else (files[JsonName(e.eventId) := File(e, true)], if steps == 3 then Err(Crashed) else Ok(()))
  }

  lemma ValidHasId(e: Event, formats: Formats)
    requires Valid(e, formats)
    ensures e.eventId != ""
  {
  }

  lemma AddTemporary(files: Directory, name: string, f: File, formats: Formats)
    requires !IsJson(name) && Sound(files, formats)
    ensures Queued(files[name := f]) == Queued(files) && Sound(files[name := f], formats)
  {
    hide Check;
  }

  lemma AddEvent(files: Directory, e: Event, formats: Formats)
    requires IsJson(JsonName(e.eventId)) && Valid(e, formats) && Sound(files, formats)
    ensures var files' := files[JsonName(e.eventId) := File(e, true)];
      Queued(files') == Queued(files)[JsonName(e.eventId) := e] && Sound(files', formats)
  {
    hide Check;
  }

  /** Whatever the crash point, the list of queued events either is as before or has
      the whole event added; and it has it when `enqueue` reports success. */
  lemma EnqueueAtomic(files: Directory, e: Event, formats: Formats, steps: nat)
    requires Sound(files, formats)
    ensures var (files', r) := EnqueueSteps(files, e, formats, steps);
      && Sound(files', formats)
      && (Queued(files') == Queued(files) || Queued(files') == Queued(files)[e.eventId + ".json" := e])
      && (r.Ok? ==> Queued(files') == Queued(files)[e.eventId + ".json" := e])
      && (steps < 3 ==> Queued(files') == Queued(files))
      && forall name | name in files :: name in files' && files'[name] == files[name]
  {
    hide Check, Sound, Queued;
    NamesDiffer(e.eventId, e.eventId);
    if Valid(e, formats) {
      ValidHasId(e, formats);
      AddTemporary(files, TmpName(e.eventId), File(e, false), formats);
      AddTemporary(files, TmpName(e.eventId), File(e, true), formats);
      AddEvent(files, e, formats);
    }
  }

  /** Without a crash, `enqueue` succeeds exactly when the event is valid, not queued
      yet, and has no temporary file left over. */
  lemma EnqueueSucceedsIff(files: Directory, e: Event, formats: Formats, steps: nat)
    requires steps > 3
    ensures EnqueueSteps(files, e, formats, steps).1.Ok? <==>
      Valid(e, formats) && e.eventId + ".json" !in files && "." + e.eventId + ".tmp" !in files
  {
  }

  /** What a second attempt finds after a crash. Before the first step nothing was done,
      and the event can be queued. After the rename it is queued already. In between, a
      temporary file is left behind: the event is not queued, and cannot be any more. */
  lemma CrashBlocksRetry(files: Directory, e: Event, formats: Formats, steps: nat, later: nat)
    requires EnqueueSteps(files, e, formats, steps).1 == Err(Crashed) && later > 3
    ensures var (files', _) := EnqueueSteps(files, e, formats, steps);
      var r := EnqueueSteps(files', e, formats, later).1;
      if steps == 0 then r.Ok?
      else if steps == 3 then r == Err(AlreadyQueued) && JsonName(e.eventId) in Queued(files')
      else r == Err(TemporaryExists) && JsonName(e.eventId) !in files'
  {
    hide Check, IsJson;
    NamesDiffer(e.eventId, e.eventId);
    if Valid(e, formats) {
      ValidHasId(e, formats);
    }
  }

  predicate Ascending(names: seq<string>) {
    forall i, j | 0 <= i < j < |names| :: Less(names[i], names[j])
  }

  /** All of these names, in byte order. */
  ghost predicate Orders(names: seq<string>, all: set<string>) {
    Ascending(names) && forall name :: name in names <==> name in all
  }

  /** The names of the listed files, in byte order. */
  ghost predicate Lists(files: Directory, names: seq<string>) {
    Orders(names, set name | name in files && IsJson(name))
  }

  lemma AscendingHead(names: seq<string>, others: seq<string>)
    requires Ascending(names) && Ascending(others) && names != [] && others != []
    requires names[0] in others && others[0] in names
    ensures names[0] == others[0]
  {
    var i :| 0 <= i < |others| && others[i] == names[0];
    var j :| 0 <= j < |names| && names[j] == others[0];
    if i > 0 && j > 0 {
      LessTransitive(others[0], names[0], others[0]);
      LessIrreflexive(others[0]);
    }
  }

  /** There is only one such list. */
  lemma {:induction false} ListingUnique(names: seq<string>, others: seq<string>)
    requires Ascending(names) && Ascending(others)
    requires forall name :: name in names <==> name in others
    ensures names == others
  {
    assert |names| > 0 ==> names[0] in names;
    assert |others| > 0 ==> others[0] in others;
    if names != [] && others != [] {
      AscendingHead(names, others);
      Headless(names);
      Headless(others);
      ListingUnique(names[1..], others[1..]);
    }
  }

  lemma Headless(names: seq<string>)
    requires Ascending(names) && names != []
    ensures forall name :: name in names[1..] <==> name in names && name != names[0]
  {
    LessIrreflexive(names[0]);
    assert names == [names[0]] + names[1..];
  }

  /** Sorting the paths of a directory read in any order. */
  method SortNames(names: set<string>) returns (sorted: seq<string>)
    ensures Orders(sorted, names)
  {
    sorted := [];
    var rest := names;
    while rest != {}
      invariant Ascending(sorted) && rest <= names
      invariant forall name :: name in sorted <==> name in names - rest
      decreases rest
    {
      var name :| name in rest;
      rest := rest - {name};
      sorted := InsertName(sorted, name);
    }
  }

  method InsertName(sorted: seq<string>, name: string) returns (longer: seq<string>)
    requires Ascending(sorted) && name !in sorted
    ensures Ascending(longer)
    ensures forall n :: n in longer <==> n == name || n in sorted
  {
    var i := 0;
    while i < |sorted| && Less(sorted[i], name)
      invariant i <= |sorted|
      invariant forall k | 0 <= k < i :: Less(sorted[k], name)
    {
      i := i + 1;
    }
    forall k | i <= k < |sorted| ensures Less(name, sorted[k]) {
      LessTotal(name, sorted[i]);
      if k > i {
        LessTransitive(name, sorted[i], sorted[k]);
      }
    }
    longer := sorted[..i] + [name] + sorted[i..];
    assert sorted == sorted[..i] + sorted[i..];
  }

  lemma Renamed(files: Directory, temporary: string, destination: string, empty: File, whole: File)
    requires temporary !in files && temporary != destination
    ensures files[temporary := empty][temporary := whole] == files[temporary := whole]
    ensures (files[temporary := whole] - {temporary})[destination := whole] == files[destination := whole]
  {
  }

  lemma SoundName(files: Directory, formats: Formats, name: string)
    requires Sound(files, formats) && name in files && IsJson(name)
    ensures JsonName(files[name].event.eventId) == name
  {
  }

  /** Every file of a sound spool can be listed. */
  lemma SoundLists(files: Directory, formats: Formats)
    requires Sound(files, formats)
    ensures forall name | name in files && IsJson(name) :: files[name].complete && Valid(files[name].event, formats)
  {
  }

  class Spool {
    const formats: Formats
    var files: Directory

    ghost predicate Valid()
      reads this
    {
      Sound(files, formats)
    }

    constructor (formats: Formats)
      ensures Valid() && files == map[] && this.formats == formats
    {
      this.formats := formats;
      files := map[];
    }

    /** `enqueue`, stopped by a crash after so many steps, if there are that many. */
    method Enqueue(e: Event, steps: nat) returns (r: Result<(), SpoolError>)
      requires Valid()
      modifies this
      ensures Valid()
      ensures (files, r) == EnqueueSteps(old(files), e, formats, steps)
    {
      EnqueueAtomic(files, e, formats, steps);
      NamesDiffer(e.eventId, e.eventId);
      hide Check, Sound, Queued, IsJson, JsonName, TmpName;
      var reason := Check(e, formats);
      if reason.Some? {
        return Err(InvalidEvent(reason.value));
      }
      var destination := JsonName(e.eventId);
      if destination in files {
        return Err(AlreadyQueued);
      }
      var temporary := TmpName(e.eventId);
      if temporary in files {
        return Err(TemporaryExists);
      }
      if steps == 0 {
        return Err(Crashed);
      }
      Renamed(files, temporary, destination, File(e, false), File(e, true));
      files := files[temporary := File(e, false)];
      if steps == 1 {
        return Err(Crashed);
      }
      files := files[temporary := File(e, true)];
      if steps == 2 {
        return Err(Crashed);
      }
      files := (files - {temporary})[destination := files[temporary]];
      r := if steps == 3 then Err(Crashed) else Ok(());
    }

    /** `list`: the queued events in the order of their file names. */
    method List() returns (r: Result<seq<Event>, SpoolError>, ghost names: seq<string>)
      ensures Lists(files, names)
      ensures r.Ok? <==> forall name | name in files && IsJson(name) ::
        files[name].complete && Model.Valid(files[name].event, formats)
      ensures r.Ok? ==>
        && |r.value| == |names|
        && forall i | 0 <= i < |names| :: names[i] in files && r.value[i] == files[names[i]].event
    {
      var paths := SortNames(set name | name in files && IsJson(name));
      names := paths;
      assert forall k | 0 <= k < |paths| :: paths[k] in paths;
      assert forall name | name in files && IsJson(name) :: name in paths;
      hide Check;
      var events := [];
      for i := 0 to |paths|
        invariant |events| == i
        invariant forall k | 0 <= k < i ::
          && files[paths[k]].complete && Model.Valid(files[paths[k]].event, formats)
          && events[k] == files[paths[k]].event
      {
        var file := files[paths[i]];
        if !file.complete || Check(file.event, formats).Some? {
          return Err(Undecodable), names;
        }
        events := events + [file.event];
      }
      r := Ok(events);
    }

    /** `remove`; the file system may refuse. */
    method Remove(e: Event, fsOk: bool) returns (r: Result<(), SpoolError>)
      requires Valid()
      modifies this
      ensures Valid()
      ensures r.Ok? <==> fsOk && JsonName(e.eventId) in old(files)
      ensures files == if r.Ok? then old(files) - {JsonName(e.eventId)} else old(files)
    {
      var path := JsonName(e.eventId);
      if path !in files || !fsOk {
        return Err(Missing);
      }
      files := files - {path};
      return Ok(());
    }
  }
}
