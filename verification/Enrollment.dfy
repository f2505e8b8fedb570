/** Turning one-time codes into credentials, with several requests at work at once. */
module Enrollment {
  import opened Wrappers
  import opened Text
  import opened Queue

  /** A row of the enrollments table, by code. Hashes of codes are taken as the codes. */
  datatype Row = Row(name: string, expiresAt: Time, consumed: bool)

  datatype Refusal = BadName | BlankCode | FileExists | UnknownCode | WrongName | Used | Expired | Fault

  /** `validate_agent_name` */
  predicate ValidAgentName(name: string) {
    && 1 <= |name| <= 64 && name != "." && name != ".."
    && forall c | c in name ::
      'a' <= c <= 'z' || 'A' <= c <= 'Z' || '0' <= c <= '9' || c == '.' || c == '_' || c == '-'
  }

  /** 1 to 64 ASCII letters, digits, dots, underscores and hyphens, but no path of dots. */
  predicate GoodName(name: string) {
    && name != "" && |name| < 65 && name !in {".", ".."}
    && forall i | 0 <= i < |name| ::
      var c := name[i] as int;
      c in {45, 46, 95} || 48 <= c < 58 || 65 <= c < 91 || 97 <= c < 123
  }

  lemma NamesAre(name: string)
    ensures ValidAgentName(name) <==> GoodName(name)
  {
    if ValidAgentName(name) {
      assert forall i | 0 <= i < |name| :: name[i] in name;
    }
  }

  /** Why a code that was looked up is refused. */
  function RowRefusal(row: Option<Row>, name: string, now: Time): Option<Refusal> {
    if row.None? then Some(UnknownCode)
    else if row.value.name != name then Some(WrongName)
    else if row.value.consumed then Some(Used)
    else if now >= row.value.expiresAt then Some(Expired)
    else None
  }

  function RowOf(rows: map<string, Row>, code: string): Option<Row> {
    if code in rows then Some(rows[code]) else None
  }

  class EnrollmentDesk {
    var rows: map<string, Row>
    var files: map<string, string>

    constructor ()
      ensures rows == map[] && files == map[]
    {
      rows, files := map[], map[];
    }

    /** `consume_enrollment` without interference. The credential file is written before
        the commit, so a failing commit leaves it behind with the code not consumed. */
    method ConsumeEnrollment(name: string, code: string, now: Time, token: string, writeOk: bool, commitOk: bool)
      returns (r: Result<string, Refusal>)
      modifies this
      ensures r == (
        if !GoodName(name) then Err(BadName)
        else if IsBlank(code) then Err(BlankCode)
        else if name in old(files) then Err(FileExists)
        else if code !in old(rows) then Err(UnknownCode)
        else if old(rows)[code].name != name then Err(WrongName)
        else if old(rows)[code].consumed then Err(Used)
        else if old(rows)[code].expiresAt <= now then Err(Expired)
        else if writeOk && commitOk then Ok(token)
        else Err(Fault))
      ensures rows == if r.Ok? then old(rows)[code := old(rows)[code].(consumed := true)] else old(rows)
      ensures files == if r.Ok? || (r == Err(Fault) && writeOk) then old(files)[name := token] else old(files)
    {
      NamesAre(name);
      if !ValidAgentName(name) {
        return Err(BadName);
      }
      if IsBlank(code) {
        return Err(BlankCode);
      }
      if name in files {
        return Err(FileExists);
      }
      var row := RowOf(rows, code);
      var refusal := RowRefusal(row, name, now);
      if refusal.Some? {
        return Err(refusal.value);
      }
      var rows' := rows[code := row.value.(consumed := true)];
      if !writeOk {
        return Err(Fault);
      }
      files := files[name := token];
      if !commitOk {
        return Err(Fault);
      }
      rows := rows';
      return Ok(token);
    }
  }

  /** How far a request has come: it has seen no credential file; it has read its row in
      a snapshot of the database; it holds the write lock; it has written the file. */
  datatype Stage = Checked | Looked(version: nat, at: Time) | Locked(at: Time) | Wrote(at: Time, token: string)

  datatype Session = Session(name: string, code: string, stage: Stage)

  /** A committed consumption of a code: the request read the code at this time, wrote
      this token, and was or was not told of its success. */
  datatype Consumption = Consumption(name: string, code: string, token: string, at: Time, answered: bool)

  /** A credential written for a request. */
  datatype Credential = Credential(code: string, name: string, token: string)

  /** The database with its commit counter and write lock, the credential files, and the
      history of consumptions, of installed and of removed credentials. */
  datatype World = World(
    rows: map<string, Row>, version: nat, lock: Option<nat>, files: map<string, string>,
    sessions: map<nat, Session>,
    consumptions: seq<Consumption>, installed: set<Credential>, removed: set<string>)

  datatype Action =
    | AddCode(code: string, name: string, expiresAt: Time)
    | OtherCommit
    | Begin(id: nat, name: string, code: string)
    | Look(id: nat, now: Time)
    | Lock(id: nat)
    | Write(id: nat, token: string)
    | Commit(id: nat, answered: bool)
    | Stop(id: nat)
    | RemoveFile(name: string)

  const EMPTY := World(map[], 0, None, map[], map[], [], {}, {})

  predicate At(w: World, id: nat) {
    id in w.sessions
  }

  function To(w: World, id: nat, stage: Stage): World
    requires At(w, id)
  {
    w.(sessions := w.sessions[id := w.sessions[id].(stage := stage)])
  }

  /** The request ends; its transaction, if any, is rolled back. */
  function End(w: World, id: nat): World {
    w.(sessions := w.sessions - {id}, lock := if w.lock == Some(id) then None else w.lock)
  }

  predicate TokenUnused(w: World, token: string) {
    token !in w.removed && forall i | i in w.installed :: i.token != token
  }

  /** One step; an action that is not possible changes nothing. A snapshot that is no
      longer current cannot take the write lock. Linking the file fails if it exists. */
  function Step(w: World, a: Action): World {
    match a
    case AddCode(code, name, expiresAt) =>
      if w.lock.None? && code !in w.rows
      then w.(rows := w.rows[code := Row(name, expiresAt, false)], version := w.version + 1)
      else w
    case OtherCommit => if w.lock.None? then w.(version := w.version + 1) else w
    case Begin(id, name, code) =>
      if !At(w, id) && ValidAgentName(name) && !IsBlank(code) && name !in w.files
      then w.(sessions := w.sessions[id := Session(name, code, Checked)])
      else w
    case Look(id, now) =>
      if At(w, id) && w.sessions[id].stage.Checked? then
        var s := w.sessions[id];
        if RowRefusal(RowOf(w.rows, s.code), s.name, now).None? then To(w, id, Looked(w.version, now)) else End(w, id)
      else w
    case Lock(id) =>
      if At(w, id) && w.sessions[id].stage.Looked? then
        if w.lock.None? && w.sessions[id].stage.version == w.version
        then To(w, id, Locked(w.sessions[id].stage.at)).(lock := Some(id))
        else End(w, id)
      else w
    case Write(id, token) =>
      if At(w, id) && w.sessions[id].stage.Locked? && TokenUnused(w, token) then
        var s := w.sessions[id];
        if s.name in w.files then End(w, id)
        else To(w, id, Wrote(s.stage.at, token)).(
          files := w.files[s.name := token], installed := w.installed + {Credential(s.code, s.name, token)})
      else w
    case Commit(id, answered) =>
      if At(w, id) && w.sessions[id].stage.Wrote? && w.sessions[id].code in w.rows then
        var s := w.sessions[id];
        End(w, id).(
          rows := w.rows[s.code := w.rows[s.code].(consumed := true)],
          version := w.version + 1,
          consumptions := w.consumptions + [Consumption(s.name, s.code, s.stage.token, s.stage.at, answered)])
      else w
    case Stop(id) => End(w, id)
    case RemoveFile(name) =>
      if name in w.files then w.(files := w.files - {name}, removed := w.removed + {w.files[name]}) else w
  }

  function Run(actions: seq<Action>): World {
    if actions == [] then EMPTY else Step(Run(actions[..|actions| - 1]), actions[|actions| - 1])
  }

  /** The row is the session's, not consumed, and was not expired when read. */
  predicate Usable(w: World, s: Session, at: Time) {
    s.code in w.rows && w.rows[s.code].name == s.name && !w.rows[s.code].consumed && at < w.rows[s.code].expiresAt
  }

  ghost predicate GoodSession(w: World, id: nat, s: Session) {
    && (s.stage.Locked? || s.stage.Wrote? <==> w.lock == Some(id))
    && match s.stage
      case Checked => true
      case Looked(version, at) => version <= w.version && (version == w.version ==> Usable(w, s, at))
      case Locked(at) => Usable(w, s, at)
      case Wrote(at, token) => Usable(w, s, at) && Credential(s.code, s.name, token) in w.installed
  }

  ghost predicate GoodSessions(w: World) {
    && (w.lock.Some? ==> w.lock.value in w.sessions)
    && forall id | id in w.sessions :: GoodSession(w, id, w.sessions[id])
  }

  /** An installed credential is in its file unless it has been removed, every file is an
      installed credential that has not been, and no token is installed twice. */
  ghost predicate GoodFiles(w: World) {
    && (forall i | i in w.installed :: i.token in w.removed || (i.name in w.files && w.files[i.name] == i.token))
    && (forall name | name in w.files :: Installed(w, name, w.files[name]) && w.files[name] !in w.removed)
    && (forall i, j | i in w.installed && j in w.installed && i.token == j.token :: i == j)
  }

  ghost predicate Installed(w: World, name: string, token: string) {
    exists i :: i in w.installed && i.name == name && i.token == token
  }

  /** The code was the request's and in time, and its own credential was installed. */
  ghost predicate GoodConsumption(w: World, s: Consumption) {
    && s.code in w.rows && w.rows[s.code].consumed && w.rows[s.code].name == s.name
    && s.at < w.rows[s.code].expiresAt && Credential(s.code, s.name, s.token) in w.installed
  }

  ghost predicate GoodConsumptions(w: World) {
    && (forall k | 0 <= k < |w.consumptions| :: GoodConsumption(w, w.consumptions[k]))
    && (forall j, k | 0 <= j < k < |w.consumptions| :: w.consumptions[j].code != w.consumptions[k].code)
  }

  ghost predicate WasConsumed(w: World, code: string) {
    exists k :: 0 <= k < |w.consumptions| && w.consumptions[k].code == code
  }

  /** A code marked as consumed was consumed by a request. */
  ghost predicate MarksAreConsumptions(w: World) {
    forall code | code in w.rows && w.rows[code].consumed :: WasConsumed(w, code)
  }

  ghost predicate Inv(w: World) {
    GoodSessions(w) && GoodFiles(w) && GoodConsumptions(w) && MarksAreConsumptions(w)
  }

  lemma SessionsKept(w: World, a: Action)
    requires GoodSessions(w)
    ensures GoodSessions(Step(w, a))
  {
    hide ValidAgentName, IsBlank, TokenUnused, RowRefusal;
    match a
    case Look(id, now) =>
      if id in w.sessions && RowRefusal(RowOf(w.rows, w.sessions[id].code), w.sessions[id].name, now).None? {
        LookedUp(w, w.sessions[id], now);
      }
    case Commit(id, answered) => CommitKeepsSessions(w, id, answered);
    case Lock(id) => LockKeepsSessions(w, id);
    case Write(id, token) => WriteKeepsSessions(w, id, token);
    case _ =>
  }

  lemma LockKeepsSessions(w: World, id: nat)
    requires GoodSessions(w)
    ensures GoodSessions(Step(w, Lock(id)))
  {
  }

  lemma WriteKeepsSessions(w: World, id: nat, token: string)
    requires GoodSessions(w)
    ensures GoodSessions(Step(w, Write(id, token)))
  {
    hide TokenUnused;
  }

  lemma CommitKeepsSessions(w: World, id: nat, answered: bool)
    requires GoodSessions(w)
    ensures GoodSessions(Step(w, Commit(id, answered)))
  {
    hide ValidAgentName, IsBlank, TokenUnused, RowRefusal;
  }

  lemma LookedUp(w: World, s: Session, now: Time)
    requires RowRefusal(RowOf(w.rows, s.code), s.name, now).None?
    ensures Usable(w, s, now)
  {
  }

  lemma FilesKept(w: World, a: Action)
    requires GoodFiles(w)
    ensures GoodFiles(Step(w, a))
  {
    hide ValidAgentName, IsBlank, GoodFiles, TokenUnused, RowRefusal;
    match a
    case Write(id, token) => WriteKeepsFiles(w, id, token);
    case RemoveFile(name) =>
      forall other | other in w.files && name in w.files && w.files[name] == w.files[other] ensures name == other {
        RemovalRemovesOne(w, name, other);
      }
      NoNewFiles(w, Step(w, a));
    case _ => NoNewFiles(w, Step(w, a));
  }

  lemma NoNewFiles(w: World, w': World)
    requires GoodFiles(w) && w'.installed == w.installed && w.removed <= w'.removed
    requires forall name | name in w.files ::
      (name in w'.files && w'.files[name] == w.files[name]) || w.files[name] in w'.removed
    requires forall name | name in w'.files ::
      name in w.files && w.files[name] == w'.files[name] && w.files[name] !in w'.removed - w.removed
    ensures GoodFiles(w')
  {
    forall name | name in w'.files ensures Installed(w', name, w'.files[name]) && w'.files[name] !in w'.removed {
      assert Installed(w, name, w.files[name]);
    }
  }

  /** No two files hold one token. */
  lemma RemovalRemovesOne(w: World, name: string, other: string)
    requires GoodFiles(w) && name in w.files && other in w.files && w.files[name] == w.files[other]
    ensures name == other
  {
    assert Installed(w, name, w.files[name]) && Installed(w, other, w.files[other]);
  }

  lemma WriteKeepsFiles(w: World, id: nat, token: string)
    requires GoodFiles(w)
    ensures GoodFiles(Step(w, Write(id, token)))
  {
    var w' := Step(w, Write(id, token));
    if w' != w && w'.files != w.files {
      var s := w.sessions[id];
      assert w'.installed == w.installed + {Credential(s.code, s.name, token)};
      forall name | name in w'.files ensures Installed(w', name, w'.files[name]) {
        if name == s.name {
          assert Credential(s.code, s.name, token) in w'.installed;
        } else {
          var i :| i in w.installed && i.name == name && i.token == w.files[name];
          assert i in w'.installed;
        }
      }
    }
  }

  lemma ConsumptionsKept(w: World, a: Action)
    requires GoodSessions(w) && GoodConsumptions(w)
    ensures GoodConsumptions(Step(w, a))
  {
    hide ValidAgentName, IsBlank;
  }

  lemma MarksKept(w: World, a: Action)
    requires GoodSessions(w) && MarksAreConsumptions(w)
    ensures MarksAreConsumptions(Step(w, a))
  {
    hide ValidAgentName, IsBlank;
    var w' := Step(w, a);
    forall code | code in w'.rows && w'.rows[code].consumed ensures WasConsumed(w', code) {
      if code in w.rows && w.rows[code].consumed {
        var k :| 0 <= k < |w.consumptions| && w.consumptions[k].code == code;
        assert w'.consumptions[k] == w.consumptions[k];
      } else {
        assert w'.consumptions[|w.consumptions|].code == code;
      }
    }
  }

  lemma {:induction false} InvAlways(actions: seq<Action>)
    ensures Inv(Run(actions))
  {
    if actions != [] {
      var w, a := Run(actions[..|actions| - 1]), actions[|actions| - 1];
      InvAlways(actions[..|actions| - 1]);
      SessionsKept(w, a);
      FilesKept(w, a);
      ConsumptionsKept(w, a);
      MarksKept(w, a);
    }
  }

  /** Enrollment is single-use over all runs. A code is marked as consumed exactly if one
      request consumed it, and no two requests consume the same code or are given the same
      token. Each consumption was for the name of the code and read the code before it
      expired; its token was written for that very code, under that name, and is still
      there unless the file has been removed. */
  lemma EnrollmentSingleUse(actions: seq<Action>)
    ensures var w := Run(actions);
      && (forall code | code in w.rows :: w.rows[code].consumed <==> WasConsumed(w, code))
      && (forall j, k | 0 <= j < k < |w.consumptions| ::
        w.consumptions[j].code != w.consumptions[k].code && w.consumptions[j].token != w.consumptions[k].token)
      && (forall k | 0 <= k < |w.consumptions| ::
        var s := w.consumptions[k];
        && s.code in w.rows && w.rows[s.code].name == s.name && s.at < w.rows[s.code].expiresAt
        && Credential(s.code, s.name, s.token) in w.installed
        && (s.token in w.removed || (s.name in w.files && w.files[s.name] == s.token)))
  {
    InvAlways(actions);
    var w := Run(actions);
    forall k | 0 <= k < |w.consumptions|
      ensures GoodConsumption(w, w.consumptions[k])
    {
    }
    forall j, k | 0 <= j < k < |w.consumptions|
      ensures w.consumptions[j].code != w.consumptions[k].code && w.consumptions[j].token != w.consumptions[k].token
    {
      var a, b := w.consumptions[j], w.consumptions[k];
      assert GoodConsumption(w, a) && GoodConsumption(w, b);
      assert Credential(a.code, a.name, a.token) != Credential(b.code, b.name, b.token);
    }
  }

  /** When a name is blocked: a request for it is refused because of its credential file
      exactly if some request, successful or not, installed a credential under the name
      that has not been removed. */
  lemma BlockedIff(actions: seq<Action>, name: string)
    ensures var w := Run(actions);
      name in w.files <==> exists i :: i in w.installed && i.name == name && i.token !in w.removed
  {
    InvAlways(actions);
    var w := Run(actions);
    if name in w.files {
      assert Installed(w, name, w.files[name]);
    }
  }

  /** The code is good, but the file of its name is in the way and nobody will consume it. */
  ghost predicate Orphaned(w: World, name: string, code: string) {
    && name in w.files && code in w.rows && w.rows[code].name == name && !w.rows[code].consumed
    && forall id | id in w.sessions && w.sessions[id].stage.Wrote? :: w.sessions[id].code != code
  }

  lemma OrphanedKept(w: World, a: Action, name: string, code: string)
    requires GoodSessions(w) && Orphaned(w, name, code) && a != RemoveFile(name)
    ensures Orphaned(Step(w, a), name, code)
  {
    hide ValidAgentName, IsBlank, RowRefusal, TokenUnused;
  }

  lemma RunMore(actions: seq<Action>, a: Action)
    ensures Run(actions + [a]) == Step(Run(actions), a)
  {
    assert (actions + [a])[..|actions|] == actions;
  }

  /** A rollback after the credential was written blocks the code: until the file is
      removed it stays in place, every request for the name is refused, and the code is
      not consumed, not even by requests that are already under way. */
  lemma {:induction false} RollbackBlocks(actions: seq<Action>, id: nat, more: seq<Action>)
    requires var w := Run(actions);
      At(w, id) && w.sessions[id].stage.Wrote? && w.sessions[id].name in w.files
    requires forall a | a in more :: a != RemoveFile(Run(actions).sessions[id].name)
    ensures var s := Run(actions).sessions[id];
      Orphaned(Run(actions + [Stop(id)] + more), s.name, s.code)
  {
    hide Step, Orphaned;
    var w, s := Run(actions), Run(actions).sessions[id];
    if more == [] {
      InvAlways(actions);
      RunMore(actions, Stop(id));
      assert actions + [Stop(id)] + [] == actions + [Stop(id)];
      WrittenIsOrphaned(w, id);
    } else {
      var m := |more| - 1;
      assert more[m] in more && forall a | a in more[..m] :: a in more;
      RollbackBlocks(actions, id, more[..m]);
      InvAlways(actions + [Stop(id)] + more[..m]);
      RunMore(actions + [Stop(id)] + more[..m], more[m]);
      assert actions + [Stop(id)] + more == actions + [Stop(id)] + more[..m] + [more[m]];
      OrphanedKept(Run(actions + [Stop(id)] + more[..m]), more[m], s.name, s.code);
    }
  }

  lemma WrittenIsOrphaned(w: World, id: nat)
    requires Inv(w) && At(w, id) && w.sessions[id].stage.Wrote? && w.sessions[id].name in w.files
    ensures Orphaned(Step(w, Stop(id)), w.sessions[id].name, w.sessions[id].code)
  {
    assert GoodSession(w, id, w.sessions[id]);
  }

  /** A request that is not disturbed goes through exactly when the sequential code
      does, and has the same effect. */
  lemma AloneIsSequential(w: World, id: nat, name: string, code: string, now: Time, token: string)
    requires w.lock.None? && id !in w.sessions && TokenUnused(w, token)
    ensures var w' := Step(Step(Step(Step(Step(w,
        Begin(id, name, code)), Look(id, now)), Lock(id)), Write(id, token)), Commit(id, true));
      if GoodName(name) && !IsBlank(code) && name !in w.files && code in w.rows
        && w.rows[code].name == name && !w.rows[code].consumed && now < w.rows[code].expiresAt
      then
        && w'.rows == w.rows[code := w.rows[code].(consumed := true)] && w'.files == w.files[name := token]
        && w'.consumptions == w.consumptions + [Consumption(name, code, token, now, true)]
        && w'.installed == w.installed + {Credential(code, name, token)}
      else w'.rows == w.rows && w'.files == w.files && w'.consumptions == w.consumptions
  {
    NamesAre(name);
    hide ValidAgentName, GoodName, IsBlank;
    var w1 := Step(w, Begin(id, name, code));
    var w2 := Step(w1, Look(id, now));
    var w3 := Step(w2, Lock(id));
    var w4 := Step(w3, Write(id, token));
    if At(w1, id) && RowRefusal(RowOf(w.rows, code), name, now).None? {
      assert w2.sessions[id] == Session(name, code, Looked(w.version, now));
      assert w3.sessions[id] == Session(name, code, Locked(now));
      assert w4.sessions[id] == Session(name, code, Wrote(now, token));
    } else {
      assert id !in w2.sessions;
    }
  }

  /** Removing the file is the way out: then an undisturbed request consumes the code if
      it has not expired. */
  lemma RemovalUnblocks(w: World, id: nat, name: string, code: string, now: Time, token: string)
    requires Orphaned(w, name, code) && GoodName(name) && !IsBlank(code) && now < w.rows[code].expiresAt
    requires w.lock.None? && id !in w.sessions
    requires TokenUnused(Step(w, RemoveFile(name)), token)
    ensures var w' := Step(Step(Step(Step(Step(Step(w, RemoveFile(name)),
        Begin(id, name, code)), Look(id, now)), Lock(id)), Write(id, token)), Commit(id, true));
      && w'.consumptions == w.consumptions + [Consumption(name, code, token, now, true)]
      && name in w'.files && w'.files[name] == token && code in w'.rows && w'.rows[code].consumed
  {
    hide GoodName, IsBlank;
    AloneIsSequential(Step(w, RemoveFile(name)), id, name, code, now, token);
  }
}
