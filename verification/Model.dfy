/** Events, alerts and the limits an event must meet. */
module Model {
  import opened Wrappers
  import opened Text
  import opened Json

  datatype EventState = Firing | Resolved | Info

  datatype Severity = Critical | Warning | Info

  datatype AlertStatus = Firing | Resolved | Info

  /** `facts` lists the entries of the map in key order. */
  datatype Event = Event(
    schemaVersion: nat, eventId: string, eventType: string, source: string, hostId: string,
    state: EventState, severity: Severity, fingerprint: string, occurredAt: string,
    facts: seq<Entry>)

  datatype AlertRecord = AlertRecord(
    fingerprint: string, status: AlertStatus, severity: Severity, eventType: string,
    source: string, hostId: string, openedAt: string, lastSeen: string,
    resolvedAt: Option<string>, eventCount: nat, lastEventId: string)

  /** The parsers of UUIDs and RFC 3339 timestamps, which are not part of this model. */
  datatype Formats = Formats(isUuid: string -> bool, isTimestamp: string -> bool)

  datatype ValidationError =
    | UnsupportedSchema(version: nat)
    | EmptyField(name: string)
    | FieldTooLong(name: string)
    | NotAUuid
    | NotATimestamp
    | TooManyFacts
    | FactTooLong(key: string)

  const FACT_LIMIT := 4096
  const BODY_LIMIT := 256 * 1024

  function RequireField(name: string, value: string, maxBytes: nat): Option<ValidationError> {
    if IsBlank(value) then Some(EmptyField(name))
    else if ByteLen(value) > maxBytes then Some(FieldTooLong(name))
    else None
  }

  function CheckFacts(facts: seq<Entry>): Option<ValidationError> {
    if facts == [] then None else
      var bad := RequireField("fact key", facts[0].key, 64);
      if bad.Some? then bad
      else if ByteLen(Encode(facts[0].value)) > FACT_LIMIT then Some(FactTooLong(facts[0].key))
      else CheckFacts(facts[1..])
  }

  /** `Event::validate`: the first check that fails, in the order they are made. */
  function Check(e: Event, formats: Formats): Option<ValidationError> {
    if e.schemaVersion != 1 then Some(UnsupportedSchema(e.schemaVersion)) else
    var id := RequireField("event_id", e.eventId, 128);
    if id.Some? then id else
    if !formats.isUuid(e.eventId) then Some(NotAUuid) else
    var kind := RequireField("event_type", e.eventType, 128);
    if kind.Some? then kind else
    var source := RequireField("source", e.source, 128);
    if source.Some? then source else
    var host := RequireField("host_id", e.hostId, 128);
    if host.Some? then host else
    var fingerprint := RequireField("fingerprint", e.fingerprint, 256);
    if fingerprint.Some? then fingerprint else
    var occurred := RequireField("occurred_at", e.occurredAt, 64);
    if occurred.Some? then occurred else
    if !formats.isTimestamp(e.occurredAt) then Some(NotATimestamp) else
    if |e.facts| > 32 then Some(TooManyFacts)
    else CheckFacts(e.facts)
  }

  predicate Valid(e: Event, formats: Formats) {
    Check(e, formats).None?
  }

  /** Which events are valid. */
  lemma ValidExact(e: Event, formats: Formats)
    ensures Valid(e, formats) <==>
      && e.schemaVersion == 1
      && formats.isUuid(e.eventId) && formats.isTimestamp(e.occurredAt)
      && !IsBlank(e.eventId) && ByteLen(e.eventId) <= 128
      && !IsBlank(e.eventType) && ByteLen(e.eventType) <= 128
      && !IsBlank(e.source) && ByteLen(e.source) <= 128
      && !IsBlank(e.hostId) && ByteLen(e.hostId) <= 128
      && !IsBlank(e.fingerprint) && ByteLen(e.fingerprint) <= 256
      && !IsBlank(e.occurredAt) && ByteLen(e.occurredAt) <= 64
      && |e.facts| <= 32
      && forall f | f in e.facts :: !IsBlank(f.key) && ByteLen(f.key) <= 64 && ByteLen(Encode(f.value)) <= 4096
  {
    hide IsBlank, ByteLen, Encode;
    FactsExact(e.facts);
  }

  lemma {:induction false} FactsExact(facts: seq<Entry>)
    ensures CheckFacts(facts).None? <==>
      forall f | f in facts :: !IsBlank(f.key) && ByteLen(f.key) <= 64 && ByteLen(Encode(f.value)) <= 4096
  {
    hide IsBlank, ByteLen, Encode;
    if facts != [] {
      FactsExact(facts[1..]);
      assert facts == [facts[0]] + facts[1..];
    }
  }

  /** One thing that may be wrong with an event, in the order in which it is looked for. */
  datatype Defect = Defect(present: bool, reason: ValidationError)

  function TextDefects(name: string, value: string, maxBytes: nat): seq<Defect> {
    [Defect(IsBlank(value), EmptyField(name)), Defect(ByteLen(value) > maxBytes, FieldTooLong(name))]
  }

  function FactDefects(facts: seq<Entry>): seq<Defect> {
    if facts == [] then [] else
      TextDefects("fact key", facts[0].key, 64)
      + ([Defect(ByteLen(Encode(facts[0].value)) > 4096, FactTooLong(facts[0].key))] + FactDefects(facts[1..]))
  }

  function Defects(e: Event, formats: Formats): seq<Defect> {
    [Defect(e.schemaVersion != 1, UnsupportedSchema(e.schemaVersion))]
    + (TextDefects("event_id", e.eventId, 128)
    + ([Defect(!formats.isUuid(e.eventId), NotAUuid)]
    + (TextDefects("event_type", e.eventType, 128)
    + (TextDefects("source", e.source, 128)
    + (TextDefects("host_id", e.hostId, 128)
    + (TextDefects("fingerprint", e.fingerprint, 256)
    + (TextDefects("occurred_at", e.occurredAt, 64)
    + ([Defect(!formats.isTimestamp(e.occurredAt), NotATimestamp)]
    + ([Defect(|e.facts| > 32, TooManyFacts)]
    + FactDefects(e.facts))))))))))
  }

  function FirstDefect(defects: seq<Defect>): Option<ValidationError> {
    if defects == [] then None
    else if defects[0].present then Some(defects[0].reason) else FirstDefect(defects[1..])
  }

  lemma OneMore(defect: Defect, rest: seq<Defect>)
    ensures FirstDefect([defect] + rest) == if defect.present then Some(defect.reason) else FirstDefect(rest)
  {
    assert ([defect] + rest)[1..] == rest;
  }

  lemma TextMore(name: string, value: string, maxBytes: nat, rest: seq<Defect>)
    ensures FirstDefect(TextDefects(name, value, maxBytes) + rest) ==
      if IsBlank(value) then Some(EmptyField(name))
      else if ByteLen(value) > maxBytes then Some(FieldTooLong(name))
      else FirstDefect(rest)
  {
    var blank, long := Defect(IsBlank(value), EmptyField(name)), Defect(ByteLen(value) > maxBytes, FieldTooLong(name));
    assert TextDefects(name, value, maxBytes) + rest == [blank] + ([long] + rest);
    OneMore(blank, [long] + rest);
    OneMore(long, rest);
  }

  lemma {:induction false} FactReasons(facts: seq<Entry>)
    ensures CheckFacts(facts) == FirstDefect(FactDefects(facts))
  {
    hide IsBlank, ByteLen, Encode, TextDefects;
    if facts != [] {
      FactReasons(facts[1..]);
      var long := Defect(ByteLen(Encode(facts[0].value)) > 4096, FactTooLong(facts[0].key));
      OneMore(long, FactDefects(facts[1..]));
      TextMore("fact key", facts[0].key, 64, [long] + FactDefects(facts[1..]));
    }
  }

  /** The reason given is the first defect. */
  lemma ReasonIsFirstDefect(e: Event, formats: Formats)
    ensures Check(e, formats) == FirstDefect(Defects(e, formats))
  {
    hide IsBlank, ByteLen, Encode, TextDefects, FirstDefect;
    FactReasons(e.facts);
    var r9 := FactDefects(e.facts);
    var many := Defect(|e.facts| > 32, TooManyFacts);
    OneMore(many, r9);
    var r8 := [many] + r9;
    var time := Defect(!formats.isTimestamp(e.occurredAt), NotATimestamp);
    OneMore(time, r8);
    var r7 := [time] + r8;
    TextMore("occurred_at", e.occurredAt, 64, r7);
    var r6 := TextDefects("occurred_at", e.occurredAt, 64) + r7;
    TextMore("fingerprint", e.fingerprint, 256, r6);
    var r5 := TextDefects("fingerprint", e.fingerprint, 256) + r6;
    TextMore("host_id", e.hostId, 128, r5);
    var r4 := TextDefects("host_id", e.hostId, 128) + r5;
    TextMore("source", e.source, 128, r4);
    var r3 := TextDefects("source", e.source, 128) + r4;
    TextMore("event_type", e.eventType, 128, r3);
    var r2 := TextDefects("event_type", e.eventType, 128) + r3;
    var uuid := Defect(!formats.isUuid(e.eventId), NotAUuid);
    OneMore(uuid, r2);
    var r1 := [uuid] + r2;
    TextMore("event_id", e.eventId, 128, r1);
    var r0 := TextDefects("event_id", e.eventId, 128) + r1;
    OneMore(Defect(e.schemaVersion != 1, UnsupportedSchema(e.schemaVersion)), r0);
  }

  function StateText(s: EventState): string {
    match s case Firing => "firing" case Resolved => "resolved" case Info => "info"
  }

  function SeverityText(s: Severity): string {
    match s case Critical => "critical" case Warning => "warning" case Info => "info"
  }

  function Decimal(n: nat): string {
    if n < 10 then ["0123456789"[n]] else Decimal(n / 10) + ["0123456789"[n % 10]]
  }

  lemma LastDigit(n: nat)
    requires n < 10
    ensures "0123456789"[n] as int == '0' as int + n
  {
  }

  lemma {:induction false} DecimalIsValue(n: nat)
    ensures IsDecimal(Decimal(n)) && DecimalValue(Decimal(n)) == n
    ensures |Decimal(n)| > 0 && (n > 0 ==> Decimal(n)[0] != '0')
  {
    if n >= 10 {
      DecimalIsValue(n / 10);
      var s, d := Decimal(n / 10), "0123456789"[n % 10];
      LastDigit(n % 10);
      assert (s + [d])[..|s|] == s;
    } else {
      LastDigit(n);
      assert Decimal(n)[..0] == "";
    }
  }

  /** The members of an encoded event before its facts, in declaration order. */
  function ScalarMember(e: Event, i: nat): Entry
    requires i < 9
  {
    if i == 0 then Entry("schema_version", Number(Decimal(e.schemaVersion)))
    else if i == 1 then Entry("event_id", Str(e.eventId))
    else if i == 2 then Entry("event_type", Str(e.eventType))
    else if i == 3 then Entry("source", Str(e.source))
    else if i == 4 then Entry("host_id", Str(e.hostId))
    else if i == 5 then Entry("state", Str(StateText(e.state)))
    else if i == 6 then Entry("severity", Str(SeverityText(e.severity)))
    else if i == 7 then Entry("fingerprint", Str(e.fingerprint))
    else Entry("occurred_at", Str(e.occurredAt))
  }

  function ScalarMembers(e: Event): seq<Entry> {
    seq(9, i requires 0 <= i < 9 => ScalarMember(e, i))
  }

  /** The body the agent posts. */
  function ToJson(e: Event): Json {
    Object(ScalarMembers(e) + [Entry("facts", Object(e.facts))])
  }

  /** The members of an encoded event, by name. */
  lemma EventMembers(e: Event)
    ensures ToJson(e) == Object([
      Entry("schema_version", Number(Decimal(e.schemaVersion))),
      Entry("event_id", Str(e.eventId)),
      Entry("event_type", Str(e.eventType)),
      Entry("source", Str(e.source)),
      Entry("host_id", Str(e.hostId)),
      Entry("state", Str(StateText(e.state))),
      Entry("severity", Str(SeverityText(e.severity))),
      Entry("fingerprint", Str(e.fingerprint)),
      Entry("occurred_at", Str(e.occurredAt)),
      Entry("facts", Object(e.facts))])
  {
  }

  lemma StateTexts()
    ensures StateText(EventState.Firing) == "firing" && StateText(EventState.Resolved) == "resolved"
    ensures StateText(EventState.Info) == "info" && SeverityText(Severity.Critical) == "critical"
    ensures SeverityText(Severity.Warning) == "warning" && SeverityText(Severity.Info) == "info"
  {
  }

  /** The text a scalar member quotes; the schema version is a number. */
  function ScalarText(e: Event, i: nat): string
    requires 0 < i < 9
  {
    ScalarMember(e, i).value.s
  }

  lemma ScalarTextBound(e: Event, formats: Formats, i: nat)
    requires Valid(e, formats) && 0 < i < 9
    ensures ByteLen(ScalarText(e, i)) <= 256
  {
    assert |StateText(e.state)| <= 8 && |SeverityText(e.severity)| <= 8;
  }

  lemma StrCost(key: string, s: string)
    requires |key| <= 14 && ByteLen(s) <= 256
    ensures Cost(Entry(key, Str(s))) <= 1878
  {
    QuoteGrowth(s);
  }

  lemma SchemaMember(e: Event, formats: Formats)
    requires Valid(e, formats)
    ensures ScalarMember(e, 0) == Entry("schema_version", Number("1"))
  {
    assert Decimal(1) == "1";
  }

  lemma SchemaCost()
    ensures Cost(Entry("schema_version", Number("1"))) <= 1878
  {
    assert |"schema_version"| == 14;
  }

  lemma ScalarCost(e: Event, formats: Formats, i: nat)
    requires Valid(e, formats) && i < 9
    ensures Cost(ScalarMember(e, i)) <= 1878
  {
    hide Check, Cost, Encode;
    if i == 0 {
      SchemaMember(e, formats);
      SchemaCost();
    } else {
      ScalarTextBound(e, formats, i);
      StrCost(ScalarMember(e, i).key, ScalarText(e, i));
    }
  }

  lemma {:induction false} FactCost(facts: seq<Entry>)
    requires CheckFacts(facts).None?
    ensures forall f | f in facts :: Cost(f) <= 4484
  {
    if facts != [] {
      FactCost(facts[1..]);
    }
  }

  lemma FactsBound(facts: seq<Entry>)
    requires CheckFacts(facts).None? && |facts| <= 32
    ensures ByteLen(Encode(Object(facts))) <= 32 * 4484 + 2
  {
    FactCost(facts);
    UniformBudget(facts, 4484);
    ObjectWithinBudget(facts);
  }

  lemma BodyBound(scalars: seq<Entry>, facts: seq<Entry>)
    requires |scalars| == 9 && forall m | m in scalars :: Cost(m) <= 1878
    requires CheckFacts(facts).None? && |facts| <= 32
    ensures ByteLen(Encode(Object(scalars + [Entry("facts", Object(facts))]))) < BODY_LIMIT
  {
    hide Encode, CheckFacts, Cost, Budget, ByteLen;
    UniformBudget(scalars, 1878);
    var last := Entry("facts", Object(facts));
    FactsMemberCost(facts);
    SingleBudget(last);
    BudgetConcat(scalars, [last]);
    ObjectWithinBudget(scalars + [last]);
  }

  lemma FactsMemberCost(facts: seq<Entry>)
    requires CheckFacts(facts).None? && |facts| <= 32
    ensures Cost(Entry("facts", Object(facts))) <= 120 + 4 + 32 * 4484 + 2
  {
    hide Encode, CheckFacts;
    FactsBound(facts);
    assert |"facts"| == 5;
  }

  lemma SingleBudget(m: Entry)
    ensures Budget([m]) == Cost(m)
  {
    assert [m][1..] == [];
  }

  /** Every valid event fits the server's body limit. */
  lemma ValidEventFitsBody(e: Event, formats: Formats)
    requires Valid(e, formats)
    ensures ByteLen(Encode(ToJson(e))) < BODY_LIMIT
  {
    var scalars := ScalarMembers(e);
    forall m | m in scalars ensures Cost(m) <= 1878 {
      var i :| 0 <= i < 9 && m == ScalarMember(e, i);
      ScalarCost(e, formats, i);
    }
    BodyBound(scalars, e.facts);
  }
}
