/** Turning an event and its alert into a message. */
module Rendering {
  import opened Wrappers
  import opened Text
  import opened Json
  import opened Model
  import opened Templates

  datatype MessageFormats = MessageFormats(firing: string, resolved: string, info: string)

  datatype StateMessage = StateMessage(detail: string, action: string)

  datatype FieldTemplate = FieldTemplate(caption: string, fact: string)

  datatype EventMessages = EventMessages(
    title: string, firing: StateMessage, resolved: StateMessage, info: StateMessage,
    fields: seq<FieldTemplate>)

  datatype MessageTemplates = MessageTemplates(formats: MessageFormats, events: map<string, EventMessages>)

  predicate GoodField(f: FieldTemplate) {
    && !IsBlank(f.caption) && ByteLen(f.caption) <= 128
    && !IsBlank(f.fact) && ByteLen(f.fact) <= 64
  }

  predicate GoodState(m: StateMessage) {
    ByteLen(m.detail) <= 1024 && ByteLen(m.action) <= 512
  }

  predicate GoodMessages(m: EventMessages) {
    && !IsBlank(m.title) && ByteLen(m.title) <= 256
    && GoodState(m.firing) && GoodState(m.resolved) && GoodState(m.info)
    && |m.fields| <= 16 && forall f | f in m.fields :: GoodField(f)
  }

  /** What `MessageTemplates::validate` accepts. */
  ghost predicate ValidTemplates(t: MessageTemplates) {
    && Accepted(t.formats.firing) && Accepted(t.formats.resolved) && Accepted(t.formats.info)
    && |t.events| <= 256
    && forall kind | kind in t.events ::
      !IsBlank(kind) && ByteLen(kind) <= 128 && GoodMessages(t.events[kind])
  }

  method GoodText(text: string, maxBytes: nat) returns (ok: bool)
    ensures ok <==> !IsBlank(text) && ByteLen(text) <= maxBytes
  {
    return !IsBlank(text) && ByteLen(text) <= maxBytes;
  }

  /** The checks on what is configured for one type of event. */
  method ValidateMessages(m: EventMessages) returns (ok: bool)
    ensures ok <==> GoodMessages(m)
  {
    var title := GoodText(m.title, 256);
    if !title {
      return false;
    }
    var states := [m.firing, m.resolved, m.info];
    for i := 0 to |states|
      invariant forall k | 0 <= k < i :: GoodState(states[k])
    {
      if ByteLen(states[i].detail) > 1024 || ByteLen(states[i].action) > 512 {
        return false;
      }
    }
    assert GoodState(states[0]) && GoodState(states[1]) && GoodState(states[2]);
    if |m.fields| > 16 {
      return false;
    }
    for i := 0 to |m.fields|
      invariant forall k | 0 <= k < i :: GoodField(m.fields[k])
    {
      assert m.fields[i] in m.fields;
      var caption := GoodText(m.fields[i].caption, 128);
      var fact := GoodText(m.fields[i].fact, 64);
      if !caption || !fact {
        return false;
      }
    }
    forall f | f in m.fields ensures GoodField(f) {
      var k :| 0 <= k < |m.fields| && m.fields[k] == f;
    }
    return true;
  }

  /** `MessageTemplates::validate` */
  method Validate(t: MessageTemplates) returns (ok: bool)
    ensures ok <==> ValidTemplates(t)
  {
    hide Accepted, GoodMessages;
    var formats := [t.formats.firing, t.formats.resolved, t.formats.info];
    for i := 0 to |formats|
      invariant forall k | 0 <= k < i :: Accepted(formats[k])
    {
      var accepted := ValidateTemplate(formats[i]);
      if accepted.Err? {
        return false;
      }
    }
    assert Accepted(formats[0]) && Accepted(formats[1]) && Accepted(formats[2]);
    if |t.events| > 256 {
      return false;
    }
    var kinds := t.events.Keys;
    while kinds != {}
      invariant kinds <= t.events.Keys
      invariant forall kind | kind in t.events && kind !in kinds ::
        !IsBlank(kind) && ByteLen(kind) <= 128 && GoodMessages(t.events[kind])
      decreases kinds
    {
      var kind :| kind in kinds;
      kinds := kinds - {kind};
      var named := GoodText(kind, 128);
      var good := ValidateMessages(t.events[kind]);
      if !named || !good {
        return false;
      }
    }
    return true;
  }

  function HumanHost(host: string): string {
    if host == "media" then "Media"
    else if host == "ops" then "Ops"
    else if host == "backup" then "Backup"
    else if host == "pve" then "PVE"
    else if host == "private-cloud" then "Private Cloud"
    else "Infrastructure"
  }

  function Lookup(facts: seq<Entry>, key: string): Option<Json> {
    if facts == [] then None
    else if facts[0].key == key then Some(facts[0].value)
    else Lookup(facts[1..], key)
  }

  /** Only strings, numbers and booleans are shown. */
  function FactText(value: Json): Option<string> {
    match value
    case Str(s) => Some(s)
    case Number(text) => Some(text)
    case Bool(b) => Some(if b then "true" else "false")
    case _ => None
  }

  function WithoutControls(s: string): string {
    if s == [] then [] else
      (if IsControl(s[0]) then [] else [s[0]]) + WithoutControls(s[1..])
  }

  function Shown(s: string): (r: string)
    ensures |r| <= 256
  {
    var clean := WithoutControls(s);
    if |clean| <= 256 then clean else clean[..256]
  }

  function FieldLine(facts: seq<Entry>, f: FieldTemplate): Option<string> {
    match Lookup(facts, f.fact)
    case None => None
    case Some(value) =>
      match FactText(value)
      case None => None
      case Some(text) => Some(f.caption + ": " + Shown(text))
  }

  function FieldLines(facts: seq<Entry>, fields: seq<FieldTemplate>): seq<string> {
    if fields == [] then [] else
      var line := FieldLine(facts, fields[0]);
      (if line.Some? then [line.value] else []) + FieldLines(facts, fields[1..])
  }

  function RenderFields(e: Event, fields: seq<FieldTemplate>): string {
    Join(FieldLines(e.facts, fields), "\n")
  }

  function FormatFor(status: AlertStatus, formats: MessageFormats): string {
    match status case Firing => formats.firing case Resolved => formats.resolved case Info => formats.info
  }

  function MessageFor(status: AlertStatus, m: EventMessages): StateMessage {
    match status case Firing => m.firing case Resolved => m.resolved case Info => m.info
  }

  function Icon(status: AlertStatus): string {
    match status case Firing => "\U{1F6A8}" case Resolved => "\U{2705}" case Info => "\U{2139}\U{FE0F}"
  }

  function StatusLine(status: AlertStatus): string {
    match status case Firing => "ALERT FIRING" case Resolved => "ALERT RESOLVED" case Info => "INFORMATION"
  }

  function FallbackDetail(status: AlertStatus): string {
    match status
    case Firing => "A monitored condition requires attention."
    case Resolved => "The monitored condition has recovered."
    case Info => "An operational event was recorded."
  }

  function FallbackAction(status: AlertStatus): string {
    match status
    case Firing => "Check the corresponding runbook."
    case _ => "No immediate action required."
  }

  function Title(messages: Option<EventMessages>): string {
    if messages.Some? then messages.value.title else "Monitored condition"
  }

  function Detail(status: AlertStatus, messages: Option<EventMessages>): string {
    if messages.Some? && MessageFor(status, messages.value).detail != ""
    then MessageFor(status, messages.value).detail else FallbackDetail(status)
  }

  function Action(status: AlertStatus, messages: Option<EventMessages>): string {
    if messages.Some? && MessageFor(status, messages.value).action != ""
    then MessageFor(status, messages.value).action else FallbackAction(status)
  }

  function Fields(e: Event, messages: Option<EventMessages>): string {
    if messages.Some? then RenderFields(e, messages.value.fields) else ""
  }

  /** The value of a placeholder. */
  function ValueOf(name: string, e: Event, alert: AlertRecord, messages: Option<EventMessages>): string {
    if name == "icon" then Icon(alert.status)
    else if name == "status" then StatusLine(alert.status)
    else if name == "host" then HumanHost(e.hostId)
    else if name == "title" then Title(messages)
    else if name == "detail" then Detail(alert.status, messages)
    else if name == "action" then Action(alert.status, messages)
    else if name == "severity" then SeverityText(alert.severity)
    else Fields(e, messages)
  }

  function Values(e: Event, alert: AlertRecord, messages: Option<EventMessages>): map<string, string> {
    map name | name in PLACEHOLDERS :: ValueOf(name, e, alert, messages)
  }

  /** What is configured for the type of an event. */
  function MessagesOf(e: Event, templates: MessageTemplates): Option<EventMessages> {
    if e.eventType in templates.events then Some(templates.events[e.eventType]) else None
  }

  /** `render_event`: the format follows the status of the alert, not of the event. */
  function RenderEvent(e: Event, alert: AlertRecord, templates: MessageTemplates): string {
    Rendered(FormatFor(alert.status, templates.formats), Values(e, alert, MessagesOf(e, templates)))
  }

  const LINE_BYTES := 128 + 2 + 4 * 256
  const FIELDS_BYTES := 18479

  lemma {:induction false} LinesBound(facts: seq<Entry>, fields: seq<FieldTemplate>)
    requires forall f | f in fields :: GoodField(f)
    ensures |FieldLines(facts, fields)| <= |fields|
    ensures forall line | line in FieldLines(facts, fields) :: ByteLen(line) <= LINE_BYTES
  {
    if fields != [] {
      LinesBound(facts, fields[1..]);
      assert fields[0] in fields;
      var line := FieldLine(facts, fields[0]);
      if line.Some? {
        var text := FactText(Lookup(facts, fields[0].fact).value).value;
        ByteLenConcat(fields[0].caption + ": ", Shown(text));
        ByteLenConcat(fields[0].caption, ": ");
        assert ": "[1..][1..] == [];
      }
    }
  }

  lemma {:induction false} JoinedLinesBound(lines: seq<string>)
    requires lines != [] && forall line | line in lines :: ByteLen(line) <= LINE_BYTES
    ensures ByteLen(Join(lines, "\n")) <= |lines| * (LINE_BYTES + 1) - 1
  {
    assert lines[0] in lines;
    if |lines| > 1 {
      JoinedLinesBound(lines[1..]);
      ByteLenConcat(lines[0] + "\n", Join(lines[1..], "\n"));
      ByteLenConcat(lines[0], "\n");
    }
  }

  lemma FieldsBound(e: Event, messages: Option<EventMessages>)
    requires messages.Some? ==> GoodMessages(messages.value)
    ensures ByteLen(Fields(e, messages)) <= FIELDS_BYTES
  {
    if messages.Some? {
      LinesBound(e.facts, messages.value.fields);
      var lines := FieldLines(e.facts, messages.value.fields);
      if lines != [] {
        JoinedLinesBound(lines);
      }
    }
  }

  /** How long a placeholder's value may get. */
  function Cap(name: string): nat {
    if name == "fields" then FIELDS_BYTES else 1024
  }

  lemma FixedTextBound(host: string, status: AlertStatus, severity: Severity)
    ensures |Icon(status)| <= 2 && |StatusLine(status)| <= 14 && |HumanHost(host)| <= 14
    ensures |FallbackDetail(status)| <= 41 && |FallbackAction(status)| <= 32 && |SeverityText(severity)| <= 8
  {
  }

  lemma TitleBound(messages: Option<EventMessages>)
    requires messages.Some? ==> GoodMessages(messages.value)
    ensures ByteLen(Title(messages)) <= 1024
  {
    assert messages.None? ==> |Title(messages)| == 19;
  }

  lemma DetailBound(status: AlertStatus, messages: Option<EventMessages>)
    requires messages.Some? ==> GoodMessages(messages.value)
    ensures ByteLen(Detail(status, messages)) <= 1024
  {
    FixedTextBound("", status, Severity.Info);
  }

  lemma ActionBound(status: AlertStatus, messages: Option<EventMessages>)
    requires messages.Some? ==> GoodMessages(messages.value)
    ensures ByteLen(Action(status, messages)) <= 1024
  {
    FixedTextBound("", status, Severity.Info);
  }

  lemma ValueBound(name: string, e: Event, alert: AlertRecord, messages: Option<EventMessages>)
    requires messages.Some? ==> GoodMessages(messages.value)
    requires IsPlaceholder(name)
    ensures ByteLen(ValueOf(name, e, alert, messages)) <= Cap(name)
  {
    if name == "title" {
      TitleBound(messages);
    } else if name == "detail" {
      DetailBound(alert.status, messages);
    } else if name == "action" {
      ActionBound(alert.status, messages);
    } else if name == "fields" {
      FieldsBound(e, messages);
    } else {
      FixedTextBound(e.hostId, alert.status, alert.severity);
    }
  }

  /** A placeholder of n bytes with its braces becomes at most 18479/8 * (n + 2) bytes. */
  lemma SlotGrowth(name: string)
    requires IsPlaceholder(name)
    ensures 8 * Cap(name) <= 18479 * (ByteLen(name) + 2)
  {
    PlaceholderShape(name);
    if name == "fields" {
      assert |name| == 6;
    }
  }

  /** Filling in a split grows it by at most a factor of 18479/8. */
  lemma {:induction false} FillGrowth(t: Template, values: map<string, string>)
    requires WellFormed(t)
    requires forall name | IsPlaceholder(name) :: name in values && ByteLen(values[name]) <= Cap(name)
    ensures 8 * ByteLen(Fill(t, values)) <= 18479 * ByteLen(Source(t))
  {
    match t
    case Tail(text) =>
    case Slot(literal, name, rest) =>
      FillGrowth(rest, values);
      SlotGrowth(name);
      ByteLenConcat(literal + values[name], Fill(rest, values));
      ByteLenConcat(literal, values[name]);
      SourceLen(literal, name, Source(rest));
  }

  lemma SourceLen(literal: string, name: string, rest: string)
    ensures ByteLen(literal + "{" + name + "}" + rest) == ByteLen(literal) + ByteLen(name) + 2 + ByteLen(rest)
  {
    ByteLenConcat(literal + "{" + name + "}", rest);
    ByteLenConcat(literal + "{" + name, "}");
    ByteLenConcat(literal + "{", name);
    ByteLenConcat(literal, "{");
  }

  /** The longest message: 512 uses of `{fields}` in a template of 4096 bytes. */
  lemma RenderedPayloadBound(e: Event, alert: AlertRecord, templates: MessageTemplates)
    requires ValidTemplates(templates)
    ensures ByteLen(RenderEvent(e, alert, templates)) <= 9_461_248
  {
    var messages := MessagesOf(e, templates);
    var values := Values(e, alert, messages);
    var format := FormatFor(alert.status, templates.formats);
    var t :| WellFormed(t) && Source(t) == format;
    forall name | IsPlaceholder(name) ensures name in values && ByteLen(values[name]) <= Cap(name) {
      ValueBound(name, e, alert, messages);
    }
    FillGrowth(t, values);
    RenderFollowsSplit(t, values);
  }

  lemma {:induction false} SameLines(facts: seq<Entry>, others: seq<Entry>, fields: seq<FieldTemplate>)
    requires forall f | f in fields :: Lookup(facts, f.fact) == Lookup(others, f.fact)
    ensures FieldLines(facts, fields) == FieldLines(others, fields)
  {
    if fields != [] {
      assert fields[0] in fields;
      SameLines(facts, others, fields[1..]);
    }
  }

  /** A message shows nothing but the type's configured text, the label of the host, the
      status and severity of the alert, and the facts mapped for the type: events that
      agree on these give the same message, whatever their other facts and fields are. */
  lemma MessageShowsOnlyMapped(
    e: Event, alert: AlertRecord, other: Event, otherAlert: AlertRecord, templates: MessageTemplates)
    requires e.eventType == other.eventType && HumanHost(e.hostId) == HumanHost(other.hostId)
    requires alert.status == otherAlert.status && alert.severity == otherAlert.severity
    requires e.eventType in templates.events ==>
      forall f | f in templates.events[e.eventType].fields :: Lookup(e.facts, f.fact) == Lookup(other.facts, f.fact)
    ensures RenderEvent(e, alert, templates) == RenderEvent(other, otherAlert, templates)
  {
    var messages := MessagesOf(e, templates);
    if messages.Some? {
      SameLines(e.facts, other.facts, messages.value.fields);
    }
    forall name | name in PLACEHOLDERS
      ensures ValueOf(name, e, alert, messages) == ValueOf(name, other, otherAlert, messages)
    {
    }
    assert Values(e, alert, messages) == Values(other, otherAlert, messages);
  }

  /** Each status has its own format, and no other matters. */
  lemma OwnFormatOnly(e: Event, alert: AlertRecord, t: MessageTemplates, u: MessageTemplates)
    requires t.events == u.events
    requires match alert.status
      case Firing => t.formats.firing == u.formats.firing
      case Resolved => t.formats.resolved == u.formats.resolved
      case Info => t.formats.info == u.formats.info
    ensures RenderEvent(e, alert, t) == RenderEvent(e, alert, u)
  {
  }

  /** What is configured for the status of an alert, if there is anything for its type. */
  ghost predicate ConfiguredFor(alert: AlertRecord, m: EventMessages, message: StateMessage) {
    message == if alert.status.Firing? then m.firing else if alert.status.Resolved? then m.resolved else m.info
  }

  /** A message that consists of one placeholder is its value. */
  lemma SoleValue(e: Event, alert: AlertRecord, templates: MessageTemplates, name: string)
    requires IsPlaceholder(name) && FormatFor(alert.status, templates.formats) == "{" + name + "}"
    ensures RenderEvent(e, alert, templates) == ValueOf(name, e, alert, MessagesOf(e, templates))
  {
    PlaceholdersAre(name);
    PlaceholderShape(name);
    var values := Values(e, alert, MessagesOf(e, templates));
    var t := Slot("", name, Tail(""));
    assert Source(t) == "{" + name + "}";
    RenderFollowsSplit(t, values);
    FillOne(name, values);
  }

  lemma FillOne(name: string, values: map<string, string>)
    ensures Fill(Slot("", name, Tail("")), values) == ValueFor(name, values)
  {
    assert "" + ValueFor(name, values) + "" == ValueFor(name, values);
  }

  /** One placeholder in the format of each status. */
  ghost predicate Sole(templates: MessageTemplates, name: string) {
    var format := "{" + name + "}";
    templates.formats.firing == format && templates.formats.resolved == format && templates.formats.info == format
  }

  /** What the placeholders of fixed text show. */
  lemma FixedValues(e: Event, alert: AlertRecord, templates: MessageTemplates)
    ensures var r := RenderEvent(e, alert, templates);
      && (Sole(templates, "icon") ==> (
        && (alert.status.Firing? ==> r == "\U{1F6A8}")
        && (alert.status.Resolved? ==> r == "\U{2705}")
        && (alert.status.Info? ==> r == "\U{2139}\U{FE0F}")))
      && (Sole(templates, "status") ==> (
        && (alert.status.Firing? ==> r == "ALERT FIRING")
        && (alert.status.Resolved? ==> r == "ALERT RESOLVED")
        && (alert.status.Info? ==> r == "INFORMATION")))
      && (Sole(templates, "severity") ==> (
        && (alert.severity.Critical? ==> r == "critical")
        && (alert.severity.Warning? ==> r == "warning")
        && (alert.severity.Info? ==> r == "info")))
  {
    hide RenderEvent;
    forall name | name in {"icon", "status", "severity"} && Sole(templates, name)
      ensures RenderEvent(e, alert, templates) == ValueOf(name, e, alert, MessagesOf(e, templates))
    {
      SoleValue(e, alert, templates, name);
    }
  }

  /** The host is shown by a label only. */
  lemma HostValue(e: Event, alert: AlertRecord, templates: MessageTemplates)
    requires Sole(templates, "host")
    ensures var r := RenderEvent(e, alert, templates);
      && (e.hostId == "media" ==> r == "Media") && (e.hostId == "ops" ==> r == "Ops")
      && (e.hostId == "backup" ==> r == "Backup") && (e.hostId == "pve" ==> r == "PVE")
      && (e.hostId == "private-cloud" ==> r == "Private Cloud")
      && (e.hostId !in {"media", "ops", "backup", "pve", "private-cloud"} ==> r == "Infrastructure")
  {
    SoleValue(e, alert, templates, "host");
  }

  /** What is shown of the texts configured for the type of the event. */
  lemma ConfiguredValues(
    e: Event, alert: AlertRecord, templates: MessageTemplates, m: EventMessages, message: StateMessage)
    requires e.eventType in templates.events && templates.events[e.eventType] == m && ConfiguredFor(alert, m, message)
    ensures var r := RenderEvent(e, alert, templates);
      && (Sole(templates, "title") ==> r == m.title)
      && (Sole(templates, "fields") ==> r == RenderFields(e, m.fields))
      && (Sole(templates, "detail") ==>
        r == if message.detail != "" then message.detail else StandardDetail(alert.status))
      && (Sole(templates, "action") ==>
        r == if message.action != "" then message.action else StandardAction(alert.status))
  {
    TextValues(e, alert.status, m, message);
    hide RenderEvent, ValueOf, StandardDetail, StandardAction;
    forall name | name in {"title", "detail", "action", "fields"} && Sole(templates, name)
      ensures RenderEvent(e, alert, templates) == ValueOf(name, e, alert, Some(m))
    {
      SoleValue(e, alert, templates, name);
    }
    FourValues(e, alert, Some(m));
  }

  lemma FourValues(e: Event, alert: AlertRecord, messages: Option<EventMessages>)
    ensures ValueOf("title", e, alert, messages) == Title(messages)
    ensures ValueOf("detail", e, alert, messages) == Detail(alert.status, messages)
    ensures ValueOf("action", e, alert, messages) == Action(alert.status, messages)
    ensures ValueOf("fields", e, alert, messages) == Fields(e, messages)
  {
  }

  lemma TextValues(e: Event, status: AlertStatus, m: EventMessages, message: StateMessage)
    requires message == if status.Firing? then m.firing else if status.Resolved? then m.resolved else m.info
    ensures Title(Some(m)) == m.title && Fields(e, Some(m)) == RenderFields(e, m.fields)
    ensures Detail(status, Some(m)) == if message.detail != "" then message.detail else StandardDetail(status)
    ensures Action(status, Some(m)) == if message.action != "" then message.action else StandardAction(status)
  {
    StandardTexts(status);
  }

  /** What is shown if nothing is configured for the type. */
  lemma UnconfiguredValues(e: Event, alert: AlertRecord, templates: MessageTemplates)
    requires e.eventType !in templates.events
    ensures var r := RenderEvent(e, alert, templates);
      && (Sole(templates, "title") ==> r == "Monitored condition")
      && (Sole(templates, "detail") ==> r == StandardDetail(alert.status))
      && (Sole(templates, "action") ==> r == StandardAction(alert.status))
      && (Sole(templates, "fields") ==> r == "")
  {
    StandardTexts(alert.status);
    hide RenderEvent, ValueOf, StandardDetail, StandardAction;
    forall name | name in {"title", "detail", "action", "fields"} && Sole(templates, name)
      ensures RenderEvent(e, alert, templates) == ValueOf(name, e, alert, None)
    {
      SoleValue(e, alert, templates, name);
    }
    FourValues(e, alert, None);
  }

  /** The texts for conditions without their own. */
  ghost function StandardDetail(status: AlertStatus): string {
    if status.Firing? then "A monitored condition requires attention."
    else if status.Resolved? then "The monitored condition has recovered."
    else "An operational event was recorded."
  }

  ghost function StandardAction(status: AlertStatus): string {
    if status.Firing? then "Check the corresponding runbook." else "No immediate action required."
  }

  lemma StandardTexts(status: AlertStatus)
    ensures FallbackDetail(status) == StandardDetail(status) && FallbackAction(status) == StandardAction(status)
  {
  }

  /** The fact under a key; keys of a map are distinct. */
  lemma {:induction false} LookupIs(facts: seq<Entry>, i: nat)
    requires i < |facts| && forall j | 0 <= j < i :: facts[j].key != facts[i].key
    ensures Lookup(facts, facts[i].key) == Some(facts[i].value)
  {
    if i > 0 {
      LookupIs(facts[1..], i - 1);
    }
  }

  lemma {:induction false} LookupNone(facts: seq<Entry>, key: string)
    requires forall f | f in facts :: f.key != key
    ensures Lookup(facts, key) == None
  {
    if facts != [] {
      assert facts[0] in facts;
      LookupNone(facts[1..], key);
    }
  }

  /** One field: its caption and up to 256 characters of a string, number or boolean, without
      control characters. */
  lemma FieldLineIs(facts: seq<Entry>, f: FieldTemplate, value: Json, text: string)
    requires Lookup(facts, f.fact) == Some(value)
    requires match value
      case Str(s) => text == s
      case Number(n) => text == n
      case Bool(b) => (b ==> text == "true") && (!b ==> text == "false")
      case _ => false
    ensures var clean := WithoutControls(text);
      FieldLine(facts, f) == Some(f.caption + ": " + clean[..if |clean| < 256 then |clean| else 256])
  {
    var clean := WithoutControls(text);
    assert clean[..|clean|] == clean;
  }

  /** There is no line for a missing fact, a null, a list or a map. */
  lemma NoFieldLine(facts: seq<Entry>, f: FieldTemplate)
    requires Lookup(facts, f.fact).Some? ==>
      var v := Lookup(facts, f.fact).value; v.Null? || v.Array? || v.Object?
    ensures FieldLine(facts, f).None?
  {
  }

  /** What is left of a text: its characters other than control characters, in order. */
  lemma {:induction false} WithoutControlsIs(a: string, c: char, b: string)
    ensures WithoutControls(a + [c] + b) ==
      WithoutControls(a) + (if c as int < 32 || 127 <= c as int < 160 then "" else [c]) + WithoutControls(b)
  {
    var s := a + [c] + b;
    if a == [] {
      assert s == [c] + b && s[1..] == b;
    } else {
      assert s[0] == a[0] && s[1..] == a[1..] + [c] + b;
      WithoutControlsIs(a[1..], c, b);
    }
  }

  /** Lines in the order of the fields, each followed by a line break but the last. */
  lemma LinesJoined(e: Event, field: FieldTemplate, rest: seq<FieldTemplate>)
    ensures RenderFields(e, []) == ""
    ensures RenderFields(e, [field]) ==
      if FieldLine(e.facts, field).Some? then FieldLine(e.facts, field).value else ""
    ensures RenderFields(e, [field] + rest) ==
      if FieldLine(e.facts, field).None? then RenderFields(e, rest)
      else if FieldLines(e.facts, rest) == [] then FieldLine(e.facts, field).value
      else FieldLine(e.facts, field).value + "\n" + RenderFields(e, rest)
  {
    assert [field][1..] == [] && ([field] + rest)[1..] == rest;
    var lines := FieldLines(e.facts, rest);
    if FieldLine(e.facts, field).Some? {
      assert ([FieldLine(e.facts, field).value] + lines)[1..] == lines;
      assert [FieldLine(e.facts, field).value] + [] == [FieldLine(e.facts, field).value];
    } else {
      assert [] + lines == lines;
    }
  }

  /** For valid templates a message is the split of its format with the values put in. */
  lemma MessageIsFilledFormat(e: Event, alert: AlertRecord, templates: MessageTemplates)
    requires ValidTemplates(templates)
    ensures exists t :: FillsFormat(t, e, alert, templates)
  {
    var format := FormatFor(alert.status, templates.formats);
    assert alert.status.Info? ==> format == templates.formats.info;
    assert Accepted(format);
    var t :| WellFormed(t) && Source(t) == format;
    RenderFollowsSplit(t, Values(e, alert, MessagesOf(e, templates)));
    assert FillsFormat(t, e, alert, templates);
  }

  /** The message fills in the split t of the format for the status of the alert. */
  ghost predicate FillsFormat(t: Template, e: Event, alert: AlertRecord, templates: MessageTemplates) {
    && WellFormed(t)
    && (alert.status.Firing? ==> Source(t) == templates.formats.firing)
    && (alert.status.Resolved? ==> Source(t) == templates.formats.resolved)
    && (alert.status.Info? ==> Source(t) == templates.formats.info)
    && RenderEvent(e, alert, templates) == Fill(t, Values(e, alert, MessagesOf(e, templates)))
  }
}
