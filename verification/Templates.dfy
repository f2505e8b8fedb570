/** Message templates: the validating scanner and the rendering scanner, and
    the split of a template that both of them follow. */
module Templates {
  import opened Wrappers
  import opened Text

  const PLACEHOLDERS: set<string> :=
    {"icon", "status", "host", "title", "detail", "action", "severity", "fields"}

  const TEMPLATE_LIMIT := 4096

  /** The names a template may use. */
  predicate IsPlaceholder(name: string) {
    || name == "icon" || name == "status" || name == "host" || name == "title"
    || name == "detail" || name == "action" || name == "severity" || name == "fields"
  }

  lemma PlaceholdersAre(name: string)
    ensures name in PLACEHOLDERS <==> IsPlaceholder(name)
  {
  }

  datatype TemplateError = BadLength | Unclosed | Unsupported(name: string) | UnmatchedClose

  /** A template split into literals and placeholders. */
  datatype Template = Tail(text: string) | Slot(literal: string, name: string, rest: Template)

  /** The text that a split template was written as. */
  function Source(t: Template): string {
    match t
    case Tail(text) => text
    case Slot(literal, name, rest) => literal + "{" + name + "}" + Source(rest)
  }

  /** Literals without an opening brace, known placeholders, and no brace at all
      after the last placeholder. A closing brace in an earlier literal is fine. */
  predicate WellFormed(t: Template) {
    match t
    case Tail(text) => '{' !in text && '}' !in text
    case Slot(literal, name, rest) => '{' !in literal && IsPlaceholder(name) && WellFormed(rest)
  }

  function ValueFor(name: string, values: map<string, string>): string {
    if name in values then values[name] else ""
  }

  /** The values put in for the placeholders of a split; literals are copied. */
  function Fill(t: Template, values: map<string, string>): string {
    match t
    case Tail(text) => text
    case Slot(literal, name, rest) =>
      literal + ValueFor(name, values) + Fill(rest, values)
  }

  /** The first placeholder of a text, if any; an unclosed one takes everything. */
  datatype Cut = Plain | Cut(literal: string, name: string, closed: bool, rest: string)

  function FirstCut(text: string): (c: Cut)
    ensures c.Cut? ==> |c.rest| < |text|
  {
    var start := Find(text, '{');
    if start == |text| then Plain else
      var after := text[start + 1..];
      var end := Find(after, '}');
      Cut(text[..start], after[..end], end < |after|, if end < |after| then after[end + 1..] else "")
  }

  lemma SplitAt(s: string, i: nat)
    requires i < |s|
    ensures s == s[..i] + ([s[i]] + s[i + 1..])
  {
  }

  lemma Regroup(a: string, b: string, c: string, d: string, e: string)
    ensures a + (b + (c + (d + e))) == a + b + c + d + e
  {
  }

  lemma CutLiteral(text: string)
    ensures var c := FirstCut(text);
      if c.Plain? then '{' !in text else '{' !in c.literal
  {
    assert text[..|text|] == text;
  }

  lemma CutSource(text: string)
    requires FirstCut(text).Cut? && FirstCut(text).closed
    ensures var c := FirstCut(text);
      text == c.literal + "{" + c.name + "}" + c.rest
  {
    var start := Find(text, '{');
    var after := text[start + 1..];
    var end := Find(after, '}');
    Join5(text, start, after, end);
  }

  lemma Join5(text: string, start: nat, after: string, end: nat)
    requires start < |text| && text[start] == '{' && after == text[start + 1..]
    requires end < |after| && after[end] == '}'
    ensures text == text[..start] + "{" + after[..end] + "}" + after[end + 1..]
  {
    SplitAt(text, start);
    SplitAt(after, end);
    Regroup(text[..start], "{", after[..end], "}", after[end + 1..]);
  }

  lemma CutAt(literal: string, name: string, rest: string)
    requires '{' !in literal && '}' !in name
    ensures FirstCut(literal + "{" + name + "}" + rest) == Cut(literal, name, true, rest)
  {
    var after := name + "}" + rest;
    var text := literal + "{" + after;
    assert text == literal + "{" + name + "}" + rest;
    assert text[..|literal|] == literal;
    FindAt(text, '{', |literal|);
    assert text[|literal| + 1..] == after;
    assert after[..|name|] == name;
    FindAt(after, '}', |name|);
  }

  lemma PlainCut(text: string)
    requires '{' !in text
    ensures FirstCut(text) == Plain
  {
  }

  lemma PlaceholderShape(name: string)
    requires IsPlaceholder(name)
    ensures '{' !in name && '}' !in name && |name| >= 4
  {
  }

  /** The split a left-to-right scan finds, or the reason there is none. */
  function Split(text: string): Result<Template, TemplateError>
    decreases |text|
  {
    match FirstCut(text)
    case Plain => if '}' in text then Err(UnmatchedClose) else Ok(Tail(text))
    case Cut(literal, name, closed, rest) =>
      if !closed then Err(Unclosed) else
      if !IsPlaceholder(name) then Err(Unsupported(name)) else
      match Split(rest)
      case Err(e) => Err(e)
      case Ok(t) => Ok(Slot(literal, name, t))
  }

  /** What the scan returns is a well-formed split of the text. */
  lemma {:induction false} SplitSound(text: string)
    requires Split(text).Ok?
    ensures WellFormed(Split(text).value) && Source(Split(text).value) == text
    decreases |text|
  {
    CutLiteral(text);
    var cut := FirstCut(text);
    if cut.Cut? {
      CutSource(text);
      SplitSound(cut.rest);
    }
  }

  /** Every well-formed split is the one the scan finds. */
  lemma {:induction false} SplitComplete(t: Template)
    requires WellFormed(t)
    ensures Split(Source(t)) == Ok(t)
  {
    match t
    case Tail(text) =>
      PlainCut(text);
    case Slot(literal, name, rest) =>
      SplitComplete(rest);
      PlaceholderShape(name);
      CutAt(literal, name, Source(rest));
  }

  /** Templates of 1 to 4096 bytes that have a well-formed split. */
  ghost predicate Accepted(text: string) {
    1 <= ByteLen(text) <= 4096 && exists t :: WellFormed(t) && Source(t) == text
  }

  lemma AcceptedIff(text: string)
    ensures Accepted(text) <==> 1 <= ByteLen(text) <= TEMPLATE_LIMIT && Split(text).Ok?
  {
    if Split(text).Ok? {
      SplitSound(text);
    }
    if t :| WellFormed(t) && Source(t) == text {
      SplitComplete(t);
    }
  }

  /** A text has at most one well-formed split. */
  lemma SplitUnique(t: Template, u: Template)
    requires WellFormed(t) && WellFormed(u) && Source(t) == Source(u)
    ensures t == u
  {
    SplitComplete(t);
    SplitComplete(u);
  }

  method IsKnown(name: string) returns (known: bool)
    ensures known <==> IsPlaceholder(name)
  {
    match name {
      case "icon" | "status" | "host" | "title" | "detail" | "action" | "severity" | "fields" =>
        return true;
      case _ =>
        return false;
    }
  }

  /** `validate_template` accepts exactly the templates with a well-formed split. */
  method ValidateTemplate(text: string) returns (r: Result<(), TemplateError>)
    ensures r.Ok? <==> Accepted(text)
    ensures r == Err(BadLength) <==> !(1 <= ByteLen(text) <= 4096)
    ensures r.Err? && r.error != BadLength ==> Split(text) == Err(r.error)
  {
    AcceptedIff(text);
    hide IsPlaceholder;
    if text == "" || ByteLen(text) > TEMPLATE_LIMIT {
      return Err(BadLength);
    }
    var rest := text;
    var start := Find(rest, '{');
    while start < |rest|
      invariant start == Find(rest, '{')
      invariant Split(text).Ok? == Split(rest).Ok?
      invariant Split(text).Err? ==> Split(text) == Split(rest)
      decreases |rest|
    {
      var afterStart := rest[start + 1..];
      var end := Find(afterStart, '}');
      if end == |afterStart| {
        return Err(Unclosed);
      }
      var placeholder := afterStart[..end];
      var known := IsKnown(placeholder);
      if !known {
        return Err(Unsupported(placeholder));
      }
      rest := afterStart[end + 1..];
      start := Find(rest, '{');
    }
    if '}' in rest {
      return Err(UnmatchedClose);
    }
    return Ok(());
  }

  /** Each placeholder alone makes a template, and nothing else between braces does. */
  lemma SinglePlaceholder(name: string)
    requires '}' !in name
    ensures Split("{" + name + "}") ==
      if IsPlaceholder(name) then Ok(Slot("", name, Tail(""))) else Err(Unsupported(name))
  {
    CutAt("", name, "");
    assert "" + "{" + name + "}" + "" == "{" + name + "}";
    PlaceholdersAre(name);
    PlainCut("");
  }

  /** What the rendering scan makes of any text, well formed or not: an unknown
      placeholder becomes nothing, an unclosed one takes the rest of the text. */
  function Rendered(text: string, values: map<string, string>): string
    decreases |text|
  {
    match FirstCut(text)
    case Plain => text
    case Cut(literal, name, _, rest) =>
      literal + ValueFor(name, values) + Rendered(rest, values)
  }

  /** `render_template` */
  method RenderTemplate(text: string, values: map<string, string>) returns (output: string)
    ensures output == Rendered(text, values)
  {
    output := "";
    var rest := text;
    var start := Find(rest, '{');
    while start < |rest|
      invariant start == Find(rest, '{')
      invariant Rendered(text, values) == output + Rendered(rest, values)
      decreases |rest|
    {
      var literal := rest[..start];
      var afterStart := rest[start + 1..];
      var end := Find(afterStart, '}');
      var placeholder := afterStart[..end];
      var next := if end < |afterStart| then afterStart[end + 1..] else "";
      assert FirstCut(rest) == Cut(literal, placeholder, end < |afterStart|, next);
      RenderStep(output, literal, placeholder, rest, next, values);
      output := output + literal;
      if placeholder in values {
        output := output + values[placeholder];
      }
      rest := next;
      start := Find(rest, '{');
    }
    output := output + rest;
  }

  /** One round of the rendering scan. */
  lemma RenderStep(
    output: string, literal: string, name: string, text: string, rest: string, values: map<string, string>)
    requires FirstCut(text).Cut? && FirstCut(text).literal == literal
    requires FirstCut(text).name == name && FirstCut(text).rest == rest
    ensures output + Rendered(text, values) ==
      (if name in values then output + literal + values[name] else output + literal) + Rendered(rest, values)
  {
    assert literal + "" == literal;
  }

  /** The two scanners agree: on a well-formed template, rendering is the same
      split with the values put in. Braces inside values are not expanded again,
      and no fallback is taken. */
  lemma {:induction false} RenderFollowsSplit(t: Template, values: map<string, string>)
    requires WellFormed(t)
    ensures Rendered(Source(t), values) == Fill(t, values)
  {
    match t
    case Tail(text) =>
      PlainCut(text);
    case Slot(literal, name, rest) =>
      RenderFollowsSplit(rest, values);
      PlaceholderShape(name);
      CutAt(literal, name, Source(rest));
  }
}
