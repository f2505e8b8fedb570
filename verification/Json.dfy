/** JSON values and their compact encoding, as `serde_json::to_vec` writes it. */
module Json {
  import opened Wrappers
  import opened Text
  import opened Arithmetic

  /** A number keeps the text it is printed with; an object its members in key order. */
  datatype Json =
    | Null
    | Bool(b: bool)
    | Number(text: string)
    | Str(s: string)
    | Array(items: seq<Json>)
    | Object(members: seq<Entry>)

  datatype Entry = Entry(key: string, value: Json)

  const HEX := "0123456789abcdef"

  /** Section 7 of RFC 8259: a control character may take six bytes. */
  function EscapeChar(c: char): string {
    if c == '"' then "\\\""
    else if c == '\\' then "\\\\"
    else if c == '\U{8}' then "\\b"
    else if c == '\U{c}' then "\\f"
    else if c == '\n' then "\\n"
    else if c == '\r' then "\\r"
    else if c == '\t' then "\\t"
    else if c < ' ' then "\\u00" + [HEX[c as int / 16], HEX[c as int % 16]]
    else [c]
  }

  function Escape(s: string): string {
    if s == [] then "" else EscapeChar(s[0]) + Escape(s[1..])
  }

  /** Reading the inside of a JSON string back (section 7 of RFC 8259), for escapes of
      characters below U+D800. */
  function Unescape(text: string): Option<string>
    decreases |text|
  {
    if text == [] then Some("")
    else if text[0] == '\\' then
      if |text| >= 6 && text[1] == 'u' then
        if !(forall i | 2 <= i < 6 :: IsHex(text[i])) then None else
        var code := HexValue(text[2]) * 4096 + HexValue(text[3]) * 256 + HexValue(text[4]) * 16 + HexValue(text[5]);
        if code < 0xD800 then Then(code as char, Unescape(text[6..])) else None
      else if |text| >= 2 && Plain(text[1]).Some? then Then(Plain(text[1]).value, Unescape(text[2..]))
      else None
    else if text[0] == '"' || text[0] as int < 32 then None
    else Then(text[0], Unescape(text[1..]))
  }

  function Then(c: char, rest: Option<string>): Option<string> {
    if rest.None? then None else Some([c] + rest.value)
  }

  predicate IsHex(c: char) {
    '0' <= c <= '9' || 'a' <= c <= 'f' || 'A' <= c <= 'F'
  }

  function HexValue(c: char): nat
    requires IsHex(c)
  {
    if c <= '9' then c as int - 48 else if c <= 'F' then c as int - 55 else c as int - 87
  }

  /** What a backslash followed by one character stands for. */
  function Plain(c: char): Option<char> {
    match c
    case '"' => Some('"')
    case '\\' => Some('\\')
    case '/' => Some('/')
    case 'b' => Some(8 as char)
    case 'f' => Some(12 as char)
    case 'n' => Some(10 as char)
    case 'r' => Some(13 as char)
    case 't' => Some(9 as char)
    case _ => None
  }

  /** Which characters are escaped, and in how many bytes. */
  lemma EscapeLengths(c: char)
    ensures |EscapeChar(c)| ==
      if c as int in {34, 92, 8, 9, 10, 12, 13} then 2 else if c as int < 32 then 6 else 1
  {
  }

  lemma UnescapeChar(c: char, rest: string)
    ensures Unescape(EscapeChar(c) + rest) == Then(c, Unescape(rest))
  {
    EscapeLengths(c);
    if |EscapeChar(c)| == 6 {
      HexDigits(c as int / 16, c as int % 16);
      UnescapeCode(c, HEX[c as int / 16], HEX[c as int % 16], rest);
      assert EscapeChar(c) == "\\u00" + [HEX[c as int / 16], HEX[c as int % 16]];
    } else if |EscapeChar(c)| == 2 {
      var text := EscapeChar(c) + rest;
      assert text[0] == '\\' && text[1] == EscapeChar(c)[1] && text[2..] == rest;
      assert Plain(text[1]) == Some(c);
    } else {
      var text := EscapeChar(c) + rest;
      assert text[0] == c && text[1..] == rest;
    }
  }

  lemma UnescapeCode(c: char, high: char, low: char, rest: string)
    requires IsHex(high) && IsHex(low) && c as int == 16 * HexValue(high) + HexValue(low)
    ensures Unescape("\\u00" + [high, low] + rest) == Then(c, Unescape(rest))
  {
    var text := "\\u00" + [high, low] + rest;
    assert text[0] == '\\' && text[1] == 'u' && text[2] == '0' && text[3] == '0' && text[4] == high && text[5] == low;
    assert text[6..] == rest;
    HexDigits(0, 0);
  }

  lemma HexDigits(a: nat, b: nat)
    requires a < 2 && b < 16
    ensures IsHex(HEX[a]) && IsHex(HEX[b]) && HexValue(HEX[a]) == a && HexValue(HEX[b]) == b
    ensures IsHex('0') && HexValue('0') == 0
  {
  }

  /** A reader of the encoded text gets back the string. */
  lemma {:induction false} UnescapeEscape(s: string)
    ensures Unescape(Escape(s)) == Some(s)
  {
    if s != [] {
      UnescapeChar(s[0], Escape(s[1..]));
      UnescapeEscape(s[1..]);
      assert s == [s[0]] + s[1..];
    }
  }

  function Quote(s: string): string {
    "\"" + Escape(s) + "\""
  }

  function Join(parts: seq<string>, separator: string): string {
    if parts == [] then ""
    else if |parts| == 1 then parts[0]
    else parts[0] + separator + Join(parts[1..], separator)
  }

  function Member(key: string, value: string): string {
    Quote(key) + ":" + value
  }

  function Encode(v: Json): string
    decreases v, 1
  {
    match v
    case Null => "null"
    case Bool(b) => if b then "true" else "false"
    case Number(text) => text
    case Str(s) => Quote(s)
    case Array(items) => "[" + Join(EncodeItems(items), ",") + "]"
    case Object(members) => "{" + Join(EncodeMembers(members), ",") + "}"
  }

  function EncodeItems(items: seq<Json>): seq<string>
    decreases items, 0
  {
    if items == [] then [] else [Encode(items[0])] + EncodeItems(items[1..])
  }

  function EncodeMembers(members: seq<Entry>): (texts: seq<string>)
    ensures |texts| == |members|
    decreases members, 0
  {
    if members == [] then []
    else [Member(members[0].key, Encode(members[0].value))] + EncodeMembers(members[1..])
  }

  /** Encoded values. */
  lemma EncodeExamples()
    ensures Encode(Null) == "null" && Encode(Bool(true)) == "true" && Encode(Bool(false)) == "false"
    ensures Encode(Array([])) == "[]" && Encode(Object([])) == "{}"
    ensures Join(["p", "q", "r"], ",") == "p,q,r"
  {
    assert ["p", "q", "r"][1..] == ["q", "r"] && ["q", "r"][1..] == ["r"];
    assert Join(["q", "r"], ",") == "q,r";
  }

  lemma EncodeSmallArray(number: string)
    ensures Encode(Array([Number(number), Null])) == "[" + number + ",null]"
  {
    var items := [Number(number), Null];
    assert items[1..] == [Null] && [Null][1..] == [];
    assert EncodeItems([Null]) == ["null"];
    assert EncodeItems(items) == [number, "null"] && [number, "null"][1..] == ["null"];
    assert Join([number, "null"], ",") == number + "," + "null";
  }

  lemma EncodeSmallObject(key: string, number: string, text: string)
    ensures Encode(Object([Entry(key, Number(number)), Entry("k", Str(text))])) ==
      "{\"" + Escape(key) + "\":" + number + ",\"k\":\"" + Escape(text) + "\"}"
  {
    hide Escape;
    var m, n := Entry(key, Number(number)), Entry("k", Str(text));
    assert [m, n][1..] == [n] && [n][1..] == [];
    var a, b := Quote(key) + ":" + number, Quote("k") + ":" + Quote(text);
    assert EncodeMembers([n]) == [b];
    assert EncodeMembers([m, n]) == [a, b] && [a, b][1..] == [b];
    assert Join([a, b], ",") == a + "," + b;
    EscapeOfK();
  }

  lemma EscapeOfK()
    ensures Escape("k") == "k"
  {
    assert "k"[1..] == "";
  }

  lemma EscapeCharGrowth(c: char)
    ensures ByteLen(EscapeChar(c)) <= 6 * CharBytes(c)
  {
    var e := EscapeChar(c);
    if |e| == 1 {
      assert ByteLen([c]) == CharBytes(c) + ByteLen([]);
    } else if |e| == 2 {
      assert e[1..][1..] == [];
      assert ByteLen(e[1..]) == 1;
    } else {
      AsciiLen(e);
    }
  }

  lemma {:induction false} AsciiLen(s: string)
    requires forall i | 0 <= i < |s| :: s[i] < '\U{80}'
    ensures ByteLen(s) == |s|
  {
    if s != [] {
      AsciiLen(s[1..]);
    }
  }

  /** Escaping grows a text at most six times. */
  lemma {:induction false} EscapeGrowth(s: string)
    ensures ByteLen(Escape(s)) <= 6 * ByteLen(s)
  {
    if s != [] {
      EscapeCharGrowth(s[0]);
      EscapeGrowth(s[1..]);
      ByteLenConcat(EscapeChar(s[0]), Escape(s[1..]));
    }
  }

  lemma QuoteGrowth(s: string)
    ensures ByteLen(Quote(s)) <= 6 * ByteLen(s) + 2
  {
    EscapeGrowth(s);
    ByteLenConcat("\"", Escape(s));
    ByteLenConcat("\"" + Escape(s), "\"");
  }

  lemma MemberGrowth(key: string, value: string)
    ensures ByteLen(Member(key, value)) <= 6 * ByteLen(key) + 3 + ByteLen(value)
  {
    QuoteGrowth(key);
    ByteLenConcat(Quote(key), ":");
    ByteLenConcat(Quote(key) + ":", value);
  }

  /** Bytes that one member may take, with a comma. */
  function Cost(m: Entry): nat {
    6 * ByteLen(m.key) + 4 + ByteLen(Encode(m.value))
  }

  function Budget(members: seq<Entry>): nat {
    if members == [] then 0 else Cost(members[0]) + Budget(members[1..])
  }

  lemma {:induction false} JoinWithinBudget(members: seq<Entry>)
    ensures ByteLen(Join(EncodeMembers(members), ",")) <= Budget(members)
  {
    if members != [] {
      var first := Member(members[0].key, Encode(members[0].value));
      var rest := EncodeMembers(members[1..]);
      assert EncodeMembers(members)[1..] == rest;
      MemberGrowth(members[0].key, Encode(members[0].value));
      JoinWithinBudget(members[1..]);
      ByteLenConcat(first + ",", Join(rest, ","));
      ByteLenConcat(first, ",");
    }
  }

  lemma ObjectWithinBudget(members: seq<Entry>)
    ensures ByteLen(Encode(Object(members))) <= Budget(members) + 2
  {
    var inner := Join(EncodeMembers(members), ",");
    JoinWithinBudget(members);
    ByteLenConcat("{" + inner, "}");
    ByteLenConcat("{", inner);
  }

  lemma {:induction false} BudgetConcat(a: seq<Entry>, b: seq<Entry>)
    ensures Budget(a + b) == Budget(a) + Budget(b)
  {
    if a == [] {
      assert a + b == b;
    } else {
      assert (a + b)[1..] == a[1..] + b;
      BudgetConcat(a[1..], b);
    }
  }

  lemma {:induction false} UniformBudget(members: seq<Entry>, bound: nat)
    requires forall m | m in members :: Cost(m) <= bound
    ensures Budget(members) <= |members| * bound
  {
    if members != [] {
      assert members[0] in members;
      UniformBudget(members[1..], bound);
      Distribute(|members| - 1, bound);
    }
  }
}
