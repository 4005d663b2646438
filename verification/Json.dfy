/**
 JSON as the two ends of the SQL stream see it: the compact printer of the server
 and the parser of the client, with the string and number grammar of RFC 8259.
 A number is kept as its token, so no rounding takes place.
 */
module Json {
  import opened Wrappers

  datatype Json =
    | Null
    | Bool(b: bool)
    | Num(token: string)
    | Str(s: string)
    | Arr(items: seq<Json>)
    | Obj(fields: seq<Member>)

  datatype Member = Member(key: string, value: Json)

  // ---- numbers (section 6 of RFC 8259) ----

  predicate IsDigit(c: char) { '0' <= c <= '9' }

  predicate IsNumberChar(c: char) { IsDigit(c) || c in "+-.eE" }

  function SkipDigits(s: string): (r: string)
    ensures |r| <= |s|
  {
    if s != "" && IsDigit(s[0]) then SkipDigits(s[1..]) else s
  }

  predicate IsExponent(s: string) {
    s == "" ||
    (s[0] in "eE" &&
     var d := if |s| > 1 && s[1] in "+-" then s[2..] else s[1..];
     d != "" && IsDigit(d[0]) && SkipDigits(d) == "")
  }

  predicate IsNumber(t: string) {
    (forall c | c in t :: IsNumberChar(c)) &&
    var a := if t != "" && t[0] == '-' then t[1..] else t;
    a != "" && IsDigit(a[0]) &&
    var f := if a[0] == '0' then a[1..] else SkipDigits(a);
    if f != "" && f[0] == '.' then
      |f| > 1 && IsDigit(f[1]) && IsExponent(SkipDigits(f[1..]))
    else
      IsExponent(f)
  }

  // ---- printing ----

  /** The values a JSON text can denote: every number token is well formed. */
  ghost predicate WellFormed(v: Json) {
    match v
    case Num(t) => IsNumber(t)
    case Arr(items) => forall i | 0 <= i < |items| :: WellFormed(items[i])
    case Obj(fields) => forall i | 0 <= i < |fields| :: WellFormed(fields[i].value)
    case _ => true
  }

  function Hex(n: nat): char
    requires n < 16
  {
    if n < 10 then '0' + (n as char) else 'a' + ((n - 10) as char)
  }

  function Escape(c: char): string {
    if c == '"' then "\\\""
    else if c == '\\' then "\\\\"
    else if c == '\U{0008}' then "\\b"
    else if c == '\U{000C}' then "\\f"
    else if c == '\n' then "\\n"
    else if c == '\r' then "\\r"
    else if c == '\t' then "\\t"
    else if c < ' ' then
      "\\u00" + [Hex(c as int / 16), Hex(c as int % 16)]
    else [c]
  }

  function PrintChars(s: string): string {
    if s == "" then "" else Escape(s[0]) + PrintChars(s[1..])
  }

  function PrintString(s: string): string {
    "\"" + PrintChars(s) + "\""
  }

  function Print(v: Json): string
    decreases v, 1
  {
    match v
    case Null => "null"
    case Bool(b) => if b then "true" else "false"
    case Num(t) => t
    case Str(s) => PrintString(s)
    case Arr(items) => "[" + PrintItems(items) + "]"
    case Obj(fields) => "{" + PrintFields(fields) + "}"
  }

  function PrintItems(items: seq<Json>): string
    decreases items, 0
  {
    if items == [] then ""
    else if |items| == 1 then Print(items[0])
    else Print(items[0]) + "," + PrintItems(items[1..])
  }

  function PrintFields(fields: seq<Member>): string
    decreases fields, 0
  {
    if fields == [] then ""
    else
      var head := PrintString(fields[0].key) + ":" + Print(fields[0].value);
      if |fields| == 1 then head else head + "," + PrintFields(fields[1..])
  }

  // ---- parsing ----

  function SkipWs(s: string): (r: string)
    ensures |r| <= |s|
  {
    if s != "" && s[0] in " \t\n\r" then SkipWs(s[1..]) else s
  }

  function HexValue(c: char): Option<nat> {
    if IsDigit(c) then Some(c as int - '0' as int)
    else if 'a' <= c <= 'f' then Some(c as int - 'a' as int + 10)
    else if 'A' <= c <= 'F' then Some(c as int - 'A' as int + 10)
    else None
  }

  /** A four-digit escape; half of a surrogate pair is outside this model's characters. */
  function ParseCodeUnit(a: Option<nat>, b: Option<nat>, c: Option<nat>, d: Option<nat>, rest: string)
    : (r: Option<(char, string)>)
    ensures r.Some? ==> r.value.1 == rest
  {
    if a.None? || b.None? || c.None? || d.None? then None
    else
      var n := a.value * 4096 + b.value * 256 + c.value * 16 + d.value;
      if n < 0xD800 || 0xE000 <= n < 0x10000 then Some((n as char, rest)) else None
  }

  /** What follows a backslash: the character it stands for and the rest of the text. */
  function ParseEscape(s: string): (r: Option<(char, string)>)
    ensures r.Some? ==> |r.value.1| < |s|
  {
    if s == "" then None
    else match s[0]
      case '"' => Some(('"', s[1..]))
      case '\\' => Some(('\\', s[1..]))
      case '/' => Some(('/', s[1..]))
      case 'b' => Some(('\U{0008}', s[1..]))
      case 'f' => Some(('\U{000C}', s[1..]))
      case 'n' => Some(('\n', s[1..]))
      case 'r' => Some(('\r', s[1..]))
      case 't' => Some(('\t', s[1..]))
      case 'u' =>
        if |s| < 5 then None
        else ParseCodeUnit(HexValue(s[1]), HexValue(s[2]), HexValue(s[3]), HexValue(s[4]), s[5..])
      case _ => None
  }

  /** The body of a string up to its closing quote, and the rest of the text. */
  function ParseChars(s: string): (r: Option<(string, string)>)
    ensures r.Some? ==> |r.value.1| < |s|
    decreases |s|
  {
    if s == "" || s[0] < ' ' then None
    else if s[0] == '"' then Some(("", s[1..]))
    else if s[0] == '\\' then
      match ParseEscape(s[1..])
      case None => None
      case Some((c, rest)) => Prepend(c, ParseChars(rest))
    else Prepend(s[0], ParseChars(s[1..]))
  }

  function Prepend(c: char, r: Option<(string, string)>): Option<(string, string)> {
    match r
    case None => None
    case Some((t, rest)) => Some(([c] + t, rest))
  }

  /** How many characters of a number token the text starts with. */
  function NumberRun(s: string): (n: nat)
    ensures n <= |s|
  {
    if s != "" && IsNumberChar(s[0]) then 1 + NumberRun(s[1..]) else 0
  }

  function ParseScalar(s: string): (r: Option<(Json, string)>)
    ensures r.Some? ==> |r.value.1| < |s|
  {
    if "null" <= s then Some((Null, s[4..]))
    else if "true" <= s then Some((Bool(true), s[4..]))
    else if "false" <= s then Some((Bool(false), s[5..]))
    else
      var n := NumberRun(s);
      if IsNumber(s[..n]) then Some((Num(s[..n]), s[n..])) else None
  }

  function ParseString(s: string): (r: Option<(Json, string)>)
    ensures r.Some? ==> |r.value.1| < |s|
  {
    match ParseChars(s)
    case None => None
    case Some((t, rest)) => Some((Str(t), rest))
  }

  function ParseValue(text: string): (r: Option<(Json, string)>)
    ensures r.Some? ==> |r.value.1| < |text|
    decreases |text|, 0
  {
    var s := SkipWs(text);
    if s == "" then None
    else if s[0] == '"' then ParseString(s[1..])
    else if s[0] == '[' then ParseArray(s[1..])
    else if s[0] == '{' then ParseObject(s[1..])
    else ParseScalar(s)
  }

  function ParseArray(s: string): (r: Option<(Json, string)>)
    ensures r.Some? ==> |r.value.1| < |s|
    decreases |s|, 2
  {
    var inner := SkipWs(s);
    if inner != "" && inner[0] == ']' then Some((Arr([]), inner[1..]))
    else match ParseItems(inner)
      case None => None
      case Some((items, rest)) => Some((Arr(items), rest))
  }

  function ParseObject(s: string): (r: Option<(Json, string)>)
    ensures r.Some? ==> |r.value.1| < |s|
    decreases |s|, 2
  {
    var inner := SkipWs(s);
    if inner != "" && inner[0] == '}' then Some((Obj([]), inner[1..]))
    else match ParseFields(inner)
      case None => None
      case Some((fields, rest)) => Some((Obj(fields), rest))
  }

  /** One or more items and the closing bracket. */
  function ParseItems(text: string): (r: Option<(seq<Json>, string)>)
    ensures r.Some? ==> |r.value.1| < |text|
    decreases |text|, 1
  {
    match ParseValue(text)
    case None => None
    case Some((v, after)) =>
      var s := SkipWs(after);
      if s != "" && s[0] == ']' then Some(([v], s[1..]))
      else if s != "" && s[0] == ',' then
        match ParseItems(s[1..])
        case None => None
        case Some((vs, rest)) => Some(([v] + vs, rest))
      else None
  }

  /** One or more members and the closing brace. */
  function ParseFields(text: string): (r: Option<(seq<Member>, string)>)
    ensures r.Some? ==> |r.value.1| < |text|
    decreases |text|, 1
  {
    var s := SkipWs(text);
    if s == "" || s[0] != '"' then None
    else match ParseChars(s[1..])
      case None => None
      case Some((key, afterKey)) =>
        var colon := SkipWs(afterKey);
        if colon == "" || colon[0] != ':' then None
        else match ParseValue(colon[1..])
          case None => None
          case Some((v, after)) =>
            var t := SkipWs(after);
            if t != "" && t[0] == '}' then Some(([Member(key, v)], t[1..]))
            else if t != "" && t[0] == ',' then
              match ParseFields(t[1..])
              case None => None
              case Some((fs, rest)) => Some(([Member(key, v)] + fs, rest))
            else None
  }

  /** `JSON.parse(text)`; `None` is the thrown `SyntaxError`. */
  function Parse(text: string): Option<Json> {
    match ParseValue(text)
    case None => None
    case Some((v, rest)) => if SkipWs(rest) == "" then Some(v) else None
  }

  // ---- round trip ----

  lemma EscapeRoundTrip(c: char, rest: string)
    ensures var e := Escape(c) + rest;
            if c == '"' || c == '\\' || c < ' ' then
              e[0] == '\\' && ParseEscape(e[1..]) == Some((c, rest))
            else e == [c] + rest
    ensures forall d | d in Escape(c) :: d >= ' '
  {
    if c < ' ' && c !in "\U{0008}\U{000C}\n\r\t" {
      var e := Escape(c) + rest;
      var h, l := c as int / 16, c as int % 16;
      assert HexValue(Hex(h)) == Some(h) && HexValue(Hex(l)) == Some(l);
      assert e[1..][0] == 'u' && e[1..][1] == '0' && e[1..][2] == '0' && e[1..][3] == Hex(h) && e[1..][4] == Hex(l);
      assert e[1..][5..] == rest;
      assert h * 16 + l == c as int;
    } else {
      var e := Escape(c) + rest;
      if |Escape(c)| == 2 {
        assert e[1..][1..] == rest;
      }
    }
  }

  lemma {:induction false} CharsRoundTrip(s: string, rest: string)
    ensures ParseChars(PrintChars(s) + "\"" + rest) == Some((s, rest))
  {
    if s == "" {
      assert PrintChars(s) + "\"" + rest == "\"" + rest;
    } else {
      var more := PrintChars(s[1..]) + "\"" + rest;
      assert PrintChars(s) + "\"" + rest == Escape(s[0]) + more;
      EscapeRoundTrip(s[0], more);
      CharsRoundTrip(s[1..], rest);
      assert [s[0]] + s[1..] == s;
      assert ([s[0]] + more)[1..] == more;
    }
  }

  lemma StringRoundTrip(s: string, rest: string)
    ensures var t := PrintString(s) + rest;
            t[0] == '"' && ParseChars(t[1..]) == Some((s, rest))
  {
    CharsRoundTrip(s, rest);
    assert (PrintString(s) + rest)[1..] == PrintChars(s) + "\"" + rest;
  }

  lemma {:induction false} NumberRunOf(t: string, rest: string)
    requires forall c | c in t :: IsNumberChar(c)
    requires rest == "" || !IsNumberChar(rest[0])
    ensures NumberRun(t + rest) == |t|
  {
    if t == "" {
      assert t + rest == rest;
    } else {
      assert (t + rest)[1..] == t[1..] + rest;
      NumberRunOf(t[1..], rest);
    }
  }

  /** A printed value starts with a character that is neither white space nor a closing bracket. */
  lemma PrintStart(v: Json)
    requires WellFormed(v)
    ensures Print(v) != "" && Print(v)[0] !in " \t\n\r]},"
  {
    if v.Num? {
      assert Print(v)[0] in Print(v);
    }
  }

  lemma FirstOf(word: string, t: string)
    requires word != "" && word <= t
    ensures t[0] == word[0]
  {
  }

  lemma NumberRoundTrip(token: string, rest: string)
    requires IsNumber(token) && (rest == "" || !IsNumberChar(rest[0]))
    ensures ParseScalar(token + rest) == Some((Num(token), rest))
  {
    var t, n := token + rest, |token|;
    NumberRunOf(token, rest);
    assert t[..n] == token && t[n..] == rest;
    assert token[0] in token && t[0] == token[0];
    if "null" <= t { FirstOf("null", t); }
    if "true" <= t { FirstOf("true", t); }
    if "false" <= t { FirstOf("false", t); }
  }

  lemma WordRoundTrip(v: Json, rest: string)
    requires v.Null? || v.Bool?
    ensures ParseScalar(Print(v) + rest) == Some((v, rest))
  {
    var word, t := Print(v), Print(v) + rest;
    assert t[..|word|] == word && t[|word|..] == rest;
    assert t[0] == word[0];
  }

  /** A scalar that is no text starts with none of the characters that open the other values. */
  lemma ScalarRoundTrip(v: Json, rest: string)
    requires v.Null? || v.Bool? || (v.Num? && IsNumber(v.token))
    requires rest == "" || !IsNumberChar(rest[0])
    ensures ParseScalar(Print(v) + rest) == Some((v, rest))
    ensures Print(v) != "" && Print(v)[0] != '"' && Print(v)[0] != '[' && Print(v)[0] != '{'
  {
    if v.Num? {
      NumberRoundTrip(v.token, rest);
      assert v.token[0] in v.token;
    } else {
      WordRoundTrip(v, rest);
    }
  }

  lemma TextValue(s: string, rest: string)
    ensures ParseValue(PrintString(s) + rest) == Some((Str(s), rest))
  {
    StringRoundTrip(s, rest);
  }

  lemma ScalarValue(v: Json, rest: string)
    requires v.Null? || v.Bool? || (v.Num? && IsNumber(v.token))
    requires rest == "" || !IsNumberChar(rest[0])
    ensures ParseValue(Print(v) + rest) == Some((v, rest))
  {
    PrintStart(v);
    ScalarRoundTrip(v, rest);
    assert (Print(v) + rest)[0] == Print(v)[0];
  }

  /** After the opening bracket the value is what follows it. */
  lemma OpenedValue(open: char, inner: string, rest: string)
    requires open == '[' || open == '{'
    ensures ParseValue([open] + inner + rest) ==
            if open == '[' then ParseArray(inner + rest) else ParseObject(inner + rest)
  {
    var t := [open] + inner + rest;
    assert t[1..] == inner + rest;
  }

  lemma {:induction false} ValueRoundTrip(v: Json, rest: string)
    requires WellFormed(v)
    requires rest == "" || !IsNumberChar(rest[0])
    ensures ParseValue(Print(v) + rest) == Some((v, rest))
    decreases v, 1
  {
    match v {
      case Str(s) => TextValue(s, rest);
      case Arr(items) =>
        var inner := PrintItems(items) + "]";
        assert Print(v) == ['['] + inner;
        OpenedValue('[', inner, rest);
        ArrayRoundTrip(items, rest);
      case Obj(fields) =>
        var inner := PrintFields(fields) + "}";
        assert Print(v) == ['{'] + inner;
        OpenedValue('{', inner, rest);
        ObjectRoundTrip(fields, rest);
      case _ => ScalarValue(v, rest);
    }
  }

  lemma {:induction false} ArrayRoundTrip(items: seq<Json>, rest: string)
    requires forall i | 0 <= i < |items| :: WellFormed(items[i])
    ensures ParseArray(PrintItems(items) + "]" + rest) == Some((Arr(items), rest))
    decreases items, 2
  {
    var inner := PrintItems(items) + "]" + rest;
    if items == [] {
      assert inner[0] == ']' && inner[1..] == rest;
    } else {
      PrintStart(items[0]);
      assert inner[0] == Print(items[0])[0];
      ItemsRoundTrip(items, rest);
    }
  }

  lemma {:induction false} ObjectRoundTrip(fields: seq<Member>, rest: string)
    requires forall i | 0 <= i < |fields| :: WellFormed(fields[i].value)
    ensures ParseObject(PrintFields(fields) + "}" + rest) == Some((Obj(fields), rest))
    decreases fields, 2
  {
    var inner := PrintFields(fields) + "}" + rest;
    if fields == [] {
      assert inner[0] == '}' && inner[1..] == rest;
    } else {
      FieldsRoundTrip(fields, rest);
    }
  }

  lemma RegroupEnd(a: string, close: string, rest: string)
    ensures a + close + rest == a + (close + rest)
  {
  }

  lemma Regroup(a: string, sep: string, b: string, close: string, rest: string)
    ensures a + sep + b + close + rest == a + (sep + (b + close + rest))
  {
  }

  lemma ItemsMore(text: string, v: Json, more: string, vs: seq<Json>, rest: string)
    requires ParseValue(text) == Some((v, "," + more)) && ParseItems(more) == Some((vs, rest))
    ensures ParseItems(text) == Some(([v] + vs, rest))
  {
    assert SkipWs("," + more) == "," + more && ("," + more)[1..] == more;
  }

  lemma {:induction false} ItemsRoundTrip(items: seq<Json>, rest: string)
    requires items != [] && forall i | 0 <= i < |items| :: WellFormed(items[i])
    ensures ParseItems(PrintItems(items) + "]" + rest) == Some((items, rest))
    decreases items, 0
  {
    var text := PrintItems(items) + "]" + rest;
    if |items| == 1 {
      RegroupEnd(Print(items[0]), "]", rest);
      assert [items[0]] == items;
      ValueRoundTrip(items[0], "]" + rest);
    } else {
      var more := PrintItems(items[1..]) + "]" + rest;
      Regroup(Print(items[0]), ",", PrintItems(items[1..]), "]", rest);
      ValueRoundTrip(items[0], "," + more);
      ItemsRoundTrip(items[1..], rest);
      ItemsMore(text, items[0], more, items[1..], rest);
      assert [items[0]] + items[1..] == items;
    }
  }

  lemma FieldsEnd(body: string, key: string, colon: string, v: Json, rest: string)
    requires ParseChars(body) == Some((key, ":" + colon)) && ParseValue(colon) == Some((v, "}" + rest))
    ensures ParseFields("\"" + body) == Some(([Member(key, v)], rest))
  {
    var text := "\"" + body;
    assert SkipWs(text) == text && text[1..] == body;
    assert SkipWs(":" + colon) == ":" + colon && (":" + colon)[1..] == colon;
    assert SkipWs("}" + rest) == "}" + rest && ("}" + rest)[1..] == rest;
  }

  lemma FieldsMore(body: string, key: string, colon: string, v: Json, more: string, fs: seq<Member>, rest: string)
    requires ParseChars(body) == Some((key, ":" + colon)) && ParseValue(colon) == Some((v, "," + more))
    requires ParseFields(more) == Some((fs, rest))
    ensures ParseFields("\"" + body) == Some(([Member(key, v)] + fs, rest))
  {
    var text := "\"" + body;
    assert SkipWs(text) == text && text[1..] == body;
    assert SkipWs(":" + colon) == ":" + colon && (":" + colon)[1..] == colon;
    assert SkipWs("," + more) == "," + more && ("," + more)[1..] == more;
  }

  lemma RegroupMember(k: string, v: string, tail: string)
    ensures ("\"" + k + "\"" + ":" + v) + tail == "\"" + (k + "\"" + (":" + (v + tail)))
  {
  }

  lemma {:induction false} FieldsRoundTrip(fields: seq<Member>, rest: string)
    requires fields != [] && forall i | 0 <= i < |fields| :: WellFormed(fields[i].value)
    ensures ParseFields(PrintFields(fields) + "}" + rest) == Some((fields, rest))
    decreases fields, 0
  {
    var Member(key, v) := fields[0];
    var head := PrintString(key) + ":" + Print(v);
    var more := PrintFields(fields[1..]) + "}" + rest;
    var after := if |fields| == 1 then "}" + rest else "," + more;
    var colon := Print(v) + after;
    var body := PrintChars(key) + "\"" + (":" + colon);
    RegroupMember(PrintChars(key), Print(v), after);
    CharsRoundTrip(key, ":" + colon);
    ValueRoundTrip(v, after);
    if |fields| == 1 {
      RegroupEnd(head, "}", rest);
      assert [fields[0]] == fields;
      FieldsEnd(body, key, colon, v, rest);
    } else {
      Regroup(head, ",", PrintFields(fields[1..]), "}", rest);
      FieldsRoundTrip(fields[1..], rest);
      FieldsMore(body, key, colon, v, more, fields[1..], rest);
      assert [fields[0]] + fields[1..] == fields;
    }
  }

  /** Parsing what was printed gives the value back. */
  lemma RoundTrip(v: Json)
    requires WellFormed(v)
    ensures Parse(Print(v)) == Some(v)
  {
    ValueRoundTrip(v, "");
    assert Print(v) + "" == Print(v);
  }

  // ---- one value, one line ----

  lemma {:induction false} CharsOnOneLine(s: string)
    ensures forall c | c in PrintChars(s) :: c >= ' '
  {
    if s != "" {
      EscapeRoundTrip(s[0], "");
      CharsOnOneLine(s[1..]);
    }
  }

  /** The compact form holds no control character (section 7 of RFC 8259), so no raw line feed. */
  lemma {:induction false} PrintOnOneLine(v: Json)
    requires WellFormed(v)
    ensures forall c | c in Print(v) :: c >= ' '
    decreases v, 1
  {
    match v {
      case Str(s) => CharsOnOneLine(s);
      case Arr(items) => ItemsOnOneLine(items);
      case Obj(fields) => FieldsOnOneLine(fields);
      case _ =>
    }
  }

  lemma {:induction false} ItemsOnOneLine(items: seq<Json>)
    requires forall i | 0 <= i < |items| :: WellFormed(items[i])
    ensures forall c | c in PrintItems(items) :: c >= ' '
    decreases items, 0
  {
    if items != [] {
      PrintOnOneLine(items[0]);
      ItemsOnOneLine(items[1..]);
    }
  }

  lemma {:induction false} FieldsOnOneLine(fields: seq<Member>)
    requires forall i | 0 <= i < |fields| :: WellFormed(fields[i].value)
    ensures forall c | c in PrintFields(fields) :: c >= ' '
    decreases fields, 0
  {
    if fields != [] {
      CharsOnOneLine(fields[0].key);
      PrintOnOneLine(fields[0].value);
      FieldsOnOneLine(fields[1..]);
    }
  }
}
