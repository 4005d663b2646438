/**
 Texts that were cut off: the parser reads no further than a value goes, so more text behind a value
 changes nothing, and an object that was cut off is no JSON value.
 */
module JsonCut {
  import opened Wrappers
  import opened Strings
  import opened Json

  lemma {:induction false} MoreAfterWs(s: string, x: string)
    requires SkipWs(s) != ""
    ensures SkipWs(s + x) == SkipWs(s) + x
  {
    assert (s + x)[0] == s[0];
    if s[0] in " \t\n\r" {
      assert (s + x)[1..] == s[1..] + x;
      MoreAfterWs(s[1..], x);
    }
  }

  lemma MoreAfterEscape(s: string, x: string)
    requires ParseEscape(s).Some?
    ensures ParseEscape(s + x) == Some((ParseEscape(s).value.0, ParseEscape(s).value.1 + x))
  {
    var t := s + x;
    assert t[0] == s[0] && t[1..] == s[1..] + x;
    if s[0] == 'u' {
      assert t[1] == s[1] && t[2] == s[2] && t[3] == s[3] && t[4] == s[4] && t[5..] == s[5..] + x;
    }
  }

  lemma {:induction false} MoreAfterChars(s: string, x: string)
    requires ParseChars(s).Some?
    ensures ParseChars(s + x) == Some((ParseChars(s).value.0, ParseChars(s).value.1 + x))
    decreases |s|
  {
    assert (s + x)[0] == s[0] && (s + x)[1..] == s[1..] + x;
    if s[0] == '\\' {
      MoreAfterEscape(s[1..], x);
      MoreAfterChars(ParseEscape(s[1..]).value.1, x);
    } else if s[0] != '"' {
      MoreAfterChars(s[1..], x);
    }
  }

  lemma {:induction false} MoreAfterNumber(s: string, x: string)
    requires NumberRun(s) < |s|
    ensures NumberRun(s + x) == NumberRun(s)
  {
    assert (s + x)[0] == s[0];
    if IsNumberChar(s[0]) {
      assert (s + x)[1..] == s[1..] + x;
      MoreAfterNumber(s[1..], x);
    }
  }

  lemma MoreAfterWord(word: string, s: string, x: string)
    requires word <= s
    ensures word <= s + x && (s + x)[|word|..] == s[|word|..] + x
  {
  }

  lemma NoWord(word: string, s: string, x: string)
    requires s != "" && word != "" && s[0] != word[0]
    ensures !(word <= s + x) && !(word <= s)
  {
    if word <= s + x {
      FirstOf(word, s + x);
    }
  }

  lemma MoreAfterScalar(s: string, x: string)
    requires ParseScalar(s).Some? && (ParseScalar(s).value.1 != "" || !ParseScalar(s).value.0.Num?)
    ensures ParseScalar(s + x) == Some((ParseScalar(s).value.0, ParseScalar(s).value.1 + x))
  {
    if "null" <= s {
      MoreAfterWord("null", s, x);
    } else if "true" <= s {
      MoreAfterWord("true", s, x);
      NoWord("null", s, x);
    } else if "false" <= s {
      MoreAfterWord("false", s, x);
      NoWord("null", s, x);
      NoWord("true", s, x);
    } else {
      var n := NumberRun(s);
      assert s[..n][0] in s[..n];
      assert IsNumberChar(s[0]);
      NoWord("null", s, x);
      NoWord("true", s, x);
      NoWord("false", s, x);
      assert s[n..] != "";
      MoreAfterNumber(s, x);
      assert (s + x)[..n] == s[..n] && (s + x)[n..] == s[n..] + x;
    }
  }

  /** A value that something ends, or that ends itself, is read alike with more text behind it. */
  lemma {:induction false} MoreAfterValue(s: string, x: string)
    requires ParseValue(s).Some? && (ParseValue(s).value.1 != "" || !ParseValue(s).value.0.Num?)
    ensures ParseValue(s + x) == Some((ParseValue(s).value.0, ParseValue(s).value.1 + x))
    decreases |s|, 0
  {
    var t := SkipWs(s);
    MoreAfterWs(s, x);
    assert (t + x)[0] == t[0] && (t + x)[1..] == t[1..] + x;
    if t[0] == '"' {
      MoreAfterChars(t[1..], x);
    } else if t[0] == '[' {
      MoreAfterArray(t[1..], x);
    } else if t[0] == '{' {
      MoreAfterObject(t[1..], x);
    } else {
      MoreAfterScalar(t, x);
    }
  }

  lemma {:induction false} MoreAfterArray(s: string, x: string)
    requires ParseArray(s).Some?
    ensures ParseArray(s + x) == Some((ParseArray(s).value.0, ParseArray(s).value.1 + x))
    decreases |s|, 2
  {
    var inner := SkipWs(s);
    assert ParseItems("").None?;
    if inner != "" {
      MoreAfterWs(s, x);
      assert (inner + x)[0] == inner[0] && (inner + x)[1..] == inner[1..] + x;
      if inner[0] != ']' {
        MoreAfterItems(inner, x);
      }
    }
  }

  lemma {:induction false} MoreAfterObject(s: string, x: string)
    requires ParseObject(s).Some?
    ensures ParseObject(s + x) == Some((ParseObject(s).value.0, ParseObject(s).value.1 + x))
    decreases |s|, 2
  {
    var inner := SkipWs(s);
    assert ParseFields("").None?;
    if inner != "" {
      MoreAfterWs(s, x);
      assert (inner + x)[0] == inner[0] && (inner + x)[1..] == inner[1..] + x;
      if inner[0] != '}' {
        MoreAfterFields(inner, x);
      }
    }
  }

  lemma {:induction false} MoreAfterItems(s: string, x: string)
    requires ParseItems(s).Some?
    ensures ParseItems(s + x) == Some((ParseItems(s).value.0, ParseItems(s).value.1 + x))
    decreases |s|, 1
  {
    var after := ParseValue(s).value.1;
    MoreAfterValue(s, x);
    MoreAfterWs(after, x);
    var t := SkipWs(after);
    assert (t + x)[0] == t[0] && (t + x)[1..] == t[1..] + x;
    if t[0] == ',' {
      MoreAfterItems(t[1..], x);
    }
  }

  /** The part of a member behind its key. */
  function ParseRest(key: string, afterKey: string): Option<(seq<Member>, string)> {
    var colon := SkipWs(afterKey);
    if colon == "" || colon[0] != ':' then None
    else match ParseValue(colon[1..])
      case None => None
      case Some((v, after)) =>
        var t := SkipWs(after);
        if t != "" && t[0] == '}' then Some(([Member(key, v)], t[1..]))
        else if t != "" && t[0] == ',' then
          match ParseFields(t[1..])
          case None => None
          case Some((fs, rest)) => Some(([Member(key, v)] + fs, rest))
        else None
  }

  lemma FieldsAre(s: string)
    ensures ParseFields(s) ==
            var t := SkipWs(s);
            if t == "" || t[0] != '"' then None
            else match ParseChars(t[1..])
              case None => None
              case Some((key, afterKey)) => ParseRest(key, afterKey)
  {
  }

  lemma {:induction false} MoreAfterFields(s: string, x: string)
    requires ParseFields(s).Some?
    ensures ParseFields(s + x) == Some((ParseFields(s).value.0, ParseFields(s).value.1 + x))
    decreases |s|, 1
  {
    FieldsAre(s);
    FieldsAre(s + x);
    MoreAfterWs(s, x);
    var t := SkipWs(s);
    assert (t + x)[0] == t[0] && (t + x)[1..] == t[1..] + x;
    MoreAfterChars(t[1..], x);
    var (key, afterKey) := ParseChars(t[1..]).value;
    MoreAfterRest(key, afterKey, x);
  }

  lemma {:induction false} MoreAfterRest(key: string, s: string, x: string)
    requires ParseRest(key, s).Some?
    ensures ParseRest(key, s + x) == Some((ParseRest(key, s).value.0, ParseRest(key, s).value.1 + x))
    decreases |s|, 1
  {
    MoreAfterWs(s, x);
    var colon := SkipWs(s);
    assert (colon + x)[0] == colon[0] && (colon + x)[1..] == colon[1..] + x;
    var after := ParseValue(colon[1..]).value.1;
    MoreAfterValue(colon[1..], x);
    MoreAfterWs(after, x);
    var t := SkipWs(after);
    assert (t + x)[0] == t[0] && (t + x)[1..] == t[1..] + x;
    if t[0] == ',' {
      MoreAfterFields(t[1..], x);
    }
  }

  /** An object whose text was cut off is no JSON value, wherever the cut is. */
  lemma CutObjectIsUnreadable(v: Json, cut: string, x: string)
    requires WellFormed(v) && v.Obj? && Print(v) == cut + x && cut != "" && x != ""
    ensures Parse(cut).None?
  {
    assert cut[0] == (cut + x)[0] == '{';
    assert SkipWs(cut) == cut;
    ValueRoundTrip(v, "");
    assert Print(v) + "" == Print(v);
    if ParseValue(cut).Some? {
      MoreAfterValue(cut, x);
    }
  }

  // ---- texts the printer does not write ----

  lemma {:induction false} SkipsWs(ws: string, s: string)
    requires forall c | c in ws :: c in " \t\n\r"
    ensures SkipWs(ws + s) == SkipWs(s)
  {
    if ws == "" {
      assert ws + s == s;
    } else {
      assert (ws + s)[0] == ws[0] && (ws + s)[1..] == ws[1..] + s;
      assert ws[0] in ws && forall c | c in ws[1..] :: c in ws;
      SkipsWs(ws[1..], s);
    }
  }

  /** White space around a value is skipped. */
  lemma WhiteSpaceAround(v: Json, before: string, behind: string)
    requires WellFormed(v)
    requires (forall c | c in before :: c in " \t\n\r") && forall c | c in behind :: c in " \t\n\r"
    ensures Parse(before + Print(v) + behind) == Some(v)
  {
    var text := before + Print(v) + behind;
    assert text == before + (Print(v) + behind);
    SkipsWs(before, Print(v) + behind);
    assert behind != "" ==> behind[0] in behind;
    ValueRoundTrip(v, behind);
    PrintStart(v);
    assert (Print(v) + behind)[0] == Print(v)[0];
    SkipsWs(behind, "");
    assert behind + "" == behind;
  }

  /** Escapes the printer does not write are read: a slash, and any code unit in hexadecimal digits of either case. */
  lemma OtherEscapes(rest: string)
    ensures ParseEscape("/" + rest) == Some(('/', rest))
    ensures ParseEscape("u0041" + rest) == Some(('A', rest))
    ensures ParseEscape("u00e9" + rest) == ParseEscape("u00E9" + rest) == Some(('\U{00e9}', rest))
  {
    assert ("/" + rest)[1..] == rest;
    assert ("u0041" + rest)[5..] == rest && ("u00e9" + rest)[5..] == rest && ("u00E9" + rest)[5..] == rest;
  }
}
