/**
 A batch request over HTTP: the client takes a response that is not one JSON value for an error text, and hands that
 text to the batch decoder.
 */
module SqlRequest {
  import opened Wrappers
  import opened Strings
  import opened Json
  import opened JsonLines
  import opened SqlWriter

  const WAIT := "Continue wait"

  /** What becomes of a response with status 200; `Fails` is a `TypeError`. */
  datatype Outcome = PolledAgain | Answered(result: JsonLines.Result<Batch>) | Fails

  predicate Contains(s: string, w: string) {
    exists i :: 0 <= i <= |s| - |w| && Slice(s, i, |w|) == w
  }

  function Slice(s: string, i: nat, n: nat): string
    requires i + n <= |s|
  {
    s[i..i + n]
  }

  /** The response to a decoded error text. */
  function OfText(text: string): Outcome {
    if Contains(text, WAIT) then PolledAgain else Answered(CubeSql(text))
  }

  /** The response to a text: its `error` member if it parses, else the text itself. */
  function Request(text: string): Outcome {
    match Parse(text)
    case None => OfText(text)
    case Some(v) =>
      if v.Null? then Fails
      else
        match Get(v, "error")
        case None => Answered(Err(InvalidFormat))
        case Some(Null) => Answered(Err(InvalidFormat))
        case Some(Str(e)) => OfText(e)
        case Some(Arr(items)) => if Str(WAIT) in items then PolledAgain else Fails
        case Some(_) => Fails
  }

  /** A printed value with anything but white space behind it is not JSON. */
  lemma NotAlone(v: Json, more: string)
    requires WellFormed(v) && more != "" && more[0] !in " \t\n\r"
    ensures Parse(Print(v) + "\n" + more).None?
  {
    var rest := "\n" + more;
    assert Print(v) + "\n" + more == Print(v) + rest;
    ValueRoundTrip(v, rest);
    assert rest[1..] == more;
    assert SkipWs(rest) == SkipWs(more) == more;
  }

  lemma Alone(v: Json)
    requires WellFormed(v)
    ensures Parse(Print(v) + "\n") == Some(v)
  {
    ValueRoundTrip(v, "\n");
    assert "\n"[1..] == "";
  }

  lemma TextOfTwo(ms: seq<Message>)
    requires Sound(ms) && |ms| >= 2
    ensures Parse(Text(ms)).None?
  {
    assert ms[0] in ms && ms[1] in ms;
    PrintStart(Body(ms[1]));
    TextCons(ms[0], ms[1..]);
    TextCons(ms[1], ms[2..]);
    assert ms == [ms[0]] + ms[1..] && ms[1..] == [ms[1]] + ms[2..];
    NotAlone(Body(ms[0]), Text(ms[1..]));
  }

  lemma TextOfOne(m: Message)
    requires WellFormed(Body(m))
    ensures Parse(Text([m])) == Some(Body(m))
  {
    TextOne(m);
    Alone(Body(m));
  }

  /**
   What a batch request makes of a run: a run that failed before it sent anything gives the bare error text; any other
   response is decoded as a whole, unless the text of it, whose rows are included, holds the words of a pending query.
   */
  lemma RequestSeesRun(q: Query, sent: seq<Message>)
    requires Delivers(q, sent) && (ReportedError(q).None? ==> sent == Planned(q)) && Sound(sent)
    ensures var text := Text(Transcript(sent, ReportedError(q)));
      Request(text) == OfText(if sent == [] then ReportedError(q).value else text)
    ensures ReportedError(q).None? ==>
      Request(Text(sent)) ==
        if Contains(Text(sent), WAIT) then PolledAgain
        else Answered(Ok(Batch(Some(Arr(q.columns)), RowsFetched(q.batches), Told(sent[0])[0].lastRefreshTime)))
  {
    ShapeOfRun(q, sent);
    var e := ReportedError(q);
    var ms := Transcript(sent, e);
    if e.Some? {
      assert Body(ErrorMessage(e.value)).fields[0].value == Str(e.value);
    }
    if |ms| >= 2 {
      TextOfTwo(ms);
    } else {
      assert sent == [] && ms == [ErrorMessage(e.value)];
      TextOfOne(ms[0]);
      LookupOne("error", Str(e.value));
    }
    if e.None? {
      BatchSeesSuccessfulRun(q);
    }
  }

  /** An error text whose first line is no JSON value is an error to the batch decoder. */
  lemma PlainTextIsAnError(text: string)
    requires Parse(Split(text, '\n')[0]).None?
    ensures CubeSql(text).Err?
  {
  }

  /**
   When a batch client learns that a run failed: if and only if nothing was sent before, and the error
   text itself is none that the decoder takes for a result. If something was sent, it gets the rows that
   were delivered and one undefined row, unless it polls again.
   */
  lemma BatchLearnsOfFailureIff(q: Query, sent: seq<Message>)
    requires Delivers(q, sent) && Sound(sent) && ReportedError(q).Some?
    ensures var e := ReportedError(q).value;
            var r := Request(Text(Transcript(sent, Some(e))));
            r.PolledAgain? ||
            (&& r.Answered?
             && (r.result.Err? <==> sent == [] && CubeSql(e).Err?)
             && (sent != [] ==> r.result.Ok? && r.result.value.data == Contributed(sent[1..]) + [None]))
  {
    var e := ReportedError(q).value;
    RequestSeesRun(q, sent);
    if sent != [] {
      ShapeOfRun(q, sent);
      ErrorIsSound(e);
      var rest := sent[1..];
      assert Transcript(sent, Some(e)) == [sent[0]] + rest + [ErrorMessage(e)];
      assert sent == [sent[0]] + rest;
      forall m | m in rest ensures m.DataMessage? {
        var i :| 0 <= i < |rest| && rest[i] == m;
        assert m == sent[i + 1];
      }
      BatchHidesLateError(sent[0], rest, e);
    }
  }

  lemma ContainsAt(s: string, a: string, w: string, b: string)
    requires s == a + w + b
    ensures Contains(s, w)
  {
    assert Slice(s, |a|, |w|) == w;
  }

  predicate PlainChar(c: char) {
    c >= ' ' && c != '"' && c != '\\'
  }

  ghost predicate Plain(s: string) {
    forall i | 0 <= i < |s| :: PlainChar(s[i])
  }

  lemma {:induction false} PlainChars(s: string)
    requires Plain(s)
    ensures PrintChars(s) == s
  {
    if s != "" {
      PlainChars(s[1..]);
      assert PlainChar(s[0]);
      assert Escape(s[0]) == [s[0]];
      assert [s[0]] + s[1..] == s;
    }
  }

  /** The query that selects those words. */
  function Selects(text: string): Query {
    Query(None, None, [], None, [Rows([Str(text)])], k => Written(true), None, None)
  }

  lemma PlanOfSelect(text: string)
    ensures Planned(Selects(text)) == [SchemaMessage([], None), DataMessage([Str(text)])]
    ensures ReportedError(Selects(text)).None?
  {
    var q := Selects(text);
    assert GoodBatches(q.batches) == [DataMessage([Str(text)])] + GoodBatches([]);
    WritesUpTo(q, 2);
    GoodBatchesAt(q.batches, 1);
  }

  lemma SelectIsSound(text: string)
    ensures Sound(Planned(Selects(text)))
  {
    PlanOfSelect(text);
    assert WellFormed(Body(SchemaMessage([], None))) && WellFormed(Body(DataMessage([Str(text)])));
  }

  lemma ValueInLine(key: string, text: string)
    ensures Contains("{" + (key + ("[" + ("\"" + text + "\"") + "]")) + "}" + "\n", text)
  {
    var line := "{" + (key + ("[" + ("\"" + text + "\"") + "]")) + "}" + "\n";
    assert line == "{" + key + "[\"" + text + "\"]}\n";
    ContainsAt(line, "{" + key + "[\"", text, "\"]}\n");
  }

  lemma LineOfSelect(text: string)
    requires Plain(text)
    ensures Contains(MessageLine(DataMessage([Str(text)])), text)
  {
    PlainChars(text);
    var row, key := Str(text), PrintString("data") + ":";
    var field := Member("data", Arr([row]));
    assert PrintItems([row]) == Print(row);
    assert PrintFields([field]) == key + Print(Arr([row]));
    ValueInLine(key, text);
  }

  lemma ContainsInside(a: string, s: string, w: string)
    requires Contains(s, w)
    ensures Contains(a + s, w)
  {
    var i :| 0 <= i <= |s| - |w| && Slice(s, i, |w|) == w;
    assert Slice(a + s, |a| + i, |w|) == w;
  }

  lemma SelectContains(text: string)
    requires Plain(text)
    ensures Contains(Text(Planned(Selects(text))), text)
  {
    PlanOfSelect(text);
    LineOfSelect(text);
    var schema, data := SchemaMessage([], None), DataMessage([Str(text)]);
    TextAppend([schema], [data]);
    assert [schema] + [data] == Planned(Selects(text));
    TextOne(data);
    ContainsInside(Text([schema]), MessageLine(data), text);
  }

  lemma SelectIsPolled(text: string)
    requires Plain(text) && text == WAIT
    ensures Request(Text(Planned(Selects(text)))) == PolledAgain
  {
    var q := Selects(text);
    PlanOfSelect(text);
    SelectIsSound(text);
    AllWritten(q);
    SelectContains(text);
    RequestSeesRun(q, Planned(q));
  }

  lemma WaitIsPlain()
    ensures Plain(WAIT)
  {
  }

  /** A successful query whose one value is those words is polled for as if it were pending. */
  lemma ValueLooksLikeWaiting()
    ensures ReportedError(Selects(WAIT)).None?
    ensures Request(Text(Planned(Selects(WAIT)))) == PolledAgain
  {
    PlanOfSelect(WAIT);
    WaitIsPlain();
    SelectIsPolled(WAIT);
  }
}
