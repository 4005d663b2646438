/**
 The client side of SQL over HTTP: newline-delimited JSON read as a stream of
 events, or as one batch result once the whole text is there.
 */
module JsonLines {
  import opened Wrappers
  import opened Strings
  import opened Json

  /** What one line of the stream tells the consumer. */
  datatype Event =
    | SchemaEvent(schema: Json, lastRefreshTime: Option<Json>)
    | DataEvent(data: Json)
    | ErrorEvent(error: Json)

  const LINE_FAILURE := "Failed to parse JSON line: "
  const REMAINING_FAILURE := "Failed to parse remaining JSON: "

  /** `fields[name]` after `JSON.parse`: the last duplicate wins, `None` is `undefined`. */
  function Lookup(fields: seq<Member>, name: string): Option<Json> {
    if fields == [] then None
    else
      var last := Last(fields);
      if last.key == name then Some(last.value) else Lookup(DropLast(fields), name)
  }

  /** `v.name` for a parsed value other than `null`. */
  function Get(v: Json, name: string): Option<Json> {
    if v.Obj? then Lookup(v.fields, name) else None
  }

  /** A number is truthy when some digit of its mantissa is not zero. */
  predicate NonZero(token: string) {
    token != "" && token[0] !in "eE" && ('1' <= token[0] <= '9' || NonZero(token[1..]))
  }

  predicate Truthy(v: Option<Json>) {
    match v
    case None => false
    case Some(Null) => false
    case Some(Bool(b)) => b
    case Some(Num(t)) => NonZero(t)
    case Some(Str(s)) => s != ""
    case _ => true
  }

  function OnlyTruthy(v: Option<Json>): Option<Json> {
    if Truthy(v) then v else None
  }

  /** The event of a parsed line; a value with none of the three members is passed over in silence. */
  function Classify(v: Json): seq<Event> {
    var schema, data, error := Get(v, "schema"), Get(v, "data"), Get(v, "error");
    if Truthy(schema) then [SchemaEvent(schema.value, OnlyTruthy(Get(v, "lastRefreshTime")))]
    else if Truthy(data) then [DataEvent(data.value)]
    else if Truthy(error) then [ErrorEvent(error.value)]
    else []
  }

  /** A line that does not parse, or parses to `null`, becomes an error event. */
  function LineEvents(line: string, failure: string): seq<Event> {
    if Blank(line) then []
    else
      var parsed := Parse(line);
      if parsed.None? || parsed.value.Null? then [ErrorEvent(Str(failure + line))]
      else Classify(parsed.value)
  }

  function EventsOf(lines: seq<string>): seq<Event> {
    if lines == [] then [] else LineEvents(lines[0], LINE_FAILURE) + EventsOf(lines[1..])
  }

  /** The events of a whole text, split once: the reference the chunked decoder is held to. */
  function StreamEvents(text: string): seq<Event> {
    var pieces := Split(text, '\n');
    EventsOf(DropLast(pieces)) + LineEvents(Last(pieces), REMAINING_FAILURE)
  }

  lemma {:induction false} EventsAppend(a: seq<string>, b: seq<string>)
    ensures EventsOf(a + b) == EventsOf(a) + EventsOf(b)
  {
    if a == [] {
      assert a + b == b;
    } else {
      assert (a + b)[1..] == a[1..] + b;
      EventsAppend(a[1..], b);
    }
  }

  lemma EventsSnoc(a: seq<string>, line: string)
    ensures EventsOf(a + [line]) == EventsOf(a) + LineEvents(line, LINE_FAILURE)
  {
    EventsAppend(a, [line]);
    assert EventsOf([line]) == LineEvents(line, LINE_FAILURE) + EventsOf([]);
  }

  /** What the decoder has told and what it still holds, after it saw `seen`. */
  ghost predicate Decoded(seen: string, events: seq<Event>, buffer: string) {
    var pieces := Split(seen, '\n');
    events == EventsOf(DropLast(pieces)) && buffer == Last(pieces)
  }

  lemma DecodeChunk(seen: string, chunk: string, events: seq<Event>, buffer: string)
    requires Decoded(seen, events, buffer)
    ensures var lines := Split(buffer + chunk, '\n');
            Decoded(seen + chunk, events + EventsOf(DropLast(lines)), Last(lines))
  {
    SplitAppend(seen, chunk, '\n');
    var pieces, lines := Split(seen, '\n'), Split(buffer + chunk, '\n');
    assert DropLast(DropLast(pieces) + lines) == DropLast(pieces) + DropLast(lines);
    EventsAppend(DropLast(pieces), DropLast(lines));
  }

  /** The loop over the complete lines of one chunk. */
  method LinesToEvents(lines: seq<string>) returns (events: seq<Event>)
    ensures events == EventsOf(lines)
  {
    events := [];
    for j := 0 to |lines|
      invariant events == EventsOf(lines[..j])
    {
      EventsSnoc(lines[..j], lines[j]);
      assert lines[..j + 1] == lines[..j] + [lines[j]];
      events := events + LineEvents(lines[j], LINE_FAILURE);
    }
    assert lines[..|lines|] == lines;
  }

  /** The streaming decoder: what it yields depends on the text only, not on how it was cut into chunks. */
  method CubeSqlStream(chunks: seq<string>) returns (events: seq<Event>)
    ensures events == StreamEvents(Flatten(chunks))
  {
    var buffer := "";
    events := [];
    for i := 0 to |chunks|
      invariant Decoded(Flatten(chunks[..i]), events, buffer)
    {
      DecodeChunk(Flatten(chunks[..i]), chunks[i], events, buffer);
      FlattenSnoc(chunks[..i], chunks[i]);
      assert chunks[..i + 1] == chunks[..i] + [chunks[i]];

      buffer := buffer + chunks[i];
      var lines := Split(buffer, '\n');
      buffer := Last(lines);
      var told := LinesToEvents(DropLast(lines));
      events := events + told;
    }
    assert chunks[..|chunks|] == chunks;
    events := events + LineEvents(buffer, REMAINING_FAILURE);
  }

  // ---- what a line tells ----

  /** `fields[name]` is the value of the last member of that name. */
  lemma {:induction false} LookupIs(fields: seq<Member>, name: string, n: nat)
    requires n < |fields| && fields[n].key == name && forall i | n < i < |fields| :: fields[i].key != name
    ensures Lookup(fields, name) == Some(fields[n].value)
  {
    if n < |fields| - 1 {
      LookupIs(DropLast(fields), name, n);
    }
  }

  lemma {:induction false} LookupNone(fields: seq<Member>, name: string)
    ensures Lookup(fields, name).None? <==> forall i | 0 <= i < |fields| :: fields[i].key != name
  {
    if fields != [] {
      LookupNone(DropLast(fields), name);
      assert forall i | 0 <= i < |fields| - 1 :: DropLast(fields)[i] == fields[i];
    }
  }

  /** A digit other than zero comes before any exponent. */
  ghost predicate HasNonZeroDigit(token: string) {
    exists i :: 0 <= i < |token| && '1' <= token[i] <= '9' && forall j | 0 <= j < i :: token[j] !in "eE"
  }

  lemma {:induction false} NonZeroIff(token: string)
    ensures NonZero(token) <==> HasNonZeroDigit(token)
  {
    if token != "" {
      NonZeroIff(token[1..]);
      if NonZero(token) && !('1' <= token[0] <= '9') {
        var i :| 0 <= i < |token[1..]| && '1' <= token[1..][i] <= '9'
                 && forall j | 0 <= j < i :: token[1..][j] !in "eE";
        assert token[i + 1] == token[1..][i];
        forall j | 0 <= j < i + 1 ensures token[j] !in "eE" {
          assert j > 0 ==> token[j] == token[1..][j - 1];
        }
      }
      if HasNonZeroDigit(token) && !('1' <= token[0] <= '9') {
        var i :| 0 <= i < |token| && '1' <= token[i] <= '9' && forall j | 0 <= j < i :: token[j] !in "eE";
        assert token[1..][i - 1] == token[i];
        assert token[0] !in "eE";
      }
    }
  }

  /** Falsy are: what is missing, null, false, the empty text, and the number zero. */
  lemma TruthyIff(v: Option<Json>)
    ensures !Truthy(v) <==>
            || v.None? || v == Some(Null) || v == Some(Bool(false)) || v == Some(Str(""))
            || (v.Some? && v.value.Num? && !HasNonZeroDigit(v.value.token))
  {
    if v.Some? && v.value.Num? {
      NonZeroIff(v.value.token);
    }
  }

  /** Of schema, data and error, in this order, the first that is truthy is told; a line with none tells nothing. */
  lemma LineTells(line: string, failure: string, v: Json)
    requires !Blank(line) && Parse(line) == Some(v) && !v.Null?
    ensures var schema, data, error := Get(v, "schema"), Get(v, "data"), Get(v, "error");
            && (Truthy(schema) ==>
                  exists refresh :: LineEvents(line, failure) == [SchemaEvent(schema.value, refresh)]
                                    && (Truthy(Get(v, "lastRefreshTime")) ==> refresh == Get(v, "lastRefreshTime"))
                                    && (!Truthy(Get(v, "lastRefreshTime")) ==> refresh == None))
            && (!Truthy(schema) && Truthy(data) ==> LineEvents(line, failure) == [DataEvent(data.value)])
            && (!Truthy(schema) && !Truthy(data) && Truthy(error) ==>
                  LineEvents(line, failure) == [ErrorEvent(error.value)])
            && (!Truthy(schema) && !Truthy(data) && !Truthy(error) ==> LineEvents(line, failure) == [])
  {
    if Truthy(Get(v, "schema")) {
      var refresh := OnlyTruthy(Get(v, "lastRefreshTime"));
      assert LineEvents(line, failure) == [SchemaEvent(Get(v, "schema").value, refresh)];
    }
  }

  /** A line that cannot be read: it is not blank, and it is no JSON value or null. */
  predicate Unreadable(line: string) {
    !Blank(line) && (Parse(line).None? || Parse(line) == Some(Null))
  }

  /** What the text of an unreadable piece is told with: the last piece has no end of line. */
  function FailureText(pieces: seq<string>, k: nat): string
    requires k < |pieces|
  {
    (if k < |pieces| - 1 then "Failed to parse JSON line: " else "Failed to parse remaining JSON: ") + pieces[k]
  }

  lemma EventsAround(a: seq<string>, line: string, b: seq<string>)
    ensures EventsOf(a + [line] + b) == EventsOf(a) + LineEvents(line, LINE_FAILURE) + EventsOf(b)
  {
    EventsAppend(a + [line], b);
    EventsSnoc(a, line);
  }

  /** An unreadable piece is told as an error, with its text, after the events of the pieces before it. */
  lemma UnreadableIsTold(text: string, k: nat)
    requires k < |Split(text, '\n')| && Unreadable(Split(text, '\n')[k])
    ensures var pieces, events := Split(text, '\n'), StreamEvents(text);
            var before := EventsOf(pieces[..k]);
            && |before| < |events| && events[..|before|] == before
            && events[|before|] == ErrorEvent(Str(FailureText(pieces, k)))
    ensures ErrorEvent(Str(FailureText(Split(text, '\n'), k))) in StreamEvents(text)
  {
    var pieces := Split(text, '\n');
    var init := DropLast(pieces);
    assert init[..if k < |init| then k else |init|] == pieces[..k];
    if k < |init| {
      assert init == pieces[..k] + [pieces[k]] + init[k + 1..];
      EventsAround(pieces[..k], pieces[k], init[k + 1..]);
    }
  }

  /** A stream without an error event has no unreadable piece. */
  lemma NoErrorMeansReadable(text: string)
    requires forall e | e in StreamEvents(text) :: !e.ErrorEvent?
    ensures forall k | 0 <= k < |Split(text, '\n')| :: !Unreadable(Split(text, '\n')[k])
  {
    forall k | 0 <= k < |Split(text, '\n')| ensures !Unreadable(Split(text, '\n')[k]) {
      if Unreadable(Split(text, '\n')[k]) {
        UnreadableIsTold(text, k);
      }
    }
  }

  // ---- the batch decoder ----

  datatype BatchError = InvalidFormat | TimedOut | Aborted | Undecodable(text: string)

  /** A row may be `undefined`: that is what a line without data contributes. */
  datatype Batch = Batch(schema: Option<Json>, data: seq<Option<Json>>, lastRefreshTime: Option<Json>)

  datatype Result<+T> = Ok(value: T) | Err(error: BatchError)

  function AllSome(items: seq<Json>): (r: seq<Option<Json>>)
    ensures |r| == |items| && forall i | 0 <= i < |r| :: r[i] == Some(items[i])
  {
    seq(|items|, i requires 0 <= i < |items| => Some(items[i]))
  }

  /** `acc.concat(v)`: an array is spread, anything else is one element. */
  function Concat(acc: seq<Option<Json>>, v: Option<Json>): seq<Option<Json>> {
    if v.Some? && v.value.Arr? then acc + AllSome(v.value.items) else acc + [v]
  }

  /** `.data` of every line that is not blank, concatenated; `None` when some line throws. */
  function BatchRows(lines: seq<string>): Option<seq<Option<Json>>> {
    if lines == [] then Some([])
    else
      var rest := BatchRows(DropLast(lines));
      var line := Last(lines);
      if Blank(line) || rest.None? then rest
      else
        var parsed := Parse(line);
        if parsed.None? || parsed.value.Null? then None
        else Some(Concat(rest.value, Get(parsed.value, "data")))
  }

  /** The result of a batch request, from the text that arrives in `response.error`. */
  function CubeSql(text: string): Result<Batch> {
    if text == "" then Err(InvalidFormat)
    else if text == "timeout" then Err(TimedOut)
    else if text == "aborted" then Err(Aborted)
    else
      var pieces := Split(text, '\n');
      var schema := Parse(pieces[0]);
      var data := BatchRows(pieces[1..]);
      if schema.None? || schema.value.Null? || data.None? then Err(Undecodable(text))
      else Ok(Batch(Get(schema.value, "schema"), data.value, OnlyTruthy(Get(schema.value, "lastRefreshTime"))))
  }

  /** The rows carried by a run of data events. */
  function DataOf(events: seq<Event>): seq<Option<Json>>
    requires forall e | e in events :: e.DataEvent?
  {
    if events == [] then [] else Concat(DataOf(DropLast(events)), Some(Last(events).data))
  }

  function LinesWithText(lines: seq<string>): nat {
    if lines == [] then 0
    else (if Blank(Last(lines)) then 0 else 1) + LinesWithText(DropLast(lines))
  }

  /** A stream that told of every line: a schema first, then only data. */
  ghost predicate Successful(text: string) {
    var pieces := Split(text, '\n');
    var events := StreamEvents(text);
    && !Blank(pieces[0])
    && |events| == LinesWithText(pieces) > 0
    && events[0].SchemaEvent?
    && (forall e | e in events[1..] :: e.DataEvent?)
  }

  lemma AtMostOneEvent(line: string, failure: string)
    ensures |LineEvents(line, failure)| <= if Blank(line) then 0 else 1
  {
  }

  lemma {:induction false} EventsPerLine(lines: seq<string>)
    ensures |EventsOf(lines)| <= LinesWithText(lines)
  {
    if lines != [] {
      var line := Last(lines);
      assert lines == DropLast(lines) + [line];
      EventsSnoc(DropLast(lines), line);
      EventsPerLine(DropLast(lines));
    }
  }

  lemma {:induction false} BatchRowsFail(lines: seq<string>)
    ensures BatchRows(lines).None? <==> exists k :: 0 <= k < |lines| && Unreadable(lines[k])
  {
    if lines != [] {
      BatchRowsFail(DropLast(lines));
      assert lines[|lines| - 1] == Last(lines);
      assert forall k | 0 <= k < |lines| - 1 :: DropLast(lines)[k] == lines[k];
    }
  }

  /** When the batch decoder fails, and with what: one unreadable line after the first is enough. */
  lemma BatchErrorIs(text: string)
    ensures CubeSql("") == Err(InvalidFormat)
    ensures CubeSql("timeout") == Err(TimedOut) && CubeSql("aborted") == Err(Aborted)
    ensures var pieces := Split(text, '\n');
            text !in {"", "timeout", "aborted"} ==>
              if || Parse(pieces[0]).None? || Parse(pieces[0]) == Some(Null)
                 || exists k :: 1 <= k < |pieces| && Unreadable(pieces[k])
              then CubeSql(text) == Err(Undecodable(text))
              else CubeSql(text).Ok?
  {
    var pieces := Split(text, '\n');
    var rest := pieces[1..];
    BatchRowsFail(rest);
    assert forall k | 1 <= k < |pieces| :: pieces[k] == rest[k - 1];
  }

  lemma BatchRowsOfLine(init: seq<string>, line: string)
    requires BatchRows(init).Some?
    ensures LineEvents(line, LINE_FAILURE) == [] && Blank(line) ==> BatchRows(init + [line]) == BatchRows(init)
    ensures |LineEvents(line, LINE_FAILURE)| == 1 && LineEvents(line, LINE_FAILURE)[0].DataEvent? ==>
              BatchRows(init + [line]) ==
                  Some(Concat(BatchRows(init).value, Some(LineEvents(line, LINE_FAILURE)[0].data)))
  {
    assert DropLast(init + [line]) == init && Last(init + [line]) == line;
  }

  /** On lines that all speak of data, the batch rows are the rows of the data events. */
  lemma {:induction false} RowsOfEvents(lines: seq<string>)
    requires |EventsOf(lines)| == LinesWithText(lines)
    requires forall e | e in EventsOf(lines) :: e.DataEvent?
    ensures BatchRows(lines) == Some(DataOf(EventsOf(lines)))
  {
    if lines != [] {
      var line, init := Last(lines), DropLast(lines);
      assert lines == init + [line];
      EventsSnoc(init, line);
      EventsPerLine(init);
      AtMostOneEvent(line, LINE_FAILURE);
      var before, own := EventsOf(init), LineEvents(line, LINE_FAILURE);
      if own == [] {
        assert before + own == before;
      } else {
        assert own == [own[0]];
      }
      RowsOfEvents(init);
      BatchRowsOfLine(init, line);
    }
  }

  lemma {:induction false} LinesSplit(a: string, rest: seq<string>)
    ensures LinesWithText([a] + rest) == (if Blank(a) then 0 else 1) + LinesWithText(rest)
  {
    if rest == [] {
      assert [a] + rest == [a] && DropLast([a]) == [];
    } else {
      assert DropLast([a] + rest) == [a] + DropLast(rest);
      LinesSplit(a, DropLast(rest));
    }
  }

  lemma LastLikeOthers(piece: string)
    requires forall e | e in LineEvents(piece, REMAINING_FAILURE) :: !e.ErrorEvent?
    ensures LineEvents(piece, REMAINING_FAILURE) == LineEvents(piece, LINE_FAILURE)
  {
    var told := LineEvents(piece, REMAINING_FAILURE);
    assert told != [] ==> told[0] in told;
  }

  lemma LastPiece(text: string)
    requires forall e | e in StreamEvents(text) :: !e.ErrorEvent?
    ensures StreamEvents(text) == EventsOf(Split(text, '\n'))
  {
    var pieces := Split(text, '\n');
    var init, piece := DropLast(pieces), Last(pieces);
    forall e | e in LineEvents(piece, REMAINING_FAILURE) ensures !e.ErrorEvent? {
      assert e in StreamEvents(text);
    }
    LastLikeOthers(piece);
    EventsSnoc(init, piece);
    assert pieces == init + [piece];
  }

  /** In a successful text the first line tells the schema and each other line its data. */
  lemma FirstAndRest(text: string)
    requires Successful(text)
    ensures var pieces, events := Split(text, '\n'), StreamEvents(text);
      && LineEvents(pieces[0], LINE_FAILURE) == [events[0]]
      && EventsOf(pieces[1..]) == events[1..]
      && |EventsOf(pieces[1..])| == LinesWithText(pieces[1..])
  {
    var pieces, events := Split(text, '\n'), StreamEvents(text);
    forall e | e in events ensures !e.ErrorEvent? {
      assert events == [events[0]] + events[1..];
    }
    LastPiece(text);
    var first, rest := pieces[0], pieces[1..];
    assert pieces == [first] + rest;
    LinesSplit(first, rest);
    EventsPerLine(rest);
    AtMostOneEvent(first, LINE_FAILURE);
    assert events == LineEvents(first, LINE_FAILURE) + EventsOf(rest);
  }

  lemma SchemaLine(line: string)
    requires |LineEvents(line, LINE_FAILURE)| == 1 && LineEvents(line, LINE_FAILURE)[0].SchemaEvent?
    ensures var parsed, e := Parse(line), LineEvents(line, LINE_FAILURE)[0];
      && parsed.Some? && !parsed.value.Null?
      && Get(parsed.value, "schema") == Some(e.schema)
      && OnlyTruthy(Get(parsed.value, "lastRefreshTime")) == e.lastRefreshTime
  {
  }

  /** The streaming and the batch decoder agree on every successful text. */
  lemma BatchAgreesWithStream(text: string)
    requires Successful(text) && text != "timeout" && text != "aborted"
    ensures var events := StreamEvents(text);
            && CubeSql(text) == Ok(Batch(Some(events[0].schema), DataOf(events[1..]), events[0].lastRefreshTime))
  {
    var pieces := Split(text, '\n');
    FirstAndRest(text);
    SchemaLine(pieces[0]);
    RowsOfEvents(pieces[1..]);
  }
}
