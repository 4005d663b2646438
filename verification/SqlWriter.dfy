/**
 The server side of SQL over HTTP: one schema message, the data batches in order,
 and an error message when anything goes wrong, one JSON value a line.
 */
module SqlWriter {
  import opened Wrappers
  import opened Strings
  import opened Json
  import opened JsonLines

  datatype Message =
    | SchemaMessage(columns: seq<Json>, refreshed: Option<string>)
    | DataMessage(rows: seq<Json>)
    | ErrorMessage(text: string)

  function Body(m: Message): Json {
    match m
    case SchemaMessage(columns, refreshed) =>
      var schema := Member("schema", Arr(columns));
      Obj(if refreshed.Some? then [schema, Member("lastRefreshTime", Str(refreshed.value))] else [schema])
    case DataMessage(rows) => Obj([Member("data", Arr(rows))])
    case ErrorMessage(text) => Obj([Member("error", Str(text))])
  }

  function LineOf(m: Message): string {
    Print(Body(m))
  }

  function MessageLine(m: Message): string {
    LineOf(m) + "\n"
  }

  function Lines(ms: seq<Message>): seq<string> {
    Map(LineOf, ms)
  }

  /** The text of messages: a line for each. */
  function Text(ms: seq<Message>): string {
    Terminated(Lines(ms), '\n')
  }

  lemma TextCons(m: Message, rest: seq<Message>)
    ensures Text([m] + rest) == MessageLine(m) + Text(rest)
  {
    MapCons(LineOf, m, rest);
    TerminatedCons(LineOf(m), Lines(rest), '\n');
  }

  lemma TextOne(m: Message)
    ensures Text([m]) == MessageLine(m)
  {
    TextCons(m, []);
    assert [m] + [] == [m];
  }

  lemma TextAppend(a: seq<Message>, b: seq<Message>)
    ensures Text(a + b) == Text(a) + Text(b)
  {
    MapAppend(LineOf, a, b);
    TerminatedAppend(Lines(a), Lines(b), '\n');
  }

  // ---- the run of a query ----

  /** What `stream.next()` gives: rows, or an error of the batch or of its conversion. */
  datatype Fetched = Rows(rows: seq<Json>) | Broken(error: string)

  /** What a write to the response comes back with. */
  datatype WriteOutcome =
    | Written(more: bool)
    | NotDelivered(error: string)
    | DeliveredThenFailed(error: string)

  /**
   Everything a run depends on: errors before (`setup`) and inside (`plan`) the execution,
   the result stream, the outcome of the k-th write, and errors of the two final log calls.
   */
  datatype Query = Query(
    setup: Option<string>,
    plan: Option<string>,
    columns: seq<Json>,
    refreshed: Option<string>,
    batches: seq<Fetched>,
    writes: nat -> WriteOutcome,
    successLog: Option<string>,
    failureLog: Option<string>)

  function GoodBatches(batches: seq<Fetched>): seq<Message> {
    if batches == [] || batches[0].Broken? then []
    else [DataMessage(batches[0].rows)] + GoodBatches(batches[1..])
  }

  /**
   The messages of the query when every write succeeds: the schema, then at least one data message
   unless a batch breaks.
   */
  function Planned(q: Query): seq<Message> {
    [SchemaMessage(q.columns, q.refreshed)] +
    if q.batches == [] then [DataMessage([])] else GoodBatches(q.batches)
  }

  predicate AllGood(batches: seq<Fetched>) {
    forall i | 0 <= i < |batches| :: batches[i].Rows?
  }

  function FirstBroken(batches: seq<Fetched>): Option<string> {
    if batches == [] then None
    else if batches[0].Broken? then Some(batches[0].error)
    else FirstBroken(batches[1..])
  }

  function WriteError(w: WriteOutcome): Option<string> {
    if w.Written? then None else Some(w.error)
  }

  /** The error of the first write at or after k that fails. */
  function FirstWriteError(q: Query, k: nat): Option<string>
    requires k <= |Planned(q)|
    decreases |Planned(q)| - k
  {
    if k == |Planned(q)| then None
    else if !q.writes(k).Written? then WriteError(q.writes(k))
    else FirstWriteError(q, k + 1)
  }

  function OrElse(a: Option<string>, b: Option<string>): Option<string> {
    if a.Some? then a else b
  }

  /** The error of the execution itself, in the order in which the run meets them. */
  function ExecutionError(q: Query): Option<string> {
    OrElse(q.plan, OrElse(FirstWriteError(q, 0), FirstBroken(q.batches)))
  }

  /** The error the response ends with: an error of the failure log replaces the one it was to report. */
  function ReportedError(q: Query): Option<string> {
    if q.setup.Some? then q.setup
    else if ExecutionError(q).Some? then OrElse(q.failureLog, ExecutionError(q))
    else q.successLog
  }

  /** `sent` stops short of the plan only where the run never started or a write failed. */
  ghost predicate Delivers(q: Query, sent: seq<Message>) {
    && sent <= Planned(q)
    && (forall k | 0 <= k < |sent| - 1 :: q.writes(k).Written?)
    && (q.setup.Some? || q.plan.Some? ==> sent == [])
    && (q.setup.None? && q.plan.None? && |sent| < |Planned(q)| ==>
          q.writes(|sent|).NotDelivered? || (|sent| > 0 && q.writes(|sent| - 1).DeliveredThenFailed?))
    && (|sent| > 0 ==> !q.writes(|sent| - 1).NotDelivered?)
  }

  lemma {:induction false} GoodBatchesAt(batches: seq<Fetched>, n: nat)
    requires n <= |batches| && forall i | 0 <= i < n :: batches[i].Rows?
    ensures |GoodBatches(batches)| >= n
    ensures n < |batches| && batches[n].Rows? ==>
              |GoodBatches(batches)| > n && GoodBatches(batches)[n] == DataMessage(batches[n].rows)
    ensures (n == |batches| || batches[n].Broken?) ==> |GoodBatches(batches)| == n
    ensures FirstBroken(batches) ==
            if n == |batches| then None
            else if batches[n].Broken? then Some(batches[n].error)
            else FirstBroken(batches[n..])
  {
    if n == 0 {
      assert batches[0..] == batches;
    } else {
      assert batches[1..][n - 1..] == batches[n..];
      GoodBatchesAt(batches[1..], n - 1);
    }
  }

  lemma {:induction false} WritesUpTo(q: Query, n: nat)
    requires n <= |Planned(q)| && forall k | 0 <= k < n :: q.writes(k).Written?
    ensures FirstWriteError(q, 0) == FirstWriteError(q, n)
  {
    if n > 0 {
      WritesUpTo(q, n - 1);
    }
  }

  /** The messages of the plan one by one: the run may look up the n-th before it knows the rest. */
  lemma PlanAt(q: Query, n: nat)
    requires n <= |q.batches| && forall i | 0 <= i < n :: q.batches[i].Rows?
    ensures |Planned(q)| > n
    ensures n < |q.batches| && q.batches[n].Rows? ==>
              |Planned(q)| > n + 1 && Planned(q)[n + 1] == DataMessage(q.batches[n].rows)
    ensures n < |q.batches| && q.batches[n].Broken? ==> |Planned(q)| == n + 1
    ensures n == |q.batches| > 0 ==> |Planned(q)| == n + 1
    ensures n == |q.batches| ==> FirstBroken(q.batches).None?
    ensures n < |q.batches| && q.batches[n].Broken? ==> FirstBroken(q.batches) == Some(q.batches[n].error)
  {
    GoodBatchesAt(q.batches, n);
  }

  /** A run that stops at its n-th write: it fails with the error of that write, having delivered what came before. */
  lemma StoppedAt(q: Query, n: nat)
    requires q.setup.None? && q.plan.None? && n < |Planned(q)|
    requires (forall k | 0 <= k < n :: q.writes(k).Written?) && !q.writes(n).Written?
    ensures ExecutionError(q) == Some(q.writes(n).error)
    ensures Delivers(q, Planned(q)[..if q.writes(n).NotDelivered? then n else n + 1])
  {
    WritesUpTo(q, n);
  }

  /** A run whose writes all succeed delivers the plan. */
  lemma AllWritten(q: Query)
    requires q.setup.None? && q.plan.None? && forall k | 0 <= k < |Planned(q)| :: q.writes(k).Written?
    ensures ExecutionError(q) == FirstBroken(q.batches)
    ensures Delivers(q, Planned(q))
  {
    WritesUpTo(q, |Planned(q)|);
  }

  /** The first write that fails is the k-th. */
  ghost predicate FailsFirstAt(q: Query, k: nat) {
    k < |Planned(q)| && !q.writes(k).Written? && forall j | 0 <= j < k :: q.writes(j).Written?
  }

  ghost predicate AllDelivered(q: Query) {
    forall k | 0 <= k < |Planned(q)| :: q.writes(k).Written?
  }

  /** The first batch that breaks is the n-th. */
  ghost predicate BreaksFirstAt(q: Query, n: nat) {
    n < |q.batches| && q.batches[n].Broken? && forall i | 0 <= i < n :: q.batches[i].Rows?
  }

  /**
   The error a response ends with, cause by cause: an error before the run; of the plan; of the first write
   that fails, which comes before any broken batch; of the first broken batch; or of the log of a success. An
   error of the failure log replaces the one it was to report, but not one from before the run.
   */
  lemma WhatIsReported(q: Query, k: nat)
    ensures q.setup.Some? ==> ReportedError(q) == q.setup
    ensures q.setup.None? && q.failureLog.Some? && ExecutionError(q).Some? ==> ReportedError(q) == q.failureLog
    ensures q.setup.None? && q.failureLog.None? ==>
              && (q.plan.Some? ==> ReportedError(q) == q.plan)
              && (q.plan.None? && FailsFirstAt(q, k) ==> ReportedError(q) == Some(q.writes(k).error))
              && (q.plan.None? && AllDelivered(q) && BreaksFirstAt(q, k) ==>
                    ReportedError(q) == Some(q.batches[k].error))
    ensures q.setup.None? && q.plan.None? && AllDelivered(q) && AllGood(q.batches) ==> ReportedError(q) == q.successLog
    ensures ExecutionError(q).Some? <==> q.plan.Some? || !AllDelivered(q) || !AllGood(q.batches)
  {
    if q.setup.None? && q.plan.None? && FailsFirstAt(q, k) {
      StoppedAt(q, k);
    }
    if AllDelivered(q) {
      WritesUpTo(q, |Planned(q)|);
      if BreaksFirstAt(q, k) {
        PlanAt(q, k);
      }
      BrokenIff(q.batches);
    } else {
      SomeWriteFails(q, 0);
    }
  }

  lemma {:induction false} BrokenIff(batches: seq<Fetched>)
    ensures FirstBroken(batches).None? <==> AllGood(batches)
  {
    if batches != [] {
      BrokenIff(batches[1..]);
      assert batches == [batches[0]] + batches[1..];
    }
  }

  lemma {:induction false} SomeWriteFails(q: Query, k: nat)
    requires k <= |Planned(q)|
    ensures FirstWriteError(q, k).None? <==> forall j | k <= j < |Planned(q)| :: q.writes(j).Written?
    decreases |Planned(q)| - k
  {
    if k < |Planned(q)| {
      SomeWriteFails(q, k + 1);
    }
  }

  /**
   `write_jsonl_message(...).await?` of the k-th message: the run goes on, or stops here with the error
   of the write.
   */
  method Write(q: Query, k: nat, m: Message, sent: seq<Message>) returns (now: seq<Message>, failure: Option<string>)
    requires q.setup.None? && q.plan.None? && k < |Planned(q)| && m == Planned(q)[k]
    requires sent == Planned(q)[..k] && forall j | 0 <= j < k :: q.writes(j).Written?
    ensures failure == WriteError(q.writes(k))
    ensures failure.None? ==> now == Planned(q)[..k + 1]
    ensures failure.Some? ==> Delivers(q, now) && failure == ExecutionError(q)
  {
    var outcome := q.writes(k);
    now := if outcome.NotDelivered? then sent else sent + [m];
    failure := WriteError(outcome);
    if failure.Some? {
      StoppedAt(q, k);
      assert now == Planned(q)[..if outcome.NotDelivered? then k else k + 1];
    }
  }

  /** The loop has seen n good batches, and all their writes succeeded. */
  ghost predicate Going(q: Query, n: nat, sent: seq<Message>) {
    && q.setup.None? && q.plan.None?
    && n <= |q.batches| && (forall i | 0 <= i < n :: q.batches[i].Rows?)
    && n < |Planned(q)| && sent == Planned(q)[..n + 1]
    && (forall k | 0 <= k <= n :: q.writes(k).Written?)
  }

  lemma NextIsData(q: Query, n: nat, sent: seq<Message>)
    requires Going(q, n, sent) && n < |q.batches| && q.batches[n].Rows?
    ensures n + 1 < |Planned(q)| && Planned(q)[n + 1] == DataMessage(q.batches[n].rows)
    ensures q.writes(n + 1).Written? ==> Going(q, n + 1, Planned(q)[..n + 2])
  {
    PlanAt(q, n);
  }

  lemma BatchBreaks(q: Query, n: nat, sent: seq<Message>)
    requires Going(q, n, sent) && n < |q.batches| && q.batches[n].Broken?
    ensures Delivers(q, sent) && ExecutionError(q) == Some(q.batches[n].error)
  {
    PlanAt(q, n);
    AllWritten(q);
    assert sent == Planned(q);
  }

  /** The end of the stream: done if there was a batch, else the empty data message is next. */
  lemma StreamEnds(q: Query, sent: seq<Message>)
    requires Going(q, |q.batches|, sent)
    ensures q.batches == [] ==> Planned(q)[1..] == [DataMessage([])]
    ensures q.batches != [] ==> Delivers(q, sent) && ExecutionError(q).None? && sent == Planned(q)
  {
    PlanAt(q, |q.batches|);
    if q.batches != [] {
      AllWritten(q);
      assert sent == Planned(q);
    }
  }

  lemma EmptyIsSent(q: Query)
    requires q.setup.None? && q.plan.None? && q.batches == [] && q.writes(0).Written? && q.writes(1).Written?
    ensures Delivers(q, Planned(q)) && ExecutionError(q).None? && |Planned(q)| == 2
  {
    AllWritten(q);
  }

  /** The loop over the batches. */
  method SendBatches(q: Query, schema: seq<Message>)
    returns (sent: seq<Message>, failure: Option<string>, hasData: bool)
    requires Going(q, 0, schema)
    ensures failure.None? ==> Going(q, |q.batches|, sent) && hasData == (q.batches != [])
    ensures failure.Some? ==> Delivers(q, sent) && failure == ExecutionError(q)
  {
    sent, failure, hasData := schema, None, false;
    var n := 0;
    while n < |q.batches|
      invariant Going(q, n, sent) && hasData == (n > 0) && failure.None?
    {
      var batch := q.batches[n];
      if batch.Broken? {
        BatchBreaks(q, n, sent);
        return sent, Some(batch.error), hasData;
      }
      hasData := true;
      NextIsData(q, n, sent);
      sent, failure := Write(q, n + 1, DataMessage(batch.rows), sent);
      if failure.Some? {
        return;
      }
      n := n + 1;
    }
  }

  /** The execution closure: schema first, then batch after batch until the end or the first failure. */
  method Execute(q: Query) returns (sent: seq<Message>, failure: Option<string>)
    requires q.setup.None?
    ensures Delivers(q, sent)
    ensures failure == ExecutionError(q)
    ensures failure.None? ==> sent == Planned(q)
  {
    if q.plan.Some? {
      return [], q.plan;
    }
    sent, failure := Write(q, 0, SchemaMessage(q.columns, q.refreshed), []);
    if failure.Some? {
      return;
    }
    var hasData;
    sent, failure, hasData := SendBatches(q, sent);
    if failure.Some? {
      return;
    }
    StreamEnds(q, sent);
    if !hasData {
      sent, failure := Write(q, 1, DataMessage([]), sent);
      if failure.None? {
        EmptyIsSent(q);
      }
    }
  }

  /** The whole request: what was sent, and the error message the response is ended with, if any. */
  method ExecSql(q: Query) returns (text: string, sent: seq<Message>)
    ensures Delivers(q, sent)
    ensures ReportedError(q).None? ==> sent == Planned(q)
    ensures text == Text(Transcript(sent, ReportedError(q)))
  {
    var messages, failure := [], q.setup;
    if q.setup.None? {
      messages, failure := Execute(q);
      if failure.Some? {
        failure := OrElse(q.failureLog, failure);
      } else {
        failure := q.successLog;
      }
    }
    sent := messages;
    text := Text(messages);
    if failure.Some? {
      TextAppend(messages, [ErrorMessage(failure.value)]);
      TextOne(ErrorMessage(failure.value));
      text := text + MessageLine(ErrorMessage(failure.value));
    }
  }

  function Transcript(sent: seq<Message>, failure: Option<string>): seq<Message> {
    if failure.Some? then sent + [ErrorMessage(failure.value)] else sent
  }

  // ---- what the client reads ----

  ghost predicate Sound(ms: seq<Message>) {
    forall m | m in ms :: WellFormed(Body(m))
  }

  /** The event of a message; an empty error text is falsy and tells nothing. */
  function Told(m: Message): seq<Event> {
    match m
    case SchemaMessage(columns, refreshed) =>
      [SchemaEvent(Arr(columns),
                   if refreshed.Some? && refreshed.value != "" then Some(Str(refreshed.value)) else None)]
    case DataMessage(rows) => [DataEvent(Arr(rows))]
    case ErrorMessage(text) => if text == "" then [] else [ErrorEvent(Str(text))]
  }

  function ToldAll(ms: seq<Message>): seq<Event> {
    if ms == [] then [] else Told(ms[0]) + ToldAll(ms[1..])
  }

  lemma {:induction false} ToldAppend(a: seq<Message>, b: seq<Message>)
    ensures ToldAll(a + b) == ToldAll(a) + ToldAll(b)
  {
    if a == [] {
      assert a + b == b;
    } else {
      assert (a + b)[1..] == a[1..] + b;
      ToldAppend(a[1..], b);
    }
  }

  lemma LookupOne(name: string, v: Json)
    ensures forall n :: Lookup([Member(name, v)], n) == if n == name then Some(v) else None
  {
    assert DropLast([Member(name, v)]) == [];
  }

  lemma LookupTwo(a: string, v: Json, b: string, w: Json)
    ensures forall n ::
              Lookup([Member(a, v), Member(b, w)], n) == if n == b then Some(w) else if n == a then Some(v) else None
  {
    assert DropLast([Member(a, v), Member(b, w)]) == [Member(a, v)];
    LookupOne(a, v);
  }

  lemma ClassifyBody(m: Message)
    ensures Classify(Body(m)) == Told(m)
  {
    match m {
      case SchemaMessage(columns, refreshed) =>
        if refreshed.Some? {
          LookupTwo("schema", Arr(columns), "lastRefreshTime", Str(refreshed.value));
        } else {
          LookupOne("schema", Arr(columns));
        }
      case DataMessage(rows) => LookupOne("data", Arr(rows));
      case ErrorMessage(text) => LookupOne("error", Str(text));
    }
  }

  /** A printed object is one line that reads back as the object. */
  lemma ObjectLine(v: Json, failure: string)
    requires WellFormed(v) && v.Obj?
    ensures '\n' !in Print(v) && Print(v)[0] == '{' && !Blank(Print(v))
    ensures Parse(Print(v)) == Some(v)
    ensures LineEvents(Print(v), failure) == Classify(v)
  {
    PrintOnOneLine(v);
    RoundTrip(v);
    assert Print(v)[0] == '{' && '{' in Print(v);
  }

  /** The printed message is one line that reads back as the message. */
  lemma LineOfMessage(m: Message, failure: string)
    requires WellFormed(Body(m))
    ensures '\n' !in LineOf(m) && !Blank(LineOf(m))
    ensures Parse(LineOf(m)) == Some(Body(m))
    ensures LineEvents(LineOf(m), failure) == Told(m)
  {
    assert Body(m).Obj?;
    ObjectLine(Body(m), failure);
    ClassifyBody(m);
  }

  lemma EventsCons(line: string, rest: seq<string>)
    ensures EventsOf([line] + rest) == LineEvents(line, LINE_FAILURE) + EventsOf(rest)
  {
    assert ([line] + rest)[1..] == rest;
  }

  lemma LinesAreLines(ms: seq<Message>)
    requires Sound(ms)
    ensures forall line | line in Lines(ms) :: '\n' !in line
  {
    forall i | 0 <= i < |ms| ensures '\n' !in Lines(ms)[i] {
      assert ms[i] in ms;
      LineOfMessage(ms[i], LINE_FAILURE);
    }
  }

  lemma EventsStep(line: string, rest: seq<string>)
    ensures EventsOf([line] + rest + [""]) == LineEvents(line, LINE_FAILURE) + EventsOf(rest + [""])
  {
    EventsCons(line, rest + [""]);
    assert [line] + rest + [""] == [line] + (rest + [""]);
  }

  lemma {:induction false} EventsOfLines(ms: seq<Message>)
    requires Sound(ms)
    ensures EventsOf(Lines(ms) + [""]) == ToldAll(ms)
  {
    if ms == [] {
      EventsCons("", []);
      assert Lines([]) + [""] == [""] + [];
    } else {
      assert ms[0] in ms && forall m | m in ms[1..] :: m in ms;
      EventsOfLines(ms[1..]);
      MapCons(LineOf, ms[0], ms[1..]);
      assert [ms[0]] + ms[1..] == ms;
      LineOfMessage(ms[0], LINE_FAILURE);
      EventsStep(LineOf(ms[0]), Lines(ms[1..]));
    }
  }

  lemma SplitText(ms: seq<Message>)
    requires Sound(ms)
    ensures Split(Text(ms), '\n') == Lines(ms) + [""]
    ensures EventsOf(Split(Text(ms), '\n')) == ToldAll(ms)
  {
    LinesAreLines(ms);
    SplitLines(Lines(ms), '\n');
    EventsOfLines(ms);
  }

  /** Decoding undoes writing: the events are those of the messages, one after the other. */
  lemma WriterAndDecoder(ms: seq<Message>)
    requires Sound(ms)
    ensures StreamEvents(Text(ms)) == ToldAll(ms)
  {
    SplitText(ms);
    var pieces := Split(Text(ms), '\n');
    assert Last(pieces) == "";
    EventsSnoc(DropLast(pieces), "");
    assert pieces == DropLast(pieces) + [""];
  }

  lemma {:induction false} DataTold(ms: seq<Message>)
    requires forall m | m in ms :: m.DataMessage?
    ensures |ToldAll(ms)| == |ms|
    ensures forall i | 0 <= i < |ms| :: ToldAll(ms)[i] == DataEvent(Arr(ms[i].rows))
  {
    if ms != [] {
      DataTold(ms[1..]);
      assert ms[0] in ms;
      forall i | 0 < i < |ms| ensures ToldAll(ms)[i] == DataEvent(Arr(ms[i].rows)) {
        assert ToldAll(ms)[i] == ToldAll(ms[1..])[i - 1];
      }
    }
  }

  lemma {:induction false} GoodBatchesAreData(batches: seq<Fetched>)
    ensures forall m | m in GoodBatches(batches) :: m.DataMessage?
    ensures AllGood(batches) ==> |GoodBatches(batches)| == |batches|
    ensures FirstBroken(batches).None? <==> AllGood(batches)
  {
    if batches != [] {
      GoodBatchesAreData(batches[1..]);
      assert AllGood(batches) <==> batches[0].Rows? && AllGood(batches[1..]) by {
        assert batches == [batches[0]] + batches[1..];
      }
    }
  }

  ghost predicate SchemaThenData(ms: seq<Message>) {
    |ms| > 0 ==> ms[0].SchemaMessage? && forall i | 0 < i < |ms| :: ms[i].DataMessage?
  }

  /**
   The shape of every run: a schema, then data, then at most one error, and no error means at least one
   data message.
   */
  lemma ShapeOfRun(q: Query, sent: seq<Message>)
    requires Delivers(q, sent) && (ReportedError(q).None? ==> sent == Planned(q))
    ensures SchemaThenData(sent)
    ensures ReportedError(q).None? ==> |sent| >= 2 && |sent| - 1 == if q.batches == [] then 1 else |q.batches|
  {
    GoodBatchesAreData(q.batches);
    var plan := Planned(q);
    forall i | 0 < i < |plan| ensures plan[i].DataMessage? {
      assert plan[i] in plan[1..];
      assert plan[1..] == if q.batches == [] then [DataMessage([])] else GoodBatches(q.batches);
    }
  }

  /**
   What a client of a run sees, however the text is cut: a successful run is its schema and its
   batches, one event each; a failing run is a prefix of that and one error event with the reported
   text (none when that text is empty).
   */
  lemma ClientSeesRun(q: Query, sent: seq<Message>, chunks: seq<string>)
    requires Delivers(q, sent) && (ReportedError(q).None? ==> sent == Planned(q))
    requires Sound(sent)
    requires Flatten(chunks) == Text(Transcript(sent, ReportedError(q)))
    ensures SchemaThenData(sent)
    ensures StreamEvents(Flatten(chunks)) ==
            ToldAll(sent) + match ReportedError(q) case None => [] case Some(e) => Told(ErrorMessage(e))
    ensures |ToldAll(sent)| == |sent|
    ensures |sent| > 0 ==>
              && ToldAll(sent)[0] == Told(SchemaMessage(q.columns, q.refreshed))[0]
              && forall i | 0 < i < |sent| :: ToldAll(sent)[i] == DataEvent(Arr(sent[i].rows))
  {
    ShapeOfRun(q, sent);
    var e := ReportedError(q);
    if e.Some? {
      ErrorIsSound(e.value);
      ToldAppend(sent, [ErrorMessage(e.value)]);
    }
    WriterAndDecoder(Transcript(sent, e));
    if |sent| > 0 {
      assert sent[0] == Planned(q)[0];
      ToldOfSent(sent);
    }
  }

  lemma ErrorIsSound(text: string)
    ensures WellFormed(Body(ErrorMessage(text)))
    ensures ToldAll([ErrorMessage(text)]) == Told(ErrorMessage(text))
  {
    assert Body(ErrorMessage(text)).fields[0].value == Str(text);
    assert ToldAll([ErrorMessage(text)]) == Told(ErrorMessage(text)) + ToldAll([]);
  }

  lemma ToldOfSent(sent: seq<Message>)
    requires SchemaThenData(sent) && |sent| > 0
    ensures |ToldAll(sent)| == |sent| && ToldAll(sent)[0] == Told(sent[0])[0]
    ensures forall i | 0 < i < |sent| :: ToldAll(sent)[i] == DataEvent(Arr(sent[i].rows))
  {
    forall m | m in sent[1..] ensures m.DataMessage? {
      var i :| 0 <= i < |sent[1..]| && sent[1..][i] == m;
      assert m == sent[i + 1];
    }
    DataTold(sent[1..]);
    forall i | 0 < i < |sent| ensures ToldAll(sent)[i] == DataEvent(Arr(sent[i].rows)) {
      assert ToldAll(sent)[i] == ToldAll(sent[1..])[i - 1];
    }
  }

  // ---- what the batch client reads ----

  /** The rows a line adds to a batch result; a line without a data member adds one `undefined`. */
  function Contribution(m: Message): seq<Option<Json>> {
    if m.DataMessage? then AllSome(m.rows) else [None]
  }

  function Contributed(ms: seq<Message>): seq<Option<Json>> {
    if ms == [] then [] else Contributed(DropLast(ms)) + Contribution(Last(ms))
  }

  lemma MembersOfBody(m: Message)
    ensures Body(m).Obj?
    ensures Get(Body(m), "data") == if m.DataMessage? then Some(Arr(m.rows)) else None
    ensures Get(Body(m), "schema") == if m.SchemaMessage? then Some(Arr(m.columns)) else None
    ensures m.SchemaMessage? ==> OnlyTruthy(Get(Body(m), "lastRefreshTime")) == Told(m)[0].lastRefreshTime
  {
    match m {
      case SchemaMessage(columns, refreshed) =>
        if refreshed.Some? {
          LookupTwo("schema", Arr(columns), "lastRefreshTime", Str(refreshed.value));
        } else {
          LookupOne("schema", Arr(columns));
        }
      case DataMessage(rows) => LookupOne("data", Arr(rows));
      case ErrorMessage(text) => LookupOne("error", Str(text));
    }
  }

  lemma BatchRowsSnoc(lines: seq<string>, line: string, v: Json)
    requires !Blank(line) && Parse(line) == Some(v) && !v.Null? && BatchRows(lines).Some?
    ensures BatchRows(lines + [line]) == Some(Concat(BatchRows(lines).value, Get(v, "data")))
  {
    assert DropLast(lines + [line]) == lines;
  }

  lemma {:induction false} BatchRowsOfLines(ms: seq<Message>)
    requires Sound(ms)
    ensures BatchRows(Lines(ms)) == Some(Contributed(ms))
  {
    if ms != [] {
      var m := Last(ms);
      BatchRowsOfLines(DropLast(ms));
      MapSnoc(LineOf, DropLast(ms), m);
      assert ms == DropLast(ms) + [m];
      LineOfMessage(m, LINE_FAILURE);
      MembersOfBody(m);
      BatchRowsSnoc(Lines(DropLast(ms)), LineOf(m), Body(m));
    }
  }

  lemma BatchRowsTerminated(lines: seq<string>)
    ensures BatchRows(lines + [""]) == BatchRows(lines)
  {
    assert DropLast(lines + [""]) == lines;
  }

  lemma BatchRowsOfText(ms: seq<Message>)
    requires Sound(ms)
    ensures BatchRows(Split(Text(ms), '\n')) == Some(Contributed(ms))
  {
    SplitText(ms);
    BatchRowsOfLines(ms);
    BatchRowsTerminated(Lines(ms));
  }

  /** The batch result of any response that starts with the schema. */
  lemma BatchOfText(schema: Message, rest: seq<Message>)
    requires schema.SchemaMessage? && Sound([schema] + rest)
    ensures CubeSql(Text([schema] + rest)) ==
            Ok(Batch(Some(Arr(schema.columns)), Contributed(rest), Told(schema)[0].lastRefreshTime))
  {
    var ms := [schema] + rest;
    assert schema in ms && forall m | m in rest :: m in ms;
    var v := Body(schema);
    ObjectLine(v, LINE_FAILURE);
    SplitLine(Print(v), '\n', Text(rest));
    BatchRowsOfText(rest);
    TextCons(schema, rest);
    MembersOfBody(schema);
  }

  /** A successful run gives the batch client the schema and every row of every batch, in order. */
  lemma BatchSeesSuccessfulRun(q: Query)
    requires ReportedError(q).None? && Sound(Planned(q))
    ensures CubeSql(Text(Planned(q))) ==
            Ok(Batch(Some(Arr(q.columns)), RowsFetched(q.batches), Told(Planned(q)[0])[0].lastRefreshTime))
  {
    var plan := Planned(q);
    assert plan == [plan[0]] + plan[1..];
    BatchOfText(plan[0], plan[1..]);
    GoodBatchesAreData(q.batches);
    if q.batches == [] {
      var only := plan[1..];
      assert only == [DataMessage([])] && DropLast(only) == [];
      assert Contributed(only) == Contributed([]) + AllSome([]);
    } else {
      assert plan[1..] == GoodBatches(q.batches);
      ContributedRows(q.batches);
    }
  }

  /** All rows of the result stream, batch after batch. */
  function RowsFetched(batches: seq<Fetched>): seq<Option<Json>> {
    if batches == [] then []
    else RowsFetched(DropLast(batches)) + if Last(batches).Rows? then AllSome(Last(batches).rows) else []
  }

  lemma {:induction false} GoodBatchesSnoc(batches: seq<Fetched>)
    requires AllGood(batches) && batches != []
    ensures GoodBatches(batches) == GoodBatches(DropLast(batches)) + [DataMessage(Last(batches).rows)]
  {
    if |batches| > 1 {
      assert DropLast(batches)[1..] == DropLast(batches[1..]);
      GoodBatchesSnoc(batches[1..]);
    }
  }

  lemma {:induction false} ContributedRows(batches: seq<Fetched>)
    requires AllGood(batches)
    ensures Contributed(GoodBatches(batches)) == RowsFetched(batches)
  {
    if batches != [] {
      GoodBatchesSnoc(batches);
      ContributedRows(DropLast(batches));
      assert DropLast(GoodBatches(batches)) == GoodBatches(DropLast(batches));
    }
  }

  /**
   The batch client does not see an error that comes after the schema: the error line has no data
   member, so it adds one undefined row to an otherwise ordinary result.
   */
  lemma BatchHidesLateError(schema: Message, data: seq<Message>, error: string)
    requires schema.SchemaMessage? && (forall m | m in data :: m.DataMessage?)
    requires Sound([schema] + data)
    ensures var result := CubeSql(Text([schema] + data + [ErrorMessage(error)]));
            && result.Ok?
            && result.value.data == Contributed(data) + [None]
  {
    var rest := data + [ErrorMessage(error)];
    assert [schema] + data + [ErrorMessage(error)] == [schema] + rest;
    assert Body(ErrorMessage(error)).fields[0].value == Str(error);
    BatchOfText(schema, rest);
    assert DropLast(rest) == data;
  }
}
