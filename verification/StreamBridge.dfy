/**
 The native stream bridge: rows written to a Node `Writable` are gathered into chunks, handed to a
 Rust task that sends them into a bounded channel, and received by the SQL engine. The Writable
 calls `write` and `final` only after the previous callback; every other interleaving is possible.
 */
module StreamBridge {

  datatype Chunk<T> = Rows(rows: seq<T>) | End | Failure

  /** The Writable: which callback it is waiting for. */
  datatype Phase = NotStarted | Idle | Sending | SendingLast | Ending | Done | Failed

  /** The send task: nothing, a chunk still to be sent, or an outcome whose callback is due. */
  datatype Task<T> = NoTask | Pending(chunk: Chunk<T>) | Accepted | Refused

  datatype Ready = Unknown | ReadyOk | ReadyError

  const CHANNEL_SIZE := 10

  /** `written`, `sent` and `consumed` are histories. */
  datatype State<T> = State(
    chunkLength: nat,
    phase: Phase,
    buffer: seq<T>,
    task: Task<T>,
    channel: seq<Chunk<T>>,
    open: bool,
    ready: Ready,
    written: seq<T>,
    sent: seq<Chunk<T>>,
    consumed: seq<Chunk<T>>)

  datatype Step<T> =
    | Start
    | FailToStart      // the query function throws before the stream starts
    | Write(row: T)
    | Final
    | SourceError      // the source stream fails before its end
    | Send             // the task gets a slot of the channel
    | SendFails        // the receiver is gone
    | Callback         // the outcome of the task reaches the event loop
    | Receive
    | Close            // the receiver is dropped

  function Initial<T>(chunkLength: nat): State<T> {
    State(chunkLength, NotStarted, [], NoTask, [], true, Unknown, [], [], [])
  }

  /** A chunk is sent as soon as the buffer is not shorter than `chunkLength`: never empty. */
  function ChunkSize(chunkLength: nat): (n: nat)
    ensures n >= 1 && n >= chunkLength
  {
    if chunkLength == 0 then 1 else chunkLength
  }

  predicate Enabled<T>(s: State<T>, e: Step<T>) {
    match e
    case Start => s.phase.NotStarted?
    case FailToStart => s.phase.NotStarted?
    case Write(_) => s.phase.Idle?
    case Final => s.phase.Idle?
    case SourceError => s.phase.Idle? || s.phase.Sending?
    case Send => s.task.Pending? && s.open && |s.channel| < CHANNEL_SIZE
    case SendFails => s.task.Pending? && !s.open
    case Callback => s.task.Accepted? || s.task.Refused?
    case Receive => s.open && s.ready.ReadyOk? && s.channel != []
    case Close => s.open
  }

  /** `reject`: the handshake fails if it is still open, and the error is offered to the channel without waiting. */
  function Reject<T>(s: State<T>): State<T> {
    var t := s.(phase := Failed, ready := if s.ready.Unknown? then ReadyError else s.ready);
    if s.open && |s.channel| < CHANNEL_SIZE then
      t.(channel := s.channel + [Failure], sent := s.sent + [Failure])
    else t
  }

  function Next<T>(s: State<T>, e: Step<T>): State<T>
    requires Enabled(s, e)
  {
    match e
    case Start => s.(phase := Idle, ready := if s.ready.Unknown? then ReadyOk else s.ready)
    case FailToStart => Reject(s)
    case Write(row) =>
      var rows := s.buffer + [row];
      var t := s.(written := s.written + [row]);
      if |rows| < s.chunkLength then t.(buffer := rows)
      else t.(buffer := [], task := Pending(Rows(rows)), phase := Sending)
    case Final =>
      if |s.buffer| > 0 then s.(buffer := [], task := Pending(Rows(s.buffer)), phase := SendingLast)
      else s.(task := Pending(End), phase := Ending)
    case SourceError => Reject(s)
    case Send =>
      s.(task := Accepted, channel := s.channel + [s.task.chunk], sent := s.sent + [s.task.chunk])
    case SendFails => s.(task := Refused)
    case Callback =>
      var t := s.(task := NoTask);
      if s.phase.Failed? then t
      else if s.task.Refused? then Reject(t)
      else if s.phase.Sending? then t.(phase := Idle)
      else if s.phase.SendingLast? then t.(task := Pending(End), phase := Ending)
      else t.(phase := Done)
    case Receive => s.(channel := s.channel[1..], consumed := s.consumed + [s.channel[0]])
    case Close => s.(open := false, channel := [])
  }

  ghost predicate Legal<T>(s: State<T>, run: seq<Step<T>>)
    decreases run
  {
    run == [] || (Enabled(s, run[0]) && Legal(Next(s, run[0]), run[1..]))
  }

  ghost function After<T>(s: State<T>, run: seq<Step<T>>): State<T>
    requires Legal(s, run)
    decreases run
  {
    if run == [] then s else After(Next(s, run[0]), run[1..])
  }

  // ---- rows of a sequence of chunks ----

  function RowsOf<T>(chunks: seq<Chunk<T>>): seq<T> {
    if chunks == [] then []
    else
      var last := chunks[|chunks| - 1];
      RowsOf(chunks[..|chunks| - 1]) + if last.Rows? then last.rows else []
  }

  lemma RowsSnoc<T>(a: seq<Chunk<T>>, c: Chunk<T>)
    ensures RowsOf(a + [c]) == RowsOf(a) + if c.Rows? then c.rows else []
  {
    assert (a + [c])[..|a|] == a;
  }

  lemma {:induction false} RowsAppend<T>(a: seq<Chunk<T>>, b: seq<Chunk<T>>)
    ensures RowsOf(a + b) == RowsOf(a) + RowsOf(b)
  {
    if b == [] {
      assert a + b == a;
    } else {
      var init := b[..|b| - 1];
      assert a + b == (a + init) + [b[|b| - 1]];
      RowsSnoc(a + init, b[|b| - 1]);
      RowsAppend(a, init);
    }
  }

  lemma Product(a: nat, b: nat, n: nat)
    requires a <= b
    ensures a * n <= b * n && (a + 1) * n == a * n + n
  {
    assert (b - a) * n >= 0;
  }

  lemma {:induction false} RowsBound<T>(chunks: seq<Chunk<T>>, n: nat)
    requires forall c | c in chunks :: c.Rows? ==> |c.rows| <= n
    ensures |RowsOf(chunks)| <= |chunks| * n
  {
    if chunks != [] {
      var init, last := chunks[..|chunks| - 1], chunks[|chunks| - 1];
      assert last in chunks && forall c | c in init :: c in chunks;
      RowsBound(init, n);
      Product(|init|, |init|, n);
    }
  }

  /** The rows in the hands of the send task. */
  function InTask<T>(task: Task<T>): seq<T> {
    if task.Pending? && task.chunk.Rows? then task.chunk.rows else []
  }

  // ---- the invariant ----

  predicate Full<T>(c: Chunk<T>, n: nat) {
    c.Rows? ==> |c.rows| == n
  }

  ghost predicate Inv<T>(s: State<T>) {
    Flow(s) && Shape(s)
  }

  /** Where the rows are: no row is lost, repeated or overtaken. */
  ghost predicate Flow<T>(s: State<T>) {
    var n := ChunkSize(s.chunkLength);
    && |s.buffer| < n
    && |s.channel| <= CHANNEL_SIZE
    && (s.open ==> s.sent == s.consumed + s.channel && RowsOf(s.sent) + InTask(s.task) + s.buffer == s.written)
    && (!s.open ==> s.channel == [] && s.consumed <= s.sent && RowsOf(s.sent) <= s.written
                      && (End in s.sent ==> RowsOf(s.sent) == s.written))
    && (s.task.Refused? ==> !s.open)
    && (s.task.Pending? ==> s.buffer == [] && !s.task.chunk.Failure?)
    && (forall c | c in s.sent :: c.Rows? ==> 1 <= |c.rows| <= n)
  }

  /** What each phase says about the task and the chunks sent so far. */
  ghost predicate Shape<T>(s: State<T>) {
    var n := ChunkSize(s.chunkLength);
    match s.phase
    case NotStarted => s.sent == [] && s.task.NoTask? && s.written == [] && s.buffer == [] && s.ready.Unknown?
        && s.consumed == []
    case Idle => s.task.NoTask? && OnlyFull(s.sent, n) && s.ready.ReadyOk?
    case Sending => !s.task.NoTask? && OnlyFull(s.sent, n) && s.buffer == [] && s.ready.ReadyOk?
                    && (s.task.Pending? ==> s.task.chunk.Rows? && |s.task.chunk.rows| == n)
    case SendingLast => s.buffer == [] && s.ready.ReadyOk? && (
                    if s.task.Accepted? then LastShort(s.sent, n)
                    else OnlyFull(s.sent, n) && !s.task.NoTask?
                         && (s.task.Pending? ==> s.task.chunk.Rows? && 1 <= |s.task.chunk.rows| < n))
    case Ending => s.buffer == [] && s.ready.ReadyOk? && (
                    if s.task.Accepted? then Closed(s.sent, n)
                    else (OnlyFull(s.sent, n) || LastShort(s.sent, n)) && !s.task.NoTask?
                         && (s.task.Pending? ==> s.task.chunk.End?))
    case Done => s.task.NoTask? && s.buffer == [] && Closed(s.sent, n) && s.ready.ReadyOk?
    case Failed => s.ready != Unknown && Broken(s.sent)
                   && (s.task.Pending? ==> s.task.chunk.Rows? && |s.task.chunk.rows| == n
                                           && (Failure !in s.sent ==> OnlyFull(s.sent, n)))
  }

  ghost predicate OnlyFull<T>(sent: seq<Chunk<T>>, n: nat) {
    forall c | c in sent :: c.Rows? && |c.rows| == n
  }

  ghost predicate LastShort<T>(sent: seq<Chunk<T>>, n: nat) {
    && sent != []
    && sent[|sent| - 1].Rows?
    && OnlyFull(sent[..|sent| - 1], n)
  }

  /** A complete stream: rows in full chunks, at most one shorter chunk after them, the end marker. */
  ghost predicate Closed<T>(sent: seq<Chunk<T>>, n: nat) {
    && sent != []
    && sent[|sent| - 1].End?
    && (OnlyFull(sent[..|sent| - 1], n) || LastShort(sent[..|sent| - 1], n))
  }

  /** A stream that failed has no end marker. */
  ghost predicate Broken<T>(sent: seq<Chunk<T>>) {
    End !in sent
  }

  lemma Shift<T>(rows: seq<T>, buffer: seq<T>, row: T)
    ensures rows + [] + buffer + [row] == rows + [] + (buffer + [row])
    ensures rows + [] + buffer + [row] == rows + (buffer + [row]) + []
  {
  }

  lemma WriteKeepsInv<T>(s: State<T>, row: T)
    requires Inv(s) && s.phase.Idle?
    ensures Inv(Next(s, Write(row)))
  {
    Shift(RowsOf(s.sent), s.buffer, row);
    if s.open {
      assert s.written == RowsOf(s.sent) + [] + s.buffer;
    }
  }

  lemma FinalKeepsInv<T>(s: State<T>)
    requires Inv(s) && s.phase.Idle?
    ensures Inv(Next(s, Final))
  {
    assert RowsOf(s.sent) + [] + s.buffer == RowsOf(s.sent) + s.buffer + [];
  }

  lemma SendKeepsInv<T>(s: State<T>)
    requires Inv(s) && Enabled(s, Send)
    ensures Inv(Next(s, Send))
  {
    var t, c := Next(s, Send), s.task.chunk;
    RowsSnoc(s.sent, c);
    assert t.sent[..|t.sent| - 1] == s.sent;
    assert s.sent + [c] == s.consumed + (s.channel + [c]);
  }

  lemma FailureKeepsFlow<T>(s: State<T>)
    requires Flow(s) && s.open && |s.channel| < CHANNEL_SIZE
    ensures Flow(Reject(s))
  {
    RowsSnoc(s.sent, Failure);
    assert RowsOf(s.sent) + [] == RowsOf(s.sent);
    assert s.sent + [Failure] == s.consumed + (s.channel + [Failure]);
    assert forall c | c in s.sent + [Failure] :: c in s.sent || c == Failure;
  }

  /** The error is queued: the rows are not touched, and no end marker was sent before. */
  lemma RejectWithRoom<T>(s: State<T>)
    requires Inv(s) && (s.phase.NotStarted? || s.phase.Idle? || s.phase.Sending?)
    requires s.open && |s.channel| < CHANNEL_SIZE
    ensures Inv(Reject(s))
  {
    FailureKeepsFlow(s);
    var t := Reject(s);
    assert t.sent[|s.sent|] == Failure;
    assert End !in s.sent && t.sent == s.sent + [Failure];
  }

  lemma RejectWithoutRoom<T>(s: State<T>)
    requires Inv(s) && (s.phase.NotStarted? || s.phase.Idle? || s.phase.Sending?)
    requires !(s.open && |s.channel| < CHANNEL_SIZE)
    ensures Inv(Reject(s))
  {
  }

  lemma RejectKeepsInv<T>(s: State<T>)
    requires Inv(s) && (s.phase.NotStarted? || s.phase.Idle? || s.phase.Sending?)
    ensures Inv(Reject(s))
  {
    if s.open && |s.channel| < CHANNEL_SIZE {
      RejectWithRoom(s);
    } else {
      RejectWithoutRoom(s);
    }
  }

  lemma AcceptedKeepsShape<T>(s: State<T>)
    requires Inv(s) && s.task.Accepted?
    ensures Shape(Next(s, Callback))
  {
  }

  lemma AcceptedKeepsInv<T>(s: State<T>)
    requires Inv(s) && s.task.Accepted?
    ensures Inv(Next(s, Callback))
  {
    AcceptedKeepsShape(s);
  }

  lemma RefusedKeepsInv<T>(s: State<T>)
    requires Inv(s) && s.task.Refused?
    ensures Inv(Next(s, Callback))
  {
    assert !s.open;
    var t := Next(s, Callback);
    assert t.phase.Failed? && t.sent == s.sent;
    assert End !in s.sent;
  }

  lemma ReceiveKeepsInv<T>(s: State<T>)
    requires Inv(s) && Enabled(s, Receive)
    ensures Inv(Next(s, Receive))
  {
    var t := Next(s, Receive);
    assert s.channel == [s.channel[0]] + s.channel[1..];
    assert t.sent == t.consumed + t.channel;
  }

  lemma CloseKeepsInv<T>(s: State<T>)
    requires Inv(s) && s.open
    ensures Inv(Next(s, Close))
  {
    assert RowsOf(s.sent) + InTask(s.task) + s.buffer == RowsOf(s.sent) + (InTask(s.task) + s.buffer);
  }

  lemma StepKeepsInv<T>(s: State<T>, e: Step<T>)
    requires Inv(s) && Enabled(s, e)
    ensures Inv(Next(s, e))
  {
    match e {
      case Start =>
      case FailToStart => RejectKeepsInv(s);
      case Write(row) => WriteKeepsInv(s, row);
      case Final => FinalKeepsInv(s);
      case SourceError => RejectKeepsInv(s);
      case Send => SendKeepsInv(s);
      case SendFails =>
      case Callback =>
        if s.task.Accepted? {
          AcceptedKeepsInv(s);
        } else {
          RefusedKeepsInv(s);
        }
      case Receive => ReceiveKeepsInv(s);
      case Close => CloseKeepsInv(s);
    }
  }

  lemma {:induction false} RunKeepsInv<T>(s: State<T>, run: seq<Step<T>>)
    requires Inv(s) && Legal(s, run)
    ensures Inv(After(s, run))
    ensures After(s, run).chunkLength == s.chunkLength
    decreases run
  {
    if run != [] {
      StepKeepsInv(s, run[0]);
      RunKeepsInv(Next(s, run[0]), run[1..]);
    }
  }

  // ---- the two objects of the bridge ----

  class Bridge<T> {
    const chunkLength: nat
    var phase: Phase
    var chunkBuffer: seq<T>
    var task: Task<T>
    var channel: seq<Chunk<T>>
    var open: bool
    var ready: Ready
    ghost var written: seq<T>
    ghost var sent: seq<Chunk<T>>
    ghost var consumed: seq<Chunk<T>>

    ghost function View(): State<T>
      reads this
    {
      State(chunkLength, phase, chunkBuffer, task, channel, open, ready, written, sent, consumed)
    }

    constructor (length: nat)
      ensures View() == Initial(length)
    {
      chunkLength, phase, chunkBuffer, task, channel := length, NotStarted, [], NoTask, [];
      open, ready, written, sent, consumed := true, Unknown, [], [], [];
    }

    /** `start`: the handshake is completed at most once. */
    method Begin()
      requires phase.NotStarted?
      modifies this
      ensures View() == Next(old(View()), Start)
    {
      if ready.Unknown? {
        ready := ReadyOk;
      }
      phase := Idle;
    }

    /** `write` of the Writable. */
    method WriteRow(row: T)
      requires phase.Idle?
      modifies this
      ensures View() == Next(old(View()), Write(row))
    {
      written := written + [row];
      chunkBuffer := chunkBuffer + [row];
      if !(|chunkBuffer| < chunkLength) {
        var toSend := chunkBuffer;
        chunkBuffer := [];
        task := Pending(Rows(toSend));
        phase := Sending;
      }
    }

    /** `final` of the Writable. */
    method Finish()
      requires phase.Idle?
      modifies this
      ensures View() == Next(old(View()), Final)
    {
      if |chunkBuffer| > 0 {
        var toSend := chunkBuffer;
        chunkBuffer := [];
        task := Pending(Rows(toSend));
        phase := SendingLast;
      } else {
        task := Pending(End);
        phase := Ending;
      }
    }

    /** `reject`, called by `destroy`. */
    method RejectStream()
      modifies this
      ensures View() == Reject(old(View()))
    {
      if ready.Unknown? {
        ready := ReadyError;
      }
      if open && |channel| < CHANNEL_SIZE {
        channel := channel + [Failure];
        sent := sent + [Failure];
      }
      phase := Failed;
    }

    /** The send future resolves, or fails when the receiver is gone. */
    method PollSend()
      requires task.Pending? && (open ==> |channel| < CHANNEL_SIZE)
      modifies this
      ensures View() == Next(old(View()), if old(open) then Send else SendFails)
    {
      if open {
        channel := channel + [task.chunk];
        sent := sent + [task.chunk];
        task := Accepted;
      } else {
        task := Refused;
      }
    }

    /** The callback of the send runs on the event loop. */
    method RunCallback()
      requires task.Accepted? || task.Refused?
      modifies this
      ensures View() == Next(old(View()), Callback)
    {
      var failed := task.Refused?;
      task := NoTask;
      if !phase.Failed? {
        if failed {
          RejectStream();
        } else if phase.Sending? {
          phase := Idle;
        } else if phase.SendingLast? {
          task := Pending(End);
          phase := Ending;
        } else {
          phase := Done;
        }
      }
    }

    method Recv() returns (chunk: Chunk<T>)
      requires open && ready.ReadyOk? && channel != []
      modifies this
      ensures View() == Next(old(View()), Receive)
      ensures chunk == old(channel)[0]
    {
      chunk := channel[0];
      channel := channel[1..];
      consumed := consumed + [chunk];
    }

    method DropReceiver()
      requires open
      modifies this
      ensures View() == Next(old(View()), Close)
    {
      open := false;
      channel := [];
    }
  }

  // ---- the handshake, and a receiver that is gone ----

  lemma StepKeepsReady<T>(s: State<T>, e: Step<T>)
    requires Inv(s) && !s.phase.NotStarted? && Enabled(s, e)
    ensures Next(s, e).ready == s.ready && !Next(s, e).phase.NotStarted?
    ensures !e.Start? && !e.FailToStart?
  {
  }

  lemma {:induction false} HandshakeStays<T>(s: State<T>, run: seq<Step<T>>)
    requires Inv(s) && !s.phase.NotStarted? && Legal(s, run)
    ensures After(s, run).ready == s.ready && !After(s, run).phase.NotStarted?
    ensures Start !in run && FailToStart !in run
    decreases run
  {
    if run != [] {
      StepKeepsInv(s, run[0]);
      StepKeepsReady(s, run[0]);
      HandshakeStays(Next(s, run[0]), run[1..]);
      assert run == [run[0]] + run[1..];
    }
  }

  lemma {:induction false} HandshakeFrom<T>(s: State<T>, run: seq<Step<T>>)
    requires Inv(s) && s.phase.NotStarted? && Legal(s, run)
    ensures After(s, run).ready ==
            if Start in run then ReadyOk else if FailToStart in run then ReadyError else Unknown
    ensures !(Start in run && FailToStart in run)
    decreases run
  {
    if run != [] {
      StepKeepsInv(s, run[0]);
      if run[0].Close? {
        HandshakeFrom(Next(s, run[0]), run[1..]);
      } else {
        HandshakeStays(Next(s, run[0]), run[1..]);
      }
    }
  }

  /** The engine learns once whether the query started: well if it did, an error if it failed to, and for good. */
  lemma Handshake<T>(chunkLength: nat, run: seq<Step<T>>)
    requires Legal(Initial<T>(chunkLength), run)
    ensures After(Initial<T>(chunkLength), run).ready ==
            if Start in run then ReadyOk else if FailToStart in run then ReadyError else Unknown
    ensures !(Start in run && FailToStart in run)
  {
    HandshakeFrom(Initial<T>(chunkLength), run);
  }

  lemma {:induction false} FailedStays<T>(s: State<T>, run: seq<Step<T>>)
    requires s.phase.Failed? && Legal(s, run)
    ensures After(s, run).phase.Failed? && After(s, run).written == s.written
    decreases run
  {
    if run != [] {
      FailedStays(Next(s, run[0]), run[1..]);
    }
  }

  /** With the receiver gone, a chunk in hand is never sent, and its source writes nothing more. */
  lemma {:induction false} GoneReceiverStops<T>(s: State<T>, run: seq<Step<T>>)
    requires Inv(s) && !s.open && !s.phase.NotStarted? && (s.task.Pending? || s.task.Refused? || s.phase.Failed?)
    requires Legal(s, run)
    ensures After(s, run).written == s.written && After(s, run).sent == s.sent
    ensures Callback in run ==> After(s, run).phase.Failed?
    decreases run
  {
    if run != [] {
      StepKeepsInv(s, run[0]);
      var t := Next(s, run[0]);
      GoneReceiverStops(t, run[1..]);
      if t.phase.Failed? {
        FailedStays(t, run[1..]);
      }
    }
  }
}
