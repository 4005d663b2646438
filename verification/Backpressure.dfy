/**
 Back-pressure between the SQL writer (a Rust task with a semaphore) and the response
 stream (a Node `Writable` that answers each write with a boolean and owes a "drain"
 event after it said false). One step is what happens between two awaits.
 */
module Backpressure {

  datatype Phase =
    | Starting  // the schema is still to be written
    | Looping   // between two batches
    | Waiting   // a write said false, a permit is to be acquired
    | Finished

  /** `written`, `drains` and `acquired` are histories; `limit` bounds the size of one message. */
  datatype State = State(
    phase: Phase,
    hasData: bool,
    permits: nat,
    buffered: nat,
    highWaterMark: nat,
    needDrain: bool,
    destroyed: bool,
    drains: nat,
    acquired: nat)

  datatype Step =
    | WriteSchema(size: nat)
    | WriteBatch(size: nat)
    | Acquire
    | Finish(failed: bool, emptySize: nat, errorSize: nat)  // the empty data message if there was none, then end()
    | Flush(size: nat)                        // bytes leave the stream
    | Destroy                                 // the client went away

  function Initial(highWaterMark: nat): State {
    State(Starting, false, 0, 0, highWaterMark, false, false, 0, 0)
  }

  /** The stream's side of `write`: a destroyed stream takes nothing; otherwise false means a drain is owed. */
  function Written(s: State, size: nat): State {
    if s.destroyed then s
    else
      var length := s.buffered + size;
      s.(buffered := length, needDrain := s.needDrain || length >= s.highWaterMark)
  }

  /** What `write` returns. */
  predicate Accepts(s: State, size: nat) {
    !s.destroyed && s.buffered + size < s.highWaterMark
  }

  /** Every message ends in a line feed, so none is empty. */
  predicate Enabled(s: State, e: Step, limit: nat) {
    match e
    case WriteSchema(n) => s.phase.Starting? && 0 < n <= limit
    case WriteBatch(n) => s.phase.Looping? && 0 < n <= limit
    case Acquire => s.phase.Waiting? && s.permits > 0
    case Finish(failed, n, m) => (s.phase.Looping? || (s.phase.Starting? && failed)) && 0 < n <= limit && m <= limit
    case Flush(n) => 0 < n <= s.buffered
    case Destroy => true
  }

  function Next(s: State, e: Step): State
    requires e.Acquire? ==> s.permits > 0
    requires e.Flush? ==> e.size <= s.buffered
  {
    match e
    case WriteSchema(n) => Written(s, n).(phase := Looping)
    case WriteBatch(n) => Written(s, n).(phase := if Accepts(s, n) then Looping else Waiting, hasData := true)
    case Acquire => s.(phase := Looping, permits := s.permits - 1, acquired := s.acquired + 1)
    case Finish(failed, n, m) =>
      var t := if s.hasData || failed then s else Written(s, n);
      Written(t, m).(phase := Finished)
    case Flush(n) =>
      var left := s.buffered - n;
      if left == 0 && s.needDrain && !s.destroyed && !s.phase.Finished? then
        s.(buffered := 0, needDrain := false, permits := s.permits + 1, drains := s.drains + 1)
      else
        s.(buffered := left)
    case Destroy => s.(destroyed := true)
  }

  ghost predicate Legal(s: State, run: seq<Step>, limit: nat)
    decreases run
  {
    run == [] || (Enabled(s, run[0], limit) && Legal(Next(s, run[0]), run[1..], limit))
  }

  ghost function After(s: State, run: seq<Step>, limit: nat): State
    requires Legal(s, run, limit)
    decreases run
  {
    if run == [] then s else After(Next(s, run[0]), run[1..], limit)
  }

  /** The task is parked: it waits and there is no permit. */
  predicate Blocked(s: State) {
    s.phase.Waiting? && s.permits == 0
  }

  function Owed(s: State): nat {
    s.permits + if s.needDrain && !s.destroyed then 1 else 0
  }

  function Mark(s: State): nat {
    if s.highWaterMark == 0 then 1 else s.highWaterMark
  }

  ghost predicate Inv(s: State, limit: nat) {
    && s.drains == s.acquired + s.permits
    && (s.needDrain && !s.phase.Finished? ==> s.buffered > 0 || s.destroyed)
    && (!s.needDrain && !s.destroyed ==> s.buffered < Mark(s))
    && (match s.phase
        case Starting => s.buffered == 0 && !s.needDrain && s.permits == 0 && !s.hasData
        case Looping => Owed(s) <= 1 && s.buffered < Mark(s) + limit
        case Waiting => Owed(s) <= 2 && (s.destroyed || Owed(s) >= 1) && s.buffered < Mark(s) + 2 * limit
                        && (s.permits > 0 ==> s.buffered < Mark(s) + limit)
        case Finished => s.buffered < Mark(s) + 3 * limit)
  }

  lemma WriteKeepsInv(s: State, e: Step, limit: nat)
    requires Inv(s, limit) && Enabled(s, e, limit) && (e.WriteSchema? || e.WriteBatch?)
    ensures Inv(Next(s, e), limit)
  {
  }

  lemma FinishKeepsInv(s: State, e: Step, limit: nat)
    requires Inv(s, limit) && Enabled(s, e, limit) && e.Finish?
    ensures Inv(Next(s, e), limit)
  {
  }

  lemma FlushKeepsInv(s: State, e: Step, limit: nat)
    requires Inv(s, limit) && Enabled(s, e, limit) && e.Flush?
    ensures Inv(Next(s, e), limit)
  {
  }

  lemma StepKeepsInv(s: State, e: Step, limit: nat)
    requires Inv(s, limit) && Enabled(s, e, limit)
    ensures Inv(Next(s, e), limit)
  {
    match e
    case Finish(_, _, _) => FinishKeepsInv(s, e, limit);
    case Flush(_) => FlushKeepsInv(s, e, limit);
    case Acquire =>
    case Destroy =>
    case _ => WriteKeepsInv(s, e, limit);
  }

  lemma {:induction false} RunKeepsInv(s: State, run: seq<Step>, limit: nat)
    requires Inv(s, limit) && Legal(s, run, limit)
    ensures Inv(After(s, run, limit), limit)
    ensures After(s, run, limit).highWaterMark == s.highWaterMark
    decreases run
  {
    if run != [] {
      StepKeepsInv(s, run[0], limit);
      RunKeepsInv(Next(s, run[0]), run[1..], limit);
    }
  }

  /**
   In every run, at every point where the writer may write a batch, at most one permit is
   unspent, although the answer to the schema write is ignored; and the response never
   buffers more than its mark and three messages.
   */
  lemma PermitsAreBounded(highWaterMark: nat, run: seq<Step>, limit: nat)
    requires Legal(Initial(highWaterMark), run, limit)
    ensures var s := After(Initial(highWaterMark), run, limit);
            && s.drains == s.acquired + s.permits
            && (s.phase.Looping? ==> s.permits <= 1)
            && s.buffered < Mark(s) + 3 * limit
            && (s.phase.Waiting? ==> s.buffered < Mark(s) + 2 * limit)
  {
    RunKeepsInv(Initial(highWaterMark), run, limit);
  }

  lemma {:induction false} DataWasWritten(s: State, run: seq<Step>, limit: nat)
    requires Legal(s, run, limit)
    ensures After(s, run, limit).hasData <==> s.hasData || exists e :: e in run && e.WriteBatch?
    decreases run
  {
    if run != [] {
      DataWasWritten(Next(s, run[0]), run[1..], limit);
      assert run == [run[0]] + run[1..];
    }
  }

  /**
   The end of a response: the empty data message if no batch was written and nothing failed, then the
   line of the error; after it the writer does nothing more.
   */
  lemma EndWrites(highWaterMark: nat, run: seq<Step>, limit: nat, failed: bool, n: nat, m: nat)
    requires Legal(Initial(highWaterMark), run, limit)
    requires Enabled(After(Initial(highWaterMark), run, limit), Finish(failed, n, m), limit)
    ensures var s := After(Initial(highWaterMark), run, limit);
            var t := Next(s, Finish(failed, n, m));
            var empty := if failed || exists e :: e in run && e.WriteBatch? then 0 else n;
            && t.phase.Finished? && t.permits == s.permits
            && t.buffered == s.buffered + (if s.destroyed then 0 else empty + m)
  {
    DataWasWritten(Initial(highWaterMark), run, limit);
  }

  /** What the stream does next is enough to wake the writer: once it is empty, a permit is there. */
  predicate WokenByFlush(s: State) {
    s.buffered > 0 && Next(s, Flush(s.buffered)).permits > 0
  }

  lemma {:induction false} DestroyedStaysBlocked(s: State, run: seq<Step>, limit: nat)
    requires Blocked(s) && s.destroyed && Legal(s, run, limit)
    ensures Blocked(After(s, run, limit))
    decreases run
  {
    if run != [] {
      DestroyedStaysBlocked(Next(s, run[0]), run[1..], limit);
    }
  }

  /**
   No lost wake-up, exactly as far as it goes: in every run that leaves the writer blocked, a drain
   that will wake it is owed if and only if the stream was not destroyed. After a destroy the writer
   stays blocked for ever.
   */
  lemma WakeUpIffAlive(highWaterMark: nat, run: seq<Step>, limit: nat)
    requires Legal(Initial(highWaterMark), run, limit)
    requires Blocked(After(Initial(highWaterMark), run, limit))
    ensures var s := After(Initial(highWaterMark), run, limit);
            && (WokenByFlush(s) <==> !s.destroyed)
            && (!s.destroyed ==> s.needDrain)
            && (s.destroyed ==> forall more | Legal(s, more, limit) :: Blocked(After(s, more, limit)))
  {
    RunKeepsInv(Initial(highWaterMark), run, limit);
    var s := After(Initial(highWaterMark), run, limit);
    if s.destroyed {
      forall more | Legal(s, more, limit) ensures Blocked(After(s, more, limit)) {
        DestroyedStaysBlocked(s, more, limit);
      }
    }
  }

  /** Such a run exists: the client leaves after the schema, the next batch waits for ever. */
  lemma ClientLeaves(highWaterMark: nat)
    ensures var run := [WriteSchema(1), Destroy, WriteBatch(1)];
            && Legal(Initial(highWaterMark), run, 1)
            && Blocked(After(Initial(highWaterMark), run, 1))
            && After(Initial(highWaterMark), run, 1).destroyed
  {
    var s0 := Initial(highWaterMark);
    var s1 := Next(s0, WriteSchema(1));
    var s2 := Next(s1, Destroy);
    var s3 := Next(s2, WriteBatch(1));
    var r3: seq<Step> := [];
    var r2, r1, r0 := [WriteBatch(1)], [Destroy, WriteBatch(1)], [WriteSchema(1), Destroy, WriteBatch(1)];
    assert r0[1..] == r1 && r1[1..] == r2 && r2[1..] == r3;
    assert Legal(s3, r3, 1) && Legal(s2, r2, 1) && Legal(s1, r1, 1);
    assert After(s2, r2, 1) == s3 && After(s1, r1, 1) == s3;
  }

  /** The writer, the semaphore and the stream with the fields the source updates. */
  class SqlResponse {
    var phase: Phase
    var hasData: bool
    var permits: nat
    var buffered: nat
    const highWaterMark: nat
    var needDrain: bool
    var destroyed: bool
    ghost var drains: nat
    ghost var acquired: nat

    ghost function View(): State
      reads this
    {
      State(phase, hasData, permits, buffered, highWaterMark, needDrain, destroyed, drains, acquired)
    }

    constructor (mark: nat)
      ensures View() == Initial(mark)
    {
      phase, hasData, permits, buffered, highWaterMark := Starting, false, 0, 0, mark;
      needDrain, destroyed, drains, acquired := false, false, 0, 0;
    }

    /** `stream.write` of a message of that size. */
    method Write(size: nat) returns (more: bool)
      modifies this
      ensures View() == Written(old(View()), size)
      ensures more == Accepts(old(View()), size)
    {
      if destroyed {
        return false;
      }
      buffered := buffered + size;
      more := buffered < highWaterMark;
      if !more {
        needDrain := true;
      }
    }

    method SendSchema(size: nat)
      requires phase.Starting?
      modifies this
      ensures View() == Next(old(View()), WriteSchema(size))
    {
      var _ := Write(size);
      phase := Looping;
    }

    method SendBatch(size: nat)
      requires phase.Looping?
      modifies this
      ensures View() == Next(old(View()), WriteBatch(size))
    {
      hasData := true;
      var shouldPause := Write(size);
      shouldPause := !shouldPause;
      if shouldPause {
        phase := Waiting;
      }
    }

    /** `semaphore.acquire()` succeeds and the permit is forgotten. */
    method TakePermit()
      requires phase.Waiting? && permits > 0
      modifies this
      ensures View() == Next(old(View()), Acquire)
    {
      permits := permits - 1;
      acquired := acquired + 1;
      phase := Looping;
    }

    /**
     The empty data message when there was no batch and no error, then the end of the response with an
     error line or none. A run can fail before its schema is written.
     */
    method End(failed: bool, emptySize: nat, errorSize: nat)
      requires phase.Looping? || (phase.Starting? && failed)
      modifies this
      ensures View() == Next(old(View()), Finish(failed, emptySize, errorSize))
    {
      if !hasData && !failed {
        var _ := Write(emptySize);
      }
      var _ := Write(errorSize);
      phase := Finished;
    }

    /** The "drain" handler. */
    method OnDrain()
      modifies this
      ensures View() == old(View()).(permits := old(permits) + 1, drains := old(drains) + 1)
    {
      permits := permits + 1;
      drains := drains + 1;
    }

    method Drained(size: nat)
      requires size <= buffered
      modifies this
      ensures View() == Next(old(View()), Flush(size))
    {
      buffered := buffered - size;
      if buffered == 0 && needDrain && !destroyed && !phase.Finished? {
        needDrain := false;
        OnDrain();
      }
    }

    method Close()
      modifies this
      ensures View() == Next(old(View()), Destroy)
    {
      destroyed := true;
    }
  }
}
