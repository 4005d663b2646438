/** What the native stream bridge keeps and delivers, over all its runs. */
module BridgeRuns {
  import opened StreamBridge

  // ---- what holds in every run ----

  ghost predicate Reachable<T>(s: State<T>, chunkLength: nat, run: seq<Step<T>>) {
    Legal(Initial(chunkLength), run) && After(Initial(chunkLength), run) == s
  }

  lemma ReachableInv<T>(s: State<T>, chunkLength: nat, run: seq<Step<T>>)
    requires Reachable(s, chunkLength, run)
    ensures Inv(s) && s.chunkLength == chunkLength
  {
    RunKeepsInv(Initial<T>(chunkLength), run);
  }

  lemma OpenLosesNothing<T>(s: State<T>)
    requires Flow(s) && s.open
    ensures RowsOf(s.consumed) + RowsOf(s.channel) + InTask(s.task) + s.buffer == s.written
    ensures RowsOf(s.consumed) <= s.written
  {
    RowsAppend(s.consumed, s.channel);
    var a, b, c, d := RowsOf(s.consumed), RowsOf(s.channel), InTask(s.task), s.buffer;
    assert a + b + c + d == a + (b + c + d);
  }

  lemma ClosedIsPrefix<T>(s: State<T>)
    requires Flow(s) && !s.open
    ensures RowsOf(s.consumed) <= s.written
  {
    var rest := s.sent[|s.consumed|..];
    assert s.sent == s.consumed + rest;
    RowsAppend(s.consumed, rest);
  }

  /**
   In every interleaving, as long as the receiver lives: rows received, rows in the channel, rows being
   sent and rows in the buffer, in this order, are the rows written so far.
   */
  lemma NothingLost<T>(s: State<T>, chunkLength: nat, run: seq<Step<T>>)
    requires Reachable(s, chunkLength, run)
    ensures s.open ==> RowsOf(s.consumed) + RowsOf(s.channel) + InTask(s.task) + s.buffer == s.written
    ensures RowsOf(s.consumed) <= s.written
  {
    ReachableInv(s, chunkLength, run);
    if s.open {
      OpenLosesNothing(s);
    } else {
      ClosedIsPrefix(s);
    }
  }

  lemma ChannelRows<T>(s: State<T>)
    requires Flow(s)
    ensures |RowsOf(s.channel)| <= CHANNEL_SIZE * ChunkSize(s.chunkLength)
  {
    var n := ChunkSize(s.chunkLength);
    forall c | c in s.channel ensures c.Rows? ==> |c.rows| <= n {
      assert s.open ==> c in s.sent;
    }
    RowsBound(s.channel, n);
    Product(|s.channel|, CHANNEL_SIZE, n);
  }

  lemma TaskRows<T>(s: State<T>)
    requires Inv(s)
    ensures |InTask(s.task)| + |s.buffer| <= ChunkSize(s.chunkLength)
  {
  }

  /** The bridge never holds more than eleven chunks of rows, whatever the two sides do. */
  lemma BridgeIsBounded<T>(s: State<T>, chunkLength: nat, run: seq<Step<T>>)
    requires Reachable(s, chunkLength, run)
    ensures |RowsOf(s.channel)| + |InTask(s.task)| + |s.buffer| <= 11 * ChunkSize(chunkLength)
  {
    ReachableInv(s, chunkLength, run);
    ChannelRows(s);
    TaskRows(s);
  }

  lemma EndIsLast<T>(sent: seq<Chunk<T>>, consumed: seq<Chunk<T>>, n: nat)
    requires Closed(sent, n) && consumed <= sent && End in consumed
    ensures consumed == sent
  {
    var i :| 0 <= i < |consumed| && consumed[i].End?;
    var init := sent[..|sent| - 1];
    forall j | 0 <= j < |init| ensures sent[j].Rows? {
      assert init[j] == sent[j];
      assert j < |init| - 1 ==> init[..|init| - 1][j] == init[j];
    }
    assert consumed[i] == sent[i];
  }

  /**
   The end marker tells the truth: a receiver that has seen it has seen every row that was written,
   in chunks that are all full except for the last one.
   */
  lemma EndMeansEverything<T>(s: State<T>, chunkLength: nat, run: seq<Step<T>>)
    requires Reachable(s, chunkLength, run) && End in s.consumed
    ensures RowsOf(s.consumed) == s.written
    ensures Closed(s.consumed, ChunkSize(chunkLength))
    ensures s.phase.Ending? || s.phase.Done?
  {
    ReachableInv(s, chunkLength, run);
    assert End in s.sent;
    assert Closed(s.sent, ChunkSize(chunkLength));
    EndIsLast(s.sent, s.consumed, ChunkSize(chunkLength));
    if s.open {
      assert RowsOf(s.sent) + [] + [] == s.written;
    }
  }

  // ---- progress ----

  /** The steps of the bridge itself: the source and the life of the receiver are left alone. */
  predicate Internal<T>(e: Step<T>) {
    e.Send? || e.SendFails? || e.Callback? || e.Receive?
  }

  ghost predicate AllInternal<T>(run: seq<Step<T>>) {
    forall e | e in run :: Internal(e)
  }

  predicate Quiet<T>(s: State<T>) {
    !Enabled(s, Send) && !Enabled(s, SendFails) && !Enabled(s, Callback) && !Enabled(s, Receive)
  }

  function Work<T>(s: State<T>): nat {
    |s.channel|
    + (match s.task case Pending(_) => 3 case NoTask => 0 case _ => 1)
    + (match s.phase case Failed => 0 case SendingLast => 5 case _ => 1)
    + (if s.phase.Failed? then 0 else 1)
  }

  lemma InternalStepWorks<T>(s: State<T>, e: Step<T>)
    requires Inv(s) && Enabled(s, e) && Internal(e)
    ensures Work(Next(s, e)) < Work(s)
  {
  }

  lemma {:induction false} InternalRunsEnd<T>(s: State<T>, run: seq<Step<T>>)
    requires Inv(s) && Legal(s, run) && AllInternal(run)
    ensures |run| <= Work(s)
    decreases run
  {
    if run != [] {
      assert run[0] in run;
      StepKeepsInv(s, run[0]);
      InternalStepWorks(s, run[0]);
      InternalRunsEnd(Next(s, run[0]), run[1..]);
    }
  }

  ghost predicate Finishing<T>(s: State<T>) {
    s.open && (s.phase.SendingLast? || s.phase.Ending? || s.phase.Done?)
  }

  lemma {:induction false} InternalKeepsFinishing<T>(s: State<T>, run: seq<Step<T>>)
    requires Inv(s) && Finishing(s) && Legal(s, run) && AllInternal(run)
    ensures Finishing(After(s, run)) && After(s, run).written == s.written
    decreases run
  {
    if run != [] {
      assert run[0] in run;
      StepKeepsInv(s, run[0]);
      InternalKeepsFinishing(Next(s, run[0]), run[1..]);
    }
  }

  lemma FinishedAtRest<T>(t: State<T>)
    requires Inv(t) && Finishing(t) && Quiet(t)
    ensures RowsOf(t.consumed) == t.written && Closed(t.consumed, ChunkSize(t.chunkLength)) && t.phase.Done?
  {
    assert t.channel == [] && t.task.NoTask?;
    assert t.sent == t.consumed + [];
    assert t.sent == t.consumed;
    assert RowsOf(t.sent) + [] + [] == RowsOf(t.sent);
  }

  /**
   Once the source has ended, the bridge empties itself in a bounded number of its own steps, and when
   none is left the receiver has every row and the end marker: no deadlock and no loss.
   */
  lemma SourceEndIsDelivered<T>(s: State<T>, chunkLength: nat, run: seq<Step<T>>, rest: seq<Step<T>>)
    requires Reachable(s, chunkLength, run) && Finishing(s)
    requires Legal(s, rest) && AllInternal(rest)
    ensures |rest| <= Work(s)
    ensures Quiet(After(s, rest)) ==>
              && RowsOf(After(s, rest).consumed) == s.written
              && Closed(After(s, rest).consumed, ChunkSize(chunkLength))
              && After(s, rest).phase.Done?
  {
    ReachableInv(s, chunkLength, run);
    InternalRunsEnd(s, rest);
    RunKeepsInv(s, rest);
    InternalKeepsFinishing(s, rest);
    if Quiet(After(s, rest)) {
      FinishedAtRest(After(s, rest));
    }
  }

  lemma {:induction false} InternalKeepsFailed<T>(s: State<T>, run: seq<Step<T>>)
    requires Inv(s) && s.open && s.phase.Failed? && Legal(s, run) && AllInternal(run)
    ensures var t := After(s, run);
            t.open && t.phase.Failed? && t.ready == s.ready && (Failure in t.sent <==> Failure in s.sent)
    decreases run
  {
    if run != [] {
      var t := Next(s, run[0]);
      assert run[0] in run;
      StepKeepsInv(s, run[0]);
      assert run[0].Send? ==> t.sent[|s.sent|] == s.task.chunk && t.sent[..|s.sent|] == s.sent;
      assert Failure in t.sent <==> Failure in s.sent;
      InternalKeepsFailed(t, run[1..]);
    }
  }

  lemma FailedAtRest<T>(f: State<T>, rest: seq<Step<T>>)
    requires Inv(f) && f.open && f.phase.Failed? && f.ready.ReadyOk?
    requires Legal(f, rest) && AllInternal(rest) && Quiet(After(f, rest))
    ensures var t := After(f, rest);
            t.consumed == t.sent && (Failure in t.sent <==> Failure in f.sent) && End !in t.sent
  {
    InternalKeepsFailed(f, rest);
    RunKeepsInv(f, rest);
    var t := After(f, rest);
    assert t.channel == [];
    assert t.sent == t.consumed + [];
  }

  lemma ErrorIsQueuedIff<T>(s: State<T>)
    requires Inv(s) && s.open && Enabled(s, SourceError)
    ensures var f := Next(s, SourceError);
            f.open && f.phase.Failed? && f.ready.ReadyOk? && (Failure in f.sent <==> |s.channel| < CHANNEL_SIZE)
  {
    assert Failure !in s.sent;
    if |s.channel| < CHANNEL_SIZE {
      assert Next(s, SourceError).sent[|s.sent|] == Failure;
    }
  }

  /**
   An error of the source reaches the receiver if and only if the channel has room at that moment:
   a full channel drops it without a word. Either way the receiver never gets an end marker, so it can
   tell that the rows are not all there. Room is a slot that no sender has reserved: `Send` is the moment
   at which a waiting sender gets the slot that a receive frees.
   */
  lemma SourceErrorIsDelivered<T>(s: State<T>, chunkLength: nat, run: seq<Step<T>>, rest: seq<Step<T>>)
    requires Reachable(s, chunkLength, run) && s.open && Enabled(s, SourceError)
    requires Legal(Next(s, SourceError), rest) && AllInternal(rest)
    requires Quiet(After(Next(s, SourceError), rest))
    ensures var t := After(Next(s, SourceError), rest);
            && (Failure in t.consumed <==> |s.channel| < CHANNEL_SIZE)
            && End !in t.consumed
  {
    ReachableInv(s, chunkLength, run);
    ErrorIsQueuedIff(s);
    StepKeepsInv(s, SourceError);
    FailedAtRest(Next(s, SourceError), rest);
  }

  lemma {:induction false} RunAppend<T>(s: State<T>, a: seq<Step<T>>, b: seq<Step<T>>)
    requires Legal(s, a) && Legal(After(s, a), b)
    ensures Legal(s, a + b) && After(s, a + b) == After(After(s, a), b)
    decreases a
  {
    if a == [] {
      assert a + b == b;
    } else {
      assert (a + b)[1..] == a[1..] + b;
      RunAppend(Next(s, a[0]), a[1..], b);
    }
  }

  /** Nobody receives, and chunks have one row. */
  ghost predicate Unread(s: State<int>, k: nat) {
    s.phase.Idle? && s.open && s.task.NoTask? && s.buffer == [] && s.chunkLength == 1 && |s.channel| == k
  }

  lemma OneChunkMore(s: State<int>, k: nat)
    requires Unread(s, k) && k < CHANNEL_SIZE
    ensures Legal(s, [Write(0), Send, Callback]) && Unread(After(s, [Write(0), Send, Callback]), k + 1)
  {
    var s1 := Next(s, Write(0));
    var s2 := Next(s1, Send);
    var more := [Write(0), Send, Callback];
    assert more[1..] == [Send, Callback] && more[1..][1..] == [Callback] && more[1..][1..][1..] == [];
    assert Legal(s2, [Callback]) && Legal(s1, [Send, Callback]) && Legal(s, more);
  }

  /** Nobody receives: a row a chunk fills the channel slot by slot. */
  lemma FillChannel(k: nat) returns (run: seq<Step<int>>)
    requires k <= CHANNEL_SIZE
    ensures Legal(Initial(1), run) && Unread(After(Initial(1), run), k)
  {
    if k == 0 {
      run := [Start];
      assert Legal(Next(Initial<int>(1), Start), run[1..]);
    } else {
      var before := FillChannel(k - 1);
      OneChunkMore(After(Initial(1), before), k - 1);
      RunAppend(Initial(1), before, [Write(0), Send, Callback]);
      run := before + [Write(0), Send, Callback];
    }
  }

  /** After this run the source fails, and the error is never sent. */
  ghost predicate LosesItsError(run: seq<Step<int>>) {
    Legal(Initial(1), run + [SourceError]) && Failure !in After(Initial(1), run + [SourceError]).sent
  }

  /** Errors do get lost: a full channel is reachable, and the source can fail there. */
  lemma ErrorsCanBeLost()
    ensures exists run :: LosesItsError(run)
  {
    var run := FillChannel(CHANNEL_SIZE);
    var s := After(Initial(1), run);
    RunKeepsInv(Initial(1), run);
    assert Legal(Next(s, SourceError), []);
    RunAppend(Initial(1), run, [SourceError]);
    assert LosesItsError(run);
  }
}
