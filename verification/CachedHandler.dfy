/**
 The locked response cache in front of a handler: one request runs the handler, the requests that
 arrive meanwhile wait in a queue, and for a while after a success the cached answer is served.
 One step is what happens between two awaits; time never goes backwards.
 */
module CachedHandler {
  import opened Wrappers

  type Id = nat

  /** `json` is absent until the first payload, and after an error. */
  datatype Cached = Cached(status: int, json: Option<string>)

  datatype Source = FromHandler | FromCache | FromError

  datatype Answer = Answer(id: Id, source: Source, payload: Cached)

  /** A finished run of the handler: the answer its client got, and when it finished. */
  datatype Success = Success(payload: Cached, time: int)

  /**
   The run in flight: its request, the payload and the status it has set last, and the answer that was
   sent, which is its first one.
   */
  datatype Run = Run(id: Id, json: Option<string>, status: int, statusSet: bool, answer: Option<Cached>) {
    predicate Answered() { json.Some? }

    /** What the client of the run got. */
    function Sent(): Cached {
      if answer.Some? then answer.value else Cached(status, None)
    }

    function Respond(payload: string): Run {
      this.(json := Some(payload),
            answer := if answer.Some? then answer else Some(Cached(status, Some(payload))))
    }
  }

  /** `requested`, `log` and `last` are histories. */
  datatype State = State(
    lifetime: nat,
    now: int,
    cache: Cached,
    expires: int,
    lock: bool,
    queue: seq<Id>,
    run: Option<Run>,
    requested: seq<Id>,
    log: seq<Answer>,
    last: Option<Success>)

  datatype Step =
    | Request(id: Id, at: int)
    | SetStatus(code: int)   // `res.status` inside the handler
    | Respond(json: string)  // `res.json` inside the handler
    | Succeed(at: int)       // the handler's promise resolves
    | Fail(at: int)          // it rejects

  const EMPTY := Cached(200, None)

  function Initial(lifetime: nat, now: int): State {
    State(lifetime, now, EMPTY, now - lifetime, false, [], None, [], [], None)
  }

  predicate Enabled(s: State, e: Step) {
    match e
    case Request(id, at) => id !in s.requested && at >= s.now
    case SetStatus(_) => s.run.Some?
    case Respond(_) => s.run.Some?
    case Succeed(at) => s.run.Some? && at >= s.now
    case Fail(at) => s.run.Some? && at >= s.now
  }

  /** The queue is emptied from its end, every waiting request with the same cached answer. */
  function Drained(queue: seq<Id>, cache: Cached): seq<Answer> {
    if queue == [] then []
    else [Answer(queue[|queue| - 1], FromCache, cache)] + Drained(queue[..|queue| - 1], cache)
  }

  function Next(s: State, e: Step): State
    requires Enabled(s, e)
  {
    match e
    case Request(id, at) =>
      var t := s.(now := at, requested := s.requested + [id]);
      if s.lock then t.(queue := s.queue + [id])
      else if s.expires > at then t.(log := s.log + [Answer(id, FromCache, s.cache)])
      else t.(lock := true, run := Some(Run(id, None, 200, false, None)))
    case SetStatus(code) =>
      s.(cache := s.cache.(status := code), run := Some(s.run.value.(status := code, statusSet := true)))
    case Respond(json) =>
      s.(cache := s.cache.(json := Some(json)),
         run := Some(s.run.value.Respond(json)),
         log := s.log + [Answer(s.run.value.id, FromHandler, Cached(s.run.value.status, Some(json)))])
    case Succeed(at) =>
      s.(now := at, expires := at + s.lifetime, lock := false, run := None, queue := [],
         last := Some(Success(s.run.value.Sent(), at)),
         log := s.log + Drained(s.queue, s.cache))
    case Fail(at) =>
      s.(now := at, cache := EMPTY, expires := at - s.lifetime, lock := false, run := None, queue := [],
         log := s.log + [Answer(s.run.value.id, FromError, EMPTY)] + Drained(s.queue, EMPTY))
  }

  ghost predicate Legal(s: State, steps: seq<Step>)
    decreases steps
  {
    steps == [] || (Enabled(s, steps[0]) && Legal(Next(s, steps[0]), steps[1..]))
  }

  ghost function After(s: State, steps: seq<Step>): State
    requires Legal(s, steps)
    decreases steps
  {
    if steps == [] then s else After(Next(s, steps[0]), steps[1..])
  }

  // ---- counting ----

  function Times(log: seq<Answer>, id: Id): nat {
    if log == [] then 0
    else Times(log[..|log| - 1], id) + if log[|log| - 1].id == id then 1 else 0
  }

  lemma TimesSnoc(log: seq<Answer>, a: Answer, id: Id)
    ensures Times(log + [a], id) == Times(log, id) + if a.id == id then 1 else 0
  {
    assert (log + [a])[..|log|] == log;
  }

  lemma {:induction false} TimesAppend(a: seq<Answer>, b: seq<Answer>, id: Id)
    ensures Times(a + b, id) == Times(a, id) + Times(b, id)
  {
    if b == [] {
      assert a + b == a;
    } else {
      var init := b[..|b| - 1];
      assert a + b == (a + init) + [b[|b| - 1]];
      TimesSnoc(a + init, b[|b| - 1], id);
      TimesAppend(a, init, id);
    }
  }

  lemma {:induction false} TimesNone(log: seq<Answer>, id: Id)
    requires forall a | a in log :: a.id != id
    ensures Times(log, id) == 0
  {
    if log != [] {
      TimesNone(log[..|log| - 1], id);
    }
  }

  ghost predicate NoRepeat(ids: seq<Id>) {
    forall i, j | 0 <= i < j < |ids| :: ids[i] != ids[j]
  }

  lemma {:induction false} TimesDrained(queue: seq<Id>, cache: Cached, id: Id)
    requires NoRepeat(queue)
    ensures Times(Drained(queue, cache), id) == if id in queue then 1 else 0
    ensures forall a | a in Drained(queue, cache) :: a.id in queue && a.source.FromCache? && a.payload == cache
  {
    if queue != [] {
      var init, q := queue[..|queue| - 1], queue[|queue| - 1];
      TimesDrained(init, cache, id);
      assert queue == init + [q];
      var head := [Answer(q, FromCache, cache)];
      assert head[..0] == [];
      TimesAppend(head, Drained(init, cache), id);
      assert Times(head, id) == if q == id then 1 else 0;
    }
  }

  // ---- invariants ----

  ghost predicate Inv(s: State) {
    && (s.lock <==> s.run.Some?)
    && (s.queue != [] ==> s.lock)
    && NoRepeat(s.queue)
    && (forall id | id in s.queue :: id in s.requested)
    && (s.run.Some? ==> s.run.value.id in s.requested && s.run.value.id !in s.queue)
    && (forall a | a in s.log :: a.id in s.requested)
    && (s.lock ==> s.expires <= s.now)
    && (s.expires > s.now ==> s.last.Some? && s.expires == s.last.value.time + s.lifetime && s.last.value.time <= s.now)
  }

  lemma StepKeepsInv(s: State, e: Step)
    requires Inv(s) && Enabled(s, e)
    ensures Inv(Next(s, e))
  {
    if e.Succeed? {
      TimesDrained(s.queue, s.cache, 0);
    } else if e.Fail? {
      TimesDrained(s.queue, EMPTY, 0);
    }
  }

  lemma {:induction false} RunKeepsInv(s: State, steps: seq<Step>)
    requires Inv(s) && Legal(s, steps)
    ensures Inv(After(s, steps))
    decreases steps
  {
    if steps != [] {
      StepKeepsInv(s, steps[0]);
      RunKeepsInv(Next(s, steps[0]), steps[1..]);
    }
  }

  /**
   In every run at most one handler is in flight, exactly while the lock is held, and nobody waits when
   it is free.
   */
  lemma LockDiscipline(lifetime: nat, now: int, steps: seq<Step>)
    requires Legal(Initial(lifetime, now), steps)
    ensures var s := After(Initial(lifetime, now), steps);
            (s.lock <==> s.run.Some?) && (!s.lock ==> s.queue == [])
  {
    RunKeepsInv(Initial(lifetime, now), steps);
  }

  // ---- every request is answered once ----

  predicate Waits(s: State, id: Id) {
    id in s.queue || (s.run.Some? && s.run.value.id == id && !s.run.value.Answered())
  }

  ghost predicate AnsweredOnce(s: State) {
    forall id | id in s.requested :: Times(s.log, id) + (if Waits(s, id) then 1 else 0) == 1
  }

  /** The handler answers at most once, answers before it returns, and does not throw after it answered. */
  predicate Proper(s: State, e: Step) {
    match e
    case Respond(_) => s.run.Some? && !s.run.value.Answered()
    case Succeed(_) => s.run.Some? && s.run.value.Answered()
    case Fail(_) => s.run.Some? && !s.run.value.Answered()
    case _ => true
  }

  /** How a step changes the number of answers and the waiting of one request. */
  lemma StepCounts(s: State, e: Step, id: Id)
    requires Inv(s) && Enabled(s, e)
    ensures var t := Next(s, e);
            Times(t.log, id) + (if Waits(t, id) then 1 else 0) ==
            Times(s.log, id) + (if Waits(s, id) then 1 else 0) +
            match e
            case Request(asked, _) => if asked == id then 1 else 0
            case SetStatus(_) => 0
            case Respond(_) => if s.run.value.id == id && s.run.value.Answered() then 1 else 0
            case Succeed(_) => if s.run.value.id == id && !s.run.value.Answered() then -1 else 0
            case Fail(_) => if s.run.value.id == id && s.run.value.Answered() then 1 else 0
  {
    match e {
      case Request(asked, at) => TimesSnoc(s.log, Answer(asked, FromCache, s.cache), id);
      case SetStatus(_) =>
      case Respond(json) =>
        TimesSnoc(s.log, Answer(s.run.value.id, FromHandler, Cached(s.run.value.status, Some(json))), id);
      case Succeed(at) =>
        TimesAppend(s.log, Drained(s.queue, s.cache), id);
        TimesDrained(s.queue, s.cache, id);
      case Fail(at) =>
        var error := Answer(s.run.value.id, FromError, EMPTY);
        TimesSnoc(s.log, error, id);
        TimesAppend(s.log + [error], Drained(s.queue, EMPTY), id);
        TimesDrained(s.queue, EMPTY, id);
    }
  }

  /** A step keeps "each request is answered exactly once, or still waits" if and only if the handler behaves. */
  lemma AnsweredOnceIffProper(s: State, e: Step)
    requires Inv(s) && Enabled(s, e) && AnsweredOnce(s)
    ensures AnsweredOnce(Next(s, e)) <==> Proper(s, e)
  {
    var t := Next(s, e);
    forall id | id in t.requested
      ensures Proper(s, e) ==> Times(t.log, id) + (if Waits(t, id) then 1 else 0) == 1
    {
      StepCounts(s, e, id);
      if id !in s.requested {
        TimesNone(s.log, id);
      }
    }
    if !Proper(s, e) {
      StepCounts(s, e, s.run.value.id);
      assert s.run.value.id in t.requested;
    }
  }

  ghost predicate AllProper(s: State, steps: seq<Step>)
    requires Legal(s, steps)
    decreases steps
  {
    steps == [] || (Proper(s, steps[0]) && AllProper(Next(s, steps[0]), steps[1..]))
  }

  lemma {:induction false} ProperRunsAnswerOnce(s: State, steps: seq<Step>)
    requires Inv(s) && AnsweredOnce(s) && Legal(s, steps) && AllProper(s, steps)
    ensures AnsweredOnce(After(s, steps))
    decreases steps
  {
    if steps != [] {
      StepKeepsInv(s, steps[0]);
      AnsweredOnceIffProper(s, steps[0]);
      ProperRunsAnswerOnce(Next(s, steps[0]), steps[1..]);
    }
  }

  /** With well-behaved handlers, when no handler is in flight every request ever made has exactly one answer. */
  lemma EveryRequestIsAnswered(lifetime: nat, now: int, steps: seq<Step>, id: Id)
    requires Legal(Initial(lifetime, now), steps) && AllProper(Initial(lifetime, now), steps)
    requires var s := After(Initial(lifetime, now), steps); id in s.requested && !s.lock
    ensures Times(After(Initial(lifetime, now), steps).log, id) == 1
  {
    RunKeepsInv(Initial(lifetime, now), steps);
    ProperRunsAnswerOnce(Initial(lifetime, now), steps);
  }

  // ---- what the fast path serves ----

  /**
   The status and the payload that the run in flight has set last are those it answered with; what it
   has not set is in the cache as it is in its answer: 200, and no payload.
   */
  predicate Replays(s: State)
    requires s.run.Some?
  {
    var r := s.run.value;
    && (if r.statusSet then r.status == r.Sent().status else s.cache.status == 200)
    && (if r.Answered() then r.json == r.Sent().json else s.cache.json.None?)
  }

  /** Whether the last run that succeeded replayed; `before` is what is known of the past. */
  ghost function LastReplays(s: State, steps: seq<Step>, before: bool): bool
    requires Legal(s, steps)
    decreases steps
  {
    if steps == [] then before
    else LastReplays(Next(s, steps[0]), steps[1..], if steps[0].Succeed? then Replays(s) else before)
  }

  /** What a run has set is in the cache, and what it has not set is the default of its own answer. */
  ghost predicate RunIsCached(s: State) {
    s.run.Some? ==>
      var r := s.run.value;
      && (if r.statusSet then s.cache.status == r.status else r.status == 200 && r.Sent().status == 200)
      && (r.Answered() ==> s.cache.json == r.json)
      && (r.Answered() <==> r.answer.Some?)
  }

  /** While nobody runs and the cache is fresh, it is the answer of the last successful run if that run replays. */
  ghost predicate CacheIsLastIff(s: State, replays: bool) {
    && RunIsCached(s)
    && (!s.lock && s.expires > s.now ==> s.last.Some? && (s.cache == s.last.value.payload <==> replays))
  }

  lemma {:induction false} RunKeepsCache(s: State, steps: seq<Step>, before: bool)
    requires Inv(s) && CacheIsLastIff(s, before) && Legal(s, steps)
    ensures CacheIsLastIff(After(s, steps), LastReplays(s, steps, before))
    decreases steps
  {
    if steps != [] {
      StepKeepsInv(s, steps[0]);
      RunKeepsCache(Next(s, steps[0]), steps[1..], if steps[0].Succeed? then Replays(s) else before);
    }
  }

  /**
   What a successful run leaves in the cache is the answer that was sent if and only if the status and
   the payload it set last are those of the answer, the cache still has 200 if it set no status, and no
   payload if it did not answer.
   */
  lemma PayloadIsCachedIff(lifetime: nat, now: int, steps: seq<Step>, at: int)
    requires Legal(Initial(lifetime, now), steps) && Enabled(After(Initial(lifetime, now), steps), Succeed(at))
    ensures var s := After(Initial(lifetime, now), steps);
            var t := Next(s, Succeed(at));
            t.last.Some? && (t.cache == t.last.value.payload <==> Replays(s))
  {
    RunKeepsInv(Initial(lifetime, now), steps);
    RunKeepsCache(Initial(lifetime, now), steps, true);
  }

  /** The last end of a handler in a run. */
  function LastEnd(steps: seq<Step>, before: Option<Step>): Option<Step> {
    if steps == [] then before
    else LastEnd(steps[1..], if steps[0].Succeed? || steps[0].Fail? then Some(steps[0]) else before)
  }

  ghost predicate ExpiresAfter(s: State, end: Option<Step>) {
    match end
    case Some(Succeed(at)) => s.expires == at + s.lifetime && at <= s.now
    case Some(Fail(at)) => s.expires == at - s.lifetime && at <= s.now
    case _ => s.expires <= s.now
  }

  lemma {:induction false} ExpiresFrom(s: State, steps: seq<Step>, before: Option<Step>)
    requires Legal(s, steps) && ExpiresAfter(s, before)
    ensures ExpiresAfter(After(s, steps), LastEnd(steps, before)) && After(s, steps).lifetime == s.lifetime
    decreases steps
  {
    if steps != [] {
      ExpiresFrom(Next(s, steps[0]), steps[1..],
                  if steps[0].Succeed? || steps[0].Fail? then Some(steps[0]) else before);
    }
  }

  /** The handler that ended last ended well, and less than the lifetime ago. */
  predicate IsFresh(lifetime: nat, steps: seq<Step>, at: int) {
    var end := LastEnd(steps, None);
    end.Some? && end.value.Succeed? && at < end.value.at + lifetime
  }

  /**
   In every run: a request waits while a handler is in flight; otherwise it is answered from the cache, at
   once, exactly if the last handler ended well less than the lifetime ago, else it runs the handler.
   */
  lemma WhenTheHandlerRuns(lifetime: nat, now: int, steps: seq<Step>, id: Id, at: int)
    requires Legal(Initial(lifetime, now), steps) && Enabled(After(Initial(lifetime, now), steps), Request(id, at))
    ensures var s := After(Initial(lifetime, now), steps);
            var t := Next(s, Request(id, at));
            if s.run.Some? then t.queue == s.queue + [id] && t.log == s.log && t.run == s.run
            else if IsFresh(lifetime, steps, at) then
              t.log == s.log + [Answer(id, FromCache, s.cache)] && t.run.None? && t.queue == s.queue
            else
              t.log == s.log && t.run.Some? && t.run.value.id == id && t.queue == s.queue
  {
    RunKeepsInv(Initial(lifetime, now), steps);
    ExpiresFrom(Initial(lifetime, now), steps, None);
  }

  /**
   A request served without running the handler is served less than `lifetime` after the last
   successful run completed, and gets the answer of that run if and only if that run replays.
   */
  lemma FastPathIsFresh(lifetime: nat, now: int, steps: seq<Step>, id: Id, at: int)
    requires Legal(Initial(lifetime, now), steps)
    requires var s := After(Initial(lifetime, now), steps);
             Enabled(s, Request(id, at)) && !s.lock && s.expires > at
    ensures var s := After(Initial(lifetime, now), steps);
            && s.last.Some?
            && at < s.last.value.time + s.lifetime
            && Next(s, Request(id, at)).log == s.log + [Answer(id, FromCache, s.cache)]
            && (s.cache == s.last.value.payload <==> LastReplays(Initial(lifetime, now), steps, true))
  {
    RunKeepsInv(Initial(lifetime, now), steps);
    RunKeepsCache(Initial(lifetime, now), steps, true);
  }

  /** Every run that succeeds has set a status and answered, and has changed neither after its answer. */
  ghost predicate RunsAreComplete(s: State, steps: seq<Step>)
    requires Legal(s, steps)
    decreases steps
  {
    steps == [] || (
    && (steps[0].Succeed? ==>
          s.run.value.statusSet && s.run.value.Answered()
          && s.run.value.answer == Some(Cached(s.run.value.status, s.run.value.json)))
    && RunsAreComplete(Next(s, steps[0]), steps[1..]))
  }

  /** Handlers that always set a status before they answer, and nothing after, are always replayed. */
  lemma {:induction false} CompleteRunsReplay(s: State, steps: seq<Step>)
    requires Legal(s, steps) && RunsAreComplete(s, steps)
    ensures LastReplays(s, steps, true)
    decreases steps
  {
    if steps != [] {
      CompleteRunsReplay(Next(s, steps[0]), steps[1..]);
    }
  }

  /**
   The status of an earlier run stays in the cache: a run that leaves the status alone is replayed with
   the old one.
   */
  lemma StatusOutlivesItsRun(lifetime: nat)
    requires lifetime > 0
    ensures var steps := [Request(0, 0), SetStatus(500), Respond("a"), Succeed(0), Request(1, lifetime),
        Respond("b"), Succeed(lifetime)];
            && Legal(Initial(lifetime, 0), steps)
            && var s := After(Initial(lifetime, 0), steps);
               s.last.Some? && s.last.value.payload == Cached(200, Some("b")) && s.cache == Cached(500, Some("b"))
                   && s.expires > s.now
  {
    var s0 := Initial(lifetime, 0);
    var s1 := Next(s0, Request(0, 0));
    var s2 := Next(s1, SetStatus(500));
    var s3 := Next(s2, Respond("a"));
    var s4 := Next(s3, Succeed(0));
    var s5 := Next(s4, Request(1, lifetime));
    var s6 := Next(s5, Respond("b"));
    var s7 := Next(s6, Succeed(lifetime));
    var r6 := [Succeed(lifetime)];
    var r5 := [Respond("b")] + r6;
    var r4 := [Request(1, lifetime)] + r5;
    var r3 := [Succeed(0)] + r4;
    var r2 := [Respond("a")] + r3;
    var r1 := [SetStatus(500)] + r2;
    assert r6[1..] == [] && r5[1..] == r6 && r4[1..] == r5 && r3[1..] == r4 && r2[1..] == r3 && r1[1..] == r2;
    var r0 := [Request(0, 0)] + r1;
    assert r0[1..] == r1;
    assert Drained([], s7.cache) == [];
    assert Legal(s7, []) && Legal(s6, r6) && After(s6, r6) == s7;
    assert Legal(s5, r5) && After(s5, r5) == s7;
    assert Legal(s4, r4) && After(s4, r4) == s7;
    assert Legal(s3, r3) && After(s3, r3) == s7;
    assert Legal(s2, r2) && After(s2, r2) == s7;
    assert Legal(s1, r1) && After(s1, r1) == s7;
    assert r0 == [Request(0, 0), SetStatus(500), Respond("a"), Succeed(0), Request(1, lifetime), Respond("b"),
        Succeed(lifetime)];
  }

  /**
   A status that is set after the answer is not sent any more, but it is cached: the client got 200, and
   every later request is served 500.
   */
  lemma LateStatusIsCached(lifetime: nat, id: Id, at: int)
    requires lifetime > 0 && id != 0 && 0 <= at < lifetime
    ensures var steps := [Request(0, 0), Respond("a"), SetStatus(500), Succeed(0)];
            && Legal(Initial(lifetime, 0), steps)
            && var s := After(Initial(lifetime, 0), steps);
               && s.log == [Answer(0, FromHandler, Cached(200, Some("a")))]
               && Next(s, Request(id, at)).log == s.log + [Answer(id, FromCache, Cached(500, Some("a")))]
  {
    var s0 := Initial(lifetime, 0);
    var s1 := Next(s0, Request(0, 0));
    var s2 := Next(s1, Respond("a"));
    var s3 := Next(s2, SetStatus(500));
    var s4 := Next(s3, Succeed(0));
    var r3 := [Succeed(0)];
    var r2 := [SetStatus(500)] + r3;
    var r1 := [Respond("a")] + r2;
    var r0 := [Request(0, 0)] + r1;
    assert r3[1..] == [] && r2[1..] == r3 && r1[1..] == r2 && r0[1..] == r1;
    assert Legal(s4, []) && Legal(s3, r3) && After(s3, r3) == s4;
    assert Legal(s2, r2) && After(s2, r2) == s4;
    assert Legal(s1, r1) && After(s1, r1) == s4;
    assert r0 == [Request(0, 0), Respond("a"), SetStatus(500), Succeed(0)];
  }

  /** When a run succeeds, every request that waited is answered from the cache, and nobody else is. */
  lemma WaitersGetTheCache(s: State, at: int)
    requires Inv(s) && Enabled(s, Succeed(at))
    ensures var log := Next(s, Succeed(at)).log;
            && s.log <= log
            && (forall a | a in log[|s.log|..] :: a.id in s.queue && a == Answer(a.id, FromCache, s.cache))
            && (forall id | id in s.queue :: Answer(id, FromCache, s.cache) in log[|s.log|..])
  {
    var drained := Drained(s.queue, s.cache);
    assert (s.log + drained)[|s.log|..] == drained;
    TimesDrained(s.queue, s.cache, 0);
    forall id | id in s.queue ensures Answer(id, FromCache, s.cache) in drained {
      TimesDrained(s.queue, s.cache, id);
      AnsweredIsThere(drained, id);
    }
  }

  /** The one that came last is answered first. */
  lemma {:induction false} DrainedAt(queue: seq<Id>, cache: Cached, k: nat)
    requires k < |queue|
    ensures |Drained(queue, cache)| == |queue|
    ensures Drained(queue, cache)[k] == Answer(queue[|queue| - 1 - k], FromCache, cache)
  {
    if |queue| > 1 {
      DrainedAt(queue[..|queue| - 1], cache, if k > 0 then k - 1 else 0);
    }
  }

  lemma {:induction false} AnsweredIsThere(log: seq<Answer>, id: Id)
    requires Times(log, id) > 0
    ensures exists a :: a in log && a.id == id
  {
    if log[|log| - 1].id != id {
      AnsweredIsThere(log[..|log| - 1], id);
      var a :| a in log[..|log| - 1] && a.id == id;
      assert a in log;
    }
  }

  /**
   In every run of the machine: the requests that waited for a handler get exactly the answer it sent to
   its own client if and only if the handler's run replays.
   */
  lemma WaitersGetTheAnswerIff(lifetime: nat, now: int, steps: seq<Step>, at: int, id: Id)
    requires Legal(Initial(lifetime, now), steps) && Enabled(After(Initial(lifetime, now), steps), Succeed(at))
    requires id in After(Initial(lifetime, now), steps).queue
    ensures var s := After(Initial(lifetime, now), steps);
            Answer(id, FromCache, s.run.value.Sent()) in Next(s, Succeed(at)).log[|s.log|..] <==> Replays(s)
  {
    RunKeepsInv(Initial(lifetime, now), steps);
    var s := After(Initial(lifetime, now), steps);
    WaitersGetTheCache(s, at);
    PayloadIsCachedIff(lifetime, now, steps, at);
  }

  /** What the run of a handler sends itself: the answer it gave, with the status it had set by then. */
  lemma OwnAnswer(s: State, json: string)
    requires Inv(s) && Enabled(s, Respond(json))
    ensures Next(s, Respond(json)).log ==
            s.log + [Answer(s.run.value.id, FromHandler, Cached(s.run.value.status, Some(json)))]
    ensures !s.run.value.Answered() && s.run.value.answer.None? ==>
              Next(s, Respond(json)).run.value.Sent() == Cached(s.run.value.status, Some(json))
  {
  }

  /** Requests that waited for a run that failed are told 200 and null; only the first one learns of the error. */
  lemma WaitersDoNotSeeTheError(s: State, at: int, a: Answer)
    requires Inv(s) && Enabled(s, Fail(at))
    requires a in Next(s, Fail(at)).log && a !in s.log
    ensures a == Answer(s.run.value.id, FromError, EMPTY)
        || (a.id in s.queue && a == Answer(a.id, FromCache, Cached(200, None)))
  {
    TimesDrained(s.queue, EMPTY, 0);
  }

  // ---- the closure ----

  class Handler {
    const lifetime: nat
    ghost var now: int
    var lastCache: Cached
    var lastCacheExpr: int
    var lock: bool
    var queue: seq<Id>
    var run: Option<Run>
    ghost var requested: seq<Id>
    ghost var log: seq<Answer>
    ghost var last: Option<Success>

    ghost function View(): State
      reads this
    {
      State(lifetime, now, lastCache, lastCacheExpr, lock, queue, run, requested, log, last)
    }

    constructor (lifetime0: nat, now0: int)
      ensures View() == Initial(lifetime0, now0)
    {
      lifetime, now, lastCache, lastCacheExpr, lock := lifetime0, now0, EMPTY, now0 - lifetime0, false;
      queue, run, requested, log, last := [], None, [], [], None;
    }

    /** `pipeFromCache`. */
    method PipeFromCache(cache: Cached, id: Id)
      modifies `log
      ensures log == old(log) + [Answer(id, FromCache, cache)]
    {
      log := log + [Answer(id, FromCache, cache)];
    }

    /** A request arrives, up to the await of the handler. */
    method Handle(id: Id, at: int)
      requires Enabled(View(), Request(id, at))
      modifies this
      ensures View() == Next(old(View()), Request(id, at))
    {
      now, requested := at, requested + [id];
      if lock {
        queue := queue + [id];
      } else {
        if lastCacheExpr > at {
          PipeFromCache(lastCache, id);
          return;
        }
        lock := true;
        run := Some(Run(id, None, 200, false, None));
      }
    }

    method Status(code: int)
      requires Enabled(View(), SetStatus(code))
      modifies this
      ensures View() == Next(old(View()), SetStatus(code))
    {
      run := Some(run.value.(status := code, statusSet := true));
      lastCache := lastCache.(status := code);
    }

    method Json(json: string)
      requires Enabled(View(), Respond(json))
      modifies this
      ensures View() == Next(old(View()), Respond(json))
    {
      log := log + [Answer(run.value.id, FromHandler, Cached(run.value.status, Some(json)))];
      run := Some(run.value.Respond(json));
      lastCache := lastCache.(json := Some(json));
    }

    /** The loop that pops and answers the waiting requests. */
    method Drain()
      modifies `queue, `log
      ensures queue == [] && log == old(log) + Drained(old(queue), lastCache)
    {
      while queue != []
        invariant log + Drained(queue, lastCache) == old(log) + Drained(old(queue), lastCache)
        decreases |queue|
      {
        var queuedResponse := queue[|queue| - 1];
        assert log + Drained(queue, lastCache)
            == (log + [Answer(queuedResponse, FromCache, lastCache)]) + Drained(queue[..|queue| - 1], lastCache);
        queue := queue[..|queue| - 1];
        PipeFromCache(lastCache, queuedResponse);
      }
    }

    /** The handler resolved. */
    method Complete(at: int)
      requires Enabled(View(), Succeed(at))
      modifies this
      ensures View() == Next(old(View()), Succeed(at))
    {
      last := Some(Success(run.value.Sent(), at));
      now := at;
      lastCacheExpr := at + lifetime;
      lock := false;
      run := None;
      Drain();
    }

    /** The handler rejected. */
    method Reject(at: int)
      requires Enabled(View(), Fail(at))
      modifies this
      ensures View() == Next(old(View()), Fail(at))
    {
      now := at;
      lock := false;
      lastCache := EMPTY;
      lastCacheExpr := at - lifetime;
      log := log + [Answer(run.value.id, FromError, EMPTY)];
      run := None;
      Drain();
    }
  }
}
