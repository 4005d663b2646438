/**
 The debounced function: while an execution for a key is in flight, further calls join it. One step
 is what happens between two awaits; keys stand for the digests of the arguments.
 */
module SingleFlight {
  import opened Wrappers

  datatype Outcome<V> = Value(v: V) | Error(message: string)

  /** One execution of the wrapped function; it runs until it has an outcome. */
  datatype Execution<V> = Execution(key: string, outcome: Option<Outcome<V>>)

  /** A call: its key, the execution it got, whether it started it, and what it was told. */
  datatype CallRecord<V> = CallRecord(key: string, execution: nat, owner: bool, told: Option<Outcome<V>>)

  datatype State<V> = State(
    cache: map<string, nat>,
    executions: seq<Execution<V>>,
    calls: map<nat, CallRecord<V>>)

  datatype Step<V> =
    | Call(id: nat, key: string)
    | Settle(execution: nat, outcome: Outcome<V>)
    | Resume(id: nat)      // the await of a call continues
    | Evict(key: string)   // the LRU cache drops the entry, by size or by age

  function Initial<V>(): State<V> {
    State(map[], [], map[])
  }

  predicate Running<V>(s: State<V>, x: nat) {
    x < |s.executions| && s.executions[x].outcome.None?
  }

  /** The call that started an execution and has not come back. */
  predicate Owns<V>(s: State<V>, id: nat, x: nat) {
    id in s.calls && s.calls[id].owner && s.calls[id].told.None? && s.calls[id].execution == x
  }

  predicate Enabled<V>(s: State<V>, e: Step<V>) {
    match e
    case Call(id, _) => id !in s.calls
    case Settle(x, _) => Running(s, x)
    case Resume(id) =>
      id in s.calls && s.calls[id].told.None? && s.calls[id].execution < |s.executions| &&
      s.executions[s.calls[id].execution].outcome.Some?
    case Evict(key) => key in s.cache
  }

  function Next<V>(s: State<V>, e: Step<V>): State<V>
    requires Enabled(s, e)
  {
    match e
    case Call(id, key) =>
      if key in s.cache then
        s.(calls := s.calls[id := CallRecord(key, s.cache[key], false, None)])
      else
        var x := |s.executions|;
        s.(executions := s.executions + [Execution(key, None)], cache := s.cache[key := x],
           calls := s.calls[id := CallRecord(key, x, true, None)])
    case Settle(x, outcome) =>
      s.(executions := s.executions[x := s.executions[x].(outcome := Some(outcome))])
    case Resume(id) =>
      var c := s.calls[id];
      var t := s.(calls := s.calls[id := c.(told := s.executions[c.execution].outcome)]);
      if c.owner then t.(cache := s.cache - {c.key}) else t
    case Evict(key) => s.(cache := s.cache - {key})
  }

  ghost predicate Legal<V>(s: State<V>, steps: seq<Step<V>>)
    decreases steps
  {
    steps == [] || (Enabled(s, steps[0]) && Legal(Next(s, steps[0]), steps[1..]))
  }

  ghost function After<V>(s: State<V>, steps: seq<Step<V>>): State<V>
    requires Legal(s, steps)
    decreases steps
  {
    if steps == [] then s else After(Next(s, steps[0]), steps[1..])
  }

  ghost predicate NoEviction<V>(steps: seq<Step<V>>) {
    forall e | e in steps :: !e.Evict?
  }

  // ---- what holds whether or not entries are evicted ----

  /** The record of a call points to an execution of its own key, and what it was told is that execution's outcome. */
  ghost predicate Sound<V>(executions: seq<Execution<V>>, c: CallRecord<V>) {
    && c.execution < |executions|
    && executions[c.execution].key == c.key
    && (c.told.Some? ==> executions[c.execution].outcome == c.told)
  }

  ghost predicate Faithful<V>(s: State<V>) {
    && (forall id | id in s.calls :: Sound(s.executions, s.calls[id]))
    && (forall k | k in s.cache :: s.cache[k] < |s.executions| && s.executions[s.cache[k]].key == k)
  }

  lemma StepKeepsFaithful<V>(s: State<V>, e: Step<V>)
    requires Faithful(s) && Enabled(s, e)
    ensures Faithful(Next(s, e))
  {
    var t := Next(s, e);
    forall id | id in t.calls ensures Sound(t.executions, t.calls[id]) {
      if id in s.calls {
        assert Sound(s.executions, s.calls[id]);
      }
    }
  }

  lemma {:induction false} RunKeepsFaithful<V>(s: State<V>, steps: seq<Step<V>>)
    requires Faithful(s) && Legal(s, steps)
    ensures Faithful(After(s, steps))
    decreases steps
  {
    if steps != [] {
      StepKeepsFaithful(s, steps[0]);
      RunKeepsFaithful(Next(s, steps[0]), steps[1..]);
    }
  }

  /** In every run, evictions or not, a caller is told the outcome of an execution for its own key. */
  lemma CallersGetTheirOutcome<V>(steps: seq<Step<V>>, id: nat)
    requires Legal(Initial<V>(), steps) && id in After(Initial<V>(), steps).calls
    ensures var s := After(Initial<V>(), steps);
            var c := s.calls[id];
            && c.execution < |s.executions|
            && s.executions[c.execution].key == c.key
            && (c.told.Some? ==> s.executions[c.execution].outcome == c.told)
  {
    RunKeepsFaithful(Initial<V>(), steps);
    var s := After(Initial<V>(), steps);
    assert Sound(s.executions, s.calls[id]);
  }

  // ---- single flight ----

  ghost predicate HasOwner<V>(s: State<V>, x: nat) {
    exists id :: Owns(s, id, x)
  }

  /** An entry is there exactly while the call that started its execution has not come back. */
  ghost predicate Tracked<V>(s: State<V>) {
    && Faithful(s)
    && (forall x: nat | Running(s, x) :: s.executions[x].key in s.cache && s.cache[s.executions[x].key] == x)
    && (forall id, x: nat | Owns(s, id, x) :: s.calls[id].key in s.cache && s.cache[s.calls[id].key] == x)
    && (forall k | k in s.cache :: HasOwner(s, s.cache[k]))
    && (forall a, b, x: nat | Owns(s, a, x) && Owns(s, b, x) :: a == b)
  }

  lemma JoinKeepsTracked<V>(s: State<V>, id: nat, key: string)
    requires Tracked(s) && Enabled(s, Call(id, key)) && key in s.cache
    ensures Tracked(Next(s, Call(id, key)))
  {
    var t := Next(s, Call(id, key));
    StepKeepsFaithful(s, Call(id, key));
    forall c, x: nat ensures Owns(t, c, x) <==> Owns(s, c, x) {
    }
    forall c, x: nat | Owns(t, c, x) ensures t.calls[c].key in t.cache && t.cache[t.calls[c].key] == x {
      assert Owns(s, c, x);
    }
    forall k | k in t.cache ensures HasOwner(t, t.cache[k]) {
      var c :| Owns(s, c, s.cache[k]);
      assert Owns(t, c, t.cache[k]);
    }
  }

  lemma StartKeepsTracked<V>(s: State<V>, id: nat, key: string)
    requires Tracked(s) && Enabled(s, Call(id, key)) && key !in s.cache
    ensures Tracked(Next(s, Call(id, key)))
  {
    var t := Next(s, Call(id, key));
    var x' := |s.executions|;
    StepKeepsFaithful(s, Call(id, key));
    forall c, x: nat ensures Owns(t, c, x) <==> (c == id && x == x') || Owns(s, c, x) {
    }
    forall c, x: nat | Owns(s, c, x) ensures x < x' && s.calls[c] == t.calls[c] {
      assert Sound(s.executions, s.calls[c]);
    }
    forall x: nat ensures Running(t, x) <==> x == x' || Running(s, x) {
    }
    forall k | k in t.cache ensures HasOwner(t, t.cache[k]) {
      if k in s.cache {
        var c :| Owns(s, c, s.cache[k]);
        assert Owns(t, c, t.cache[k]);
      } else {
        assert Owns(t, id, x');
      }
    }
  }

  lemma CallKeepsTracked<V>(s: State<V>, id: nat, key: string)
    requires Tracked(s) && Enabled(s, Call(id, key))
    ensures Tracked(Next(s, Call(id, key)))
  {
    if key in s.cache {
      JoinKeepsTracked(s, id, key);
    } else {
      StartKeepsTracked(s, id, key);
    }
  }

  lemma ResumeKeepsTracked<V>(s: State<V>, id: nat)
    requires Tracked(s) && Enabled(s, Resume(id))
    ensures Tracked(Next(s, Resume(id)))
  {
    var t := Next(s, Resume(id));
    StepKeepsFaithful(s, Resume(id));
    assert Sound(s.executions, s.calls[id]);
    forall c, x: nat | Owns(t, c, x) ensures c != id && Owns(s, c, x) && s.calls[c] == t.calls[c] {
    }
    if s.calls[id].owner {
      assert Owns(s, id, s.calls[id].execution);
    }
    forall c, x: nat | Owns(t, c, x) ensures t.calls[c].key in t.cache && t.cache[t.calls[c].key] == x {
      assert Owns(s, c, x);
    }
    forall k | k in t.cache ensures HasOwner(t, t.cache[k]) {
      var c :| Owns(s, c, s.cache[k]);
      assert c != id;
      assert Owns(t, c, t.cache[k]);
    }
  }

  lemma SettleKeepsTracked<V>(s: State<V>, x: nat, outcome: Outcome<V>)
    requires Tracked(s) && Running(s, x)
    ensures Tracked(Next(s, Settle(x, outcome)))
  {
    var t := Next(s, Settle(x, outcome));
    StepKeepsFaithful(s, Settle(x, outcome));
    forall y: nat | Running(t, y) ensures Running(s, y) && t.executions[y] == s.executions[y] {
    }
    forall id, y: nat ensures Owns(t, id, y) <==> Owns(s, id, y) {
    }
    forall k | k in t.cache ensures HasOwner(t, t.cache[k]) {
      var c :| Owns(s, c, s.cache[k]);
      assert Owns(t, c, t.cache[k]);
    }
  }

  lemma {:induction false} RunKeepsTracked<V>(s: State<V>, steps: seq<Step<V>>)
    requires Tracked(s) && Legal(s, steps) && NoEviction(steps)
    ensures Tracked(After(s, steps))
    decreases steps
  {
    if steps != [] {
      assert steps[0] in steps;
      match steps[0] {
        case Call(id, key) => CallKeepsTracked(s, id, key);
        case Settle(x, outcome) => SettleKeepsTracked(s, x, outcome);
        case Resume(id) => ResumeKeepsTracked(s, id);
      }
      RunKeepsTracked(Next(s, steps[0]), steps[1..]);
    }
  }

  ghost predicate AtMostOneRunning<V>(s: State<V>) {
    forall x: nat, y: nat | Running(s, x) && Running(s, y) :: s.executions[x].key == s.executions[y].key ==> x == y
  }

  /**
   Without evictions, in every run: each key has at most one running execution, and the key has an entry
   exactly while the call that started one has not come back.
   */
  lemma SingleFlightHolds<V>(steps: seq<Step<V>>, key: string)
    requires Legal(Initial<V>(), steps) && NoEviction(steps)
    ensures var s := After(Initial<V>(), steps);
            && AtMostOneRunning(s)
            && (key in s.cache <==>
                  exists id :: id in s.calls && s.calls[id].key == key && Owns(s, id, s.calls[id].execution))
  {
    assert Tracked(Initial<V>());
    RunKeepsTracked(Initial<V>(), steps);
    var s := After(Initial<V>(), steps);
    if key in s.cache {
      var c :| Owns(s, c, s.cache[key]);
      assert Sound(s.executions, s.calls[c]);
    }
  }

  /**
   A call that comes while its key runs starts nothing and gets the running execution; otherwise it
   starts exactly one.
   */
  lemma CallsJoin<V>(steps: seq<Step<V>>, id: nat, key: string)
    requires Legal(Initial<V>(), steps) && NoEviction(steps)
    requires Enabled(After(Initial<V>(), steps), Call(id, key))
    ensures var s := After(Initial<V>(), steps);
            var t := Next(s, Call(id, key));
            && (forall x: nat | Running(s, x) && s.executions[x].key == key ::
                  t.executions == s.executions && t.calls[id].execution == x)
            && (key !in s.cache ==>
                  t.executions == s.executions + [Execution(key, None)] && t.calls[id].execution == |s.executions|)
  {
    assert Tracked(Initial<V>());
    RunKeepsTracked(Initial<V>(), steps);
  }

  /**
   The limit of it: once the entry of a running execution is evicted, the next call for the key starts
   a second one.
   */
  lemma EvictionBreaksIt<V>(s: State<V>, x: nat, id: nat)
    requires Running(s, x) && s.executions[x].key in s.cache && id !in s.calls
    ensures var key := s.executions[x].key;
            var t := Next(Next(s, Evict(key)), Call(id, key));
            Running(t, x) && Running(t, |s.executions|) && !AtMostOneRunning(t)
  {
    var key := s.executions[x].key;
    var t := Next(Next(s, Evict(key)), Call(id, key));
    assert t.executions[x] == s.executions[x] && t.executions[|s.executions|].key == key;
  }

  /** The call finds no entry although its key has a running execution: only an eviction leads there. */
  ghost predicate StartsSecond<V>(s: State<V>, e: Step<V>) {
    e.Call? && e.key !in s.cache && exists x: nat :: Running(s, x) && s.executions[x].key == e.key
  }

  /** In every state, evictions or not, a step keeps single flight if and only if it is not such a call. */
  lemma StepKeepsSingleFlightIff<V>(s: State<V>, e: Step<V>)
    requires AtMostOneRunning(s) && Enabled(s, e)
    ensures AtMostOneRunning(Next(s, e)) <==> !StartsSecond(s, e)
  {
    var t, n := Next(s, e), |s.executions|;
    forall x: nat | Running(t, x) ensures x == n || (Running(s, x) && t.executions[x] == s.executions[x]) {
    }
    if StartsSecond(s, e) {
      var x: nat :| Running(s, x) && s.executions[x].key == e.key;
      assert Running(t, x) && Running(t, n) && t.executions[x].key == t.executions[n].key;
    }
  }

  // ---- the closure ----

  class Debounced<V> {
    var cache: map<string, nat>
    var executions: seq<Execution<V>>
    var calls: map<nat, CallRecord<V>>

    ghost function View(): State<V>
      reads this
    {
      State(cache, executions, calls)
    }

    constructor ()
      ensures View() == Initial()
    {
      cache, executions, calls := map[], [], map[];
    }

    /** The synchronous part of a call: join what is cached, or start the function and cache its promise. */
    method Begin(id: nat, key: string) returns (execution: nat)
      requires id !in calls
      modifies this
      ensures View() == Next(old(View()), Call(id, key))
      ensures calls[id].execution == execution
    {
      var owner := false;
      if key in cache {
        execution := cache[key];
      } else {
        owner := true;
        execution := |executions|;
        executions := executions + [Execution(key, None)];
        cache := cache[key := execution];
      }
      calls := calls[id := CallRecord(key, execution, owner, None)];
    }

    /** The promise of the wrapped function settles. */
    method Finish(x: nat, outcome: Outcome<V>)
      requires Running(View(), x)
      modifies this
      ensures View() == Next(old(View()), Settle(x, outcome))
    {
      executions := executions[x := executions[x].(outcome := Some(outcome))];
    }

    /** The call comes back; the one that started the execution deletes the entry of its key. */
    method Return(id: nat) returns (outcome: Outcome<V>)
      requires Enabled(View(), Step<V>.Resume(id))
      modifies this
      ensures View() == Next(old(View()), Resume(id))
      ensures Some(outcome) == old(executions[calls[id].execution].outcome)
    {
      var c := calls[id];
      outcome := executions[c.execution].outcome.value;
      calls := calls[id := c.(told := Some(outcome))];
      if c.owner {
        cache := cache - {c.key};
      }
    }

    /** An entry falls out of the LRU cache. */
    method Drop(key: string)
      requires key in cache
      modifies this
      ensures View() == Next(old(View()), Evict(key))
    {
      cache := cache - {key};
    }
  }

  // ---- what a caller is told ----

  /** A call keeps its key and its execution. */
  lemma {:induction false} CallsAreKept<V>(s: State<V>, steps: seq<Step<V>>, id: nat)
    requires Legal(s, steps) && id in s.calls
    ensures id in After(s, steps).calls
    ensures After(s, steps).calls[id].key == s.calls[id].key
    ensures After(s, steps).calls[id].execution == s.calls[id].execution
    decreases steps
  {
    if steps != [] {
      CallsAreKept(Next(s, steps[0]), steps[1..], id);
    }
  }

  lemma {:induction false} CallsAreRecorded<V>(s: State<V>, steps: seq<Step<V>>, id: nat, key: string)
    requires Legal(s, steps) && Call(id, key) in steps
    ensures id in After(s, steps).calls && After(s, steps).calls[id].key == key
    decreases steps
  {
    if steps[0] == Call(id, key) {
      CallsAreKept(Next(s, steps[0]), steps[1..], id);
    } else {
      CallsAreRecorded(Next(s, steps[0]), steps[1..], id, key);
    }
  }

  /** An outcome is one the function came back with. */
  lemma {:induction false} OutcomesAreSettled<V>(s: State<V>, steps: seq<Step<V>>, x: nat)
    requires Legal(s, steps)
    ensures |s.executions| <= |After(s, steps).executions|
    ensures x < |After(s, steps).executions| && After(s, steps).executions[x].outcome.Some? ==>
              || (x < |s.executions| && s.executions[x].outcome == After(s, steps).executions[x].outcome)
              || Settle(x, After(s, steps).executions[x].outcome.value) in steps
    decreases steps
  {
    if steps != [] {
      OutcomesAreSettled(Next(s, steps[0]), steps[1..], x);
    }
  }

  /** Whatever a call of a key is told is what the function came back with for an execution of that key. */
  lemma ToldIsSettled<V>(steps: seq<Step<V>>, id: nat, key: string)
    requires Legal(Initial<V>(), steps) && Call(id, key) in steps
    ensures var s := After(Initial<V>(), steps);
            && id in s.calls && s.calls[id].execution < |s.executions|
            && s.executions[s.calls[id].execution].key == key
            && (s.calls[id].told.Some? ==> Settle(s.calls[id].execution, s.calls[id].told.value) in steps)
  {
    CallsAreRecorded(Initial<V>(), steps, id, key);
    CallersGetTheirOutcome(steps, id);
    OutcomesAreSettled(Initial<V>(), steps, After(Initial<V>(), steps).calls[id].execution);
  }

  /** When no execution runs and no await is left to continue, every call was told something. */
  lemma EveryCallIsTold<V>(steps: seq<Step<V>>, id: nat)
    requires Legal(Initial<V>(), steps)
    requires var s := After(Initial<V>(), steps);
             && id in s.calls && (forall x: nat :: !Running(s, x)) && !Enabled(s, Resume(id))
    ensures After(Initial<V>(), steps).calls[id].told.Some?
  {
    CallersGetTheirOutcome(steps, id);
    var s := After(Initial<V>(), steps);
    assert !Running(s, s.calls[id].execution);
  }

  /** A call that continues is told, nobody else is, and the entry goes exactly with the owner. */
  lemma ResumeTells<V>(s: State<V>, id: nat)
    requires Faithful(s) && Enabled(s, Resume(id))
    ensures var t := Next(s, Resume(id));
            && t.executions == s.executions && t.calls.Keys == s.calls.Keys
            && t.calls[id].told.Some?
            && (forall c | c in s.calls && c != id :: t.calls[c] == s.calls[c])
            && (forall k | k in s.cache :: k !in t.cache <==> s.calls[id].owner && k == s.calls[id].key)
            && (forall k | k in t.cache :: k in s.cache && t.cache[k] == s.cache[k])
  {
  }
}
