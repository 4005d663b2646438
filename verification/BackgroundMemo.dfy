/**
 Memoization with background refresh: a key, once cached, is answered from the cache; only the refresh
 timer and forced calls run the function for it again. Buckets are objects that a refresh changes in
 place, so they are kept by identity.
 */
module BackgroundMemo {
  import opened Wrappers

  datatype Outcome<V> = Value(v: V) | Error

  /** A cached item with the arguments that refresh it. */
  datatype Bucket<V> = Bucket(item: V, args: string, lifetime: int)

  /** An operation that waits for the debounced function. */
  datatype Operation = Load(args: string) | Force(args: string) | Refresh(bucket: nat)

  /**
   `started` counts the runs asked of the debounced function, `successes` are their good outcomes; both
   are histories.
   */
  datatype State<V> = State(
    keyOf: string -> string,
    cache: map<string, nat>,
    buckets: seq<Bucket<V>>,
    pending: map<nat, Operation>,
    started: nat,
    successes: seq<(string, V)>,
    exceptions: nat)

  datatype Step<V> =
    | Call(id: nat, args: string)
    | ForceCall(id: nat, args: string)
    | RefreshDue(id: nat, key: string, now: int)        // the timer finds an expired bucket
    | Done(id: nat, outcome: Outcome<V>, lifetime: int) // the debounced function comes back

  function Initial<V>(keyOf: string -> string): State<V> {
    State(keyOf, map[], [], map[], 0, [], 0)
  }

  predicate Enabled<V>(s: State<V>, e: Step<V>) {
    match e
    case Call(id, _) => id !in s.pending
    case ForceCall(id, _) => id !in s.pending
    case RefreshDue(id, key, now) =>
      id !in s.pending && key in s.cache && s.cache[key] < |s.buckets| && s.buckets[s.cache[key]].lifetime < now
    case Done(id, _, _) => id in s.pending && (s.pending[id].Refresh? ==> s.pending[id].bucket < |s.buckets|)
  }

  function Ask<V>(s: State<V>, id: nat, op: Operation): State<V> {
    s.(pending := s.pending[id := op], started := s.started + 1)
  }

  /** The arguments an operation runs the function with. */
  function ArgsOf<V>(s: State<V>, op: Operation): string
    requires op.Refresh? ==> op.bucket < |s.buckets|
  {
    if op.Refresh? then s.buckets[op.bucket].args else op.args
  }

  ghost function Next<V>(s: State<V>, e: Step<V>): State<V>
    requires Enabled(s, e)
  {
    match e
    case Call(id, args) => if s.keyOf(args) in s.cache then s else Ask(s, id, Load(args))
    case ForceCall(id, args) => Ask(s, id, Force(args))
    case RefreshDue(id, key, _) => Ask(s, id, Refresh(s.cache[key]))
    case Done(id, outcome, lifetime) =>
      var op := s.pending[id];
      var t := s.(pending := s.pending - {id});
      if outcome.Error? then
        if op.Refresh? then t.(exceptions := s.exceptions + 1) else t
      else
        var u := t.(successes := s.successes + [(ArgsOf(s, op), outcome.v)]);
        if op.Refresh? then
          u.(buckets := s.buckets[op.bucket := s.buckets[op.bucket].(item := outcome.v, lifetime := lifetime)])
        else
          u.(buckets := s.buckets + [Bucket(outcome.v, op.args, lifetime)],
             cache := s.cache[s.keyOf(op.args) := |s.buckets|])
  }

  /** What a plain call returns at once, when it does not wait. */
  function Served<V>(s: State<V>, args: string): Option<V> {
    if s.keyOf(args) in s.cache && s.cache[s.keyOf(args)] < |s.buckets| then
      Some(s.buckets[s.cache[s.keyOf(args)]].item)
    else None
  }

  ghost predicate Legal<V>(s: State<V>, steps: seq<Step<V>>)
    decreases steps
  {
    steps == [] || (Enabled(s, steps[0]) && Legal(Next(s, steps[0]), steps[1..]))
  }

  ghost function After<V>(s: State<V>, steps: seq<Step<V>>): State<V>
    requires Legal(s, steps)
    decreases steps
  {
    if steps == [] then s else After(Next(s, steps[0]), steps[1..])
  }

  /** Some good run of the function for this key gave the item. */
  ghost predicate ItemFor<V>(s: State<V>, key: string, item: V) {
    exists args :: s.keyOf(args) == key && (args, item) in s.successes
  }

  ghost predicate Inv<V>(s: State<V>) {
    && (forall k | k in s.cache :: s.cache[k] < |s.buckets| && s.keyOf(s.buckets[s.cache[k]].args) == k)
    && (forall b | 0 <= b < |s.buckets| :: ItemFor(s, s.keyOf(s.buckets[b].args), s.buckets[b].item))
    && (forall id | id in s.pending && s.pending[id].Refresh? :: s.pending[id].bucket < |s.buckets|)
  }

  lemma ItemForGrows<V>(s: State<V>, t: State<V>, key: string, item: V)
    requires s.keyOf == t.keyOf && s.successes <= t.successes && ItemFor(s, key, item)
    ensures ItemFor(t, key, item)
  {
    var args :| s.keyOf(args) == key && (args, item) in s.successes;
    assert (args, item) in t.successes;
  }

  lemma StepKeepsInv<V>(s: State<V>, e: Step<V>)
    requires Inv(s) && Enabled(s, e)
    ensures var t := Next(s, e);
            Inv(t) && t.keyOf == s.keyOf && s.cache.Keys <= t.cache.Keys && s.successes <= t.successes
  {
    var t := Next(s, e);
    forall b | 0 <= b < |t.buckets| ensures ItemFor(t, t.keyOf(t.buckets[b].args), t.buckets[b].item) {
      if b < |s.buckets| && t.buckets[b] == s.buckets[b] {
        ItemForGrows(s, t, s.keyOf(s.buckets[b].args), s.buckets[b].item);
      } else {
        assert (t.buckets[b].args, t.buckets[b].item) in t.successes;
      }
    }
  }

  lemma {:induction false} RunKeepsInv<V>(s: State<V>, steps: seq<Step<V>>)
    requires Inv(s) && Legal(s, steps)
    ensures var t := After(s, steps);
            Inv(t) && t.keyOf == s.keyOf && s.cache.Keys <= t.cache.Keys && s.successes <= t.successes
    decreases steps
  {
    if steps != [] {
      StepKeepsInv(s, steps[0]);
      RunKeepsInv(Next(s, steps[0]), steps[1..]);
    }
  }

  /**
   A key is never lost. Take any run, in it a call, plain or forced, that comes back with a value, and anything after:
   every later plain call for that key returns at once, runs nothing, and gives an item that a good run
   of the function for that key produced.
   */
  lemma FirstSuccessIsForever<V>(keyOf: string -> string, before: seq<Step<V>>, id: nat, v: V, lifetime: int,
                                 after: seq<Step<V>>, id': nat, args: string)
    requires Legal(Initial<V>(keyOf), before)
    requires var s := After(Initial<V>(keyOf), before);
             && id in s.pending && !s.pending[id].Refresh? && Enabled(s, Done(id, Value(v), lifetime))
             && Legal(Next(s, Done(id, Value(v), lifetime)), after)
             && keyOf(args) == keyOf(s.pending[id].args)
    requires var s := After(Initial<V>(keyOf), before);
             Enabled(After(Next(s, Done(id, Value(v), lifetime)), after), Call(id', args))
    ensures var s := After(Initial<V>(keyOf), before);
            var t := After(Next(s, Done(id, Value(v), lifetime)), after);
            && Next(t, Call(id', args)) == t
            && Served(t, args).Some?
            && ItemFor(t, keyOf(args), Served(t, args).value)
  {
    RunKeepsInv(Initial<V>(keyOf), before);
    var s := After(Initial<V>(keyOf), before);
    StepKeepsInv(s, Done(id, Value(v), lifetime));
    RunKeepsInv(Next(s, Done(id, Value(v), lifetime)), after);
    var t := After(Next(s, Done(id, Value(v), lifetime)), after);
    assert keyOf(args) in t.cache;
    assert ItemFor(t, t.keyOf(t.buckets[t.cache[keyOf(args)]].args), t.buckets[t.cache[keyOf(args)]].item);
  }

  /** A failed refresh leaves what callers are served as it was, and is reported. */
  lemma FailedRefreshChangesNothing<V>(s: State<V>, id: nat, lifetime: int, args: string)
    requires Inv(s) && id in s.pending && s.pending[id].Refresh?
    ensures var t := Next(s, Done(id, Error, lifetime));
            Served(t, args) == Served(s, args) && t.exceptions == s.exceptions + 1
  {
  }

  /**
   A refresh that was under way when a forced call replaced the bucket changes the old bucket only: the
   forced item stays.
   */
  lemma ForcedItemSurvivesOldRefresh<V>(s: State<V>, refresh: nat, force: nat, old': V, new': V, lifetime: int)
    requires Inv(s) && refresh != force
    requires refresh in s.pending && s.pending[refresh].Refresh? && force in s.pending && s.pending[force].Force?
    ensures var t := Next(s, Done(force, Value(new'), lifetime));
            && Enabled(t, Done(refresh, Value(old'), lifetime))
            && Served(Next(t, Done(refresh, Value(old'), lifetime)), s.pending[force].args) == Some(new')
  {
  }

  // ---- which item is served ----

  /** A good refresh of the bucket of a key is what that key serves from then on, for as long as it says. */
  lemma RefreshedItemIsServed<V>(s: State<V>, id: nat, v: V, lifetime: int, args: string)
    requires Inv(s) && id in s.pending && s.pending[id].Refresh?
    requires s.keyOf(args) in s.cache && s.cache[s.keyOf(args)] == s.pending[id].bucket
    ensures var t := Next(s, Done(id, Value(v), lifetime));
            && Served(t, args) == Some(v)
            && t.cache == s.cache && t.buckets[t.cache[s.keyOf(args)]].lifetime == lifetime
  {
  }

  /** The operation sets the bucket of the key, or refreshes the one the key has. */
  predicate Touches<V>(s: State<V>, id: nat, key: string) {
    id in s.pending &&
    match s.pending[id]
    case Load(args) => s.keyOf(args) == key
    case Force(args) => s.keyOf(args) == key
    case Refresh(bucket) => key in s.cache && s.cache[key] == bucket
  }

  /** The value of the last good run that set or refreshed the bucket of a key; `before` is that of the past. */
  ghost function Latest<V>(s: State<V>, steps: seq<Step<V>>, key: string, before: Option<V>): Option<V>
    requires Legal(s, steps)
    decreases steps
  {
    if steps == [] then before
    else
      var e := steps[0];
      Latest(Next(s, e), steps[1..], key,
             if e.Done? && e.outcome.Value? && Touches(s, e.id, key) then Some(e.outcome.v) else before)
  }

  lemma StepServes<V>(s: State<V>, e: Step<V>, args: string)
    requires Inv(s) && Enabled(s, e)
    ensures Served(Next(s, e), args) ==
            if e.Done? && e.outcome.Value? && Touches(s, e.id, s.keyOf(args)) then Some(e.outcome.v)
            else Served(s, args)
  {
  }

  lemma {:induction false} RunServes<V>(s: State<V>, steps: seq<Step<V>>, args: string)
    requires Inv(s) && Legal(s, steps)
    ensures Served(After(s, steps), args) == Latest(s, steps, s.keyOf(args), Served(s, args))
    decreases steps
  {
    if steps != [] {
      StepKeepsInv(s, steps[0]);
      StepServes(s, steps[0], args);
      RunServes(Next(s, steps[0]), steps[1..], args);
    }
  }

  /** In every run, what a key serves is the value of the last good run that set or refreshed its bucket. */
  lemma ServedIsLatest<V>(keyOf: string -> string, steps: seq<Step<V>>, args: string)
    requires Legal(Initial<V>(keyOf), steps)
    ensures Served(After(Initial<V>(keyOf), steps), args) == Latest(Initial<V>(keyOf), steps, keyOf(args), None)
  {
    RunServes(Initial<V>(keyOf), steps, args);
  }

  /**
   When the function is asked: by a plain call of a key that is not cached, by every forced call, and by
   the timer for a bucket whose lifetime is over; in each case once, with the arguments given or kept.
   */
  lemma WhenAsked<V>(s: State<V>, e: Step<V>)
    requires Inv(s) && Enabled(s, e)
    ensures Next(s, e).started == s.started +
            match e
            case Call(_, args) => if Served(s, args).Some? then 0 else 1
            case ForceCall(_, _) => 1
            case RefreshDue(_, key, now) => 1
            case Done(_, _, _) => 0
    ensures e.Call? && Served(s, e.args).None? ==> ArgsOf(Next(s, e), Next(s, e).pending[e.id]) == e.args
    ensures e.ForceCall? ==> ArgsOf(Next(s, e), Next(s, e).pending[e.id]) == e.args
    ensures e.RefreshDue? ==>
              && s.keyOf(ArgsOf(Next(s, e), Next(s, e).pending[e.id])) == e.key
              && s.buckets[s.cache[e.key]].lifetime < e.now
  {
  }

  // ---- the closure ----

  class Memo<V> {
    const keyOf: string -> string
    var cache: map<string, nat>
    var buckets: seq<Bucket<V>>
    var pending: map<nat, Operation>
    ghost var started: nat
    ghost var successes: seq<(string, V)>
    ghost var exceptions: nat

    ghost function View(): State<V>
      reads this
    {
      State(keyOf, cache, buckets, pending, started, successes, exceptions)
    }

    constructor (extractKey: string -> string)
      ensures View() == Initial(extractKey)
    {
      keyOf, cache, buckets, pending, started, successes, exceptions := extractKey, map[], [], map[], 0, [], 0;
    }

    /** A plain call up to its await; the result is there at once if the key is cached. */
    method BeginCall(id: nat, args: string) returns (served: Option<V>)
      requires Inv(View()) && id !in pending
      modifies this
      ensures View() == Next(old(View()), Call(id, args))
      ensures served == Served(old(View()), args)
    {
      var key := keyOf(args);
      if key in cache {
        served := Some(buckets[cache[key]].item);
      } else {
        served := None;
        pending := pending[id := Load(args)];
        started := started + 1;
      }
    }

    method BeginForce(id: nat, args: string)
      requires id !in pending
      modifies this
      ensures View() == Next(old(View()), ForceCall(id, args))
    {
      pending := pending[id := Force(args)];
      started := started + 1;
    }

    /** The timer refreshes a bucket whose lifetime is over. */
    method BeginRefresh(id: nat, key: string, now: int)
      requires Enabled(View(), Step<V>.RefreshDue(id, key, now))
      modifies this
      ensures View() == Next(old(View()), RefreshDue(id, key, now))
    {
      pending := pending[id := Refresh(cache[key])];
      started := started + 1;
    }

    /** The debounced function comes back to a call, a forced call or a refresh. */
    method Finish(id: nat, outcome: Outcome<V>, lifetime: int)
      requires Enabled(View(), Done(id, outcome, lifetime))
      modifies this
      ensures View() == Next(old(View()), Done(id, outcome, lifetime))
    {
      var op := pending[id];
      pending := pending - {id};
      match outcome {
        case Error =>
          if op.Refresh? {
            exceptions := exceptions + 1;
          }
        case Value(v) =>
          if op.Refresh? {
            successes := successes + [(buckets[op.bucket].args, v)];
            buckets := buckets[op.bucket := buckets[op.bucket].(item := v, lifetime := lifetime)];
          } else {
            successes := successes + [(op.args, v)];
            cache := cache[keyOf(op.args) := |buckets|];
            buckets := buckets + [Bucket(v, op.args, lifetime)];
          }
      }
    }
  }
}
