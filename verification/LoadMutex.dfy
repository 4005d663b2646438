/**
 The load loop of the client: loads that share a mutex key supersede one another, network errors are
 retried a limited number of times. One step is what happens between two awaits.
 */
module LoadMutex {

  /** What the transport hands to the loop. */
  datatype Response =
    | BadGateway           // status 502
    | NetworkError(text: string)
    | ContinueWait
    | Failed(error: string)
    | Success(result: string)

  /** What the loop will do with a response once the mutex is checked. */
  datatype Plan = Retry | Continue | Report(error: string) | Deliver(result: string)

  datatype Phase =
    | Waiting              // the request is under way
    | Checking(plan: Plan) // a response came, the mutex is about to be read
    | Acting(plan: Plan)   // the mutex was still held when it was read
    | Superseded
    | Done

  /** A load; `callback` says whether its caller passed one, else it is answered by the promise. */
  datatype Load = Load(
    key: string,
    guarded: bool,
    mutexValue: nat,
    subscribe: bool,
    callback: bool,
    phase: Phase,
    retries: int,
    unsubscribed: bool)

  datatype Told = Told(id: nat, plan: Plan)

  /** `told` is the history of callbacks, `networkRetries` counts retries after network errors. */
  datatype State = State(
    counter: nat,
    mutexObj: map<string, nat>,
    loads: map<nat, Load>,
    told: seq<Told>,
    networkRetries: map<nat, nat>)

  datatype Step =
    | Begin(id: nat, key: string, guarded: bool, subscribe: bool, callback: bool, retries: nat)
    | Receive(id: nat, response: Response)
    | Check(id: nat)
    | Act(id: nat)
    | Unsubscribe(id: nat)

  function Initial(): State {
    State(0, map[], map[], [], map[])
  }

  predicate Enabled(s: State, e: Step) {
    match e
    case Begin(id, _, _, _, _, _) => id !in s.loads
    case Receive(id, _) => id in s.loads && s.loads[id].phase.Waiting? && id in s.networkRetries
    case Check(id) => id in s.loads && s.loads[id].phase.Checking?
    case Act(id) => id in s.loads && s.loads[id].phase.Acting?
    case Unsubscribe(id) => id in s.loads
  }

  /** The retry counter goes down only for a network error, also when that was the last one. */
  function RetriesAfter(l: Load, r: Response): int {
    if r.NetworkError? then l.retries - 1 else l.retries
  }

  function PlanFor(l: Load, r: Response): Plan {
    match r
    case BadGateway => Retry
    case NetworkError(text) => if l.retries - 1 >= 0 then Retry else Report(text)
    case ContinueWait => Plan.Continue
    case Failed(error) => Report(error)
    case Success(result) => Deliver(result)
  }

  /** The load is still the last one of its mutex key. */
  predicate Current(s: State, l: Load) {
    !l.guarded || (l.key in s.mutexObj && s.mutexObj[l.key] == l.mutexValue)
  }

  /** After it told its caller, only a subscription with a callback polls on; a promise is settled once. */
  predicate PollsOn(l: Load) {
    l.callback && l.subscribe && !l.unsubscribed
  }

  function Next(s: State, e: Step): State
    requires Enabled(s, e)
  {
    match e
    case Begin(id, key, guarded, subscribe, callback, retries) =>
      var value := s.counter + 1;
      s.(counter := value,
         mutexObj := if guarded then s.mutexObj[key := value] else s.mutexObj,
         loads := s.loads[id := Load(key, guarded, value, subscribe, callback, Waiting, retries, false)],
         networkRetries := s.networkRetries[id := 0])
    case Receive(id, r) =>
      var l := s.loads[id];
      s.(loads := s.loads[id := l.(phase := Checking(PlanFor(l, r)), retries := RetriesAfter(l, r))],
         networkRetries :=
           if r.NetworkError? && l.retries - 1 >= 0 then s.networkRetries[id := s.networkRetries[id] + 1]
           else s.networkRetries)
    case Check(id) =>
      var l := s.loads[id];
      s.(loads := s.loads[id :=
           if Current(s, l) then l.(phase := Acting(l.phase.plan)) else l.(phase := Superseded, unsubscribed := true)])
    case Act(id) =>
      var l := s.loads[id];
      var plan := l.phase.plan;
      if plan.Retry? || plan.Continue? then
        s.(loads := s.loads[id := l.(phase := if l.unsubscribed then Done else Waiting)])
      else
        s.(told := s.told + [Told(id, plan)],
           loads := s.loads[id := l.(phase := if PollsOn(l) then Waiting else Done)])
    case Unsubscribe(id) => s.(loads := s.loads[id := s.loads[id].(unsubscribed := true)])
  }

  ghost predicate Legal(s: State, steps: seq<Step>)
    decreases steps
  {
    steps == [] || (Enabled(s, steps[0]) && Legal(Next(s, steps[0]), steps[1..]))
  }

  ghost function After(s: State, steps: seq<Step>): State
    requires Legal(s, steps)
    decreases steps
  {
    if steps == [] then s else After(Next(s, steps[0]), steps[1..])
  }

  /** Mutex values come from one growing counter, so a value that was replaced never returns. */
  ghost predicate Inv(s: State) {
    && (forall k | k in s.mutexObj :: s.mutexObj[k] <= s.counter)
    && (forall id | id in s.loads :: s.loads[id].mutexValue <= s.counter)
    && (forall id | id in s.loads && s.loads[id].guarded ::
          s.loads[id].key in s.mutexObj && s.loads[id].mutexValue <= s.mutexObj[s.loads[id].key])
    && s.networkRetries.Keys == s.loads.Keys
  }

  lemma StepKeepsInv(s: State, e: Step)
    requires Inv(s) && Enabled(s, e)
    ensures Inv(Next(s, e))
  {
  }

  lemma {:induction false} RunKeepsInv(s: State, steps: seq<Step>)
    requires Inv(s) && Legal(s, steps)
    ensures Inv(After(s, steps))
    decreases steps
  {
    if steps != [] {
      StepKeepsInv(s, steps[0]);
      RunKeepsInv(Next(s, steps[0]), steps[1..]);
    }
  }

  // ---- who is overtaken ----

  ghost predicate TakesOver(e: Step, key: string) {
    e.Begin? && e.key == key && e.guarded
  }

  lemma CurrentAfterStep(s: State, e: Step, id: nat)
    requires Inv(s) && Enabled(s, e) && id in s.loads
    ensures id in Next(s, e).loads
    ensures var l, t := s.loads[id], Next(s, e).loads[id];
            && t.key == l.key && t.guarded == l.guarded && t.mutexValue == l.mutexValue
            && (Current(Next(s, e), t) <==> Current(s, l) && !(l.guarded && TakesOver(e, l.key)))
  {
  }

  lemma FirstOrLater(steps: seq<Step>, key: string)
    requires steps != []
    ensures (exists x :: x in steps && TakesOver(x, key))
       <==> TakesOver(steps[0], key) || exists x :: x in steps[1..] && TakesOver(x, key)
  {
    assert steps == [steps[0]] + steps[1..];
  }

  lemma {:induction false} CurrentFrom(s: State, steps: seq<Step>, id: nat)
    requires Inv(s) && Legal(s, steps) && id in s.loads
    ensures id in After(s, steps).loads
    ensures var l, t := s.loads[id], After(s, steps).loads[id];
            && t.key == l.key && t.guarded == l.guarded && t.mutexValue == l.mutexValue
            && (Current(After(s, steps), t) <==>
                  Current(s, l) && !(l.guarded && exists e :: e in steps && TakesOver(e, l.key)))
    decreases steps
  {
    if steps != [] {
      StepKeepsInv(s, steps[0]);
      CurrentAfterStep(s, steps[0], id);
      CurrentFrom(Next(s, steps[0]), steps[1..], id);
      FirstOrLater(steps, s.loads[id].key);
    }
  }

  /** A load is overtaken exactly when it has a mutex and another load with that mutex key began after it. */
  lemma OvertakenIff(before: seq<Step>, begin: Step, after: seq<Step>)
    requires begin.Begin? && Legal(Initial(), before) && Enabled(After(Initial(), before), begin)
    requires Legal(Next(After(Initial(), before), begin), after)
    ensures var s := After(Next(After(Initial(), before), begin), after);
            begin.id in s.loads
            && (!Current(s, s.loads[begin.id]) <==>
                  begin.guarded && exists e :: e in after && TakesOver(e, begin.key))
  {
    RunKeepsInv(Initial(), before);
    var s := After(Initial(), before);
    StepKeepsInv(s, begin);
    CurrentFrom(Next(s, begin), after, begin.id);
  }

  // ---- one round ----

  /** What is told of a response to a current load: every result, every error, and a network error past retrying. */
  function ToldOf(id: nat, l: Load, r: Response): seq<Told> {
    match r
    case Failed(error) => [Told(id, Report(error))]
    case Success(result) => [Told(id, Deliver(result))]
    case NetworkError(text) => if l.retries >= 1 then [] else [Told(id, Report(text))]
    case BadGateway => []
    case ContinueWait => []
  }

  /** The state after a response was received, the mutex read and the load has acted, with nothing in between. */
  ghost function AfterRound(s: State, id: nat, r: Response): State
    requires Enabled(s, Receive(id, r)) && Current(s, s.loads[id])
  {
    Next(Next(Next(s, Receive(id, r)), Check(id)), Act(id))
  }

  /**
   A current load tells its caller each result and error at once, polls again after anything it does not
   tell unless it was unsubscribed, and uses up a retry for a network error only.
   */
  lemma RoundTells(s: State, id: nat, r: Response)
    requires Enabled(s, Receive(id, r)) && Current(s, s.loads[id])
    ensures var l, t := s.loads[id], AfterRound(s, id, r);
            && t.told == s.told + ToldOf(id, l, r)
            && (ToldOf(id, l, r) == [] ==> t.loads[id].phase == if l.unsubscribed then Done else Waiting)
            && (ToldOf(id, l, r) != [] ==>
                  (t.loads[id].phase == Waiting <==> l.callback && l.subscribe && !l.unsubscribed))
            && t.loads[id].retries == l.retries - if r.NetworkError? then 1 else 0
  {
  }

  /** A load that was overtaken before it reads the mutex ends there, unsubscribed, and tells nothing. */
  lemma OvertakenEnds(s: State, id: nat, r: Response)
    requires Enabled(s, Receive(id, r)) && !Current(s, s.loads[id])
    ensures var t := Next(Next(s, Receive(id, r)), Check(id));
            t.told == s.told && t.loads[id].phase == Superseded && t.loads[id].unsubscribed
            && !Enabled(t, Act(id)) && !Enabled(t, Check(id)) && forall x :: !Enabled(t, Receive(id, x))
  {
  }

  // ---- superseded loads ----

  function Tells(told: seq<Told>, id: nat): nat {
    if told == [] then 0
    else Tells(told[..|told| - 1], id) + if told[|told| - 1].id == id then 1 else 0
  }

  /** A newer load took the mutex key. */
  ghost predicate Overtaken(s: State, id: nat) {
    && id in s.loads && s.loads[id].guarded
    && s.loads[id].key in s.mutexObj && s.mutexObj[s.loads[id].key] > s.loads[id].mutexValue
  }

  /** How often an overtaken load may still speak: once, if it was overtaken between its check and its action. */
  function LastWords(s: State, id: nat): nat
    requires id in s.loads
  {
    if s.loads[id].phase.Acting? && (s.loads[id].phase.plan.Report? || s.loads[id].phase.plan.Deliver?) then 1 else 0
  }

  lemma OvertakenStep(s: State, e: Step, id: nat)
    requires Inv(s) && Enabled(s, e) && Overtaken(s, id)
    ensures var t := Next(s, e);
            && Overtaken(t, id)
            && Tells(t.told, id) + LastWords(t, id) <= Tells(s.told, id) + LastWords(s, id)
            && (!(e == Act(id)) ==> Tells(t.told, id) + LastWords(t, id) == Tells(s.told, id) + LastWords(s, id))
            && (e == Act(id) ==> Tells(t.told, id) == Tells(s.told, id) + LastWords(s, id))
  {
    var t := Next(s, e);
    if |t.told| > |s.told| {
      assert t.told[..|t.told| - 1] == s.told;
    }
  }

  lemma {:induction false} OvertakenRun(s: State, steps: seq<Step>, id: nat)
    requires Inv(s) && Overtaken(s, id) && Legal(s, steps)
    ensures var t := After(s, steps);
            Overtaken(t, id) && Tells(s.told, id) <= Tells(t.told, id)
            && Tells(t.told, id) + LastWords(t, id) <= Tells(s.told, id) + LastWords(s, id)
    decreases steps
  {
    if steps != [] {
      StepKeepsInv(s, steps[0]);
      OvertakenStep(s, steps[0], id);
      OvertakenRun(Next(s, steps[0]), steps[1..], id);
    }
  }

  /**
   A load that is overtaken while it waits for a response, or before it reads the mutex, never delivers a
   result or an error again, whatever happens. Overtaken after it read the mutex, it speaks at most once more.
   */
  lemma SupersededStaysSilent(before: seq<Step>, after: seq<Step>, id: nat)
    requires Legal(Initial(), before) && Legal(After(Initial(), before), after)
    requires Overtaken(After(Initial(), before), id)
    ensures var s, t := After(Initial(), before), After(After(Initial(), before), after);
            && (!s.loads[id].phase.Acting? ==> Tells(t.told, id) == Tells(s.told, id))
            && Tells(s.told, id) <= Tells(t.told, id) <= Tells(s.told, id) + 1
  {
    RunKeepsInv(Initial(), before);
    OvertakenRun(After(Initial(), before), after, id);
  }

  /** Some continuation has the load speak again. */
  ghost predicate CanSpeakAgain(s: State, id: nat) {
    exists after :: Legal(s, after) && Tells(After(s, after).told, id) > Tells(s.told, id)
  }

  /**
   Exactly when an overtaken load still speaks: if and only if, when it was overtaken, it had read the
   mutex with a result or an error to tell, and had not told it yet.
   */
  lemma SpeaksOnceMoreIff(before: seq<Step>, id: nat)
    requires Legal(Initial(), before) && Overtaken(After(Initial(), before), id)
    ensures var s := After(Initial(), before);
            CanSpeakAgain(s, id) <==> LastWords(s, id) == 1
  {
    RunKeepsInv(Initial(), before);
    var s := After(Initial(), before);
    if after :| Legal(s, after) && Tells(After(s, after).told, id) > Tells(s.told, id) {
      OvertakenRun(s, after, id);
    }
    if LastWords(s, id) == 1 {
      var t := Next(s, Act(id));
      OvertakenStep(s, Act(id), id);
      assert [Act(id)][1..] == [] && Legal(t, []);
      assert Legal(s, [Act(id)]) && After(s, [Act(id)]) == t;
    }
  }

  /** The one word more is real: the mutex is read, a newer load begins, and the old result is still delivered. */
  lemma LateDelivery()
    ensures var steps := [Begin(0, "k", true, false, false, 0), Receive(0, Success("old")), Check(0),
        Begin(1, "k", true, false, false, 0), Act(0)];
            && Legal(Initial(), steps)
            && After(Initial(), steps).told == [Told(0, Deliver("old"))]
            && Overtaken(After(Initial(), steps), 0)
  {
    var s1 := Next(Initial(), Begin(0, "k", true, false, false, 0));
    var s2 := Next(s1, Receive(0, Success("old")));
    var s3 := Next(s2, Check(0));
    var s4 := Next(s3, Begin(1, "k", true, false, false, 0));
    var s5 := Next(s4, Act(0));
    var r4 := [Act(0)];
    var r3 := [Begin(1, "k", true, false, false, 0)] + r4;
    var r2 := [Check(0)] + r3;
    var r1 := [Receive(0, Success("old"))] + r2;
    var r0 := [Begin(0, "k", true, false, false, 0)] + r1;
    assert r4[1..] == [] && r3[1..] == r4 && r2[1..] == r3 && r1[1..] == r2 && r0[1..] == r1;
    assert Legal(s5, []) && Legal(s4, r4) && After(s4, r4) == s5;
    assert Legal(s3, r3) && After(s3, r3) == s5;
    assert Legal(s2, r2) && After(s2, r2) == s5;
    assert Legal(s1, r1) && After(s1, r1) == s5;
    assert Legal(Initial(), r0) && After(Initial(), r0) == s5;
    assert r0 == [Begin(0, "k", true, false, false, 0), Receive(0, Success("old")), Check(0),
        Begin(1, "k", true, false, false, 0), Act(0)];
  }

  // ---- loads that a promise answers ----

  /** A load without a callback has spoken only once it is done, and then at most once. */
  ghost predicate PromiseInv(s: State) {
    && (forall id | id !in s.loads :: Tells(s.told, id) == 0)
    && (forall id | id in s.loads && !s.loads[id].callback ::
          Tells(s.told, id) <= if s.loads[id].phase.Done? then 1 else 0)
  }

  lemma StepKeepsPromises(s: State, e: Step)
    requires PromiseInv(s) && Enabled(s, e)
    ensures PromiseInv(Next(s, e))
  {
    var t := Next(s, e);
    if |t.told| > |s.told| {
      assert t.told[..|t.told| - 1] == s.told;
    }
  }

  lemma {:induction false} RunKeepsPromises(s: State, steps: seq<Step>)
    requires PromiseInv(s) && Legal(s, steps)
    ensures PromiseInv(After(s, steps))
    decreases steps
  {
    if steps != [] {
      StepKeepsPromises(s, steps[0]);
      RunKeepsPromises(Next(s, steps[0]), steps[1..]);
    }
  }

  /** In every run, a load that has no callback is answered at most once, and never after it is done. */
  lemma PromisesSettleOnce(steps: seq<Step>, id: nat)
    requires Legal(Initial(), steps)
    requires var s := After(Initial(), steps); id in s.loads && !s.loads[id].callback
    ensures var s := After(Initial(), steps);
            Tells(s.told, id) <= 1 && (Tells(s.told, id) == 1 ==> s.loads[id].phase.Done?)
  {
    RunKeepsPromises(Initial(), steps);
  }

  // ---- retries ----

  /** Retries done and left add up to the number configured, until the errors outnumber it. */
  ghost predicate RetriesLeft(s: State, id: nat, allowed: nat) {
    && id in s.loads && id in s.networkRetries
    && s.networkRetries[id] + (if s.loads[id].retries >= 0 then s.loads[id].retries else 0) == allowed
  }

  lemma {:induction false} RetriesAreBounded(s: State, steps: seq<Step>, id: nat, allowed: nat)
    requires RetriesLeft(s, id, allowed) && Legal(s, steps)
    ensures RetriesLeft(After(s, steps), id, allowed)
    ensures After(s, steps).networkRetries[id] <= allowed
    decreases steps
  {
    if steps != [] {
      RetriesAreBounded(Next(s, steps[0]), steps[1..], id, allowed);
    }
  }

  /** A load retries after network errors at most as often as configured; a 502 is not counted. */
  lemma NetworkRetriesAreBounded(s: State, id: nat, key: string, guarded: bool, subscribe: bool,
                                 callback: bool, retries: nat, steps: seq<Step>)
    requires Enabled(s, Begin(id, key, guarded, subscribe, callback, retries))
    requires Legal(Next(s, Begin(id, key, guarded, subscribe, callback, retries)), steps)
    ensures var t := After(Next(s, Begin(id, key, guarded, subscribe, callback, retries)), steps);
            id in t.networkRetries && t.networkRetries[id] <= retries
  {
    RetriesAreBounded(Next(s, Begin(id, key, guarded, subscribe, callback, retries)), steps, id, retries);
  }

  // ---- the client ----

  class Client {
    var mutexCounter: nat
    var mutexObj: map<string, nat>
    var loads: map<nat, Load>
    ghost var told: seq<Told>
    ghost var networkRetries: map<nat, nat>

    ghost function View(): State
      reads this
    {
      State(mutexCounter, mutexObj, loads, told, networkRetries)
    }

    constructor ()
      ensures View() == Initial()
    {
      mutexCounter, mutexObj, loads, told, networkRetries := 0, map[], map[], [], map[];
    }

    /** `loadMethod` up to the request. */
    method LoadMethod(id: nat, key: string, guarded: bool, subscribe: bool, callback: bool, retries: nat)
      requires id !in loads
      modifies this
      ensures View() == Next(old(View()), Begin(id, key, guarded, subscribe, callback, retries))
    {
      mutexCounter := mutexCounter + 1;
      if guarded {
        mutexObj := mutexObj[key := mutexCounter];
      }
      loads := loads[id := Load(key, guarded, mutexCounter, subscribe, callback, Waiting, retries, false)];
      networkRetries := networkRetries[id := 0];
    }

    /** `loadImpl` up to the mutex check. */
    method OnResponse(id: nat, response: Response)
      requires Enabled(View(), Receive(id, response))
      modifies this
      ensures View() == Next(old(View()), Receive(id, response))
    {
      var l := loads[id];
      var plan;
      match response {
        case BadGateway => plan := Retry;
        case NetworkError(text) =>
          l := l.(retries := l.retries - 1);
          if l.retries >= 0 {
            plan := Retry;
            networkRetries := networkRetries[id := networkRetries[id] + 1];
          } else {
            plan := Report(text);
          }
        case ContinueWait => plan := Plan.Continue;
        case Failed(error) => plan := Report(error);
        case Success(result) => plan := Deliver(result);
      }
      loads := loads[id := l.(phase := Checking(plan))];
    }

    /** `checkMutex`. */
    method CheckMutex(id: nat)
      requires Enabled(View(), Check(id))
      modifies this
      ensures View() == Next(old(View()), Check(id))
    {
      var l := loads[id];
      if l.guarded && (l.key !in mutexObj || mutexObj[l.key] != l.mutexValue) {
        loads := loads[id := l.(phase := Superseded, unsubscribed := true)];
      } else {
        loads := loads[id := l.(phase := Acting(l.phase.plan))];
      }
    }

    /** What follows the check: poll again, or tell the caller. */
    method AfterCheck(id: nat)
      requires Enabled(View(), Act(id))
      modifies this
      ensures View() == Next(old(View()), Act(id))
    {
      var l := loads[id];
      if l.phase.plan.Retry? || l.phase.plan.Continue? {
        loads := loads[id := l.(phase := if l.unsubscribed then Done else Waiting)];
      } else {
        told := told + [Told(id, l.phase.plan)];
        loads := loads[id := l.(phase := if PollsOn(l) then Waiting else Done)];
      }
    }

    method Stop(id: nat)
      requires id in loads
      modifies this
      ensures View() == Next(old(View()), Unsubscribe(id))
    {
      loads := loads[id := loads[id].(unsubscribed := true)];
    }
  }
}
