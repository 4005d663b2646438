/**
 An interval that runs an asynchronous function and can be cancelled while waiting for the run in
 flight. One step is what happens between two awaits.
 */
module CancelableInterval {

  /** The variable `execution`: empty, a run in flight, or a run that settled and whose tick has not resumed. */
  datatype Execution = Empty | InFlight | Settled(ok: bool)

  /** One call of cancel: which run it cancels, whether it waits for it, and how the deferred callbacks stand. */
  datatype Cancel = Cancel(run: nat, wait: bool, rejected: bool, deferredDone: bool)

  /** The callbacks the caller passed. */
  datatype Options = Options(onExecution: bool, onResolved: bool)

  /**
   `started`, `settled` and `outcomes` are histories; runs are numbered from 1, `outcomes[i]` is that
   of run i + 1.
   */
  datatype State = State(
    options: Options,
    timer: bool,
    execution: Execution,
    canceled: bool,          // the token of the current run
    intervalId: nat,
    duplicated: bool,
    started: nat,
    outcomes: seq<bool>,
    reported: nat,           // calls of onDuplicatedExecution
    resolvedReports: nat,    // calls of onDuplicatedStateResolved
    cancels: map<nat, Cancel>,
    resolved: map<nat, Cancel>)

  datatype Step =
    | Tick
    | Settle(ok: bool)                 // the function's promise settles
    | Resume                           // the tick that awaited it runs its finally
    | CallCancel(id: nat, wait: bool)
    | DeferredDone(id: nat)            // the deferred callbacks of a cancel are through
    | CancelResolves(id: nat)

  const MAX_SAFE_INTEGER := 9007199254740991

  function Initial(options: Options): State {
    State(options, true, Empty, false, 0, false, 0, [], 0, 0, map[], map[])
  }

  /** The run a cancel waits for has settled well. */
  predicate RunIsOver(s: State, c: Cancel) {
    c.run == 0 || (c.run <= |s.outcomes| && s.outcomes[c.run - 1])
  }

  predicate Enabled(s: State, e: Step) {
    match e
    case Tick => s.timer
    case Settle(_) => s.execution.InFlight?
    case Resume => s.execution.Settled?
    case CallCancel(id, _) => id !in s.cancels && id !in s.resolved
    case DeferredDone(id) => id in s.cancels && !s.cancels[id].deferredDone
    case CancelResolves(id) =>
      id in s.cancels && !s.cancels[id].rejected && s.cancels[id].deferredDone &&
      (s.cancels[id].wait ==> RunIsOver(s, s.cancels[id]))
  }

  function Next(s: State, e: Step): State
    requires Enabled(s, e)
  {
    match e
    case Tick =>
      if !s.execution.Empty? then
        if s.options.onExecution then s.(duplicated := true, reported := s.reported + 1) else s
      else
        var id := if s.intervalId + 1 >= MAX_SAFE_INTEGER then 0 else s.intervalId + 1;
        s.(intervalId := id, execution := InFlight, canceled := false, started := s.started + 1)
    case Settle(ok) => s.(execution := Settled(ok), outcomes := s.outcomes + [ok])
    case Resume =>
      s.(execution := Empty, duplicated := false,
         resolvedReports := s.resolvedReports + if s.duplicated && s.options.onResolved then 1 else 0)
    case CallCancel(id, wait) =>
      var t := s.(timer := false);
      if s.execution.Empty? then t.(cancels := s.cancels[id := Cancel(0, wait, false, true)])
      else t.(canceled := true, cancels := s.cancels[id := Cancel(s.started, wait, s.canceled, false)])
    case DeferredDone(id) => s.(cancels := s.cancels[id := s.cancels[id].(deferredDone := true)])
    case CancelResolves(id) =>
      s.(cancels := s.cancels - {id}, resolved := s.resolved[id := s.cancels[id]])
  }

  ghost predicate Legal(s: State, steps: seq<Step>)
    decreases steps
  {
    steps == [] || (Enabled(s, steps[0]) && Legal(Next(s, steps[0]), steps[1..]))
  }

  ghost function After(s: State, steps: seq<Step>): State
    requires Legal(s, steps)
    decreases steps
  {
    if steps == [] then s else After(Next(s, steps[0]), steps[1..])
  }

  /** How many runs of the function are in flight. */
  function InFlightRuns(s: State): int {
    s.started - |s.outcomes|
  }

  /** A cancel names the run of its time; as the timer is off, no later run can exist. */
  ghost predicate CancelInv(s: State, c: Cancel) {
    && !s.timer
    && c.run <= s.started
    && (c.run == 0 ==> |s.outcomes| == s.started)
    && (c.run > 0 ==> c.run == s.started)
  }

  ghost predicate Inv(s: State) {
    && InFlightRuns(s) == (if s.execution.InFlight? then 1 else 0)
    && (s.execution.Empty? ==> !s.duplicated)
    && (s.execution.Settled? ==> |s.outcomes| > 0 && s.outcomes[|s.outcomes| - 1] == s.execution.ok)
    && (forall id | id in s.cancels :: CancelInv(s, s.cancels[id]))
    && (forall id | id in s.resolved ::
          CancelInv(s, s.resolved[id]) && (s.resolved[id].wait ==> |s.outcomes| == s.started))
    && (s.duplicated ==> s.reported > s.resolvedReports)
    && (s.reported >= s.resolvedReports)
  }

  lemma StepKeepsInv(s: State, e: Step)
    requires Inv(s) && Enabled(s, e)
    ensures Inv(Next(s, e))
  {
    var t := Next(s, e);
    forall id | id in t.cancels ensures CancelInv(t, t.cancels[id]) {
      if id in s.cancels {
        assert CancelInv(s, s.cancels[id]);
      }
    }
    forall id | id in t.resolved
      ensures CancelInv(t, t.resolved[id]) && (t.resolved[id].wait ==> |t.outcomes| == t.started)
    {
      if id in s.resolved {
        assert CancelInv(s, s.resolved[id]);
      } else {
        assert CancelInv(s, s.cancels[id]);
      }
    }
  }

  lemma {:induction false} RunKeepsInv(s: State, steps: seq<Step>)
    requires Inv(s) && Legal(s, steps)
    ensures Inv(After(s, steps))
    decreases steps
  {
    if steps != [] {
      StepKeepsInv(s, steps[0]);
      RunKeepsInv(Next(s, steps[0]), steps[1..]);
    }
  }

  /** Across all ticks at most one run of the function is in flight. */
  lemma Exclusive(options: Options, steps: seq<Step>)
    requires Legal(Initial(options), steps)
    ensures 0 <= InFlightRuns(After(Initial(options), steps)) <= 1
  {
    RunKeepsInv(Initial(options), steps);
  }

  lemma {:induction false} NothingStartsAnyMore(s: State, steps: seq<Step>)
    requires !s.timer && Legal(s, steps)
    ensures After(s, steps).started == s.started && !After(s, steps).timer
    decreases steps
  {
    if steps != [] {
      NothingStartsAnyMore(Next(s, steps[0]), steps[1..]);
    }
  }

  /**
   Once a cancel that waits has resolved, no run is in flight and none is ever started again; a cancel
   that does not wait only promises the second.
   */
  lemma QuietAfterCancel(options: Options, steps: seq<Step>, id: nat, more: seq<Step>)
    requires Legal(Initial(options), steps) && id in After(Initial(options), steps).resolved
    requires Legal(After(Initial(options), steps), more)
    ensures var s, t := After(Initial(options), steps), After(After(Initial(options), steps), more);
            && t.started == s.started
            && (s.resolved[id].wait ==> InFlightRuns(s) == 0 && InFlightRuns(t) == 0)
  {
    RunKeepsInv(Initial(options), steps);
    var s := After(Initial(options), steps);
    assert CancelInv(s, s.resolved[id]);
    NothingStartsAnyMore(s, more);
    RunKeepsInv(s, more);
    OutcomesGrow(s, more);
  }

  lemma {:induction false} OutcomesGrow(s: State, steps: seq<Step>)
    requires Legal(s, steps)
    ensures |After(s, steps).outcomes| >= |s.outcomes|
    decreases steps
  {
    if steps != [] {
      OutcomesGrow(Next(s, steps[0]), steps[1..]);
    }
  }

  /**
   A cancel of a run gets its chance to resolve exactly if it is the first cancel of that run and, when
   it waits, the run ends well: a second cancel is rejected because the token is used up, and a run that
   fails fails the cancel that waits for it.
   */
  lemma WhoResolves(s: State, id: nat)
    requires Inv(s) && id in s.cancels && s.execution.Empty? && s.cancels[id].deferredDone
    ensures Enabled(s, CancelResolves(id)) <==>
            !s.cancels[id].rejected &&
            (s.cancels[id].wait && s.cancels[id].run > 0 ==> s.outcomes[|s.outcomes| - 1])
  {
    assert CancelInv(s, s.cancels[id]);
  }

  lemma SecondCancelIsRejected(s: State, first: nat, second: nat, wait: bool, wait': bool)
    requires Inv(s) && !s.execution.Empty? && first != second
    requires Enabled(s, CallCancel(first, wait)) && Enabled(Next(s, CallCancel(first, wait)), CallCancel(second, wait'))
    ensures Next(Next(s, CallCancel(first, wait)), CallCancel(second, wait')).cancels[second].rejected
  {
  }

  // ---- overlaps, numbers and tokens ----

  function Ticks(steps: seq<Step>): nat {
    multiset(steps)[Tick]
  }

  lemma FirstTick(steps: seq<Step>)
    requires steps != []
    ensures Ticks(steps) == Ticks(steps[1..]) + if steps[0].Tick? then 1 else 0
  {
    assert steps == [steps[0]] + steps[1..];
  }

  lemma {:induction false} TicksFrom(s: State, steps: seq<Step>)
    requires Legal(s, steps)
    ensures var t := After(s, steps);
            && t.options == s.options && t.started >= s.started && t.reported >= s.reported
            && (s.options.onExecution ==> t.started - s.started + t.reported - s.reported == Ticks(steps))
            && (!s.options.onExecution ==> t.reported == s.reported && t.resolvedReports >= s.resolvedReports)
    decreases steps
  {
    if steps != [] {
      FirstTick(steps);
      TicksFrom(Next(s, steps[0]), steps[1..]);
    }
  }

  /** Every tick starts a run or, if the caller wants to know, reports that the last one is still at work. */
  lemma TicksStartOrReport(options: Options, steps: seq<Step>)
    requires Legal(Initial(options), steps)
    ensures var s := After(Initial(options), steps);
            s.reported == if options.onExecution then Ticks(steps) - s.started else 0
  {
    TicksFrom(Initial(options), steps);
  }

  function Repeated(n: nat): (steps: seq<Step>)
    ensures |steps| == n && forall i | 0 <= i < n :: steps[i] == Tick
  {
    seq(n, i => Tick)
  }

  /** What n ticks during a run change. */
  function Overlapped(s: State, n: nat): State {
    if s.options.onExecution && n > 0 then s.(duplicated := true, reported := s.reported + n) else s
  }

  lemma {:induction false} BusyTicks(s: State, n: nat, rest: seq<Step>)
    requires s.timer && !s.execution.Empty? && Legal(Overlapped(s, n), rest)
    ensures Legal(s, Repeated(n) + rest) && After(s, Repeated(n) + rest) == After(Overlapped(s, n), rest)
    decreases n
  {
    var all := Repeated(n) + rest;
    if n == 0 {
      assert all == rest;
    } else {
      var t := Next(s, Tick);
      assert Overlapped(t, n - 1) == Overlapped(s, n);
      BusyTicks(t, n - 1, rest);
      TickFirst(s, all, Repeated(n - 1) + rest);
    }
  }

  lemma TickFirst(s: State, all: seq<Step>, rest: seq<Step>)
    requires s.timer && all == [Tick] + rest && Legal(Next(s, Tick), rest)
    ensures Legal(s, all) && After(s, all) == After(Next(s, Tick), rest)
  {
    assert all[1..] == rest;
  }

  /** A run that n further ticks found at work: n reports, and one that it is over, for the callbacks given. */
  lemma OverlapsAreReported(s: State, n: nat, ok: bool)
    requires Inv(s) && s.timer && s.execution.Empty?
    ensures var steps := [Tick] + Repeated(n) + [Settle(ok), Resume];
            && Legal(s, steps)
            && var t := After(s, steps);
               && t.execution.Empty? && t.started == s.started + 1 && t.outcomes == s.outcomes + [ok]
               && t.reported == s.reported + (if s.options.onExecution then n else 0)
               && t.resolvedReports == s.resolvedReports
                  + if n > 0 && s.options.onExecution && s.options.onResolved then 1 else 0
  {
    var steps, rest := [Tick] + Repeated(n) + [Settle(ok), Resume], [Settle(ok), Resume];
    assert steps[0] == Tick && steps[1..] == Repeated(n) + rest;
    var u := Next(s, Tick);
    var v := Overlapped(u, n);
    assert rest[1..] == [Resume] && rest[1..][1..] == [];
    var w := Next(v, Settle(ok));
    assert Legal(w, rest[1..]);
    assert After(w, rest[1..]) == After(Next(w, Resume), rest[1..][1..]) == Next(w, Resume);
    assert After(v, rest) == After(w, rest[1..]);
    BusyTicks(u, n, rest);
  }

  lemma {:induction false} IdsFrom(s: State, steps: seq<Step>)
    requires Legal(s, steps) && s.intervalId == s.started % MAX_SAFE_INTEGER
    ensures After(s, steps).intervalId == After(s, steps).started % MAX_SAFE_INTEGER
    decreases steps
  {
    if steps != [] {
      IdsFrom(Next(s, steps[0]), steps[1..]);
    }
  }

  /** The runs are numbered one by one, and the numbers begin again before they leave the safe integers. */
  lemma IdsAreSafe(options: Options, steps: seq<Step>)
    requires Legal(Initial(options), steps)
    ensures var s := After(Initial(options), steps);
            && s.intervalId < MAX_SAFE_INTEGER
            && (s.started < MAX_SAFE_INTEGER ==> s.intervalId == s.started)
  {
    IdsFrom(Initial(options), steps);
  }

  lemma {:induction false} TokenIsFresh(s: State, steps: seq<Step>)
    requires Legal(s, steps) && !s.canceled && forall e | e in steps :: !e.CallCancel?
    ensures !After(s, steps).canceled
    decreases steps
  {
    if steps != [] {
      TokenIsFresh(Next(s, steps[0]), steps[1..]);
    }
  }

  /** The first cancel is accepted: it cancels the run at work and awaits its callbacks, or is through without one. */
  lemma FirstCancelIsAccepted(options: Options, steps: seq<Step>, id: nat, wait: bool)
    requires Legal(Initial(options), steps) && forall e | e in steps :: !e.CallCancel?
    requires Enabled(After(Initial(options), steps), CallCancel(id, wait))
    ensures var s := After(Initial(options), steps);
            var t := Next(s, CallCancel(id, wait));
            && !t.timer && id in t.cancels && t.cancels[id].wait == wait && !t.cancels[id].rejected
            && (s.execution.Empty? ==> Enabled(t, CancelResolves(id)))
            && (!s.execution.Empty? ==> t.cancels[id].run == s.started && !Enabled(t, CancelResolves(id)))
  {
    TokenIsFresh(Initial(options), steps);
  }

  // ---- the closure ----

  class Interval {
    const options: Options
    var timer: bool
    var execution: Execution
    var canceled: bool
    var intervalId: nat
    var duplicatedExecutionTracked: bool
    var started: nat
    ghost var outcomes: seq<bool>
    var reported: nat
    var resolvedReports: nat
    var cancels: map<nat, Cancel>
    ghost var resolved: map<nat, Cancel>

    ghost function View(): State
      reads this
    {
      State(options, timer, execution, canceled, intervalId, duplicatedExecutionTracked, started, outcomes, reported,
            resolvedReports, cancels, resolved)
    }

    constructor (given: Options)
      ensures View() == Initial(given)
    {
      options := given;
      timer, execution, canceled, intervalId, duplicatedExecutionTracked := true, Empty, false, 0, false;
      started, outcomes, reported, resolvedReports, cancels, resolved := 0, [], 0, 0, map[], map[];
    }

    /** The timer callback up to its await. */
    method OnTick()
      requires timer
      modifies this
      ensures View() == Next(old(View()), Tick)
    {
      if !execution.Empty? {
        if options.onExecution {
          duplicatedExecutionTracked := true;
          reported := reported + 1;
        }
        return;
      }
      intervalId := intervalId + 1;
      if intervalId >= MAX_SAFE_INTEGER {
        intervalId := 0;
      }
      execution := InFlight;
      canceled := false;
      started := started + 1;
    }

    method OnSettled(ok: bool)
      requires execution.InFlight?
      modifies this
      ensures View() == Next(old(View()), Settle(ok))
    {
      execution := Settled(ok);
      outcomes := outcomes + [ok];
    }

    /** The finally block of the tick. */
    method Finally()
      requires execution.Settled?
      modifies this
      ensures View() == Next(old(View()), Resume)
    {
      execution := Empty;
      if duplicatedExecutionTracked && options.onResolved {
        resolvedReports := resolvedReports + 1;
      }
      duplicatedExecutionTracked := false;
    }

    /** `cancel` up to its await. */
    method BeginCancel(id: nat, wait: bool)
      requires Enabled(View(), CallCancel(id, wait))
      modifies this
      ensures View() == Next(old(View()), CallCancel(id, wait))
    {
      timer := false;
      if execution.Empty? {
        cancels := cancels[id := Cancel(0, wait, false, true)];
      } else {
        var used := canceled;
        canceled := true;
        cancels := cancels[id := Cancel(started, wait, used, false)];
      }
    }

    /** The deferred callbacks of a cancelled token are through. */
    method DeferredAreDone(id: nat)
      requires Enabled(View(), DeferredDone(id))
      modifies this
      ensures View() == Next(old(View()), DeferredDone(id))
    {
      cancels := cancels[id := cancels[id].(deferredDone := true)];
    }

    /** All locks of a cancel are through. */
    method Resolve(id: nat)
      requires Enabled(View(), CancelResolves(id))
      modifies this
      ensures View() == Next(old(View()), CancelResolves(id))
    {
      resolved := resolved[id := cancels[id]];
      cancels := cancels - {id};
    }
  }
}
