/** The clock of lib/internal/benchmark/clock.js: the duration formatter,
    the `ManagedTimer` handed to benchmarks that take an argument, and the
    runner that picks between timing the benchmark itself (managed) and
    calling it `count` times between two clock readings (unmanaged).

    Clock readings are parameters (`now`, `startedAt`, `endedAt`), in
    nanoseconds; the benchmark function itself is represented by the timer
    calls it makes (managed) or by a counter of its invocations
    (unmanaged). */
module Clock {
  import opened Wrappers

  // ---------------------------------------------------------------------
  // Timer.format
  // ---------------------------------------------------------------------

  datatype Unit = Seconds | Milliseconds | Microseconds | Nanoseconds

  /** Nanoseconds per unit. */
  function Scale(u: Unit): real {
    match u
    case Seconds => 1_000_000_000.0
    case Milliseconds => 1_000_000.0
    case Microseconds => 1_000.0
    case Nanoseconds => 1.0
  }

  /** A formatted duration before NumberPrototypeToFixed renders it: the
      scaled value, the number of decimals and the unit suffix. */
  datatype Formatted = Formatted(value: real, decimals: nat, unit: Unit)

  /** `format`: the largest unit the duration strictly exceeds, with two
      decimals, or whole nanoseconds. */
  function Format(timeInNs: real): (f: Formatted)
    ensures f.value * Scale(f.unit) == timeInNs
    ensures f.decimals == (if f.unit == Nanoseconds then 0 else 2)
  {
    if timeInNs > 1e9 then Formatted(timeInNs / 1e9, 2, Seconds)
    else if timeInNs > 1e6 then Formatted(timeInNs / 1e6, 2, Milliseconds)
    else if timeInNs > 1e3 then Formatted(timeInNs / 1e3, 2, Microseconds)
    else Formatted(timeInNs, 0, Nanoseconds)
  }

  /** The unit is chosen by strict thresholds, so a value shown in a unit
      other than nanoseconds lies in (1, 1000]; exactly one second is shown
      as 1000 ms. */
  lemma FormatRanges(t: real)
    ensures Format(t).unit == Seconds <==> t > 1e9
    ensures Format(t).unit == Milliseconds <==> 1e6 < t <= 1e9
    ensures Format(t).unit == Microseconds <==> 1e3 < t <= 1e6
    ensures Format(t).unit == Nanoseconds <==> t <= 1e3
    ensures Format(t).unit != Nanoseconds ==> Format(t).value > 1.0
    ensures Format(t).unit in {Milliseconds, Microseconds} ==> Format(t).value <= 1000.0
    ensures Format(1e9) == Formatted(1000.0, 2, Milliseconds)
  {
  }

  // ---------------------------------------------------------------------
  // ManagedTimer
  // ---------------------------------------------------------------------

  /** The argument of `end`: absent (so the default 1 applies), a finite
      number, NaN, or a value that is not a number. */
  datatype IntArg = Undefined | Num(x: real) | NaN | NotANumber

  /** validateInteger's errors and ERR_BENCHMARK_INVALID_OPERATION's two
      messages. */
  datatype Error = InvalidArgType | OutOfRange | ForgotEnd | ForgotStart

  /** Number.MAX_SAFE_INTEGER, validateInteger's default maximum. */
  const MaxSafeInteger: int := 9007199254740991

  datatype Checked = Accepted(n: nat) | Rejected(error: Error)

  /** `end(iterations = 1)` followed by validateInteger(iterations,
      'iterations', 1). */
  function CheckIterations(a: IntArg): Checked {
    match a
    case Undefined => Accepted(1)
    case NotANumber => Rejected(InvalidArgType)
    case NaN => Rejected(OutOfRange)
    case Num(x) =>
      if x != x.Floor as real || x < 1.0 || x > MaxSafeInteger as real then Rejected(OutOfRange)
      else Accepted(x.Floor)
  }

  /** Accepted are exactly the safe integers from 1, and the absent
      argument, which counts as 1. */
  lemma CheckIterationsAccepts(a: IntArg)
    ensures CheckIterations(a).Accepted? <==>
      a.Undefined? || (a.Num? && a.x == a.x.Floor as real && 1 <= a.x.Floor <= MaxSafeInteger)
    ensures CheckIterations(a).Accepted? ==>
      1 <= CheckIterations(a).n <= MaxSafeInteger &&
      (a.Num? ==> CheckIterations(a).n as real == a.x) && (a.Undefined? ==> CheckIterations(a).n == 1)
    ensures a.NotANumber? ==> CheckIterations(a) == Rejected(InvalidArgType)
  {
  }

  /** The three private fields a timer fills in. */
  datatype TimerState = TimerState(start: Option<int>, end: Option<int>, iterations: Option<nat>)

  const Fresh := TimerState(None, None, None)

  /** What a benchmark does with its timer. */
  datatype TimerCall = StartAt(now: int) | EndAt(arg: IntArg, now: int)

  /** One call: `start` records the clock; `end` validates before it
      touches anything. */
  function Step(st: TimerState, call: TimerCall): TimerState {
    match call
    case StartAt(now) => st.(start := Some(now))
    case EndAt(arg, now) =>
      match CheckIterations(arg)
      case Rejected(_) => st
      case Accepted(n) => st.(end := Some(now), iterations := Some(n))
  }

  function Steps(st: TimerState, calls: seq<TimerCall>): (r: TimerState)
    ensures (st.iterations.Some? ==> st.end.Some?) ==> (r.iterations.Some? ==> r.end.Some?)
    decreases |calls|
  {
    if calls == [] then st else Step(Steps(st, calls[..|calls| - 1]), calls[|calls| - 1])
  }

  /** The measurement a timer yields, or the error it throws. */
  datatype Measured = Measured(duration: int, iterations: nat) | Failed(error: Error)

  /** [kUnmanagedTimerResult]: a missing `end` is reported before a
      missing `start`. */
  function ResultSpec(st: TimerState): Measured
    requires st.iterations.Some? ==> st.end.Some?
  {
    if st.iterations.None? then Failed(ForgotEnd)
    else if st.start.None? then Failed(ForgotStart)
    else Measured(st.end.value - st.start.value, st.iterations.value)
  }

  /** The last `start`, if any. */
  function LastStart(calls: seq<TimerCall>): Option<int>
    decreases |calls|
  {
    if calls == [] then None
    else if calls[|calls| - 1].StartAt? then Some(calls[|calls| - 1].now)
    else LastStart(calls[..|calls| - 1])
  }

  /** The last `end` whose argument was accepted, if any. */
  function LastEnd(calls: seq<TimerCall>): Option<(int, nat)>
    decreases |calls|
  {
    if calls == [] then None
    else
      var c := calls[|calls| - 1];
      if c.EndAt? && CheckIterations(c.arg).Accepted? then Some((c.now, CheckIterations(c.arg).n))
      else LastEnd(calls[..|calls| - 1])
  }

  /** A fresh timer's fields after any calls: the last start, and the
      clock and count of the last accepted end; a rejected end changes
      nothing. */
  lemma {:induction false} StepsFromFresh(calls: seq<TimerCall>)
    ensures Steps(Fresh, calls).start == LastStart(calls)
    ensures Steps(Fresh, calls).end == (if LastEnd(calls).Some? then Some(LastEnd(calls).value.0) else None)
    ensures Steps(Fresh, calls).iterations == (if LastEnd(calls).Some? then Some(LastEnd(calls).value.1) else None)
    decreases |calls|
  {
    if calls != [] {
      StepsFromFresh(calls[..|calls| - 1]);
    }
  }

  /** An `end` whose argument validateInteger rejects: the error it
      throws escapes the benchmark function. */
  predicate Rejects(c: TimerCall) {
    c.EndAt? && CheckIterations(c.arg).Rejected?
  }

  /** The position of the first call that throws, or |calls| if none
      does. */
  function FirstRejected(calls: seq<TimerCall>): (k: nat)
    ensures k <= |calls| && (k < |calls| ==> Rejects(calls[k]))
    decreases |calls|
  {
    if calls == [] || Rejects(calls[0]) then 0 else 1 + FirstRejected(calls[1..])
  }

  /** `k` is the first throwing call exactly when every call before it
      is accepted and the call at `k`, if any, throws. */
  lemma {:induction false} FirstRejectedIs(calls: seq<TimerCall>, k: nat)
    requires k <= |calls|
    ensures FirstRejected(calls) == k <==>
      (forall j :: 0 <= j < k ==> !Rejects(calls[j])) && (k < |calls| ==> Rejects(calls[k]))
    decreases k
  {
    if k > 0 && calls != [] {
      FirstRejectedIs(calls[1..], k - 1);
      assert forall j :: 1 <= j < k ==> calls[j] == calls[1..][j - 1];
      if (forall j :: 0 <= j < k ==> !Rejects(calls[j])) {
        assert forall j :: 0 <= j < k - 1 ==> calls[1..][j] == calls[j + 1];
      }
    }
  }

  /** What the managed body yields for a fresh timer: the error of the
      first rejected `end`, which leaves the benchmark function before
      any later call and before the timer is asked for its result;
      otherwise the timer's result after all the calls. */
  function Outcome(calls: seq<TimerCall>): Measured {
    var k := FirstRejected(calls);
    if k < |calls| then Failed(CheckIterations(calls[k].arg).error) else ResultSpec(Steps(Fresh, calls))
  }

  /** When no `end` throws, the result fails unless an end was made and a
      start was made, and then measures from the last start to the last
      end; it never carries an argument error. */
  lemma ResultAfterCalls(calls: seq<TimerCall>)
    requires forall j :: 0 <= j < |calls| ==> !Rejects(calls[j])
    ensures Outcome(calls) ==
      if LastEnd(calls).None? then Failed(ForgotEnd)
      else if LastStart(calls).None? then Failed(ForgotStart)
      else Measured(LastEnd(calls).value.0 - LastStart(calls).value, LastEnd(calls).value.1)
  {
    FirstRejectedIs(calls, |calls|);
    StepsFromFresh(calls);
  }

  /** An `end` that throws decides the outcome when every call before it
      was accepted, whatever the calls after it and whatever the timer
      holds. */
  lemma OutcomeThrows(calls: seq<TimerCall>, k: nat)
    requires k < |calls| && Rejects(calls[k])
    requires forall j :: 0 <= j < k ==> !Rejects(calls[j])
    ensures Outcome(calls) == Failed(CheckIterations(calls[k].arg).error)
    ensures Outcome(calls).error in {InvalidArgType, OutOfRange}
  {
    FirstRejectedIs(calls, k);
  }

  /** A rejected `end` after a good one still fails the cycle, and a
      non-number is a type error rather than a missing end. */
  lemma OutcomeExamples()
    ensures Outcome([StartAt(0), EndAt(Num(2.0), 5), EndAt(NaN, 9)]) == Failed(OutOfRange)
    ensures Outcome([StartAt(0), EndAt(NotANumber, 5)]) == Failed(InvalidArgType)
    ensures Outcome([StartAt(0), EndAt(Num(2.0), 5)]) == Measured(5, 2)
  {
    OutcomeThrows([StartAt(0), EndAt(Num(2.0), 5), EndAt(NaN, 9)], 2);
    OutcomeThrows([StartAt(0), EndAt(NotANumber, 5)], 1);
    ResultAfterCalls([StartAt(0), EndAt(Num(2.0), 5)]);
  }

  class ManagedTimer {
    const recommendedCount: nat
    var start: Option<int>
    var end: Option<int>
    var iterations: Option<nat>

    /** `end` is recorded together with the count. */
    ghost predicate Valid()
      reads this
    {
      iterations.Some? ==> end.Some?
    }

    function State(): TimerState
      reads this
    {
      TimerState(start, end, iterations)
    }

    constructor(recommendedCount: nat)
      ensures Valid() && State() == Fresh && this.recommendedCount == recommendedCount
    {
      this.recommendedCount := recommendedCount;
      start, end, iterations := None, None, None;
    }

    /** `get count`. */
    function Count(): nat {
      recommendedCount
    }

    method Start(now: int)
      requires Valid()
      modifies this
      ensures Valid() && State() == Step(old(State()), StartAt(now))
    {
      start := Some(now);
    }

    method End(arg: IntArg, now: int) returns (thrown: Option<Error>)
      requires Valid()
      modifies this
      ensures Valid() && State() == Step(old(State()), EndAt(arg, now))
      ensures thrown == (if CheckIterations(arg).Rejected? then Some(CheckIterations(arg).error) else None)
    {
      var checked := CheckIterations(arg);
      if checked.Rejected? {
        return Some(checked.error);
      }
      end := Some(now);
      iterations := Some(checked.n);
      return None;
    }

    method Result() returns (r: Measured)
      requires Valid()
      ensures r == ResultSpec(State())
    {
      if iterations.None? {
        return Failed(ForgotEnd);
      }
      if start.None? {
        return Failed(ForgotStart);
      }
      return Measured(end.value - start.value, iterations.value);
    }
  }

  // ---------------------------------------------------------------------
  // createRunner and clockBenchmark
  // ---------------------------------------------------------------------

  /** What the runner needs of `bench.fn`: its declared parameter count
      (`fn.length`) and whether it is an async function. */
  datatype BenchFn = BenchFn(arity: nat, isAsync: bool)

  datatype Mode = Managed | Unmanaged

  /** The compiled runner: its mode, whether it awaits the benchmark, and
      whether a warning was emitted for too many parameters. */
  datatype Plan = Plan(mode: Mode, awaits: bool, warns: bool, count: nat)

  /** createRunner: a benchmark that declares a parameter is handed a
      fresh ManagedTimer; a warning is emitted for more than one. */
  function CreateRunner(fn: BenchFn, recommendedCount: nat): (p: Plan)
    ensures p.mode == Managed <==> fn.arity >= 1
    ensures p.warns <==> fn.arity > 1
    ensures p.awaits == fn.isAsync && p.count == recommendedCount
  {
    Plan(if fn.arity >= 1 then Managed else Unmanaged, fn.isAsync, fn.arity > 1, recommendedCount)
  }

  /** The benchmark's invocations in unmanaged mode. */
  class Workload {
    var calls: nat

    constructor()
      ensures calls == 0
    {
      calls := 0;
    }

    method Call()
      modifies this
      ensures calls == old(calls) + 1
    {
      calls := calls + 1;
    }
  }

  /** The unmanaged body: `count` calls between two clock readings. */
  method RunUnmanaged(work: Workload, count: nat, startedAt: int, endedAt: int) returns (r: Measured)
    modifies work
    ensures work.calls == old(work.calls) + count
    ensures r == Measured(endedAt - startedAt, count)
  {
    var i := 0;
    while i < count
      invariant 0 <= i <= count
      invariant work.calls == old(work.calls) + i
    {
      work.Call();
      i := i + 1;
    }
    return Measured(endedAt - startedAt, count);
  }

  /** The managed body: the benchmark drives the timer until an `end`
      throws, and that error is the result; otherwise the timer's result
      is returned. */
  method RunManaged(timer: ManagedTimer, calls: seq<TimerCall>) returns (r: Measured)
    requires timer.Valid()
    modifies timer
    ensures timer.Valid() && timer.State() == Steps(old(timer.State()), calls[..FirstRejected(calls)])
    ensures r == if FirstRejected(calls) < |calls| then Failed(CheckIterations(calls[FirstRejected(calls)].arg).error)
                 else ResultSpec(timer.State())
  {
    var i := 0;
    while i < |calls|
      invariant 0 <= i <= |calls|
      invariant forall j :: 0 <= j < i ==> !Rejects(calls[j])
      invariant timer.Valid() && timer.State() == Steps(old(timer.State()), calls[..i])
    {
      assert calls[..i + 1][..i] == calls[..i];
      match calls[i] {
        case StartAt(now) => timer.Start(now);
        case EndAt(arg, now) =>
          var thrown := timer.End(arg, now);
          if thrown.Some? {
            FirstRejectedIs(calls, i);
            return Failed(thrown.value);
          }
      }
      i := i + 1;
    }
    FirstRejectedIs(calls, i);
    assert calls[..i] == calls;
    r := timer.Result();
  }

  /** clockBenchmark: one cycle with the recommended count. In managed
      mode `calls` are what the benchmark does with its timer; in unmanaged
      mode the clock is read before and after the calls. */
  method ClockBenchmark(fn: BenchFn, recommendedCount: nat, calls: seq<TimerCall>,
                        work: Workload, startedAt: int, endedAt: int) returns (r: Measured)
    modifies work
    ensures fn.arity >= 1 ==> r == Outcome(calls) && work.calls == old(work.calls)
    ensures fn.arity == 0 ==> r == Measured(endedAt - startedAt, recommendedCount) &&
                              work.calls == old(work.calls) + recommendedCount
  {
    var plan := CreateRunner(fn, recommendedCount);
    if plan.mode == Managed {
      var timer := new ManagedTimer(plan.count);
      r := RunManaged(timer, calls);
      assert calls[..|calls|] == calls;
    } else {
      r := RunUnmanaged(work, plan.count, startedAt, endedAt);
    }
  }
}
