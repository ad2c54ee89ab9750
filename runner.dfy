/** `Suite` of lib/internal/benchmark/runner.js: benchmarks are added with
    their options validated and defaulted, and `run` measures them in
    order and hands each result to the reporter.

    JavaScript values are the `Value` datatype; an options object is an
    `Options` instance whose fields are the properties the suite reads and
    writes. What runBenchmark resolves to for each benchmark is an input of
    `Run`. */
module Runner {
  import opened Wrappers
  import Lifecycle

  /** A function value: an identity, its declared parameter count and
      whether it is async. */
  datatype Fn = Fn(id: nat, arity: nat, isAsync: bool)

  /** reportConsoleBench of lib/internal/benchmark/report.js, which is not
      part of this model beyond its identity. */
  const ReportConsoleBench: Fn := Fn(0, 2, false)

  /** The JavaScript values the suite distinguishes. A number is finite,
      NaN or one of the infinities; an object is a plain object or an
      array, both of type 'object'. `Other` stands for booleans, symbols
      and bigints. */
  datatype Value =
    | Undefined
    | Null
    | Num(x: real)
    | NaN
    | PosInfinity
    | NegInfinity
    | Str(s: string)
    | Func(f: Fn)
    | Object(o: Options, isArray: bool)
    | Other

  /** The properties of an options object that the suite touches. */
  class Options {
    var minTime: Value
    var maxTime: Value
    var reporter: Value
    var reportConsoleBench: Value

    constructor(minTime: Value, maxTime: Value, reporter: Value, reportConsoleBench: Value)
      ensures State() == OptionsState(minTime, maxTime, reporter, reportConsoleBench)
    {
      this.minTime := minTime;
      this.maxTime := maxTime;
      this.reporter := reporter;
      this.reportConsoleBench := reportConsoleBench;
    }

    function State(): OptionsState
      reads this
    {
      OptionsState(minTime, maxTime, reporter, reportConsoleBench)
    }
  }

  datatype OptionsState = OptionsState(minTime: Value, maxTime: Value, reporter: Value, reportConsoleBench: Value)

  /** What the suite throws: a TypeError from reading a property of null
      or calling a value that is not a function, and the validators'
      ERR_INVALID_ARG_TYPE and ERR_OUT_OF_RANGE, with the argument name. */
  datatype Error = TypeError | InvalidArgType(arg: string) | OutOfRange(arg: string)

  /** A time in seconds as validateNumber lets it through: finite, or
      +Infinity. */
  datatype Time = Seconds(t: real) | Unbounded

  /** An immutable benchmark record. */
  datatype Benchmark = Benchmark(name: string, fn: Fn, minTime: Time, maxTime: Time)

  /** `??=`: the default replaces undefined and null only. */
  function OrDefault(v: Value, d: Value): Value {
    if v.Undefined? || v.Null? then d else v
  }

  /** The smallest time validateNumber accepts: 1 / 1e7. */
  const MinimumTime: real := 1.0 / 10_000_000.0

  /** validateNumber(value, name, 1 / 1e7): a number below the minimum
      and NaN are out of range; there is no maximum, so +Infinity passes. */
  function ValidateTime(v: Value, arg: string): Result<Time, Error> {
    match v
    case Num(x) => if x < MinimumTime then Failure(OutOfRange(arg)) else Success(Seconds(x))
    case PosInfinity => Success(Unbounded)
    case NegInfinity => Failure(OutOfRange(arg))
    case NaN => Failure(OutOfRange(arg))
    case _ => Failure(InvalidArgType(arg))
  }

  /** The times validateNumber accepts are exactly the numbers from
      1 / 1e7 on, +Infinity included; every other number is out of range
      and every non-number is of the wrong type. */
  lemma ValidateTimeAccepts(v: Value, arg: string)
    ensures ValidateTime(v, arg).Success? <==> (v.Num? && v.x >= MinimumTime) || v.PosInfinity?
    ensures ValidateTime(v, arg).Success? ==>
      (v.Num? ==> ValidateTime(v, arg).value == Seconds(v.x)) &&
      (v.PosInfinity? ==> ValidateTime(v, arg).value == Unbounded)
    ensures ValidateTime(v, arg).Failure? ==>
      ValidateTime(v, arg).error == (if v.Num? || v.NaN? || v.NegInfinity? then OutOfRange(arg) else InvalidArgType(arg))
  {
  }

  /** `add(name, options, fn)`: the options object after the call, and the
      benchmark to push or the error thrown. A function in the `options`
      place is the benchmark with the default times, and the third argument
      is ignored; otherwise the defaults are written into the caller's
      object before anything is validated. */
  function AddSpec(name: Value, options: Value, opts: OptionsState, fn: Value): (OptionsState, Result<Benchmark, Error>) {
    if options.Func? then
      (opts, if !name.Str? then Failure(InvalidArgType("name"))
             else Success(Benchmark(name.s, options.f, Seconds(Lifecycle.MinTime), Seconds(Lifecycle.MaxTime))))
    else if !options.Object? || options.isArray then (opts, Failure(InvalidArgType("options")))
    else
      var opts' := opts.(minTime := OrDefault(opts.minTime, Num(Lifecycle.MinTime)),
                         maxTime := OrDefault(opts.maxTime, Num(Lifecycle.MaxTime)));
      var minTime := ValidateTime(opts'.minTime, "options.minTime");
      var maxTime := ValidateTime(opts'.maxTime, "options.maxTime");
      (opts',
       if minTime.Failure? then Failure(minTime.error)
       else if maxTime.Failure? then Failure(maxTime.error)
       else if !name.Str? then Failure(InvalidArgType("name"))
       else if !fn.Func? then Failure(InvalidArgType("fn"))
       else Success(Benchmark(name.s, fn.f, minTime.value, maxTime.value)))
  }

  /** A benchmark that gets in has a string name, a function, and times
      of at least 1 / 1e7 s, so the measuring loop's preconditions hold;
      without an options object it has the default times. */
  lemma AddAccepts(name: Value, options: Value, opts: OptionsState, fn: Value)
    ensures var (_, r) := AddSpec(name, options, opts, fn);
      r.Success? ==>
        name.Str? && r.value.name == name.s &&
        (r.value.minTime.Seconds? ==> r.value.minTime.t >= MinimumTime) &&
        (r.value.maxTime.Seconds? ==> r.value.maxTime.t >= MinimumTime) &&
        (options.Func? ==> r.value.fn == options.f &&
                           r.value.minTime == Seconds(Lifecycle.MinTime) && r.value.maxTime == Seconds(Lifecycle.MaxTime)) &&
        (!options.Func? ==> options.Object? && !options.isArray && fn.Func? && r.value.fn == fn.f)
    ensures var (_, r) := AddSpec(name, options, opts, fn);
      options.Object? && !options.isArray && name.Str? && fn.Func? &&
      ValidateTime(opts.minTime, "options.minTime").Success? && ValidateTime(opts.maxTime, "options.maxTime").Success? ==>
        r == Success(Benchmark(name.s, fn.f, ValidateTime(opts.minTime, "options.minTime").value,
                               ValidateTime(opts.maxTime, "options.maxTime").value))
  {
  }

  /** Nothing bounds the times from above: an options object whose
      `maxTime` is +Infinity adds a benchmark whose measuring loop never
      reaches its wall-time budget. */
  lemma AddAcceptsUnboundedMaxTime(name: string, o: Options, opts: OptionsState, f: Fn)
    requires opts.minTime == Undefined && opts.maxTime == PosInfinity
    ensures AddSpec(Str(name), Object(o, false), opts, Func(f)).1 ==
      Success(Benchmark(name, f, Seconds(Lifecycle.MinTime), Unbounded))
  {
    ValidateTimeAccepts(Num(Lifecycle.MinTime), "options.minTime");
  }

  /** The defaults land in the caller's object whatever happens next, even
      when the name or the function is then refused; nothing else of it
      changes, and it is not touched at all when it is not an object. */
  lemma AddWritesDefaults(name: Value, options: Value, opts: OptionsState, fn: Value)
    ensures var (opts', _) := AddSpec(name, options, opts, fn);
      (options.Object? && !options.isArray ==>
         opts'.minTime == OrDefault(opts.minTime, Num(Lifecycle.MinTime)) &&
         opts'.maxTime == OrDefault(opts.maxTime, Num(Lifecycle.MaxTime)) &&
         opts'.reporter == opts.reporter && opts'.reportConsoleBench == opts.reportConsoleBench) &&
      (!options.Object? || options.isArray ==> opts' == opts)
    ensures var (opts', r) := AddSpec(name, options, opts, fn);
      options.Object? && !options.isArray && opts.minTime.Undefined? && opts.maxTime.Undefined? && !name.Str? ==>
        opts'.minTime == Num(Lifecycle.MinTime) && r == Failure(InvalidArgType("name"))
  {
  }

  /** The checks run in order: options, then the name, then the function. */
  lemma AddErrorOrder(name: Value, options: Value, opts: OptionsState, fn: Value)
    ensures !options.Func? && (!options.Object? || options.isArray) ==>
      AddSpec(name, options, opts, fn).1 == Failure(InvalidArgType("options"))
    ensures options.Object? && !options.isArray && opts.minTime.Other? ==>
      AddSpec(name, options, opts, fn).1 == Failure(InvalidArgType("options.minTime"))
    ensures options.Object? && !options.isArray && opts.minTime.Num? && opts.minTime.x < MinimumTime ==>
      AddSpec(name, options, opts, fn).1 == Failure(OutOfRange("options.minTime"))
    ensures options.Func? && !name.Str? ==> AddSpec(name, options, opts, fn).1 == Failure(InvalidArgType("name"))
  {
  }

  /** The reporter the constructor keeps, as written: the options
      object's `reportConsoleBench` property rather than its `reporter`. */
  function ReporterAsWritten(opts: OptionsState): Value {
    opts.reportConsoleBench
  }

  /** The reporter the constructor evidently means to keep: the validated
      `reporter` property. */
  function ReporterIntended(opts: OptionsState): Value {
    opts.reporter
  }

  /** What `run` settles to: undefined, or the error thrown. */
  datatype Settled = ResolvedUndefined | Rejected(error: Error) | RunFailed(fault: Lifecycle.Fault)

  /** One reporter invocation: the reporter, the benchmark and its result. */
  datatype Report = Report(reporter: Fn, benchmark: Benchmark, result: Lifecycle.BenchmarkResult)

  /** `run` over the benchmarks and what runBenchmark resolves to for
      each: the reporter calls made, in order, and how the promise
      settles. The loop stops at the first rejection. */
  function RunSpec(reporter: Value, benchmarks: seq<Benchmark>, outcomes: seq<Lifecycle.Outcome>): (seq<Report>, Settled)
    requires |outcomes| == |benchmarks|
    decreases |benchmarks|
  {
    if benchmarks == [] then ([], ResolvedUndefined)
    else if outcomes[0].Threw? then ([], RunFailed(outcomes[0].fault))
    else if !reporter.Func? then ([], Rejected(TypeError))
    else
      var (rest, settled) := RunSpec(reporter, benchmarks[1..], outcomes[1..]);
      ([Report(reporter.f, benchmarks[0], outcomes[0].result)] + rest, settled)
  }

  /** With a function reporter and every measurement completing, the
      reporter sees every benchmark once, in the order they were added,
      and `run` resolves to undefined rather than to the results. */
  lemma {:induction false} RunReportsAll(f: Fn, benchmarks: seq<Benchmark>, outcomes: seq<Lifecycle.Outcome>)
    requires |outcomes| == |benchmarks|
    requires forall j :: 0 <= j < |outcomes| ==> outcomes[j].Completed?
    ensures var (reports, settled) := RunSpec(Func(f), benchmarks, outcomes);
      settled == ResolvedUndefined && |reports| == |benchmarks| &&
      forall j :: 0 <= j < |reports| ==>
        reports[j] == Report(f, benchmarks[j], outcomes[j].result)
    decreases |benchmarks|
  {
    if benchmarks != [] {
      RunReportsAll(f, benchmarks[1..], outcomes[1..]);
      var rest := RunSpec(Func(f), benchmarks[1..], outcomes[1..]).0;
      forall j | 1 <= j < |benchmarks| ensures rest[j - 1] == Report(f, benchmarks[j], outcomes[j].result) {
        assert benchmarks[1..][j - 1] == benchmarks[j] && outcomes[1..][j - 1] == outcomes[j];
      }
    }
  }

  /** A reporter that is not a function makes the first completed
      measurement throw, before anything is reported. */
  lemma NonFunctionReporterThrows(reporter: Value, benchmarks: seq<Benchmark>, outcomes: seq<Lifecycle.Outcome>)
    requires |outcomes| == |benchmarks| && !reporter.Func?
    requires benchmarks != [] && outcomes[0].Completed?
    ensures RunSpec(reporter, benchmarks, outcomes) == ([], Rejected(TypeError))
  {
  }

  /** The constructor as written keeps `reportConsoleBench`, which an
      options object normally lacks: a suite built with `{}` or with a
      custom reporter throws a TypeError on its first completed benchmark
      and never reports, while the intended reporter would have been
      called. */
  lemma ReporterFinding(opts: OptionsState, f: Fn, b: Benchmark, result: Lifecycle.BenchmarkResult)
    requires opts.reportConsoleBench == Undefined
    requires opts.reporter == Func(f)
    ensures RunSpec(ReporterAsWritten(opts), [b], [Lifecycle.Completed(result)]).0 == []
    ensures RunSpec(ReporterAsWritten(opts), [b], [Lifecycle.Completed(result)]).1 == Rejected(TypeError)
    ensures RunSpec(ReporterIntended(opts), [b], [Lifecycle.Completed(result)]).0 == [Report(f, b, result)]
    ensures RunSpec(ReporterIntended(opts), [b], [Lifecycle.Completed(result)]).1 == ResolvedUndefined
  {
    assert [b][1..] == [] && [Lifecycle.Completed(result)][1..] == [];
    assert RunSpec(Func(f), [], []) == ([], ResolvedUndefined);
  }

  class Suite {
    const name: Value
    var benchmarks: seq<Benchmark>
    const reporter: Value

    constructor(name: Value, reporter: Value)
      ensures this.name == name && this.reporter == reporter && benchmarks == []
    {
      this.name := name;
      this.reporter := reporter;
      benchmarks := [];
    }

    /** `add`; on success the suite itself is returned. */
    method Add(name: Value, options: Value, fn: Value) returns (r: Result<Suite, Error>)
      modifies this, if options.Object? then {options.o} else {}
      ensures options.Object? ==> options.o.State() == AddSpec(name, options, old(options.o.State()), fn).0
      ensures var opts := if options.Object? then old(options.o.State()) else OptionsState(Undefined, Undefined, Undefined, Undefined);
        var added := AddSpec(name, options, opts, fn).1;
        (added.Success? ==> r == Success(this) && benchmarks == old(benchmarks) + [added.value]) &&
        (added.Failure? ==> r == Failure(added.error) && benchmarks == old(benchmarks))
    {
      var benchmarkFn := fn;
      var minTime: Time;
      var maxTime: Time;
      if options.Func? {
        benchmarkFn := options;
        minTime, maxTime := Seconds(Lifecycle.MinTime), Seconds(Lifecycle.MaxTime);
      } else {
        if !options.Object? || options.isArray {
          return Failure(InvalidArgType("options"));
        }
        var o := options.o;
        o.minTime := OrDefault(o.minTime, Num(Lifecycle.MinTime));
        o.maxTime := OrDefault(o.maxTime, Num(Lifecycle.MaxTime));
        var checkedMin := ValidateTime(o.minTime, "options.minTime");
        if checkedMin.Failure? {
          return Failure(checkedMin.error);
        }
        var checkedMax := ValidateTime(o.maxTime, "options.maxTime");
        if checkedMax.Failure? {
          return Failure(checkedMax.error);
        }
        minTime, maxTime := checkedMin.value, checkedMax.value;
      }
      if !name.Str? {
        return Failure(InvalidArgType("name"));
      }
      if !benchmarkFn.Func? {
        return Failure(InvalidArgType("fn"));
      }
      benchmarks := benchmarks + [Benchmark(name.s, benchmarkFn.f, minTime, maxTime)];
      return Success(this);
    }

    /** `run`: `outcomes` are what runBenchmark resolves to for each
        benchmark, in order. */
    method Run(outcomes: seq<Lifecycle.Outcome>) returns (reports: seq<Report>, settled: Settled)
      requires |outcomes| == |benchmarks|
      ensures reports == RunSpec(reporter, benchmarks, outcomes).0
      ensures settled == RunSpec(reporter, benchmarks, outcomes).1
    {
      reports := [];
      var i := 0;
      assert benchmarks[0..] == benchmarks && outcomes[0..] == outcomes;
      while i < |benchmarks|
        invariant 0 <= i <= |benchmarks|
        invariant RunSpec(reporter, benchmarks, outcomes).0 == reports + RunSpec(reporter, benchmarks[i..], outcomes[i..]).0
        invariant RunSpec(reporter, benchmarks, outcomes).1 == RunSpec(reporter, benchmarks[i..], outcomes[i..]).1
      {
        var outcome := outcomes[i];
        if outcome.Threw? {
          return reports, RunFailed(outcome.fault);
        }
        if !reporter.Func? {
          return reports, Rejected(TypeError);
        }
        assert benchmarks[i..][1..] == benchmarks[i + 1..] && outcomes[i..][1..] == outcomes[i + 1..];
        reports := reports + [Report(reporter.f, benchmarks[i], outcome.result)];
        i := i + 1;
      }
      return reports, ResolvedUndefined;
    }
  }

  /** `new Suite(name, options)`. A non-object `options` gets the console
      reporter; an object, an array included, gets `reporter` defaulted and validated. The
      constructor as written then keeps `options.reportConsoleBench` (see
      ReporterAsWritten); this model keeps the validated `reporter`. A
      null `options` is of type 'object' too and throws on the property
      access. */
  method NewSuite(name: Value, options: Value) returns (r: Result<Suite, Error>)
    modifies if options.Object? then {options.o} else {}
    ensures options.Object? ==>
      options.o.State() == old(options.o.State()).(reporter := OrDefault(old(options.o.reporter), Func(ReportConsoleBench)))
    ensures options.Null? ==> r == Failure(TypeError)
    ensures options.Object? && !options.o.reporter.Func? ==> r == Failure(InvalidArgType("options.reporter"))
    ensures options.Object? && options.o.reporter.Func? ==>
      r.Success? && fresh(r.value) && r.value.reporter == ReporterIntended(options.o.State()) &&
      r.value.name == name && r.value.benchmarks == []
    ensures !options.Object? && !options.Null? ==>
      r.Success? && fresh(r.value) && r.value.reporter == Func(ReportConsoleBench) &&
      r.value.name == name && r.value.benchmarks == []
  {
    if options.Null? {
      return Failure(TypeError);
    }
    if options.Object? {
      var o := options.o;
      o.reporter := OrDefault(o.reporter, Func(ReportConsoleBench));
      if !o.reporter.Func? {
        return Failure(InvalidArgType("options.reporter"));
      }
      var suite := new Suite(name, o.reporter);
      return Success(suite);
    }
    var suite := new Suite(name, Func(ReportConsoleBench));
    return Success(suite);
  }

  /** Whatever the options, a suite that gets built has a function as its
      reporter. */
  lemma BuiltSuiteReports(opts: OptionsState)
    ensures OrDefault(opts.reporter, Func(ReportConsoleBench)).Func? ==>
      ReporterIntended(opts.(reporter := OrDefault(opts.reporter, Func(ReportConsoleBench)))).Func?
    ensures opts.reporter.Undefined? ==>
      ReporterIntended(opts.(reporter := OrDefault(opts.reporter, Func(ReportConsoleBench)))) == Func(ReportConsoleBench)
  {
  }
}
