/** The measuring loop of lib/internal/benchmark/lifecycle.js: a probe of
    10 iterations sets the first count; then cycles run, each with the
    count derived from the previous cycle's time per operation, until the
    wall time spent reaches `maxTime`; every cycle's time per operation is
    recorded into a histogram, and the result carries operations per
    second.

    What each clockBenchmark call returns, and the wall time each cycle
    took, are inputs: the probe's measurement and one `Cycle` per loop
    iteration. */
module Lifecycle {
  import opened Wrappers
  import Clock
  import Histogram

  /** The default minimum time, in seconds, that sizes each cycle. */
  const MinTime: real := 0.05
  /** The default wall time, in seconds, of the whole loop. */
  const MaxTime: real := 0.5
  /** timer.scale: nanoseconds per second. */
  const TimerScale: real := 1e9

  /** What the loop reads of a benchmark. */
  datatype Limits = Limits(minTime: real, maxTime: real)

  /** An iteration count: MathRound of an infinite quotient stays
      infinite. */
  datatype Count = Finite(n: nat) | Infinity

  /** MathRound: halves round up. */
  function Round(x: real): int {
    (x + 0.5).Floor
  }

  /** getItersForOpDuration: enough operations to fill `minTime`, at
      least 10. A time per operation of 0 gives an infinite quotient. */
  function ItersForOpDuration(durationPerOp: real, minTime: real): (c: Count)
    requires minTime > 0.0
    ensures c.Finite? ==> c.n >= 10
    ensures c == Infinity <==> durationPerOp == 0.0
  {
    if durationPerOp == 0.0 then Infinity
    else
      var total := minTime / (durationPerOp / TimerScale);
      var r := Round(total);
      Finite(if r > 10 then r else 10)
  }

  lemma DivideAntitone(m: real, p1: real, p2: real)
    requires m > 0.0 && 0.0 < p1 <= p2
    ensures m / p1 >= m / p2
  {
    assert m / p1 * p1 == m && m / p2 * p2 == m;
  }

  /** Slower operations never get more iterations, and the count is the
      rounded number of operations that fill `minTime` whenever that is
      above 10. */
  lemma ItersForOpDurationFacts(p1: real, p2: real, minTime: real)
    requires minTime > 0.0 && 0.0 < p1 <= p2
    ensures ItersForOpDuration(p1, minTime).n >= ItersForOpDuration(p2, minTime).n
    ensures Round(minTime * TimerScale / p1) >= 10 ==>
      ItersForOpDuration(p1, minTime).n == Round(minTime * TimerScale / p1)
  {
    assert minTime / (p1 / TimerScale) == minTime * TimerScale / p1;
    assert minTime / (p2 / TimerScale) == minTime * TimerScale / p2;
    DivideAntitone(minTime * TimerScale, p1, p2);
  }

  /** One loop iteration's inputs: what clockBenchmark returned, and the
      wall time between the two clock readings around it. */
  datatype Cycle = Cycle(measured: Clock.Measured, wall: nat)

  /** Why runBenchmark rejects: clockBenchmark threw, or the histogram
      refused a negative time per operation. */
  datatype Fault = ClockFailed(clock: Clock.Error) | HistogramFailed(histogram: Histogram.Error)

  /** clockBenchmark never reports fewer than one iteration: a managed
      timer validates its count and the unmanaged count is at least 10. */
  predicate CountsPositive(m: Clock.Measured) {
    m.Measured? ==> m.iterations >= 1
  }

  predicate Good(c: Cycle) {
    c.measured.Measured? && c.measured.duration >= 0
  }

  function PerOp(m: Clock.Measured): real
    requires m.Measured? && m.iterations >= 1
  {
    m.duration as real / m.iterations as real
  }

  function WallSum(cs: seq<Cycle>): int
    decreases |cs|
  {
    if cs == [] then 0 else WallSum(cs[..|cs| - 1]) + cs[|cs| - 1].wall
  }

  /** The loop stops after `k` cycles: the wall time reaches `maxDuration`
      there and at no earlier point. */
  predicate StopsAt(cs: seq<Cycle>, maxDuration: real, k: nat) {
    k <= |cs| && WallSum(cs[..k]) as real >= maxDuration &&
    forall j :: 0 <= j < k ==> WallSum(cs[..j]) as real < maxDuration
  }

  /** The index of the first cycle that fails, if any. */
  function FirstBad(cs: seq<Cycle>): (b: Option<nat>)
    ensures b.Some? ==> b.value < |cs| && !Good(cs[b.value]) && forall j :: 0 <= j < b.value ==> Good(cs[j])
    ensures b.None? ==> forall j :: 0 <= j < |cs| ==> Good(cs[j])
    decreases |cs|
  {
    if cs == [] then None
    else if !Good(cs[0]) then Some(0)
    else
      var b := FirstBad(cs[1..]);
      if b.Some? then Some(b.value + 1) else None
  }

  function IterSum(cs: seq<Cycle>): nat
    requires forall j :: 0 <= j < |cs| ==> Good(cs[j])
    decreases |cs|
  {
    if cs == [] then 0
    else assert Good(cs[|cs| - 1]); IterSum(cs[..|cs| - 1]) + cs[|cs| - 1].measured.iterations
  }

  function DurationSum(cs: seq<Cycle>): int
    requires forall j :: 0 <= j < |cs| ==> Good(cs[j])
    decreases |cs|
  {
    if cs == [] then 0
    else assert Good(cs[|cs| - 1]); DurationSum(cs[..|cs| - 1]) + cs[|cs| - 1].measured.duration
  }

  /** The times per operation recorded, one per cycle. */
  function PerOps(cs: seq<Cycle>): seq<real>
    requires forall j :: 0 <= j < |cs| ==> Good(cs[j]) && CountsPositive(cs[j].measured)
    decreases |cs|
  {
    if cs == [] then []
    else
      assert Good(cs[|cs| - 1]) && CountsPositive(cs[|cs| - 1].measured);
      PerOps(cs[..|cs| - 1]) + [PerOp(cs[|cs| - 1].measured)]
  }

  /** The count the next cycle asks for. */
  function NextCount(first: Count, cs: seq<Cycle>, minTime: real): Count
    requires minTime > 0.0
    requires forall j :: 0 <= j < |cs| ==> Good(cs[j]) && CountsPositive(cs[j].measured)
  {
    if cs == [] then first
    else
      assert Good(cs[|cs| - 1]) && CountsPositive(cs[|cs| - 1].measured);
      ItersForOpDuration(PerOp(cs[|cs| - 1].measured), minTime)
  }

  /** The counts asked for by the cycles `cs`, in order. */
  function Requests(first: Count, cs: seq<Cycle>, minTime: real): seq<Count>
    requires minTime > 0.0
    requires forall j :: 0 <= j < |cs| ==> Good(cs[j]) && CountsPositive(cs[j].measured)
    decreases |cs|
  {
    if cs == [] then [] else Requests(first, cs[..|cs| - 1], minTime) + [NextCount(first, cs[..|cs| - 1], minTime)]
  }

  /** One sample per cycle, each the cycle's time per operation and never
      negative; at least one operation per cycle. */
  lemma {:induction false} RunTotals(cs: seq<Cycle>)
    requires forall j :: 0 <= j < |cs| ==> Good(cs[j]) && CountsPositive(cs[j].measured)
    ensures |PerOps(cs)| == |cs|
    ensures forall j :: 0 <= j < |cs| ==> PerOps(cs)[j] == PerOp(cs[j].measured) && PerOps(cs)[j] >= 0.0
    ensures IterSum(cs) >= |cs| && DurationSum(cs) >= 0
    decreases |cs|
  {
    if cs != [] {
      var init := cs[..|cs| - 1];
      RunTotals(init);
      var last := cs[|cs| - 1].measured;
      assert Good(cs[|cs| - 1]) && CountsPositive(last);
      assert PerOp(last) >= 0.0;
      forall j | 0 <= j < |init| ensures init[j] == cs[j] {
      }
    }
  }

  /** The first cycle asks for the probe's count, and every later one for
      the count its predecessor's time per operation gives. */
  lemma {:induction false} RequestsChain(first: Count, cs: seq<Cycle>, minTime: real)
    requires minTime > 0.0
    requires forall j :: 0 <= j < |cs| ==> Good(cs[j]) && CountsPositive(cs[j].measured)
    ensures |Requests(first, cs, minTime)| == |cs|
    ensures cs != [] ==> Requests(first, cs, minTime)[0] == first
    ensures forall j :: 0 <= j < |cs| - 1 ==>
      Requests(first, cs, minTime)[j + 1] == ItersForOpDuration(PerOp(cs[j].measured), minTime)
    decreases |cs|
  {
    if cs != [] {
      var init := cs[..|cs| - 1];
      RequestsChain(first, init, minTime);
      forall j | 0 <= j < |init| ensures init[j] == cs[j] {
      }
    }
  }

  /** opsSec: operations over seconds; a total of 0 ns gives +Infinity. */
  function OpsSec(iterations: nat, timeSpent: int): Histogram.Bound {
    if timeSpent == 0 then Histogram.PosInfinity
    else Histogram.Finite(iterations as real / (timeSpent as real / TimerScale))
  }

  /** The value runBenchmark resolves to. */
  class BenchmarkResult {
    const opsSec: Histogram.Bound
    const iterations: nat
    const histogram: Histogram.StatisticalHistogram

    constructor(opsSec: Histogram.Bound, iterations: nat, histogram: Histogram.StatisticalHistogram)
      ensures this.opsSec == opsSec && this.iterations == iterations && this.histogram == histogram
    {
      this.opsSec := opsSec;
      this.iterations := iterations;
      this.histogram := histogram;
    }
  }

  datatype Outcome = Completed(result: BenchmarkResult) | Threw(fault: Fault)

  /** The count getInitialIterations asks clockBenchmark for. */
  const ProbeCount: nat := 10

  /** getInitialIterations: `measure` is what clockBenchmark yields for a
      recommended count; the probe asks it for 10 iterations, and the
      probe's time per operation sizes the first cycle. */
  method GetInitialIterations(measure: nat -> Clock.Measured, minTime: real) returns (r: Result<Count, Fault>)
    requires minTime > 0.0 && CountsPositive(measure(10))
    ensures measure(10).Failed? ==> r == Failure(ClockFailed(measure(10).error))
    ensures measure(10).Measured? ==> r == Success(ItersForOpDuration(PerOp(measure(10)), minTime))
  {
    var probe := measure(ProbeCount);
    if probe.Failed? {
      return Failure(ClockFailed(probe.error));
    }
    var durationPerOp := probe.duration as real / probe.iterations as real;
    return Success(ItersForOpDuration(durationPerOp, minTime));
  }

  /** What the measuring loop of runBenchmark yields when the first
      cycle asks for `first` and the loop stops after `k` cycles: the
      first failing cycle among them throws, otherwise the totals, the
      sealed histogram of the times per operation, and operations per
      second. */
  ghost predicate CyclesOf(bench: Limits, first: Count, cycles: seq<Cycle>, k: nat,
                           r: Outcome, requested: seq<Count>)
    requires bench.minTime > 0.0 && k <= |cycles|
    requires forall j :: 0 <= j < |cycles| ==> CountsPositive(cycles[j].measured)
    reads if r.Completed? then {r.result, r.result.histogram} else {}
  {
    var bad := FirstBad(cycles[..k]);
    if bad.Some? then
      var c := cycles[bad.value];
      requested == Requests(first, cycles[..bad.value], bench.minTime) + [NextCount(first, cycles[..bad.value], bench.minTime)] &&
      r == Threw(if c.measured.Failed? then ClockFailed(c.measured.error) else HistogramFailed(Histogram.OutOfRange))
    else
      var run := cycles[..k];
      requested == Requests(first, run, bench.minTime) &&
      r.Completed? &&
      r.result.iterations == IterSum(run) &&
      r.result.opsSec == OpsSec(IterSum(run), DurationSum(run)) &&
      r.result.histogram.finished &&
      r.result.histogram.recorded == PerOps(run) &&
      r.result.histogram.Valid()
  }

  /** runBenchmark: the probe of 10 iterations sizes the first cycle, then
      the measuring loop runs. `requested` are the counts passed to
      clockBenchmark, one per cycle run. */
  method RunBenchmark(bench: Limits, measure: nat -> Clock.Measured, cycles: seq<Cycle>)
    returns (r: Outcome, requested: seq<Count>)
    requires bench.minTime > 0.0 && bench.maxTime > 0.0
    requires CountsPositive(measure(10)) && forall j :: 0 <= j < |cycles| ==> CountsPositive(cycles[j].measured)
    requires WallSum(cycles) as real >= bench.maxTime * TimerScale
    ensures measure(10).Failed? ==> r == Threw(ClockFailed(measure(10).error)) && requested == []
    ensures measure(10).Measured? ==> forall k :: StopsAt(cycles, bench.maxTime * TimerScale, k) ==>
      CyclesOf(bench, ItersForOpDuration(PerOp(measure(10)), bench.minTime), cycles, k, r, requested)
  {
    var initial := GetInitialIterations(measure, bench.minTime);
    if initial.Failure? {
      return Threw(initial.error), [];
    }
    r, requested := MeasureCycles(bench, initial.value, cycles);
  }

  /** The loop of runBenchmark: cycles run until the wall time reaches
      `maxTime`, each asking for the count the previous one's time per
      operation gives, the first for `first`. */
  method MeasureCycles(bench: Limits, first: Count, cycles: seq<Cycle>)
    returns (r: Outcome, requested: seq<Count>)
    requires bench.minTime > 0.0 && bench.maxTime > 0.0
    requires forall j :: 0 <= j < |cycles| ==> CountsPositive(cycles[j].measured)
    requires WallSum(cycles) as real >= bench.maxTime * TimerScale
    ensures forall k :: StopsAt(cycles, bench.maxTime * TimerScale, k) ==>
      CyclesOf(bench, first, cycles, k, r, requested)
  {
    var histogram := new Histogram.StatisticalHistogram();
    var maxDuration := bench.maxTime * TimerScale;
    var next := first;
    var benchTimeSpent := 0;
    var iterations := 0;
    var timeSpent := 0;
    var k := 0;
    requested := [];
    while benchTimeSpent as real < maxDuration
      invariant 0 <= k <= |cycles|
      invariant benchTimeSpent == WallSum(cycles[..k])
      invariant forall j :: 0 <= j < k ==> WallSum(cycles[..j]) as real < maxDuration
      invariant forall j :: 0 <= j < k ==> Good(cycles[j])
      invariant iterations == IterSum(cycles[..k]) && timeSpent == DurationSum(cycles[..k])
      invariant next == NextCount(first, cycles[..k], bench.minTime)
      invariant requested == Requests(first, cycles[..k], bench.minTime)
      invariant fresh(histogram) && histogram.Valid() && !histogram.finished
      invariant histogram.recorded == PerOps(cycles[..k])
      decreases |cycles| - k
    {
      WallRunsOut(cycles, k, maxDuration);
      var cycle := cycles[k];
      requested := requested + [next];
      if cycle.measured.Failed? {
        r := Threw(ClockFailed(cycle.measured.error));
        ThrewRun(bench, first, cycles, k, r, requested);
        return;
      }
      benchTimeSpent := benchTimeSpent + cycle.wall;
      iterations := iterations + cycle.measured.iterations;
      timeSpent := timeSpent + cycle.measured.duration;
      var durationPerOp := cycle.measured.duration as real / cycle.measured.iterations as real;
      PerOpSign(cycle.measured.duration, cycle.measured.iterations);
      var recorded := histogram.Record(Histogram.Number(durationPerOp));
      if recorded.Thrown? {
        r := Threw(HistogramFailed(recorded.error));
        ThrewRun(bench, first, cycles, k, r, requested);
        return;
      }
      next := ItersForOpDuration(durationPerOp, bench.minTime);
      PrefixStep(cycles, k, first, bench.minTime);
      k := k + 1;
    }
    var _ := histogram.Finish();
    var result := new BenchmarkResult(OpsSec(iterations, timeSpent), iterations, histogram);
    r := Completed(result);
    CompletedRun(bench, first, cycles, k, r, requested);
  }

  /** While the wall time is short of `maxDuration` there is a cycle left. */
  lemma WallRunsOut(cycles: seq<Cycle>, k: nat, maxDuration: real)
    requires k <= |cycles| && WallSum(cycles[..k]) as real < maxDuration
    requires WallSum(cycles) as real >= maxDuration
    ensures k < |cycles|
  {
    assert cycles[..|cycles|] == cycles;
  }

  lemma PerOpSign(d: int, n: nat)
    requires n >= 1
    ensures d as real / n as real < 0.0 <==> d < 0
  {
    if d < 0 {
      assert (d as real / n as real) * (n as real) == d as real;
    } else {
      assert d as real / n as real >= 0.0;
    }
  }

  /** The prefix sums and sequences after one more good cycle. */
  lemma PrefixStep(cycles: seq<Cycle>, k: nat, first: Count, minTime: real)
    requires k < |cycles| && minTime > 0.0
    requires forall j :: 0 <= j <= k ==> Good(cycles[j]) && CountsPositive(cycles[j].measured)
    ensures var run := cycles[..k]; var c := cycles[k];
      WallSum(cycles[..k + 1]) == WallSum(run) + c.wall &&
      IterSum(cycles[..k + 1]) == IterSum(run) + c.measured.iterations &&
      DurationSum(cycles[..k + 1]) == DurationSum(run) + c.measured.duration &&
      PerOps(cycles[..k + 1]) == PerOps(run) + [PerOp(c.measured)] &&
      Requests(first, cycles[..k + 1], minTime) == Requests(first, run, minTime) + [NextCount(first, run, minTime)] &&
      NextCount(first, cycles[..k + 1], minTime) == ItersForOpDuration(PerOp(c.measured), minTime)
  {
    assert cycles[..k + 1][..k] == cycles[..k];
    assert cycles[..k + 1][k] == cycles[k];
  }

  /** The outcome when cycle `b` fails before the wall time runs out. */
  lemma ThrewRun(bench: Limits, first: Count, cycles: seq<Cycle>, b: nat, r: Outcome, requested: seq<Count>)
    requires bench.minTime > 0.0
    requires forall j :: 0 <= j < |cycles| ==> CountsPositive(cycles[j].measured)
    requires b < |cycles| && !Good(cycles[b]) && forall j :: 0 <= j < b ==> Good(cycles[j])
    requires forall j :: 0 <= j <= b ==> WallSum(cycles[..j]) as real < bench.maxTime * TimerScale
    requires requested == Requests(first, cycles[..b], bench.minTime) + [NextCount(first, cycles[..b], bench.minTime)]
    requires r == Threw(if cycles[b].measured.Failed? then ClockFailed(cycles[b].measured.error)
                        else HistogramFailed(Histogram.OutOfRange))
    ensures forall stop :: StopsAt(cycles, bench.maxTime * TimerScale, stop) ==>
      CyclesOf(bench, first, cycles, stop, r, requested)
  {
    forall stop | StopsAt(cycles, bench.maxTime * TimerScale, stop)
      ensures CyclesOf(bench, first, cycles, stop, r, requested)
    {
      StopsAfterBad(cycles, bench.maxTime * TimerScale, b, stop);
    }
  }

  /** The outcome when every cycle up to the stopping point succeeded. */
  lemma CompletedRun(bench: Limits, first: Count, cycles: seq<Cycle>, k: nat, r: Outcome, requested: seq<Count>)
    requires bench.minTime > 0.0
    requires forall j :: 0 <= j < |cycles| ==> CountsPositive(cycles[j].measured)
    requires StopsAt(cycles, bench.maxTime * TimerScale, k)
    requires forall j :: 0 <= j < k ==> Good(cycles[j])
    requires var run := cycles[..k];
      requested == Requests(first, run, bench.minTime) &&
      r.Completed? &&
      r.result.iterations == IterSum(run) &&
      r.result.opsSec == OpsSec(IterSum(run), DurationSum(run)) &&
      r.result.histogram.finished &&
      r.result.histogram.recorded == PerOps(run) &&
      r.result.histogram.Valid()
    ensures forall stop :: StopsAt(cycles, bench.maxTime * TimerScale, stop) ==>
      CyclesOf(bench, first, cycles, stop, r, requested)
  {
    var run := cycles[..k];
    assert forall j :: 0 <= j < k ==> run[j] == cycles[j];
    assert FirstBad(run).None?;
    forall stop | StopsAt(cycles, bench.maxTime * TimerScale, stop)
      ensures CyclesOf(bench, first, cycles, stop, r, requested)
    {
      StopsAtUnique(cycles, bench.maxTime * TimerScale, k, stop);
    }
  }

  /** The loop's stopping point is unique. */
  lemma StopsAtUnique(cs: seq<Cycle>, maxDuration: real, k1: nat, k2: nat)
    requires StopsAt(cs, maxDuration, k1) && StopsAt(cs, maxDuration, k2)
    ensures k1 == k2
  {
  }

  lemma {:induction false} FindStop(cs: seq<Cycle>, maxDuration: real, i: nat)
    requires i <= |cs| && WallSum(cs) as real >= maxDuration
    requires forall j :: 0 <= j < i ==> WallSum(cs[..j]) as real < maxDuration
    ensures exists k :: StopsAt(cs, maxDuration, k)
    decreases |cs| - i
  {
    assert cs[..|cs|] == cs;
    if WallSum(cs[..i]) as real >= maxDuration {
      assert StopsAt(cs, maxDuration, i);
    } else {
      FindStop(cs, maxDuration, i + 1);
    }
  }

  /** Once the wall time covers `maxDuration` the loop has a stopping
      point, and for a positive `maxDuration` it runs at least one cycle. */
  lemma StopsAtExists(cs: seq<Cycle>, maxDuration: real)
    requires WallSum(cs) as real >= maxDuration
    ensures exists k :: StopsAt(cs, maxDuration, k)
    ensures maxDuration > 0.0 ==> forall k :: StopsAt(cs, maxDuration, k) ==> k >= 1
  {
    FindStop(cs, maxDuration, 0);
    assert cs[..0] == [];
  }

  /** A cycle that fails before the wall time runs out is the first bad
      cycle of the whole run. */
  lemma StopsAfterBad(cs: seq<Cycle>, maxDuration: real, b: nat, stop: nat)
    requires b < |cs| && !Good(cs[b]) && forall j :: 0 <= j < b ==> Good(cs[j])
    requires forall j :: 0 <= j <= b ==> WallSum(cs[..j]) as real < maxDuration
    requires StopsAt(cs, maxDuration, stop)
    ensures b < stop && FirstBad(cs[..stop]) == Some(b) && cs[..stop][..b] == cs[..b]
  {
    var run := cs[..stop];
    assert run[b] == cs[b];
    assert forall j :: 0 <= j < b ==> run[j] == cs[j];
  }
}
