/** `StatisticalHistogram` of lib/internal/benchmark/histogram.js: samples
    are recorded until `finish` seals the histogram; `finish` sorts them,
    drops the outliers outside a Tukey fence, and computes min, max, mean
    and the coefficient of variation. Every reader throws until then.

    Samples are finite reals: the model has no floating-point rounding and
    no infinite or NaN samples. The library calls the source makes (sort,
    filter, reduce) are the functions SortSpec, KeepBetween and Sum; the
    one loop of the source, the min/max scan, is a loop here too. */
module Histogram {
  import opened Wrappers

  /** A JavaScript number that may be infinite: what `#min` and `#max`
      hold (they start at +Infinity and -Infinity). */
  datatype Bound = NegInfinity | Finite(value: real) | PosInfinity

  /** The argument of `record` and `percentile`. */
  datatype NumberArg = Number(x: real) | NaN | NotANumber

  /** The errors thrown: ERR_BENCH_HISTOGRAM_NOT_FINISHED,
      ERR_BENCH_HISTOGRAM_FINISHED, and validateNumber's
      ERR_INVALID_ARG_TYPE and ERR_OUT_OF_RANGE. */
  datatype Error = NotFinished | AlreadyFinished | InvalidArgType | OutOfRange

  /** A call that returns a value or throws. */
  datatype Reply<+T> = Value(v: T) | Thrown(error: Error)

  /** `#cv`: zero for fewer than two samples, otherwise the standard
      deviation over the mean, kept as the variance under the square root
      and the mean (square root and division are not modelled). */
  datatype Cv = CvZero | CvOf(variance: real, mean: real)

  /** validateNumber(value, name, min, max): a number, not NaN, within
      [min, max]. */
  function ValidateNumber(a: NumberArg, min: real, max: Option<real>): Option<Error> {
    match a
    case NotANumber => Some(InvalidArgType)
    case NaN => Some(OutOfRange)
    case Number(x) => if x < min || (max.Some? && x > max.value) then Some(OutOfRange) else None
  }

  // ---------------------------------------------------------------------
  // Sorting: ArrayPrototypeSort with (a, b) => a - b
  // ---------------------------------------------------------------------

  predicate Sorted(s: seq<real>) {
    forall i, j :: 0 <= i < j < |s| ==> s[i] <= s[j]
  }

  /** A sequence stays sorted when an element no larger than all of it is
      put in front. */
  lemma SortedCons(a: real, r: seq<real>)
    requires Sorted(r) && forall k :: 0 <= k < |r| ==> a <= r[k]
    ensures Sorted([a] + r)
  {
    var u := [a] + r;
    forall i, j | 0 <= i < j < |u| ensures u[i] <= u[j] {
      if i == 0 {
        assert u[j] == r[j - 1];
      } else {
        assert u[i] == r[i - 1] && u[j] == r[j - 1];
      }
    }
  }

  /** `x` placed before the first element of `s` that is larger. */
  function InsertSpec(s: seq<real>, x: real): seq<real>
    decreases |s|
  {
    if s == [] then [x]
    else if x <= s[0] then [x] + s
    else [s[0]] + InsertSpec(s[1..], x)
  }

  /** The ascending order of `s`. */
  function SortSpec(s: seq<real>): seq<real>
    decreases |s|
  {
    if s == [] then [] else InsertSpec(SortSpec(s[..|s| - 1]), s[|s| - 1])
  }

  lemma {:induction false} InsertSpecPermutes(s: seq<real>, x: real)
    ensures multiset(InsertSpec(s, x)) == multiset(s) + multiset{x}
    ensures |InsertSpec(s, x)| == |s| + 1
    decreases |s|
  {
    if s != [] && x > s[0] {
      InsertSpecPermutes(s[1..], x);
      assert s == [s[0]] + s[1..];
    }
  }

  lemma {:induction false} InsertSpecSorted(s: seq<real>, x: real)
    requires Sorted(s)
    ensures Sorted(InsertSpec(s, x))
    decreases |s|
  {
    if s != [] && x > s[0] {
      var tail := s[1..];
      assert Sorted(tail);
      InsertSpecSorted(tail, x);
      InsertSpecPermutes(tail, x);
      var r := InsertSpec(tail, x);
      forall k | 0 <= k < |r| ensures s[0] <= r[k] {
        assert r[k] in multiset(r);
        if r[k] != x {
          assert r[k] in multiset(tail);
          var j :| 0 <= j < |tail| && tail[j] == r[k];
          assert tail[j] == s[j + 1];
        }
      }
      SortedCons(s[0], r);
    } else if s != [] {
      SortedCons(x, s);
    }
  }

  /** SortSpec yields the same samples in ascending order. */
  lemma {:induction false} SortSpecSorted(s: seq<real>)
    ensures Sorted(SortSpec(s))
    ensures multiset(SortSpec(s)) == multiset(s)
    ensures |SortSpec(s)| == |s|
    decreases |s|
  {
    if s != [] {
      SortSpecSorted(s[..|s| - 1]);
      InsertSpecPermutes(SortSpec(s[..|s| - 1]), s[|s| - 1]);
      InsertSpecSorted(SortSpec(s[..|s| - 1]), s[|s| - 1]);
      assert s == s[..|s| - 1] + [s[|s| - 1]];
    }
  }

  // ---------------------------------------------------------------------
  // The Tukey fence of #removeOutliers
  // ---------------------------------------------------------------------

  /** The quartiles: the mean of two neighbours when the size is 4k or
      4k+1, a single sample otherwise. `MathFloor(size / 4)` is `size / 4`
      and `MathCeil(size * 3 / 4)` is `(3 * size + 3) / 4` on naturals. */
  function Quartiles(s: seq<real>): (q: (real, real))
    requires |s| >= 4
  {
    var size := |s|;
    if size % 4 == 1 || size % 4 == 0 then
      ((s[size / 4 - 1] + s[size / 4]) / 2.0,
       (s[(3 * size + 3) / 4 - 1] + s[(3 * size + 3) / 4]) / 2.0)
    else
      (s[size / 4], s[3 * size / 4])
  }

  /** The quartile indices are within bounds for every size of at least 4. */
  lemma QuartileIndicesInBounds(size: nat)
    requires size >= 4
    ensures size % 4 == 1 || size % 4 == 0 ==>
      1 <= size / 4 && size / 4 < size && 1 <= (3 * size + 3) / 4 && (3 * size + 3) / 4 < size
    ensures !(size % 4 == 1 || size % 4 == 0) ==> size / 4 < size && 3 * size / 4 < size
  {
  }

  /** The fence: 1.5 is applied to the interquartile range twice, so the
      samples kept lie within 2.25 IQR of the quartiles. */
  function Fence(s: seq<real>): (f: (real, real))
    requires |s| >= 4
  {
    var (q1, q3) := Quartiles(s);
    var iqr := (q3 - q1) * 1.5;
    (q1 - iqr * 1.5, q3 + iqr * 1.5)
  }

  /** ArrayPrototypeFilter keeping lo <= value <= hi. */
  function KeepBetween(s: seq<real>, lo: real, hi: real): seq<real>
    decreases |s|
  {
    if s == [] then []
    else (if lo <= s[0] <= hi then [s[0]] else []) + KeepBetween(s[1..], lo, hi)
  }

  /** What #removeOutliers leaves of sorted samples. */
  function Retained(s: seq<real>): seq<real> {
    if |s| < 4 then s
    else
      var (lo, hi) := Fence(s);
      KeepBetween(s, lo, hi)
  }

  lemma {:induction false} KeepBetweenMembers(s: seq<real>, lo: real, hi: real)
    ensures forall v :: v in KeepBetween(s, lo, hi) <==> v in s && lo <= v <= hi
    decreases |s|
  {
    if s != [] {
      KeepBetweenMembers(s[1..], lo, hi);
      assert s == [s[0]] + s[1..];
    }
  }

  lemma {:induction false} KeepBetweenSubMultiset(s: seq<real>, lo: real, hi: real)
    ensures multiset(KeepBetween(s, lo, hi)) <= multiset(s)
    decreases |s|
  {
    if s != [] {
      KeepBetweenSubMultiset(s[1..], lo, hi);
      assert s == [s[0]] + s[1..];
    }
  }

  lemma {:induction false} KeepBetweenSorted(s: seq<real>, lo: real, hi: real)
    requires Sorted(s)
    ensures Sorted(KeepBetween(s, lo, hi))
    decreases |s|
  {
    if s != [] {
      var tail := s[1..];
      assert Sorted(tail);
      KeepBetweenSorted(tail, lo, hi);
      KeepBetweenMembers(tail, lo, hi);
      var r := KeepBetween(tail, lo, hi);
      forall k | 0 <= k < |r| ensures s[0] <= r[k] {
        assert r[k] in r;
        var j :| 0 <= j < |tail| && tail[j] == r[k];
        assert tail[j] == s[j + 1];
      }
      if lo <= s[0] <= hi {
        SortedCons(s[0], r);
      }
    }
  }

  lemma {:induction false} KeepBetweenAll(s: seq<real>, lo: real, hi: real)
    requires forall k :: 0 <= k < |s| ==> lo <= s[k] <= hi
    ensures KeepBetween(s, lo, hi) == s
    decreases |s|
  {
    if s != [] {
      KeepBetweenAll(s[1..], lo, hi);
      assert s == [s[0]] + s[1..];
    }
  }

  /** The retained samples are exactly those of `s` inside the fence,
      still sorted, and nothing is removed from fewer than 4 samples. */
  lemma RetainedFacts(s: seq<real>)
    requires Sorted(s)
    ensures |s| < 4 ==> Retained(s) == s
    ensures |s| >= 4 ==> forall v :: v in Retained(s) <==> v in s && Fence(s).0 <= v <= Fence(s).1
    ensures multiset(Retained(s)) <= multiset(s)
    ensures Sorted(Retained(s))
  {
    if |s| >= 4 {
      KeepBetweenMembers(s, Fence(s).0, Fence(s).1);
      KeepBetweenSubMultiset(s, Fence(s).0, Fence(s).1);
      KeepBetweenSorted(s, Fence(s).0, Fence(s).1);
    }
  }

  /** For sorted samples the first quartile is at most the third, so the
      fence contains both. */
  lemma QuartilesOrdered(s: seq<real>)
    requires Sorted(s) && |s| >= 4
    ensures Quartiles(s).0 <= Quartiles(s).1
    ensures Fence(s).0 <= Quartiles(s).0 && Quartiles(s).1 <= Fence(s).1
  {
    QuartileIndicesInBounds(|s|);
  }

  /** Every sample between the quartiles is kept. */
  lemma InterquartileKept(s: seq<real>, v: real)
    requires Sorted(s) && |s| >= 4
    requires v in s && Quartiles(s).0 <= v <= Quartiles(s).1
    ensures v in Retained(s)
  {
    QuartilesOrdered(s);
    RetainedFacts(s);
  }

  /** Samples that are all equal lose nothing. */
  lemma AllEqualKeepsAll(s: seq<real>, c: real)
    requires forall k :: 0 <= k < |s| ==> s[k] == c
    ensures Retained(s) == s
  {
    if |s| >= 4 {
      QuartileIndicesInBounds(|s|);
      assert Quartiles(s) == (c, c);
      KeepBetweenAll(s, c, c);
    }
  }

  // ---------------------------------------------------------------------
  // Min, max, mean, cv, percentile
  // ---------------------------------------------------------------------

  function MinB(a: Bound, b: Bound): Bound {
    match (a, b)
    case (NegInfinity, _) => NegInfinity
    case (_, NegInfinity) => NegInfinity
    case (PosInfinity, _) => b
    case (_, PosInfinity) => a
    case (Finite(x), Finite(y)) => if x <= y then a else b
  }

  function MaxB(a: Bound, b: Bound): Bound {
    match (a, b)
    case (PosInfinity, _) => PosInfinity
    case (_, PosInfinity) => PosInfinity
    case (NegInfinity, _) => b
    case (_, NegInfinity) => a
    case (Finite(x), Finite(y)) => if x >= y then a else b
  }

  /** The scan of #calculateMinMax over a prefix: Math.min from +Infinity. */
  function MinOf(s: seq<real>): Bound
    decreases |s|
  {
    if s == [] then PosInfinity else MinB(Finite(s[|s| - 1]), MinOf(s[..|s| - 1]))
  }

  function MaxOf(s: seq<real>): Bound
    decreases |s|
  {
    if s == [] then NegInfinity else MaxB(Finite(s[|s| - 1]), MaxOf(s[..|s| - 1]))
  }

  /** min is +Infinity and max is -Infinity for no samples; otherwise both
      are samples, and every sample lies between them. */
  lemma {:induction false} MinMaxFacts(s: seq<real>)
    ensures s == [] ==> MinOf(s) == PosInfinity && MaxOf(s) == NegInfinity
    ensures s != [] ==> MinOf(s).Finite? && MinOf(s).value in s && MaxOf(s).Finite? && MaxOf(s).value in s
    ensures s != [] ==> forall v :: v in s ==> MinOf(s).value <= v <= MaxOf(s).value
    decreases |s|
  {
    if s != [] {
      var init := s[..|s| - 1];
      MinMaxFacts(init);
      assert s == init + [s[|s| - 1]];
      assert forall v :: v in s ==> v in init || v == s[|s| - 1];
    }
  }

  function Sum(s: seq<real>): real
    decreases |s|
  {
    if s == [] then 0.0 else Sum(s[..|s| - 1]) + s[|s| - 1]
  }

  function SumOfSquares(s: seq<real>): real
    decreases |s|
  {
    if s == [] then 0.0 else SumOfSquares(s[..|s| - 1]) + s[|s| - 1] * s[|s| - 1]
  }

  /** #calculateMean as written: the returns for 0 and 1 samples leave
      `#mean` unset. */
  function MeanAsWritten(s: seq<real>): Option<real> {
    if |s| < 2 then None else Some(Sum(s) / (|s| as real))
  }

  /** #calculateMean as evidently intended: 0 for no samples, the sample
      itself for one, the average otherwise. */
  function MeanOf(s: seq<real>): real {
    if |s| == 0 then 0.0
    else if |s| == 1 then s[0]
    else Sum(s) / (|s| as real)
  }

  /** The as-written mean is unset for a single sample, where the
      intended mean is that sample. */
  lemma MeanUnsetForOneSample(x: real)
    ensures MeanAsWritten([x]) == None
    ensures MeanOf([x]) == x
    ensures forall s :: |s| >= 2 ==> MeanAsWritten(s) == Some(MeanOf(s))
  {
  }

  lemma {:induction false} SumBounds(s: seq<real>, lo: real, hi: real)
    requires forall v :: v in s ==> lo <= v <= hi
    ensures (|s| as real) * lo <= Sum(s) <= (|s| as real) * hi
    decreases |s|
  {
    if s != [] {
      var init := s[..|s| - 1];
      assert forall v :: v in init ==> v in s;
      SumBounds(init, lo, hi);
      assert s[|s| - 1] in s;
    }
  }

  lemma AverageBounds(n: real, lo: real, hi: real, sum: real)
    requires n > 0.0 && n * lo <= sum <= n * hi
    ensures lo <= sum / n <= hi
  {
    assert lo == (n * lo) / n && hi == (n * hi) / n;
  }

  /** The mean of at least one sample lies between min and max. */
  lemma MeanBetweenMinMax(s: seq<real>)
    requires s != []
    ensures MinOf(s).Finite? && MaxOf(s).Finite? && MinOf(s).value <= MeanOf(s) <= MaxOf(s).value
  {
    MinMaxFacts(s);
    if |s| >= 2 {
      SumBounds(s, MinOf(s).value, MaxOf(s).value);
      AverageBounds(|s| as real, MinOf(s).value, MaxOf(s).value, Sum(s));
    } else {
      assert s[0] in s;
    }
  }

  /** #calculateCv: zero below two samples; otherwise the variance
      n/(n-1) * (mean of squares - mean squared) under the square root. */
  function CvSpec(s: seq<real>, mean: real): Cv {
    if |s| < 2 then CvZero
    else
      var n := |s| as real;
      var avgSquares := SumOfSquares(s) * (1.0 / n);
      CvOf(n / (n - 1.0) * (avgSquares - mean * mean), mean)
  }

  /** The induction step of SquaresDominate, as arithmetic. */
  lemma SquaresStep(n: real, q: real, t: real, x: real)
    requires n > 0.0 && n * q >= t * t
    ensures (n + 1.0) * (q + x * x) >= (t + x) * (t + x)
  {
    var e := q + n * x * x - 2.0 * t * x;
    var d := t - n * x;
    assert (n + 1.0) * (q + x * x) - (t + x) * (t + x) == (n * q - t * t) + e;
    assert n * e == n * q + (n * x) * (n * x) - 2.0 * t * (n * x);
    assert d * d == t * t + (n * x) * (n * x) - 2.0 * t * (n * x);
    assert d * d >= 0.0;
    assert n * e >= 0.0;
  }

  /** n times the sum of squares is at least the square of the sum. */
  lemma {:induction false} SquaresDominate(s: seq<real>)
    ensures (|s| as real) * SumOfSquares(s) >= Sum(s) * Sum(s)
    decreases |s|
  {
    if s != [] {
      var init := s[..|s| - 1];
      var x := s[|s| - 1];
      SquaresDominate(init);
      if init == [] {
        assert Sum(s) == x && SumOfSquares(s) == x * x;
      } else {
        SquaresStep(|init| as real, SumOfSquares(init), Sum(init), x);
      }
    }
  }

  /** With the mean computed from the same samples, the value under the
      square root is never negative, so cv is a number. */
  lemma VarianceNonNegative(s: seq<real>)
    requires |s| >= 2
    ensures CvSpec(s, MeanOf(s)).variance >= 0.0
  {
    SquaresDominate(s);
    var n := |s| as real;
    var m := Sum(s) / n;
    var sq := SumOfSquares(s);
    assert sq * (1.0 / n) - m * m == (n * sq - Sum(s) * Sum(s)) / (n * n);
  }

  /** Math.ceil on reals. */
  function Ceil(x: real): int {
    if x == x.Floor as real then x.Floor else x.Floor + 1
  }

  /** `percentile`: the nearest-rank sample `#all[ceil(n * p / 100) - 1]`,
      undefined when that index is out of range. */
  function NearestRank(s: seq<real>, p: real): Option<real> {
    var i := Ceil((|s| as real) * (p / 100.0)) - 1;
    if 0 <= i < |s| then Some(s[i]) else None
  }

  /** Within [0, 100] the index never passes the end: p = 100 gives the
      largest sample, and p = 0 gives undefined. */
  lemma NearestRankFacts(s: seq<real>, p: real)
    requires 0.0 <= p <= 100.0
    ensures Ceil((|s| as real) * (p / 100.0)) - 1 < |s|
    ensures s != [] && p > 0.0 ==> NearestRank(s, p).Some?
    ensures s != [] ==> NearestRank(s, 100.0) == Some(s[|s| - 1])
    ensures NearestRank(s, 0.0) == None
  {
    var n := |s| as real;
    var x := n * (p / 100.0);
    assert 0.0 <= x <= n;
    assert n * (100.0 / 100.0) == n;
    assert (n as int) as real == n;
    if s != [] && p > 0.0 {
      assert x > 0.0;
    }
  }

  // ---------------------------------------------------------------------
  // The class
  // ---------------------------------------------------------------------

  class StatisticalHistogram {
    var all: seq<real>
    var min: Option<Bound>
    var max: Option<Bound>
    var mean: Option<real>
    var cv: Option<Cv>
    var finished: bool
    /** Every value `record` accepted, in order. */
    ghost var recorded: seq<real>

    /** Before `finish` the samples are those recorded and nothing is
        computed; after it they are the retained ones, in order, and the
        statistics describe them. */
    ghost predicate Valid()
      reads this
    {
      (!finished ==> all == recorded && min == None && max == None && mean == None && cv == None) &&
      (finished ==>
        all == Retained(SortSpec(recorded)) &&
        min == Some(MinOf(all)) && max == Some(MaxOf(all)) &&
        mean == Some(MeanOf(all)) && cv == Some(CvSpec(all, MeanOf(all))))
    }

    constructor()
      ensures Valid() && !finished && recorded == []
    {
      all, min, max, mean, cv, finished := [], None, None, None, None, false;
      recorded := [];
    }

    /** `get samples`: the number of retained samples. */
    method Samples() returns (r: Reply<nat>)
      requires Valid()
      ensures !finished ==> r == Thrown(NotFinished)
      ensures finished ==> r == Value(|Retained(SortSpec(recorded))|)
    {
      if !finished {
        return Thrown(NotFinished);
      }
      return Value(|all|);
    }

    /** `get min`. */
    method Min() returns (r: Reply<Bound>)
      requires Valid()
      ensures !finished ==> r == Thrown(NotFinished)
      ensures finished ==> r == Value(MinOf(Retained(SortSpec(recorded))))
    {
      if !finished {
        return Thrown(NotFinished);
      }
      return Value(min.value);
    }

    /** `get max`. */
    method Max() returns (r: Reply<Bound>)
      requires Valid()
      ensures !finished ==> r == Thrown(NotFinished)
      ensures finished ==> r == Value(MaxOf(Retained(SortSpec(recorded))))
    {
      if !finished {
        return Thrown(NotFinished);
      }
      return Value(max.value);
    }

    /** `get mean`. */
    method Mean() returns (r: Reply<real>)
      requires Valid()
      ensures !finished ==> r == Thrown(NotFinished)
      ensures finished ==> r == Value(MeanOf(Retained(SortSpec(recorded))))
    {
      if !finished {
        return Thrown(NotFinished);
      }
      return Value(mean.value);
    }

    /** `get cv`. */
    method GetCv() returns (r: Reply<Cv>)
      requires Valid()
      ensures !finished ==> r == Thrown(NotFinished)
      ensures finished ==> r == Value(CvSpec(Retained(SortSpec(recorded)), MeanOf(Retained(SortSpec(recorded)))))
      ensures finished ==> (|all| < 2 <==> r.v == CvZero)
    {
      if !finished {
        return Thrown(NotFinished);
      }
      return Value(cv.value);
    }

    /** `record`: the argument is validated first, then the seal; an
        accepted value is appended at the end. */
    method Record(value: NumberArg) returns (r: Reply<()>)
      requires Valid()
      modifies this
      ensures Valid()
      ensures ValidateNumber(value, 0.0, None).Some? ==>
        r == Thrown(ValidateNumber(value, 0.0, None).value) && unchanged(this)
      ensures ValidateNumber(value, 0.0, None).None? && old(finished) ==>
        r == Thrown(AlreadyFinished) && unchanged(this)
      ensures ValidateNumber(value, 0.0, None).None? && !old(finished) ==>
        r == Value(()) && !finished && all == old(all) + [value.x] && recorded == old(recorded) + [value.x]
    {
      var invalid := ValidateNumber(value, 0.0, None);
      if invalid.Some? {
        return Thrown(invalid.value);
      }
      if finished {
        return Thrown(AlreadyFinished);
      }
      all := all + [value.x];
      recorded := recorded + [value.x];
      return Value(());
    }

    /** `percentile`: the seal is checked first, then the argument. */
    method Percentile(p: NumberArg) returns (r: Reply<Option<real>>)
      requires Valid()
      ensures !finished ==> r == Thrown(NotFinished)
      ensures finished && ValidateNumber(p, 0.0, Some(100.0)).Some? ==>
        r == Thrown(ValidateNumber(p, 0.0, Some(100.0)).value)
      ensures finished && ValidateNumber(p, 0.0, Some(100.0)).None? ==>
        r == Value(NearestRank(Retained(SortSpec(recorded)), p.x))
    {
      if !finished {
        return Thrown(NotFinished);
      }
      var invalid := ValidateNumber(p, 0.0, Some(100.0));
      if invalid.Some? {
        return Thrown(invalid.value);
      }
      return Value(NearestRank(all, p.x));
    }

    /** `finish`: only once. */
    method Finish() returns (r: Reply<()>)
      requires Valid()
      modifies this
      ensures Valid() && finished && recorded == old(recorded)
      ensures old(finished) ==> r == Thrown(AlreadyFinished) && unchanged(this)
      ensures !old(finished) ==> r == Value(())
    {
      if finished {
        return Thrown(AlreadyFinished);
      }
      finished := true;
      RemoveOutliers();
      CalculateMinMax();
      CalculateMean();
      CalculateCv();
      return Value(());
    }

    method RemoveOutliers()
      modifies this
      ensures all == Retained(SortSpec(old(all)))
      ensures min == old(min) && max == old(max) && mean == old(mean) && cv == old(cv)
      ensures finished == old(finished) && recorded == old(recorded)
    {
      var sorted := SortSpec(all);
      all := sorted;
      var size := |sorted|;
      if size < 4 {
        return;
      }
      QuartileIndicesInBounds(size);
      var q1, q3;
      if size % 4 == 1 || size % 4 == 0 {
        q1 := (sorted[size / 4 - 1] + sorted[size / 4]) / 2.0;
        q3 := (sorted[(3 * size + 3) / 4 - 1] + sorted[(3 * size + 3) / 4]) / 2.0;
      } else {
        q1 := sorted[size / 4];
        q3 := sorted[3 * size / 4];
      }
      var iqr := (q3 - q1) * 1.5;
      var minValue := q1 - iqr * 1.5;
      var maxValue := q3 + iqr * 1.5;
      assert (minValue, maxValue) == Fence(sorted);
      all := KeepBetween(sorted, minValue, maxValue);
    }

    method CalculateMinMax()
      modifies this
      ensures min == Some(MinOf(all)) && max == Some(MaxOf(all))
      ensures all == old(all) && mean == old(mean) && cv == old(cv)
      ensures finished == old(finished) && recorded == old(recorded)
    {
      min := Some(PosInfinity);
      max := Some(NegInfinity);
      var i := 0;
      while i < |all|
        invariant 0 <= i <= |all|
        invariant min == Some(MinOf(all[..i])) && max == Some(MaxOf(all[..i]))
        invariant all == old(all) && mean == old(mean) && cv == old(cv)
        invariant finished == old(finished) && recorded == old(recorded)
      {
        assert all[..i + 1][..i] == all[..i];
        min := Some(MinB(Finite(all[i]), min.value));
        max := Some(MaxB(Finite(all[i]), max.value));
        i := i + 1;
      }
      assert all[..i] == all;
    }

    /** #calculateMean, with the single- and no-sample cases assigned as
        intended. */
    method CalculateMean()
      modifies this
      ensures mean == Some(MeanOf(all))
      ensures all == old(all) && min == old(min) && max == old(max) && cv == old(cv)
      ensures finished == old(finished) && recorded == old(recorded)
    {
      if |all| == 0 {
        mean := Some(0.0);
        return;
      }
      if |all| == 1 {
        mean := Some(all[0]);
        return;
      }
      mean := Some(Sum(all) / (|all| as real));
    }

    method CalculateCv()
      requires mean.Some?
      modifies this
      ensures all == old(all) && min == old(min) && max == old(max) && mean == old(mean)
      ensures cv == Some(CvSpec(all, mean.value))
      ensures finished == old(finished) && recorded == old(recorded)
    {
      if |all| < 2 {
        cv := Some(CvZero);
        return;
      }
      var n := |all| as real;
      var m := mean.value;
      var avgSquares := SumOfSquares(all) * (1.0 / n);
      var variance := n / (n - 1.0) * (avgSquares - m * m);
      assert CvSpec(all, m) == CvOf(variance, m);
      cv := Some(CvOf(variance, m));
    }
  }

  /** After `finish` the retained samples are sorted, are drawn from the
      recorded ones, and lie between min and max. */
  lemma FinishedSamples(recorded: seq<real>)
    ensures var kept := Retained(SortSpec(recorded));
      Sorted(kept) && multiset(kept) <= multiset(recorded) &&
      (|recorded| < 4 ==> multiset(kept) == multiset(recorded)) &&
      (kept != [] ==> (MinOf(kept).Finite? && MaxOf(kept).Finite? &&
                       forall v :: v in kept ==> MinOf(kept).value <= v <= MaxOf(kept).value)) &&
      (kept == [] ==> MinOf(kept) == PosInfinity && MaxOf(kept) == NegInfinity)
  {
    SortSpecSorted(recorded);
    RetainedFacts(SortSpec(recorded));
    MinMaxFacts(Retained(SortSpec(recorded)));
  }
}
