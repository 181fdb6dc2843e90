/**
 * Latency statistics of a sequencer, updated batch by batch.
 *
 * Floating point is modelled over the reals; the one non-number kept is NaN, which dividing
 * nothing by nothing gives and which every later operation hands on.
 */
module LatencyStatistics {
  import opened Prelude

  datatype Float = NaN | Num(value: real)

  datatype StatisticsUpdate = Success(latency: real, newLatestBlockId: nat) | Failure

  datatype CumulativeUpdates = CumulativeUpdates(
    failureCount: nat,
    latestBlockId: Option<nat>,
    latency: real,
    latencySquares: real)

  /** The fold over one batch. */
  function Cumulate(us: seq<StatisticsUpdate>): CumulativeUpdates {
    if us == [] then CumulativeUpdates(0, None, 0.0, 0.0)
    else
      var acc, u := Cumulate(us[..|us| - 1]), us[|us| - 1];
      match u
      case Failure => acc.(failureCount := SaturatingAdd(acc.failureCount, 1))
      case Success(latency, id) =>
        acc.(latestBlockId := Some(if acc.latestBlockId.Some? && acc.latestBlockId.value > id
                                   then acc.latestBlockId.value else id),
             latency := acc.latency + latency,
             latencySquares := latency * latency + acc.latencySquares)
  }

  /** Divides by a count; by zero only where the dividend is zero too. */
  function Over(top: real, count: real): Float {
    if count == 0.0 then NaN else Num(top / count)
  }

  function AvgOf(avgOld: real, latency: real, size: real, added: real): Float {
    Over(avgOld * size + latency, size + added)
  }

  function VarOf(avgOld: real, m: real, varOld: real, latency: real, squares: real, size: real, added: real): Float {
    Over(2.0 * latency * (0.0 - m) + (added * (m * m) + (varOld * size + (m - avgOld) * (m - avgOld) * size)) + squares,
         size + added)
  }

  function CumulativeAvg(avgOld: Float, latency: real, size: real, added: real): Float {
    if avgOld.NaN? then NaN else AvgOf(avgOld.value, latency, size, added)
  }

  function CumulativeVar(avgOld: Float, avgNew: Float, varOld: Float, latency: real, squares: real,
                         size: real, added: real): Float
  {
    if avgOld.NaN? || avgNew.NaN? || varOld.NaN? then NaN
    else VarOf(avgOld.value, avgNew.value, varOld.value, latency, squares, size, added)
  }

  datatype Stats = Stats(avg: Float, variance: Float, sampleSize: nat, latestBlockId: nat, errors: nat)

  function Apply(st: Stats, us: seq<StatisticsUpdate>): Stats {
    var c := Cumulate(us);
    var added := if |us| >= c.failureCount then |us| - c.failureCount else 0;
    var avg := CumulativeAvg(st.avg, c.latency, st.sampleSize as real, added as real);
    Stats(avg,
          CumulativeVar(st.avg, avg, st.variance, c.latency, c.latencySquares, st.sampleSize as real, added as real),
          SaturatingAdd(st.sampleSize, added),
          if c.latestBlockId.Some? then c.latestBlockId.value else st.latestBlockId,
          SaturatingAdd(st.errors, c.failureCount))
  }

  // ---- Samples -----------------------------------------------------------------------------

  /** The latencies of the successful updates. */
  function Sample(us: seq<StatisticsUpdate>): seq<real> {
    if us == [] then []
    else
      var u := us[|us| - 1];
      Sample(us[..|us| - 1]) + if u.Success? then [u.latency] else []
  }

  function Sum(s: seq<real>): real {
    if s == [] then 0.0 else Sum(s[..|s| - 1]) + s[|s| - 1]
  }

  /** The sum of squared distances from `m`. */
  function Deviation(s: seq<real>, m: real): real {
    if s == [] then 0.0
    else
      var x := s[|s| - 1] - m;
      Deviation(s[..|s| - 1], m) + x * x
  }

  function Mean(s: seq<real>): real
    requires s != []
  {
    Sum(s) / |s| as real
  }

  function Variance(s: seq<real>): real
    requires s != []
  {
    Deviation(s, Mean(s)) / |s| as real
  }

  /** The statistics are those of the sample, computed from scratch. */
  ghost predicate Describes(st: Stats, s: seq<real>) {
    && s != []
    && st.sampleSize == |s|
    && st.avg == Num(Mean(s))
    && st.variance == Num(Variance(s))
  }

  function Squares(s: seq<real>): real {
    Deviation(s, 0.0)
  }

  // Polynomial identities, kept away from everything else.

  lemma SquareOfDifference(x: real, y: real)
    ensures (x - y) * (x - y) == x * x - 2.0 * (x * y) + y * y
  {
  }

  lemma DivideBack(x: real, n: real)
    requires n != 0.0
    ensures x / n * n == x
  {
  }

  lemma DistributeOver(m: real, sum: real, x: real, n: real)
    ensures 2.0 * m * (sum + x) == 2.0 * m * sum + 2.0 * (x * m)
    ensures (n + 1.0) * m * m == n * m * m + m * m
  {
    assert (n + 1.0) * m == n * m + m;
  }

  lemma ShiftIdentity(q: real, a: real, b: real, n: real)
    ensures q - 2.0 * b * (a * n) + n * b * b ==
            q - 2.0 * a * (a * n) + n * a * a + (b - a) * (b - a) * n
  {
    SquareOfDifference(b, a);
    var aa, ab, bb := a * a, b * a, b * b;
    assert (b - a) * (b - a) * n == (bb - 2.0 * ab + aa) * n == bb * n - 2.0 * (ab * n) + aa * n;
    assert n * b * b == bb * n && n * a * a == aa * n;
    assert 2.0 * b * (a * n) == 2.0 * (ab * n) && 2.0 * a * (a * n) == 2.0 * (aa * n);
  }

  lemma {:induction false} DeviationExpands(s: seq<real>, m: real)
    ensures Deviation(s, m) == Squares(s) - 2.0 * m * Sum(s) + |s| as real * m * m
    decreases |s|
  {
    if s != [] {
      var n := |s| - 1;
      DeviationExpands(s[..n], m);
      SquareOfDifference(s[n], m);
      DistributeOver(m, Sum(s[..n]), s[n], n as real);
    }
  }

  lemma {:induction false} ConcatSums(s: seq<real>, t: seq<real>, m: real)
    ensures Sum(s + t) == Sum(s) + Sum(t)
    ensures Deviation(s + t, m) == Deviation(s, m) + Deviation(t, m)
    decreases |t|
  {
    if t == [] {
      assert s + t == s;
    } else {
      var n := |t| - 1;
      var all := s + t;
      assert all[..|all| - 1] == s + t[..n];
      ConcatSums(s, t[..n], m);
    }
  }

  /** Moving the centre of a sample from its mean costs the square of the move per element. */
  lemma DeviationShift(s: seq<real>, a: real, b: real)
    requires a * |s| as real == Sum(s)
    ensures Deviation(s, b) == Deviation(s, a) + (b - a) * (b - a) * |s| as real
  {
    hide Deviation, Sum;
    DeviationExpands(s, a);
    DeviationExpands(s, b);
    ShiftIdentity(Squares(s), a, b, |s| as real);
  }

  /** The batch fold computes the sample's count, sum and squares. */
  lemma {:induction false} CumulateSums(us: seq<StatisticsUpdate>)
    requires |us| <= U64_MAX
    ensures var c := Cumulate(us);
            && c.failureCount + |Sample(us)| == |us|
            && c.latency == Sum(Sample(us))
            && c.latencySquares == Squares(Sample(us))
            && (c.latestBlockId == None <==> Sample(us) == [])
    decreases |us|
  {
    if us != [] {
      var n := |us| - 1;
      CumulateSums(us[..n]);
      var s := Sample(us[..n]);
      if us[n].Success? {
        var all := s + [us[n].latency];
        assert all[..|all| - 1] == s && all[|all| - 1] == us[n].latency;
        assert us[n].latency - 0.0 == us[n].latency;
      } else {
        assert s + [] == s;
      }
    }
  }

  // ---- Exactness ---------------------------------------------------------------------------

  /** The weight of the old average: nothing if there was no old sample. */
  ghost predicate CarriesSample(st: Stats, s: seq<real>) {
    if s == [] then st.sampleSize == 0 && st.avg.Num? && st.variance.Num? else Describes(st, s)
  }

  lemma AvgOfIs(avg: real, latency: real, size: real, added: real, top: real, count: real)
    requires top == avg * size + latency && count == size + added && count != 0.0
    ensures AvgOf(avg, latency, size, added) == Num(top / count)
  {
  }

  lemma VarOfIs(a: real, m: real, v: real, latency: real, squares: real, n: real, k: real, top: real, count: real)
    requires top == 2.0 * latency * (0.0 - m) + (k * (m * m) + (v * n + (m - a) * (m - a) * n)) + squares
    requires count == n + k && count != 0.0
    ensures VarOf(a, m, v, latency, squares, n, k) == Num(top / count)
  {
  }

  lemma MeanIs(s: seq<real>)
    requires s != []
    ensures Mean(s) == Sum(s) / |s| as real
    ensures Variance(s) == Deviation(s, Mean(s)) / |s| as real
  {
  }

  lemma MeanTimesSize(avg: real, s: seq<real>)
    requires s != [] ==> avg == Mean(s)
    ensures avg * |s| as real == Sum(s)
  {
    if s != [] {
      DivideBack(Sum(s), |s| as real);
    }
  }

  lemma VarianceTimesSize(avg: real, variance: real, s: seq<real>)
    requires s != [] ==> avg == Mean(s) && variance == Variance(s)
    ensures variance * |s| as real == Deviation(s, avg)
  {
    if s != [] {
      DivideBack(Deviation(s, avg), |s| as real);
    }
  }

  /** The new average is the mean of the old sample and the batch together. */
  lemma AvgExact(avg: real, s: seq<real>, t: seq<real>)
    requires s != [] ==> avg == Mean(s)
    requires s + t != []
    ensures AvgOf(avg, Sum(t), |s| as real, |t| as real) == Num(Mean(s + t))
  {
    hide Sum, Deviation, Mean, AvgOf;
    ConcatSums(s, t, 0.0);
    MeanTimesSize(avg, s);
    MeanIs(s + t);
    AvgOfIs(avg, Sum(t), |s| as real, |t| as real, Sum(s + t), |s + t| as real);
  }

  /** The new variance is that of the old sample and the batch together. */
  lemma VarExact(avg: real, variance: real, s: seq<real>, t: seq<real>)
    requires s != [] ==> avg == Mean(s) && variance == Variance(s)
    requires s + t != []
    ensures VarOf(avg, Mean(s + t), variance, Sum(t), Squares(t), |s| as real, |t| as real) == Num(Variance(s + t))
  {
    hide Sum, Deviation, Mean, Variance, VarOf;
    var m := Mean(s + t);
    VarNumerator(avg, variance, s, t, m);
    MeanIs(s + t);
    VarOfIs(avg, m, variance, Sum(t), Squares(t), |s| as real, |t| as real, Deviation(s + t, m), |s + t| as real);
  }

  /** Around any centre, the update's numerator is the deviation of both parts together. */
  lemma VarNumerator(avg: real, variance: real, s: seq<real>, t: seq<real>, m: real)
    requires s != [] ==> avg == Mean(s) && variance == Variance(s)
    ensures var n, k := |s| as real, |t| as real;
            Deviation(s + t, m) ==
            2.0 * Sum(t) * (0.0 - m) + (k * (m * m) + (variance * n + (m - avg) * (m - avg) * n)) + Squares(t)
  {
    hide Sum, Deviation, Mean, Variance;
    ConcatSums(s, t, m);
    DeviationExpands(t, m);
    MeanTimesSize(avg, s);
    DeviationShift(s, avg, m);
    VarianceTimesSize(avg, variance, s);
    CrossTerm(Sum(t), m, |t| as real);
  }

  lemma CrossTerm(sum: real, m: real, k: real)
    ensures 2.0 * sum * (0.0 - m) == -(2.0 * m * sum)
    ensures k * (m * m) == k * m * m
  {
  }

  /** One batch, on top of a described sample or of none. */
  lemma ApplyExact(st: Stats, s: seq<real>, us: seq<StatisticsUpdate>)
    requires CarriesSample(st, s) && |s| + |us| <= U64_MAX
    ensures s + Sample(us) != [] ==> Describes(Apply(st, us), s + Sample(us))
    ensures s + Sample(us) == [] ==> Apply(st, us).avg == NaN && Apply(st, us).sampleSize == 0
  {
    hide AvgOf, VarOf, Cumulate, Sample, Sum, Deviation;
    CumulateSums(us);
    var t := Sample(us);
    if s + t != [] {
      AvgExact(st.avg.value, s, t);
      VarExact(st.avg.value, st.variance.value, s, t);
    } else {
      EmptyAvg(st.avg, Cumulate(us).latency);
    }
  }

  lemma EmptyAvg(avg: Float, latency: real)
    ensures CumulativeAvg(avg, latency, 0.0, 0.0) == NaN
  {
  }

  /** NaN is never recovered from. */
  lemma NaNStays(st: Stats, us: seq<StatisticsUpdate>)
    requires st.avg == NaN
    ensures Apply(st, us).avg == NaN
  {
  }

  // ---- The latest block id -----------------------------------------------------------------

  /** Within a batch the id is the largest one reported. */
  lemma {:induction false} LatestOfBatch(us: seq<StatisticsUpdate>)
    ensures var id := Cumulate(us).latestBlockId;
            && (id.Some? ==> exists i :: 0 <= i < |us| && us[i].Success? && us[i].newLatestBlockId == id.value)
            && (forall i :: 0 <= i < |us| && us[i].Success? ==> id.Some? && us[i].newLatestBlockId <= id.value)
    decreases |us|
  {
    if us != [] {
      var n := |us| - 1;
      LatestOfBatch(us[..n]);
      var before := Cumulate(us[..n]).latestBlockId;
      if before.Some? {
        var i :| 0 <= i < n && us[..n][i].Success? && us[..n][i].newLatestBlockId == before.value;
        assert us[i].newLatestBlockId == before.value;
      }
      forall i | 0 <= i < n
        ensures us[..n][i] == us[i]
      {
      }
    }
  }

  ghost predicate HasSuccess(us: seq<StatisticsUpdate>) {
    exists i :: 0 <= i < |us| && us[i].Success?
  }

  /** The largest block id the batch reports. */
  ghost predicate IsLargestId(us: seq<StatisticsUpdate>, id: nat) {
    && (exists i :: 0 <= i < |us| && us[i].Success? && us[i].newLatestBlockId == id)
    && (forall i :: 0 <= i < |us| && us[i].Success? ==> us[i].newLatestBlockId <= id)
  }

  /** A batch without a success keeps the id; any other sets it to the largest one it reports. */
  lemma LatestExact(st: Stats, us: seq<StatisticsUpdate>)
    ensures if HasSuccess(us) then IsLargestId(us, Apply(st, us).latestBlockId)
            else Apply(st, us).latestBlockId == st.latestBlockId
  {
    hide AvgOf, VarOf, Cumulate;
    LatestOfBatch(us);
  }

  /**
   * Across batches it is replaced, not raised: it goes down exactly when a batch reports some
   * id, and none as large as the one on record.
   */
  lemma LatestGoesDownIff(st: Stats, us: seq<StatisticsUpdate>)
    ensures Apply(st, us).latestBlockId < st.latestBlockId <==>
            && (exists i :: 0 <= i < |us| && us[i].Success?)
            && (forall i :: 0 <= i < |us| && us[i].Success? ==> us[i].newLatestBlockId < st.latestBlockId)
  {
    hide AvgOf, VarOf, Cumulate;
    LatestOfBatch(us);
  }

  // ---- Any split into batches --------------------------------------------------------------

  function ApplyAll(st: Stats, batches: seq<seq<StatisticsUpdate>>): Stats {
    if batches == [] then st else Apply(ApplyAll(st, batches[..|batches| - 1]), batches[|batches| - 1])
  }

  function Flatten(batches: seq<seq<StatisticsUpdate>>): seq<StatisticsUpdate> {
    if batches == [] then [] else Flatten(batches[..|batches| - 1]) + batches[|batches| - 1]
  }

  lemma {:induction false} SampleConcat(a: seq<StatisticsUpdate>, b: seq<StatisticsUpdate>)
    ensures Sample(a + b) == Sample(a) + Sample(b)
    decreases |b|
  {
    if b == [] {
      assert a + b == a;
    } else {
      var n := |b| - 1;
      var all := a + b;
      assert all[..|all| - 1] == a + b[..n];
      SampleConcat(a, b[..n]);
    }
  }

  /** On top of any described sample, every split into batches is exact. */
  lemma {:induction false} BatchesExact(st: Stats, s: seq<real>, batches: seq<seq<StatisticsUpdate>>)
    requires Describes(st, s) && |s| + |Flatten(batches)| <= U64_MAX
    ensures Describes(ApplyAll(st, batches), s + Sample(Flatten(batches)))
    decreases |batches|
  {
    if batches == [] {
      assert s + [] == s;
    } else {
      hide Apply, Describes, Sample;
      var n := |batches| - 1;
      var before, last := Flatten(batches[..n]), batches[n];
      BatchesExact(st, s, batches[..n]);
      DescribedNonEmpty(ApplyAll(st, batches[..n]), s + Sample(before));
      SampleSize(before);
      SampleConcat(before, last);
      ApplyExact(ApplyAll(st, batches[..n]), s + Sample(before), last);
      assert s + Sample(before) + Sample(last) == s + (Sample(before) + Sample(last));
    }
  }

  lemma DescribedNonEmpty(st: Stats, s: seq<real>)
    requires Describes(st, s)
    ensures s != [] && CarriesSample(st, s)
  {
  }

  lemma {:induction false} SampleSize(us: seq<StatisticsUpdate>)
    ensures |Sample(us)| <= |us|
    decreases |us|
  {
    if us != [] {
      SampleSize(us[..|us| - 1]);
    }
  }

  /** After any batches it is the largest id of the last batch with a success, if there is one. */
  lemma {:induction false} LatestOfBatches(st: Stats, batches: seq<seq<StatisticsUpdate>>)
    ensures (forall j :: 0 <= j < |batches| ==> !HasSuccess(batches[j])) ==>
              ApplyAll(st, batches).latestBlockId == st.latestBlockId
    ensures forall k :: 0 <= k < |batches| && HasSuccess(batches[k])
                        && (forall j :: k < j < |batches| ==> !HasSuccess(batches[j])) ==>
              IsLargestId(batches[k], ApplyAll(st, batches).latestBlockId)
    decreases |batches|
  {
    hide Apply, HasSuccess, IsLargestId;
    if batches != [] {
      var n := |batches| - 1;
      var before := batches[..n];
      assert forall j :: 0 <= j < n ==> before[j] == batches[j];
      LatestOfBatches(st, before);
      LatestExact(ApplyAll(st, before), batches[n]);
    }
  }

  function Saturated(n: nat): nat {
    if n <= U64_MAX then n else U64_MAX
  }

  lemma {:induction false} FailuresCounted(us: seq<StatisticsUpdate>)
    ensures |Sample(us)| <= |us|
    ensures Cumulate(us).failureCount == Saturated(|us| - |Sample(us)|)
    decreases |us|
  {
    if us != [] {
      FailuresCounted(us[..|us| - 1]);
    }
  }

  /** Errors count the failures of all batches together, sticking at the maximum. */
  lemma {:induction false} ErrorsTotal(st: Stats, batches: seq<seq<StatisticsUpdate>>)
    requires st.errors <= U64_MAX
    ensures |Sample(Flatten(batches))| <= |Flatten(batches)|
    ensures ApplyAll(st, batches).errors == Saturated(st.errors + |Flatten(batches)| - |Sample(Flatten(batches))|)
    decreases |batches|
  {
    if batches != [] {
      hide AvgOf, VarOf, Cumulate, Sample;
      var n := |batches| - 1;
      var before, last := Flatten(batches[..n]), batches[n];
      ErrorsTotal(st, batches[..n]);
      SampleConcat(before, last);
      FailuresCounted(last);
    } else {
      assert Sample([]) == [];
    }
  }

  lemma {:induction false} NaNStaysForAll(st: Stats, batches: seq<seq<StatisticsUpdate>>)
    requires st.avg == NaN
    ensures ApplyAll(st, batches).avg == NaN
    decreases |batches|
  {
    if batches != [] {
      NaNStaysForAll(st, batches[..|batches| - 1]);
      NaNStays(ApplyAll(st, batches[..|batches| - 1]), batches[|batches| - 1]);
    }
  }

  /**
   * Starting from no sample at all, the result is the mean and variance of everything exactly
   * when the first batch holds a success; otherwise it is NaN from then on.
   */
  lemma FirstBatchDecides(st: Stats, batches: seq<seq<StatisticsUpdate>>)
    requires CarriesSample(st, []) && batches != [] && |Flatten(batches)| <= U64_MAX
    ensures Describes(ApplyAll(st, batches), Sample(Flatten(batches))) <==> Sample(batches[0]) != []
    ensures Sample(batches[0]) == [] ==> ApplyAll(st, batches).avg == NaN
  {
    hide Apply, Sample;
    var first, rest := batches[0], batches[1..];
    assert batches == [first] + rest;
    FlattenConcat([first], rest);
    ApplyAllConcat(st, [first], rest);
    assert Flatten([first]) == first by { assert [first][..0] == []; }
    assert ApplyAll(st, [first]) == Apply(st, first) by { assert [first][..0] == []; }
    SampleConcat(first, Flatten(rest));
    ApplyExact(st, [], first);
    assert [] + Sample(first) == Sample(first);
    if Sample(first) != [] {
      SampleSize(first);
      BatchesExact(Apply(st, first), Sample(first), rest);
    } else {
      NaNStaysForAll(Apply(st, first), rest);
    }
  }

  lemma {:induction false} FlattenConcat(a: seq<seq<StatisticsUpdate>>, b: seq<seq<StatisticsUpdate>>)
    ensures Flatten(a + b) == Flatten(a) + Flatten(b)
    decreases |b|
  {
    if b == [] {
      assert a + b == a;
    } else {
      var n := |b| - 1;
      var all := a + b;
      assert all[..|all| - 1] == a + b[..n];
      FlattenConcat(a, b[..n]);
    }
  }

  lemma {:induction false} ApplyAllConcat(st: Stats, a: seq<seq<StatisticsUpdate>>, b: seq<seq<StatisticsUpdate>>)
    ensures ApplyAll(st, a + b) == ApplyAll(ApplyAll(st, a), b)
    decreases |b|
  {
    hide Apply;
    if b == [] {
      assert a + b == a;
    } else {
      var n := |b| - 1;
      var all := a + b;
      assert all[..|all| - 1] == a + b[..n];
      ApplyAllConcat(st, a, b[..n]);
    }
  }

  /** The record as it is kept, updated in place. */
  class Statistics {
    var latencyAvg: Float
    var latencyVar: Float
    var sampleSize: nat
    var latestBlockId: nat
    var errors: nat

    function Model(): Stats
      reads this
    {
      Stats(latencyAvg, latencyVar, sampleSize, latestBlockId, errors)
    }

    constructor (st: Stats)
      ensures Model() == st
    {
      latencyAvg, latencyVar := st.avg, st.variance;
      sampleSize, latestBlockId, errors := st.sampleSize, st.latestBlockId, st.errors;
    }

    method ApplyUpdates(us: seq<StatisticsUpdate>)
      modifies this
      ensures Model() == Apply(old(Model()), us)
    {
      var c := Cumulate(us);
      var added := if |us| >= c.failureCount then |us| - c.failureCount else 0;
      errors := SaturatingAdd(errors, c.failureCount);
      if c.latestBlockId.Some? {
        latestBlockId := c.latestBlockId.value;
      }
      var avgOld := latencyAvg;
      var avgNew := CumulativeAvg(avgOld, c.latency, sampleSize as real, added as real);
      latencyVar := CumulativeVar(avgOld, avgNew, latencyVar, c.latency, c.latencySquares,
                                  sampleSize as real, added as real);
      latencyAvg := avgNew;
      sampleSize := SaturatingAdd(sampleSize, added);
    }
  }
}
