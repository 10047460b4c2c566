/** Calibration history, the curve fitted to it, and recalibration of a raw score. */
module Calibration {
  import opened Wrappers
  import opened Isotonic

  const BINS := 5
  const HISTORY_RUNS := 3
  const PRIOR_STRENGTH := 20
  const MIN_SCORES := 100
  const PROMPT_VERSION := 2

  datatype Outcome = CaughtMutant | MissedMutant | OtherOutcome
  datatype Record = Record(modelVersion: Option<string>, raw: Option<real>, outcome: Outcome)

  datatype Row = Row(count: int, missed: int, mean: Option<real>)

  /** promptVersion is None when the stored value is not an integer. */
  datatype Run = Run(runId: string, modelVersion: Option<string>, promptVersion: Option<int>, rows: seq<Row>)

  type State = seq<Run>

  datatype Point = Point(mean: real, count: int, calibrated: real)
  datatype Curve = Curve(modelVersion: string, promptVersion: int, points: seq<Point>)

  function Edge(bin: int): real {
    bin as real / 5.0
  }

  /** The bin of a raw score: scores below 0 count as 0, the last bin is open above. */
  function CalibrationBin(p: real): nat {
    var scaled := (if p < 0.0 then 0.0 else p) * 5.0;
    if scaled.Floor < BINS - 1 then scaled.Floor else BINS - 1
  }

  /** Where the scores of a bin lie; the outer bins are open outwards. */
  predicate InBin(p: real, bin: int) {
    (bin > 0 ==> p >= Edge(bin)) && (bin < BINS - 1 ==> p < Edge(bin + 1))
  }

  lemma BinHolds(p: real)
    ensures forall bin: nat :: bin < BINS ==> (InBin(p, bin) <==> bin == CalibrationBin(p))
  {
  }

  // ----- calibration_curve -----

  predicate ValidRow(row: Row) {
    0 <= row.count && 0 <= row.missed <= row.count
  }

  predicate Counts(run: Run, bin: nat) {
    bin < |run.rows| && ValidRow(run.rows[bin])
  }

  function RowCount(run: Run, bin: nat): nat {
    if Counts(run, bin) then run.rows[bin].count else 0
  }

  function RowMissed(run: Run, bin: nat): nat
    ensures RowMissed(run, bin) <= RowCount(run, bin)
  {
    if Counts(run, bin) then run.rows[bin].missed else 0
  }

  function RowScores(run: Run, bin: nat): real {
    if Counts(run, bin) && run.rows[bin].count > 0 && run.rows[bin].mean.Some?
    then run.rows[bin].mean.value * run.rows[bin].count as real else 0.0
  }

  function BinCount(runs: seq<Run>, bin: nat): nat {
    if runs == [] then 0 else BinCount(runs[..|runs| - 1], bin) + RowCount(runs[|runs| - 1], bin)
  }

  function BinMissed(runs: seq<Run>, bin: nat): nat
    ensures BinMissed(runs, bin) <= BinCount(runs, bin)
  {
    if runs == [] then 0 else BinMissed(runs[..|runs| - 1], bin) + RowMissed(runs[|runs| - 1], bin)
  }

  function BinScores(runs: seq<Run>, bin: nat): real {
    if runs == [] then 0.0 else BinScores(runs[..|runs| - 1], bin) + RowScores(runs[|runs| - 1], bin)
  }

  function Total(runs: seq<Run>): nat {
    BinCount(runs, 0) + BinCount(runs, 1) + BinCount(runs, 2) + BinCount(runs, 3) + BinCount(runs, 4)
  }

  function TotalMissed(runs: seq<Run>): nat
    ensures TotalMissed(runs) <= Total(runs)
  {
    BinMissed(runs, 0) + BinMissed(runs, 1) + BinMissed(runs, 2) + BinMissed(runs, 3) + BinMissed(runs, 4)
  }

  function ForModel(state: State, model: string): State {
    if state == [] then []
    else ForModel(state[..|state| - 1], model) +
         if state[|state| - 1].modelVersion == Some(model) then [state[|state| - 1]] else []
  }

  /** The largest integer prompt version, if any run has one. */
  function LatestPrompt(runs: seq<Run>): Option<int> {
    if runs == [] then None
    else
      var earlier, last := LatestPrompt(runs[..|runs| - 1]), runs[|runs| - 1].promptVersion;
      if last.None? then earlier
      else if earlier.None? || earlier.value < last.value then last
      else earlier
  }

  function ForPrompt(runs: seq<Run>, prompt: int): seq<Run> {
    if runs == [] then []
    else ForPrompt(runs[..|runs| - 1], prompt) +
         if runs[|runs| - 1].promptVersion == Some(prompt) then [runs[|runs| - 1]] else []
  }

  /** The observed miss rate over all bins. */
  function MissRate(runs: seq<Run>): real
    requires Total(runs) > 0
  {
    TotalMissed(runs) as real / Total(runs) as real
  }

  function BinWeight(runs: seq<Run>, bin: nat): real {
    (BinCount(runs, bin) + PRIOR_STRENGTH) as real
  }

  /** The bin's miss rate, drawn towards the overall one. */
  function BinRate(runs: seq<Run>, bin: nat): real
    requires Total(runs) > 0
  {
    (BinMissed(runs, bin) as real + PRIOR_STRENGTH as real * MissRate(runs)) / BinWeight(runs, bin)
  }

  function BinMean(runs: seq<Run>, bin: nat): real {
    if BinCount(runs, bin) > 0 then BinScores(runs, bin) / BinCount(runs, bin) as real
    else (Edge(bin) + Edge(bin + 1)) / 2.0
  }

  function Rates(runs: seq<Run>): seq<real>
    requires Total(runs) > 0
  {
    [BinRate(runs, 0), BinRate(runs, 1), BinRate(runs, 2), BinRate(runs, 3), BinRate(runs, 4)]
  }

  function Weights(runs: seq<Run>): seq<real> {
    [BinWeight(runs, 0), BinWeight(runs, 1), BinWeight(runs, 2), BinWeight(runs, 3), BinWeight(runs, 4)]
  }

  function Calibrated(points: seq<Point>): seq<real> {
    seq(|points|, i requires 0 <= i < |points| => points[i].calibrated)
  }

  /** One point per bin, with the best non-decreasing fit of the smoothed rates. */
  ghost predicate IsFitOf(runs: seq<Run>, points: seq<Point>) {
    && Total(runs) > 0 && |points| == BINS
    && (forall bin :: 0 <= bin < BINS ==>
          points[bin].mean == BinMean(runs, bin) && points[bin].count == BinCount(runs, bin))
    && Fits(Rates(runs), Weights(runs), Calibrated(points))
  }

  method CalibrationCurve(state: State, model: Option<string>) returns (curve: Option<Curve>)
    ensures curve.Some? <==>
      && model.Some? && LatestPrompt(ForModel(state, model.value)).Some?
      && var runs := ForModel(state, model.value);
         Total(ForPrompt(runs, LatestPrompt(runs).value)) >= MIN_SCORES
    ensures curve.Some? ==>
      var runs := ForModel(state, model.value);
      var prompt := LatestPrompt(runs).value;
      && curve.value.modelVersion == model.value && curve.value.promptVersion == prompt
      && IsFitOf(ForPrompt(runs, prompt), curve.value.points)
  {
    if model.None? {
      return None;
    }
    var runs := ForModel(state, model.value);
    if runs == [] {
      return None;
    }
    var prompt := LatestPrompt(runs);
    if prompt.None? {
      return None;
    }
    runs := ForPrompt(runs, prompt.value);
    var points := FitPoints(runs);
    if points.None? {
      return None;
    }
    curve := Some(Curve(model.value, prompt.value, points.value));
  }

  method FitPoints(runs: seq<Run>) returns (points: Option<seq<Point>>)
    ensures points.Some? <==> Total(runs) >= MIN_SCORES
    ensures points.Some? ==> IsFitOf(runs, points.value)
  {
    var totals, misses, sums := SumRuns(runs);
    var total := totals[0] + totals[1] + totals[2] + totals[3] + totals[4];
    if total < MIN_SCORES {
      return None;
    }
    var prior := (misses[0] + misses[1] + misses[2] + misses[3] + misses[4]) as real / total as real;
    assert prior == MissRate(runs);
    var rates, weights, means := SmoothBins(runs, totals, misses, sums, prior);
    var fitted := IsotonicRates(rates, weights);
    var finished := seq(BINS, b requires 0 <= b < BINS => Point(means[b], totals[b], fitted[b]));
    assert Calibrated(finished) == fitted;
    points := Some(finished);
  }

  method SmoothBins(ghost runs: seq<Run>, totals: seq<nat>, misses: seq<nat>, sums: seq<real>, prior: real)
    returns (rates: seq<real>, weights: seq<real>, means: seq<real>)
    requires Total(runs) > 0 && prior == MissRate(runs) && Summed(runs, totals, misses, sums)
    ensures rates == Rates(runs) && weights == Weights(runs) && Positive(weights)
    ensures |means| == BINS && forall b: nat :: b < BINS ==> means[b] == BinMean(runs, b)
  {
    rates, weights, means := [], [], [];
    for bin := 0 to BINS
      invariant |rates| == |weights| == |means| == bin
      invariant forall b: nat :: b < bin ==> rates[b] == BinRate(runs, b)
      invariant forall b: nat :: b < bin ==> weights[b] == BinWeight(runs, b) && weights[b] > 0.0
      invariant forall b: nat :: b < bin ==> means[b] == BinMean(runs, b)
    {
      var count := totals[bin];
      var weight := (count + PRIOR_STRENGTH) as real;
      var rate := (misses[bin] as real + PRIOR_STRENGTH as real * prior) / weight;
      assert rate == BinRate(runs, bin);
      means := means + [if count > 0 then sums[bin] / count as real else (Edge(bin) + Edge(bin + 1)) / 2.0];
      rates, weights := rates + [rate], weights + [weight];
    }
    assert rates == Rates(runs) && weights == Weights(runs);
  }

  ghost predicate Summed(runs: seq<Run>, totals: seq<nat>, misses: seq<nat>, sums: seq<real>) {
    && |totals| == |misses| == |sums| == BINS
    && forall b: nat :: b < BINS ==>
         totals[b] == BinCount(runs, b) && misses[b] == BinMissed(runs, b) && sums[b] == BinScores(runs, b)
  }

  method SumRuns(runs: seq<Run>) returns (totals: seq<nat>, misses: seq<nat>, sums: seq<real>)
    ensures Summed(runs, totals, misses, sums)
  {
    totals, misses, sums := [0, 0, 0, 0, 0], [0, 0, 0, 0, 0], [0.0, 0.0, 0.0, 0.0, 0.0];
    for r := 0 to |runs|
      invariant Summed(runs[..r], totals, misses, sums)
    {
      totals, misses, sums := AddRun(runs[r], totals, misses, sums);
      assert runs[..r + 1][..r] == runs[..r];
    }
    assert runs[..|runs|] == runs;
  }

  method AddRun(run: Run, totals0: seq<nat>, misses0: seq<nat>, sums0: seq<real>)
    returns (totals: seq<nat>, misses: seq<nat>, sums: seq<real>)
    requires |totals0| == |misses0| == |sums0| == BINS
    ensures |totals| == |misses| == |sums| == BINS
    ensures forall b: nat :: b < BINS ==>
      && totals[b] == totals0[b] + RowCount(run, b) && misses[b] == misses0[b] + RowMissed(run, b)
      && sums[b] == sums0[b] + RowScores(run, b)
  {
    totals, misses, sums := totals0, misses0, sums0;
    var n := if |run.rows| < BINS then |run.rows| else BINS;
    for bin := 0 to n
      invariant |totals| == |misses| == |sums| == BINS
      invariant forall b: nat :: b < bin ==>
        && totals[b] == totals0[b] + RowCount(run, b) && misses[b] == misses0[b] + RowMissed(run, b)
        && sums[b] == sums0[b] + RowScores(run, b)
      invariant forall b: nat :: bin <= b < BINS ==>
        totals[b] == totals0[b] && misses[b] == misses0[b] && sums[b] == sums0[b]
    {
      var row := run.rows[bin];
      if ValidRow(row) {
        totals := totals[bin := totals[bin] + row.count];
        misses := misses[bin := misses[bin] + row.missed];
        if row.count > 0 && row.mean.Some? {
          sums := sums[bin := sums[bin] + row.mean.value * row.count as real];
        }
      }
    }
  }

  // ----- what the curve promises -----

  lemma RateInRange(missed: nat, count: nat, prior: real)
    requires missed <= count && 0.0 <= prior <= 1.0
    ensures var weight := (count + PRIOR_STRENGTH) as real;
            var rate := (missed as real + PRIOR_STRENGTH as real * prior) / weight;
            0.0 <= rate <= 1.0 && rate * weight == missed as real + PRIOR_STRENGTH as real * prior
  {
  }

  lemma MissRateInRange(runs: seq<Run>)
    requires Total(runs) > 0
    ensures 0.0 <= MissRate(runs) <= 1.0
    ensures MissRate(runs) * Total(runs) as real == TotalMissed(runs) as real
  {
    hide Total, TotalMissed, BinMissed, BinCount;
    Quotient(TotalMissed(runs), Total(runs));
  }

  lemma Quotient(missed: nat, total: nat)
    requires missed <= total && total > 0
    ensures 0.0 <= missed as real / total as real <= 1.0
    ensures missed as real / total as real * total as real == missed as real
  {
  }

  lemma SumFive(x: seq<real>, w: seq<real>)
    requires |x| == |w| == 5
    ensures Sum(x, w, 5) == x[0] * w[0] + x[1] * w[1] + x[2] * w[2] + x[3] * w[3] + x[4] * w[4]
  {
    assert Sum(x, w, 1) == x[0] * w[0];
    assert Sum(x, w, 2) == Sum(x, w, 1) + x[1] * w[1];
    assert Sum(x, w, 3) == Sum(x, w, 2) + x[2] * w[2];
    assert Sum(x, w, 4) == Sum(x, w, 3) + x[3] * w[3];
    assert Sum(x, w, 5) == Sum(x, w, 4) + x[4] * w[4];
  }

  lemma WeightFive(w: seq<real>)
    requires |w| == 5
    ensures Weight(w, 5) == w[0] + w[1] + w[2] + w[3] + w[4]
  {
    assert Weight(w, 1) == w[0];
    assert Weight(w, 2) == w[0] + w[1];
    assert Weight(w, 3) == Weight(w, 2) + w[2];
    assert Weight(w, 4) == Weight(w, 3) + w[3];
  }

  lemma BinRateInRange(runs: seq<Run>, bin: nat)
    requires Total(runs) > 0
    ensures 0.0 <= BinRate(runs, bin) <= 1.0
    ensures BinRate(runs, bin) * BinWeight(runs, bin) ==
            BinMissed(runs, bin) as real + PRIOR_STRENGTH as real * MissRate(runs)
  {
    hide MissRate, Total, TotalMissed, BinMissed, BinCount;
    MissRateInRange(runs);
    RateInRange(BinMissed(runs, bin), BinCount(runs, bin), MissRate(runs));
  }

  /** The smoothed rates weigh up to the observed miss rate. */
  lemma RatesWeigh(runs: seq<Run>)
    requires Total(runs) > 0
    ensures Sum(Rates(runs), Weights(runs), BINS) == MissRate(runs) * Weight(Weights(runs), BINS)
  {
    hide BinRate, MissRate, BinMissed, BinCount;
    var m := MissRate(runs);
    BinRateInRange(runs, 0);
    BinRateInRange(runs, 1);
    BinRateInRange(runs, 2);
    BinRateInRange(runs, 3);
    BinRateInRange(runs, 4);
    SumFive(Rates(runs), Weights(runs));
    WeightFive(Weights(runs));
    MissRateInRange(runs);
    assert Weight(Weights(runs), BINS) == Total(runs) as real + 100.0;
    Distribute(Total(runs) as real, 100.0, m);
  }

  /**
   Calibrated probabilities rise from bin to bin, lie in [0, 1], and their
   weighted mean is the observed miss rate.
   */
  lemma CurveIsCalibrated(runs: seq<Run>, points: seq<Point>)
    requires IsFitOf(runs, points)
    ensures NonDecreasing(Calibrated(points))
    ensures forall i :: 0 <= i < |points| ==> 0.0 <= points[i].calibrated <= 1.0
    ensures Sum(Calibrated(points), Weights(runs), BINS) == MissRate(runs) * Weight(Weights(runs), BINS)
  {
    RatesWeigh(runs);
    forall bin: nat | bin < BINS ensures 0.0 <= Rates(runs)[bin] <= 1.0 {
      BinRateInRange(runs, bin);
    }
    Range(Rates(runs), Weights(runs), Calibrated(points), 0.0, 1.0);
    assert Lag(Rates(runs), Weights(runs), Calibrated(points), BINS) == 0.0;
    forall i | 0 <= i < |points| ensures 0.0 <= points[i].calibrated <= 1.0 {
      assert Calibrated(points)[i] == points[i].calibrated;
    }
  }

  // ----- recalibrated_probability -----

  datatype Recalibration = Value(p: real) | NoSegment | DivisionByZero

  function Line(p: real, left: Point, right: Point): real
    requires left.mean != right.mean
  {
    left.calibrated + (p - left.mean) / (right.mean - left.mean) * (right.calibrated - left.calibrated)
  }

  /** The first segment whose ends enclose p. */
  function Interpolate(p: real, points: seq<Point>, from: nat): Recalibration
    decreases |points| - from
  {
    if from + 1 >= |points| then NoSegment
    else if points[from].mean <= p <= points[from + 1].mean then
      if points[from].mean == points[from + 1].mean then DivisionByZero
      else Value(Clamp(Line(p, points[from], points[from + 1]), 0.0, 1.0))
    else Interpolate(p, points, from + 1)
  }

  function Recalibrated(p: real, points: seq<Point>): Recalibration {
    if points == [] then NoSegment
    else if p <= points[0].mean then Value(Clamp(points[0].calibrated, 0.0, 1.0))
    else if p >= points[|points| - 1].mean then Value(Clamp(points[|points| - 1].calibrated, 0.0, 1.0))
    else Interpolate(p, points, 0)
  }

  /** Neither means nor calibrated probabilities fall along the curve. */
  ghost predicate Rising(points: seq<Point>) {
    && points != []
    && forall i, j :: 0 <= i <= j < |points| ==>
         points[i].mean <= points[j].mean && points[i].calibrated <= points[j].calibrated
  }

  lemma Ratio(p: real, a: real, b: real)
    requires a < p <= b
    ensures 0.0 < (p - a) / (b - a) <= 1.0
  {
  }

  lemma LineBetween(p: real, left: Point, right: Point)
    requires left.mean < p <= right.mean && left.calibrated <= right.calibrated
    ensures left.calibrated <= Line(p, left, right) <= right.calibrated
  {
    var ratio, rise := (p - left.mean) / (right.mean - left.mean), right.calibrated - left.calibrated;
    Ratio(p, left.mean, right.mean);
    Product(ratio, rise);
    Product(1.0 - ratio, rise);
    assert (1.0 - ratio) * rise == rise - ratio * rise;
  }

  lemma LineRises(p: real, q: real, left: Point, right: Point)
    requires left.mean < p <= q <= right.mean && left.calibrated <= right.calibrated
    ensures Line(p, left, right) <= Line(q, left, right)
  {
    var width, rise := right.mean - left.mean, right.calibrated - left.calibrated;
    var low, high := (p - left.mean) / width, (q - left.mean) / width;
    Ratio(p, left.mean, right.mean);
    assert low <= high;
    Product(high - low, rise);
    assert (high - low) * rise == high * rise - low * rise;
  }

  /** Inside the curve, p falls in one segment of positive width. */
  lemma {:induction false} Segment(p: real, points: seq<Point>, from: nat) returns (i: nat)
    requires Rising(points) && from < |points| && points[from].mean < p < points[|points| - 1].mean
    ensures from <= i && i + 1 < |points| && points[i].mean < p <= points[i + 1].mean
    ensures Interpolate(p, points, from) == Value(Clamp(Line(p, points[i], points[i + 1]), 0.0, 1.0))
    decreases |points| - from
  {
    if p <= points[from + 1].mean {
      i := from;
    } else {
      i := Segment(p, points, from + 1);
    }
  }

  lemma ClampRises(a: real, b: real)
    requires a <= b
    ensures Clamp(a, 0.0, 1.0) <= Clamp(b, 0.0, 1.0)
    ensures 0.0 <= Clamp(a, 0.0, 1.0) <= 1.0
  {
  }

  /** Bounds on the value at p from the points around it. */
  lemma ValueAt(p: real, points: seq<Point>)
    requires Rising(points)
    ensures Recalibrated(p, points).Value? && 0.0 <= Recalibrated(p, points).p <= 1.0
    ensures forall i :: 0 <= i < |points| && points[i].mean < p ==>
      Clamp(points[i].calibrated, 0.0, 1.0) <= Recalibrated(p, points).p
    ensures Recalibrated(p, points).p <= Clamp(points[|points| - 1].calibrated, 0.0, 1.0)
  {
    if points[0].mean < p < points[|points| - 1].mean {
      var i := Segment(p, points, 0);
      LineBetween(p, points[i], points[i + 1]);
      assert forall j :: i + 1 <= j < |points| ==> points[i + 1].mean <= points[j].mean;
      assert forall j :: 0 <= j < |points| && points[j].mean < p ==> points[j].calibrated <= points[i].calibrated;
    }
  }

  /**
   On a rising curve recalibration is total, never divides by zero, stays in
   [0, 1] and never falls as the raw score rises.
   */
  lemma RecalibrationRises(p: real, q: real, points: seq<Point>)
    requires Rising(points) && p <= q
    ensures Recalibrated(p, points).Value? && Recalibrated(q, points).Value?
    ensures 0.0 <= Recalibrated(p, points).p <= Recalibrated(q, points).p <= 1.0
  {
    ValueAt(p, points);
    ValueAt(q, points);
    var last := |points| - 1;
    if q <= points[0].mean || p >= points[last].mean {
    } else if p <= points[0].mean {
      if q < points[last].mean {
        assert points[0].mean < q;
      }
    } else if q >= points[last].mean {
      assert p <= points[last].mean;
    } else {
      var i := Segment(p, points, 0);
      var j := Segment(q, points, 0);
      if q <= points[i + 1].mean {
        SameSegment(q, points, 0, i);
        LineRises(p, q, points[i], points[i + 1]);
        ClampRises(Line(p, points[i], points[i + 1]), Line(q, points[i], points[i + 1]));
      } else {
        LineBetween(p, points[i], points[i + 1]);
        ClampRises(Line(p, points[i], points[i + 1]), points[i + 1].calibrated);
      }
    }
  }

  lemma {:induction false} SameSegment(q: real, points: seq<Point>, from: nat, i: nat)
    requires Rising(points) && from <= i && i + 1 < |points| && points[i].mean < q <= points[i + 1].mean
    ensures Interpolate(q, points, from) == Value(Clamp(Line(q, points[i], points[i + 1]), 0.0, 1.0))
    decreases i - from
  {
    if from < i {
      assert points[from + 1].mean <= points[i].mean;
      SameSegment(q, points, from + 1, i);
    }
  }

  /** A point of the straight line between two others. */
  lemma LineEquation(p: real, left: Point, right: Point)
    requires left.mean < right.mean
    ensures (Line(p, left, right) - left.calibrated) * (right.mean - left.mean) ==
            (p - left.mean) * (right.calibrated - left.calibrated)
  {
    var width, rise := right.mean - left.mean, right.calibrated - left.calibrated;
    var ratio := (p - left.mean) / width;
    assert ratio * width == p - left.mean;
    assert (ratio * rise) * width == (ratio * width) * rise;
  }

  /** Means that rise strictly, and rates in [0, 1]. */
  ghost predicate StrictCurve(points: seq<Point>) {
    && Rising(points) && (forall i, j :: 0 <= i < j < |points| ==> points[i].mean < points[j].mean)
    && forall i :: 0 <= i < |points| ==> 0.0 <= points[i].calibrated <= 1.0
  }

  lemma OnSegment(p: real, points: seq<Point>, i: nat)
    requires StrictCurve(points) && i + 1 < |points| && points[i].mean < p <= points[i + 1].mean
    ensures Recalibrated(p, points) == Value(Line(p, points[i], points[i + 1]))
  {
    LineBetween(p, points[i], points[i + 1]);
    if p < points[|points| - 1].mean {
      SameSegment(p, points, 0, i);
    } else {
      assert i + 1 == |points| - 1;
      LineEnds(points[i], points[i + 1]);
    }
  }

  /**
   The curve goes through its points: a score at a point's mean gets that point's rate, one between two means the rate on
   the straight line between the two points, and one outside the rate of the nearest end.
   */
  ghost predicate GoesThrough(points: seq<Point>, p: real) {
    && Recalibrated(p, points).Value?
    && (forall i :: 0 <= i < |points| && points[i].mean == p ==> Recalibrated(p, points).p == points[i].calibrated)
    && (forall i :: 0 <= i < |points| - 1 && points[i].mean <= p <= points[i + 1].mean ==>
          (Recalibrated(p, points).p - points[i].calibrated) * (points[i + 1].mean - points[i].mean) ==
          (p - points[i].mean) * (points[i + 1].calibrated - points[i].calibrated))
    && (p <= points[0].mean ==> Recalibrated(p, points).p == points[0].calibrated)
    && (p >= points[|points| - 1].mean ==> Recalibrated(p, points).p == points[|points| - 1].calibrated)
  }

  lemma AtPoint(points: seq<Point>, i: nat)
    requires StrictCurve(points) && i < |points|
    ensures Recalibrated(points[i].mean, points) == Value(points[i].calibrated)
  {
    hide Line;
    if i > 0 {
      var left, right := points[i - 1], points[i];
      OnSegment(right.mean, points, i - 1);
      LineEnds(left, right);
    }
  }

  lemma LineEnds(left: Point, right: Point)
    requires left.mean < right.mean
    ensures Line(right.mean, left, right) == right.calibrated
  {
    var width := right.mean - left.mean;
    assert width / width == 1.0;
  }

  lemma RecalibrationInterpolates(points: seq<Point>, p: real)
    requires StrictCurve(points)
    ensures GoesThrough(points, p)
  {
    hide Recalibrated, Line;
    ValueAt(p, points);
    forall i | 0 <= i < |points| && points[i].mean == p ensures Recalibrated(p, points).p == points[i].calibrated {
      AtPoint(points, i);
    }
    forall i | 0 <= i < |points| - 1 && points[i].mean <= p <= points[i + 1].mean
      ensures (Recalibrated(p, points).p - points[i].calibrated) * (points[i + 1].mean - points[i].mean) ==
              (p - points[i].mean) * (points[i + 1].calibrated - points[i].calibrated)
    {
      if points[i].mean == p {
        AtPoint(points, i);
      } else {
        OnSegment(p, points, i);
        LineEquation(p, points[i], points[i + 1]);
      }
    }
    Outside(points, p);
  }

  lemma Outside(points: seq<Point>, p: real)
    requires StrictCurve(points)
    ensures p <= points[0].mean ==> Recalibrated(p, points) == Value(points[0].calibrated)
    ensures p >= points[|points| - 1].mean ==> Recalibrated(p, points) == Value(points[|points| - 1].calibrated)
  {
    AtPoint(points, |points| - 1);
  }

  // ----- next_calibration_state -----

  predicate Scored(r: Record) {
    r.raw.Some? && r.outcome != OtherOutcome && r.modelVersion.Some?
  }

  function Keep(records: seq<Record>, model: Option<string>): seq<Record> {
    if records == [] then []
    else
      var last := records[|records| - 1];
      Keep(records[..|records| - 1], model) +
      if Scored(last) && (model.None? || last.modelVersion == model) then [last] else []
  }

  lemma {:induction false} KeepScored(records: seq<Record>, model: Option<string>)
    ensures forall r :: r in Keep(records, model) ==> Scored(r) && (model.Some? ==> r.modelVersion == model)
  {
    if records != [] {
      KeepScored(records[..|records| - 1], model);
    }
  }

  function Tally(records: seq<Record>, model: Option<string>): nat {
    if records == [] then 0
    else Tally(records[..|records| - 1], model) + if records[|records| - 1].modelVersion == model then 1 else 0
  }

  /** Index of the first record whose model is the most common one. */
  function Leader(records: seq<Record>, n: nat): (best: nat)
    requires 0 < n <= |records|
    ensures best < n
    ensures forall i :: 0 <= i < n ==>
      Tally(records, records[i].modelVersion) <= Tally(records, records[best].modelVersion)
    ensures forall i :: 0 <= i < best ==>
      Tally(records, records[i].modelVersion) < Tally(records, records[best].modelVersion)
  {
    if n == 1 then 0
    else
      var best := Leader(records, n - 1);
      if Tally(records, records[n - 1].modelVersion) > Tally(records, records[best].modelVersion) then n - 1 else best
  }

  predicate Lands(r: Record, bin: nat) {
    r.raw.Some? && CalibrationBin(r.raw.value) == bin
  }

  function CountIn(source: seq<Record>, bin: nat): nat {
    if source == [] then 0
    else CountIn(source[..|source| - 1], bin) + if Lands(source[|source| - 1], bin) then 1 else 0
  }

  function MissedIn(source: seq<Record>, bin: nat): nat
    ensures MissedIn(source, bin) <= CountIn(source, bin)
  {
    if source == [] then 0
    else
      var last := source[|source| - 1];
      MissedIn(source[..|source| - 1], bin) + if Lands(last, bin) && last.outcome == MissedMutant then 1 else 0
  }

  function ScoresIn(source: seq<Record>, bin: nat): real {
    if source == [] then 0.0
    else
      var last := source[|source| - 1];
      ScoresIn(source[..|source| - 1], bin) + if Lands(last, bin) then last.raw.value else 0.0
  }

  function RowOf(source: seq<Record>, bin: nat): Row {
    Row(CountIn(source, bin), MissedIn(source, bin),
        if CountIn(source, bin) > 0 then Some(ScoresIn(source, bin) / CountIn(source, bin) as real) else None)
  }

  function RunOf(source: seq<Record>, model: Option<string>, runId: string): Run {
    Run(runId, model, Some(PROMPT_VERSION),
        [RowOf(source, 0), RowOf(source, 1), RowOf(source, 2), RowOf(source, 3), RowOf(source, 4)])
  }

  predicate Continues(run: Run, model: Option<string>, runId: string) {
    run.modelVersion == model && run.promptVersion == Some(PROMPT_VERSION) && run.runId != runId
  }

  function Matching(previous: State, model: Option<string>, runId: string): State {
    if previous == [] then []
    else
      Matching(previous[..|previous| - 1], model, runId) +
      if Continues(previous[|previous| - 1], model, runId) then [previous[|previous| - 1]] else []
  }

  function Newest(runs: State, n: nat): State {
    if |runs| <= n then runs else runs[|runs| - n..]
  }

  /** The history after one more set of scored records. */
  function NextState(previous: State, records: seq<Record>, runId: string): State {
    var scored := Keep(records, None);
    if scored == [] then previous
    else
      var model := scored[Leader(scored, |scored|)].modelVersion;
      var source := Keep(records, model);
      if |source| < MIN_SCORES then previous
      else Newest(Matching(previous, model, runId), HISTORY_RUNS - 1) + [RunOf(source, model, runId)]
  }

  method NextCalibrationState(previous: State, records: seq<Record>, runId: string) returns (state: State)
    ensures state == NextState(previous, records, runId)
  {
    var scored := Keep(records, None);
    if scored == [] {
      return previous;
    }
    var model := scored[Leader(scored, |scored|)].modelVersion;
    var source := Keep(records, model);
    if |source| < MIN_SCORES {
      return previous;
    }
    KeepScored(records, model);
    var rows := FillRows(source);
    var current := Run(runId, model, Some(PROMPT_VERSION), rows);
    var matching := MatchingRuns(previous, model, runId);
    state := Newest(matching, HISTORY_RUNS - 1) + [current];
  }

  method MatchingRuns(previous: State, model: Option<string>, runId: string) returns (matching: State)
    ensures matching == Matching(previous, model, runId)
  {
    matching := [];
    for i := 0 to |previous|
      invariant matching == Matching(previous[..i], model, runId)
    {
      assert previous[..i + 1][..i] == previous[..i];
      if Continues(previous[i], model, runId) {
        matching := matching + [previous[i]];
      }
    }
    assert previous[..|previous|] == previous;
  }

  method FillRows(source: seq<Record>) returns (rows: seq<Row>)
    requires forall r :: r in source ==> Scored(r)
    ensures rows == [RowOf(source, 0), RowOf(source, 1), RowOf(source, 2), RowOf(source, 3), RowOf(source, 4)]
  {
    var counts, misses, sums := FillBins(source);
    rows := [];
    for bin := 0 to BINS
      invariant |rows| == bin && forall b: nat :: b < bin ==> rows[b] == RowOf(source, b)
    {
      rows := rows + [Row(counts[bin], misses[bin],
                          if counts[bin] > 0 then Some(sums[bin] / counts[bin] as real) else None)];
    }
  }

  method FillBins(source: seq<Record>) returns (counts: seq<nat>, misses: seq<nat>, sums: seq<real>)
    requires forall r :: r in source ==> Scored(r)
    ensures |counts| == |misses| == |sums| == BINS
    ensures forall b: nat :: b < BINS ==>
      counts[b] == CountIn(source, b) && misses[b] == MissedIn(source, b) && sums[b] == ScoresIn(source, b)
  {
    counts, misses, sums := [0, 0, 0, 0, 0], [0, 0, 0, 0, 0], [0.0, 0.0, 0.0, 0.0, 0.0];
    for i := 0 to |source|
      invariant |counts| == |misses| == |sums| == BINS
      invariant forall b: nat :: b < BINS ==>
        && counts[b] == CountIn(source[..i], b) && misses[b] == MissedIn(source[..i], b)
        && sums[b] == ScoresIn(source[..i], b)
    {
      assert source[..i + 1][..i] == source[..i];
      var r := source[i];
      assert r in source;
      var bin := CalibrationBin(r.raw.value);
      counts := counts[bin := counts[bin] + 1];
      if r.outcome == MissedMutant {
        misses := misses[bin := misses[bin] + 1];
      }
      sums := sums[bin := sums[bin] + r.raw.value];
    }
    assert source[..|source|] == source;
  }

  // ----- states built by repeated runs -----

  /** What a sum of scores of one bin can be. */
  ghost predicate SumInBin(sum: real, count: nat, bin: nat) {
    && (count == 0 ==> sum == 0.0)
    && (bin > 0 ==> sum >= Edge(bin) * count as real)
    && (bin < BINS - 1 && count > 0 ==> sum < Edge(bin + 1) * count as real)
  }

  ghost predicate SoundRow(row: Row, bin: nat) {
    ValidRow(row) && (row.count > 0 ==> row.mean.Some? && InBin(row.mean.value, bin))
  }

  ghost predicate SoundRun(run: Run, model: string) {
    && run.modelVersion == Some(model) && run.promptVersion == Some(PROMPT_VERSION)
    && |run.rows| == BINS && (forall bin: nat :: bin < BINS ==> SoundRow(run.rows[bin], bin))
    && run.rows[0].count + run.rows[1].count + run.rows[2].count + run.rows[3].count + run.rows[4].count >= MIN_SCORES
  }

  ghost predicate SoundRuns(runs: seq<Run>, model: string) {
    forall run :: run in runs ==> SoundRun(run, model)
  }

  ghost predicate DistinctIds(runs: seq<Run>) {
    forall i, j :: 0 <= i < j < |runs| ==> runs[i].runId != runs[j].runId
  }

  /** At most three runs, under distinct ids, all of one model and the current prompt. */
  ghost predicate Sound(state: State) {
    && |state| <= HISTORY_RUNS
    && DistinctIds(state)
    && exists model :: SoundRuns(state, model)
  }

  lemma AddScore(sum: real, count: nat, p: real, bin: nat)
    requires SumInBin(sum, count, bin) && InBin(p, bin)
    ensures SumInBin(sum + p, count + 1, bin)
  {
    assert Edge(bin) * (count + 1) as real == Edge(bin) * count as real + Edge(bin);
    assert Edge(bin + 1) * (count + 1) as real == Edge(bin + 1) * count as real + Edge(bin + 1);
  }

  lemma {:induction false} ScoresStayInBin(source: seq<Record>, bin: nat)
    requires bin < BINS
    ensures SumInBin(ScoresIn(source, bin), CountIn(source, bin), bin)
  {
    hide Edge, SumInBin;
    if source == [] {
      NoScores(bin);
    } else {
      var init, last := source[..|source| - 1], source[|source| - 1];
      ScoresStayInBin(init, bin);
      if Lands(last, bin) {
        BinHolds(last.raw.value);
        AddScore(ScoresIn(init, bin), CountIn(init, bin), last.raw.value, bin);
      }
    }
  }

  lemma Divided(sum: real, n: real, edge: real)
    requires n > 0.0
    ensures sum >= edge * n <==> sum / n >= edge
  {
    var mean := sum / n;
    assert mean * n == sum;
    assert (mean - edge) * n == mean * n - edge * n;
    assert (edge - mean) * n == edge * n - mean * n;
    if mean >= edge {
      Product(mean - edge, n);
    } else {
      Strict(edge - mean, n);
    }
  }

  lemma MeanInBin(sum: real, count: nat, bin: nat)
    requires SumInBin(sum, count, bin) && count > 0
    ensures InBin(sum / count as real, bin)
  {
    Divided(sum, count as real, Edge(bin));
    Divided(sum, count as real, Edge(bin + 1));
  }

  lemma {:induction false} EveryScoreLands(source: seq<Record>)
    requires forall r :: r in source ==> Scored(r)
    ensures CountIn(source, 0) + CountIn(source, 1) + CountIn(source, 2) + CountIn(source, 3) + CountIn(source, 4) == |source|
  {
    if source != [] {
      var last := source[|source| - 1];
      assert last in source;
      EveryScoreLands(source[..|source| - 1]);
      assert Lands(last, CalibrationBin(last.raw.value));
    }
  }

  lemma NewRunSound(source: seq<Record>, model: string, runId: string)
    requires |source| >= MIN_SCORES && forall r :: r in source ==> Scored(r)
    ensures SoundRun(RunOf(source, Some(model), runId), model)
  {
    var run := RunOf(source, Some(model), runId);
    forall bin: nat | bin < BINS ensures SoundRow(run.rows[bin], bin) {
      assert run.rows[bin] == RowOf(source, bin);
      ScoresStayInBin(source, bin);
      if CountIn(source, bin) > 0 {
        MeanInBin(ScoresIn(source, bin), CountIn(source, bin), bin);
      }
    }
    EveryScoreLands(source);
  }

  lemma {:induction false} MatchingKeeps(previous: State, model: Option<string>, runId: string)
    ensures forall run :: run in Matching(previous, model, runId) ==> run in previous && Continues(run, model, runId)
    ensures DistinctIds(previous) ==> DistinctIds(Matching(previous, model, runId))
  {
    if previous != [] {
      var init, last := previous[..|previous| - 1], previous[|previous| - 1];
      MatchingKeeps(init, model, runId);
      var m := Matching(init, model, runId);
      assert previous == init + [last];
      if DistinctIds(previous) {
        assert DistinctIds(init);
        forall i | 0 <= i < |m| ensures m[i].runId != last.runId {
          assert m[i] in init;
          var k :| 0 <= k < |init| && init[k] == m[i];
          assert previous[k] == m[i] && previous[|init|] == last;
        }
      }
    }
  }

  /** One more run keeps the history sound, whatever the records are. */
  lemma NextStateSound(previous: State, records: seq<Record>, runId: string)
    requires Sound(previous)
    ensures Sound(NextState(previous, records, runId))
  {
    var next := NextState(previous, records, runId);
    if next != previous {
      var scored := Keep(records, None);
      KeepScored(records, None);
      var leader := Leader(scored, |scored|);
      assert scored[leader] in scored;
      var model := scored[leader].modelVersion;
      var source := Keep(records, model);
      KeepScored(records, model);
      NewRunSound(source, model.value, runId);
      MatchingKeeps(previous, model, runId);
      var kept := Newest(Matching(previous, model, runId), HISTORY_RUNS - 1);
      assert next == kept + [RunOf(source, model, runId)];
      forall run | run in next ensures SoundRun(run, model.value) {
        if run in kept {
          assert run in Matching(previous, model, runId);
        }
      }
      forall i | 0 <= i < |kept| ensures kept[i].runId != runId {
        assert kept[i] in Matching(previous, model, runId);
      }
      assert SoundRuns(next, model.value);
      assert DistinctIds(kept);
    }
  }

  datatype Batch = Batch(records: seq<Record>, runId: string)

  function Built(batches: seq<Batch>): State {
    if batches == [] then []
    else
      var last := batches[|batches| - 1];
      NextState(Built(batches[..|batches| - 1]), last.records, last.runId)
  }

  lemma {:induction false} BuiltSound(batches: seq<Batch>)
    ensures Sound(Built(batches))
  {
    assert SoundRuns([], "");
    if batches != [] {
      BuiltSound(batches[..|batches| - 1]);
      var last := batches[|batches| - 1];
      NextStateSound(Built(batches[..|batches| - 1]), last.records, last.runId);
    }
  }

  lemma {:induction false} OwnModel(state: State, model: string)
    requires forall i :: 0 <= i < |state| ==> state[i].modelVersion == Some(model)
    ensures ForModel(state, model) == state
  {
    if state != [] {
      var init := state[..|state| - 1];
      OwnModel(init, model);
      assert state == init + [state[|state| - 1]];
    }
  }

  lemma {:induction false} OwnPrompt(state: State, prompt: int)
    requires forall i :: 0 <= i < |state| ==> state[i].promptVersion == Some(prompt)
    ensures ForPrompt(state, prompt) == state
    ensures state != [] ==> LatestPrompt(state) == Some(prompt)
  {
    if state != [] {
      var init := state[..|state| - 1];
      OwnPrompt(init, prompt);
      assert state == init + [state[|state| - 1]];
    }
  }

  lemma {:induction false} BinCountGrows(runs: seq<Run>, bin: nat, i: nat)
    requires i < |runs|
    ensures BinCount(runs, bin) >= RowCount(runs[i], bin)
  {
    if i < |runs| - 1 {
      BinCountGrows(runs[..|runs| - 1], bin, i);
    }
  }

  lemma SoundTotal(state: State, model: string)
    requires SoundRuns(state, model) && state != []
    ensures Total(state) >= MIN_SCORES
  {
    var run := state[0];
    assert SoundRun(run, model);
    BinCountGrows(state, 0, 0);
    BinCountGrows(state, 1, 0);
    BinCountGrows(state, 2, 0);
    BinCountGrows(state, 3, 0);
    BinCountGrows(state, 4, 0);
    assert forall bin: nat :: bin < BINS ==> SoundRow(run.rows[bin], bin) && RowCount(run, bin) == run.rows[bin].count;
  }

  lemma AddAbove(edge: real, sum: real, n: real, mean: real, m: real)
    requires sum >= edge * n && mean >= edge && m > 0.0
    ensures sum + mean * m >= edge * (n + m)
  {
    Scale(edge, mean, m);
    Distribute(n, m, edge);
  }

  lemma AddBelow(edge: real, sum: real, n: real, mean: real, m: real)
    requires sum <= edge * n && mean < edge && m > 0.0
    ensures sum + mean * m < edge * (n + m)
  {
    Strict(edge - mean, m);
    assert (edge - mean) * m == edge * m - mean * m;
    Distribute(n, m, edge);
  }

  lemma AddSums(sum: real, count: nat, mean: real, more: nat, bin: nat)
    requires SumInBin(sum, count, bin) && InBin(mean, bin) && more > 0
    ensures SumInBin(sum + mean * more as real, count + more, bin)
  {
    hide Edge;
    var n, m := count as real, more as real;
    assert (count + more) as real == n + m;
    if bin > 0 {
      AddAbove(Edge(bin), sum, n, mean, m);
    }
    if bin < BINS - 1 {
      if count == 0 {
        Zero(n, Edge(bin + 1));
      }
      AddBelow(Edge(bin + 1), sum, n, mean, m);
    }
  }

  lemma NoScores(bin: nat)
    ensures SumInBin(0.0, 0, bin)
  {
  }

  lemma AddRow(sum: real, count: nat, run: Run, bin: nat)
    requires SumInBin(sum, count, bin) && bin < |run.rows| && SoundRow(run.rows[bin], bin)
    ensures SumInBin(sum + RowScores(run, bin), count + RowCount(run, bin), bin)
  {
    hide SumInBin, InBin;
    if run.rows[bin].count > 0 {
      AddSums(sum, count, run.rows[bin].mean.value, run.rows[bin].count, bin);
    }
  }

  lemma {:induction false} SoundScores(state: State, model: string, bin: nat)
    requires bin < BINS && SoundRuns(state, model)
    ensures SumInBin(BinScores(state, bin), BinCount(state, bin), bin)
  {
    hide Edge, RowScores, RowCount, SoundRow, SumInBin;
    if state == [] {
      NoScores(bin);
    } else {
      var init, last := state[..|state| - 1], state[|state| - 1];
      assert last in state && SoundRun(last, model) && forall run :: run in init ==> run in state;
      SoundScores(init, model, bin);
      AddRow(BinScores(init, bin), BinCount(init, bin), last, bin);
    }
  }

  lemma SoundMean(state: State, model: string, bin: nat)
    requires bin < BINS && SoundRuns(state, model)
    ensures InBin(BinMean(state, bin), bin)
  {
    SoundScores(state, model, bin);
    if BinCount(state, bin) > 0 {
      MeanInBin(BinScores(state, bin), BinCount(state, bin), bin);
    }
  }

  /** The curve of a sound history rises: means strictly, probabilities weakly. */
  lemma SoundCurveRises(state: State, model: string, points: seq<Point>)
    requires SoundRuns(state, model)
    requires IsFitOf(state, points)
    ensures Rising(points)
    ensures forall i, j :: 0 <= i < j < |points| ==> points[i].mean < points[j].mean
  {
    CurveIsCalibrated(state, points);
    forall bin: nat | bin < BINS ensures InBin(points[bin].mean, bin) {
      SoundMean(state, model, bin);
    }
    forall i, j | 0 <= i < j < |points| ensures points[i].mean < points[j].mean {
      assert InBin(points[i].mean, i) && InBin(points[j].mean, j);
      assert Edge(i + 1) <= Edge(j);
    }
    forall i, j | 0 <= i <= j < |points| ensures points[i].calibrated <= points[j].calibrated {
      assert Calibrated(points)[i] <= Calibrated(points)[j];
    }
  }

  /**
   Whatever records the runs scored: a non-empty history yields a curve for its
   model, and every raw score recalibrates, monotonically and within [0, 1].
   */
  lemma BuiltStateRecalibrates(batches: seq<Batch>, points: seq<Point>, p: real, q: real)
    requires Built(batches) != [] && p <= q
    requires IsFitOf(Built(batches), points)
    ensures |Built(batches)| <= HISTORY_RUNS
    ensures exists model ::
      && ForModel(Built(batches), model) == Built(batches)
      && LatestPrompt(Built(batches)) == Some(PROMPT_VERSION)
      && ForPrompt(Built(batches), PROMPT_VERSION) == Built(batches)
      && Total(Built(batches)) >= MIN_SCORES
    ensures Recalibrated(p, points).Value? && Recalibrated(q, points).Value?
    ensures 0.0 <= Recalibrated(p, points).p <= Recalibrated(q, points).p <= 1.0
    ensures StrictCurve(points) && GoesThrough(points, p) && GoesThrough(points, q)
  {
    hide GoesThrough;
    var state := Built(batches);
    BuiltSound(batches);
    var model :| SoundRuns(state, model);
    forall i | 0 <= i < |state| ensures SoundRun(state[i], model) {
      assert state[i] in state;
    }
    OwnModel(state, model);
    OwnPrompt(state, PROMPT_VERSION);
    SoundTotal(state, model);
    SoundCurveRises(state, model, points);
    RecalibrationRises(p, q, points);
    CurveIsCalibrated(state, points);
    RecalibrationInterpolates(points, p);
    RecalibrationInterpolates(points, q);
  }
}
