/** Pooling of adjacent violators, and why it is the best non-decreasing fit. */
module Isotonic {

  ghost predicate NonDecreasing(x: seq<real>) {
    forall i, j :: 0 <= i <= j < |x| ==> x[i] <= x[j]
  }

  ghost predicate Positive(w: seq<real>) {
    forall i :: 0 <= i < |w| ==> w[i] > 0.0
  }

  /** Weighted sum of the first k values. */
  function Sum(x: seq<real>, w: seq<real>, k: nat): real
    requires k <= |x| && k <= |w|
  {
    if k == 0 then 0.0 else Sum(x, w, k - 1) + x[k - 1] * w[k - 1]
  }

  function Weight(w: seq<real>, k: nat): real
    requires k <= |w|
  {
    if k == 0 then 0.0 else Weight(w, k - 1) + w[k - 1]
  }

  function Term(w: real, a: real, b: real): real {
    w * (a - b) * (a - b)
  }

  /** Weighted squared distance of the first k values. */
  function Distance(x: seq<real>, y: seq<real>, w: seq<real>, k: nat): real
    requires k <= |x| && k <= |y| && k <= |w|
  {
    if k == 0 then 0.0 else Distance(x, y, w, k - 1) + Term(w[k - 1], x[k - 1], y[k - 1])
  }

  function Error(rates: seq<real>, w: seq<real>, x: seq<real>): real
    requires |rates| == |w| == |x|
  {
    Distance(rates, x, w, |w|)
  }

  /** How far the fit's weighted sum lags behind that of the rates after k values. */
  function Lag(rates: seq<real>, w: seq<real>, x: seq<real>, k: nat): real
    requires k <= |rates| && k <= |w| && k <= |x|
  {
    Sum(rates, w, k) - Sum(x, w, k)
  }

  /** The optimality conditions: the lag is never negative and the fit only rises where it is zero. */
  ghost predicate Fits(rates: seq<real>, w: seq<real>, x: seq<real>) {
    && |rates| == |w| == |x|
    && NonDecreasing(x)
    && (forall k :: 0 <= k <= |x| ==> Lag(rates, w, x, k) >= 0.0)
    && (forall k :: 0 < k < |x| && Lag(rates, w, x, k) > 0.0 ==> x[k - 1] == x[k])
    && Lag(rates, w, x, |x|) == 0.0
  }

  // ----- optimality -----

  /** Weighted shortfall of the fit at one bin. */
  function Residual(rates: seq<real>, w: seq<real>, rate: real, k: nat): real
    requires k < |rates| == |w|
  {
    (rates[k] - rate) * w[k]
  }

  /** Weighted product of one bin's shortfall and the step from y to x. */
  function Step(w: real, r: real, x: real, y: real): real {
    (r - x) * w * (x - y)
  }


  function Cross(rates: seq<real>, w: seq<real>, x: seq<real>, y: seq<real>, k: nat): real
    requires |rates| == |w| == |x| == |y| && k <= |w|
  {
    if k == 0 then 0.0
    else Cross(rates, w, x, y, k - 1) + Step(w[k - 1], rates[k - 1], x[k - 1], y[k - 1])
  }

  lemma Square(w: real, r: real, x: real, y: real)
    ensures Term(w, r, y) == Term(w, r, x) + Term(w, x, y) + 2.0 * Step(w, r, x, y)
  {
    var a, b := r - x, x - y;
    assert r - y == a + b;
    assert (a + b) * (a + b) == a * a + b * b + 2.0 * (a * b);
    calc {
      w * (r - y) * (r - y);
      w * (a + b) * (a + b);
      w * ((a + b) * (a + b));
      w * (a * a + b * b + 2.0 * (a * b));
      w * a * a + w * b * b + 2.0 * (a * w * b);
    }
  }

  lemma {:induction false} Expand(rates: seq<real>, w: seq<real>, x: seq<real>, y: seq<real>, k: nat)
    requires |rates| == |w| == |x| == |y| && k <= |w|
    ensures Distance(rates, y, w, k) ==
            Distance(rates, x, w, k) + Distance(x, y, w, k) + 2.0 * Cross(rates, w, x, y, k)
  {
    hide Term, Step;
    if k > 0 {
      Expand(rates, w, x, y, k - 1);
      Square(w[k - 1], rates[k - 1], x[k - 1], y[k - 1]);
    }
  }

  lemma Product(a: real, b: real)
    requires a >= 0.0 && b >= 0.0
    ensures a * b >= 0.0
  {
  }

  lemma Zero(a: real, b: real)
    requires a == 0.0
    ensures a * b == 0.0
  {
  }

  lemma Strict(a: real, b: real)
    requires a > 0.0 && b > 0.0
    ensures a * b > 0.0
  {
  }

  lemma PartsStep(cross: real, lag: real, before: real, rates: seq<real>, w: seq<real>, x: seq<real>, y: seq<real>, i: nat)
    requires |rates| == |w| == |x| == |y| && i < |w|
    requires lag >= 0.0 && (lag > 0.0 ==> before >= x[i] - y[i]) && cross >= lag * before
    ensures cross + Step(w[i], rates[i], x[i], y[i]) >= (lag + Residual(rates, w, x[i], i)) * (x[i] - y[i])
  {
    var d, z := Residual(rates, w, x[i], i), x[i] - y[i];
    var step := Step(w[i], rates[i], x[i], y[i]);
    assert step == d * z;
    PartsBound(cross, lag, before, d, z, step);
  }

  lemma PartsBound(cross: real, lag: real, before: real, d: real, z: real, step: real)
    requires lag >= 0.0 && (lag > 0.0 ==> before >= z) && cross >= lag * before && step == d * z
    ensures cross + step >= (lag + d) * z
  {
    LagTimes(lag, before, z);
    Distribute(lag, d, z);
  }

  lemma LagTimes(lag: real, before: real, z: real)
    requires lag >= 0.0 && (lag > 0.0 ==> before >= z)
    ensures lag * before >= lag * z
  {
    if lag == 0.0 {
      Zero(lag, before);
      Zero(lag, z);
    } else {
      Product(lag, before - z);
      assert lag * (before - z) == lag * before - lag * z;
    }
  }

  lemma Distribute(a: real, b: real, z: real)
    ensures (a + b) * z == a * z + b * z
  {
  }

  /** Summation by parts. */
  lemma {:induction false} CrossBound(rates: seq<real>, w: seq<real>, x: seq<real>, y: seq<real>, k: nat)
    requires Fits(rates, w, x) && |y| == |x| && NonDecreasing(y)
    requires 0 < k <= |x|
    ensures Cross(rates, w, x, y, k) >= Lag(rates, w, x, k) * (x[k - 1] - y[k - 1])
  {
    hide Step, Residual, Lag;
    var i := k - 1;
    LagStep(rates, w, x, i);
    if i > 0 {
      CrossBound(rates, w, x, y, i);
      PartsStep(Cross(rates, w, x, y, i), Lag(rates, w, x, i), x[i - 1] - y[i - 1], rates, w, x, y, i);
    } else {
      LagStart(rates, w, x);
      PartsStep(0.0, Lag(rates, w, x, i), 0.0, rates, w, x, y, i);
    }
  }

  lemma LagStart(rates: seq<real>, w: seq<real>, x: seq<real>)
    requires |rates| == |w| == |x|
    ensures Lag(rates, w, x, 0) == 0.0
  {
  }

  lemma LagStep(rates: seq<real>, w: seq<real>, x: seq<real>, i: nat)
    requires |rates| == |w| == |x| && i < |w|
    ensures Lag(rates, w, x, i + 1) == Lag(rates, w, x, i) + Residual(rates, w, x[i], i)
  {
    assert (rates[i] - x[i]) * w[i] == rates[i] * w[i] - x[i] * w[i];
  }

  /**
   A fit beats every other non-decreasing sequence, by at least the distance
   between the two.
   */
  lemma Optimal(rates: seq<real>, w: seq<real>, x: seq<real>, y: seq<real>)
    requires Fits(rates, w, x) && |y| == |x| && NonDecreasing(y)
    ensures Error(rates, w, y) >= Error(rates, w, x) + Distance(x, y, w, |w|)
  {
    Expand(rates, w, x, y, |w|);
    if |x| > 0 {
      CrossBound(rates, w, x, y, |x|);
    }
  }

  lemma TermAbove(w: real, a: real, b: real)
    requires w > 0.0 && a > b
    ensures Term(w, a, b) > 0.0
  {
    var d := a - b;
    Strict(w, d);
    Strict(w * d, d);
    assert Term(w, a, b) == w * d * d;
  }

  lemma TermSymmetric(w: real, a: real, b: real)
    ensures Term(w, a, b) == Term(w, b, a)
  {
  }

  lemma TermZero(w: real, a: real)
    ensures Term(w, a, a) == 0.0
  {
  }

  lemma TermPositive(w: real, a: real, b: real)
    requires w > 0.0
    ensures if a == b then Term(w, a, b) == 0.0 else Term(w, a, b) > 0.0
  {
    if a == b {
      TermZero(w, a);
    } else if a > b {
      TermAbove(w, a, b);
    } else {
      TermAbove(w, b, a);
      TermSymmetric(w, a, b);
    }
  }

  lemma {:induction false} DistancePositive(x: seq<real>, y: seq<real>, w: seq<real>, k: nat)
    requires k <= |x| && k <= |y| && k <= |w| && Positive(w)
    ensures Distance(x, y, w, k) >= 0.0
    ensures Distance(x, y, w, k) == 0.0 ==> x[..k] == y[..k]
  {
    if k > 0 {
      DistancePositive(x, y, w, k - 1);
      var i := k - 1;
      TermPositive(w[i], x[i], y[i]);
      if x[i] == y[i] {
        assert x[..k] == x[..i] + [x[i]] && y[..k] == y[..i] + [y[i]];
      }
    }
  }

  /** The best non-decreasing fit is unique. */
  lemma Unique(rates: seq<real>, w: seq<real>, x: seq<real>, y: seq<real>)
    requires Positive(w) && Fits(rates, w, x)
    requires |y| == |x| && NonDecreasing(y) && Error(rates, w, y) <= Error(rates, w, x)
    ensures y == x
  {
    Optimal(rates, w, x, y);
    DistancePositive(x, y, w, |w|);
    assert x[..|w|] == x && y[..|w|] == y;
  }

  /** The non-decreasing sequence of least weighted squared error, with the weighted sum kept. */
  ghost predicate IsBestFit(rates: seq<real>, w: seq<real>, x: seq<real>) {
    && |rates| == |w| == |x| && NonDecreasing(x)
    && Sum(x, w, |w|) == Sum(rates, w, |w|)
    && forall y :: |y| == |x| && NonDecreasing(y) && y != x ==> Error(rates, w, x) < Error(rates, w, y)
  }

  lemma BestFit(rates: seq<real>, w: seq<real>, x: seq<real>)
    requires Positive(w) && Fits(rates, w, x)
    ensures IsBestFit(rates, w, x)
  {
    assert Lag(rates, w, x, |x|) == 0.0;
    forall y | |y| == |x| && NonDecreasing(y) && y != x ensures Error(rates, w, x) < Error(rates, w, y) {
      if Error(rates, w, y) <= Error(rates, w, x) {
        Unique(rates, w, x, y);
      }
    }
  }

  lemma {:induction false} DistanceSelf(x: seq<real>, w: seq<real>, k: nat)
    requires k <= |x| && k <= |w|
    ensures Distance(x, x, w, k) == 0.0
  {
    if k > 0 {
      DistanceSelf(x, w, k - 1);
    }
  }

  /** Rates that do not decrease are left alone. */
  lemma Identity(rates: seq<real>, w: seq<real>, x: seq<real>)
    requires Positive(w) && Fits(rates, w, x) && NonDecreasing(rates)
    ensures x == rates
  {
    DistanceSelf(rates, w, |w|);
    DistancePositive(rates, x, w, |w|);
    Unique(rates, w, x, rates);
  }

  lemma DistanceNext(x: seq<real>, y: seq<real>, w: seq<real>, i: nat)
    requires i < |x| && i < |y| && i < |w|
    ensures Distance(x, y, w, i + 1) == Distance(x, y, w, i) + Term(w[i], x[i], y[i])
  {
  }

  function Clamp(v: real, lo: real, hi: real): real {
    if v < lo then lo else if v > hi then hi else v
  }

  lemma ClampStep(w: real, r: real, x: real, lo: real, hi: real)
    requires w > 0.0 && lo <= r <= hi
    ensures Term(w, r, Clamp(x, lo, hi)) <= Term(w, r, x)
  {
    var y := Clamp(x, lo, hi);
    var a, b := if r >= y then r - y else y - r, if r >= x then r - x else x - r;
    assert 0.0 <= a <= b;
    Product(b - a, b + a);
    assert (b - a) * (b + a) == b * b - a * a;
    assert a * a == (r - y) * (r - y) && b * b == (r - x) * (r - x);
    Product(w, b * b - a * a);
    assert w * (b * b - a * a) == w * (b * b) - w * (a * a);
    assert w * (r - y) * (r - y) == w * ((r - y) * (r - y));
    assert w * (r - x) * (r - x) == w * ((r - x) * (r - x));
  }

  lemma {:induction false} ClampCloser(rates: seq<real>, w: seq<real>, x: seq<real>, y: seq<real>, lo: real, hi: real, k: nat)
    requires |rates| == |w| == |x| == |y| && Positive(w) && lo <= hi && k <= |w|
    requires forall i :: 0 <= i < |x| ==> lo <= rates[i] <= hi && y[i] == Clamp(x[i], lo, hi)
    ensures Distance(rates, y, w, k) <= Distance(rates, x, w, k)
  {
    if k > 0 {
      ClampCloser(rates, w, x, y, lo, hi, k - 1);
      var i := k - 1;
      ClampStep(w[i], rates[i], x[i], lo, hi);
      assert y[i] == Clamp(x[i], lo, hi);
      DistanceNext(rates, x, w, i);
      DistanceNext(rates, y, w, i);
    }
  }

  /** A fit stays within any range the rates stay within. */
  lemma Range(rates: seq<real>, w: seq<real>, x: seq<real>, lo: real, hi: real)
    requires Positive(w) && Fits(rates, w, x) && lo <= hi
    requires forall i :: 0 <= i < |rates| ==> lo <= rates[i] <= hi
    ensures forall i :: 0 <= i < |x| ==> lo <= x[i] <= hi
  {
    var y := seq(|x|, i requires 0 <= i < |x| => Clamp(x[i], lo, hi));
    ClampCloser(rates, w, x, y, lo, hi, |w|);
    Unique(rates, w, x, y);
  }

  // ----- the pooling loop -----

  datatype Block = Block(start: nat, end: nat, weight: real, total: real)

  function Mean(b: Block): real
    requires b.weight != 0.0
  {
    b.total / b.weight
  }

  /** Sum of the rates from index a up to k, weighted. */
  function Between(rates: seq<real>, w: seq<real>, a: nat, k: nat): real
    requires a <= k <= |rates| && k <= |w|
  {
    Sum(rates, w, k) - Sum(rates, w, a)
  }

  function WeightBetween(w: seq<real>, a: nat, k: nat): real
    requires a <= k <= |w|
  {
    Weight(w, k) - Weight(w, a)
  }

  /** What a prefix of the block holds above the block's mean. */
  function Surplus(rates: seq<real>, w: seq<real>, b: Block, k: nat): real
    requires |rates| == |w| && b.start <= k <= |w| && b.weight != 0.0
  {
    Between(rates, w, b.start, k) - Mean(b) * WeightBetween(w, b.start, k)
  }

  /** A block totals its bins, and no prefix of it averages less than the whole. */
  ghost predicate IsBlock(rates: seq<real>, w: seq<real>, b: Block)
    requires |rates| == |w|
  {
    && b.start <= b.end < |w|
    && b.weight > 0.0
    && b.weight == WeightBetween(w, b.start, b.end + 1)
    && b.total == Between(rates, w, b.start, b.end + 1)
    && forall k :: b.start <= k <= b.end + 1 ==> Surplus(rates, w, b, k) >= 0.0
  }

  function Merged(left: Block, right: Block): Block {
    Block(left.start, right.end, left.weight + right.weight, left.total + right.total)
  }

  lemma {:induction false} WeightGrows(w: seq<real>, a: nat, k: nat)
    requires Positive(w) && a <= k <= |w|
    ensures WeightBetween(w, a, k) >= 0.0
  {
    if a < k {
      WeightGrows(w, a, k - 1);
    }
  }

  lemma Scale(m: real, n: real, q: real)
    requires m <= n && q >= 0.0
    ensures m * q <= n * q
  {
    Product(n - m, q);
    assert (n - m) * q == n * q - m * q;
  }

  lemma MeanTotal(b: Block)
    requires b.weight > 0.0
    ensures Mean(b) * b.weight == b.total
  {
  }

  /** The merged mean lies between the two means, and the left surplus pays for the right deficit. */
  lemma MergedMean(left: real, right: real, a: real, b: real, m: real)
    requires a > 0.0 && b > 0.0 && left > right
    requires m * (a + b) == left * a + right * b
    ensures right <= m <= left
    ensures (left - m) * a == (m - right) * b
  {
    assert m * (a + b) == m * a + m * b;
    assert (left - m) * a == left * a - m * a;
    assert (m - right) * b == m * b - right * b;
    assert (left - m) * a == -((m - left) * a);
    assert (m - right) * b == -((right - m) * b);
    if m > left {
      Strict(m - left, a);
      Strict(m - right, b);
    } else if m < right {
      Strict(left - m, a);
      Strict(right - m, b);
    }
  }

  lemma MergedPrefix(left: real, right: real, a: real, b: real, m: real, p: real, s: real)
    requires a > 0.0 && b > 0.0 && left > right
    requires m * (a + b) == left * a + right * b
    requires 0.0 <= p <= b && s >= right * p
    ensures left * a + s >= m * (a + p)
  {
    MergedMean(left, right, a, b, m);
    Product(m - right, b - p);
    assert (m - right) * (b - p) == (m - right) * b - (m - right) * p;
    assert (m - right) * p == m * p - right * p;
    assert (left - m) * a == left * a - m * a;
    assert m * (a + p) == m * a + m * p;
  }

  lemma MergeBlocks(rates: seq<real>, w: seq<real>, left: Block, right: Block)
    requires |rates| == |w| && Positive(w)
    requires IsBlock(rates, w, left) && IsBlock(rates, w, right) && left.end + 1 == right.start
    requires Mean(left) > Mean(right)
    ensures IsBlock(rates, w, Merged(left, right))
  {
    var b := Merged(left, right);
    MeanTotal(left);
    MeanTotal(right);
    MeanTotal(b);
    MergedMean(Mean(left), Mean(right), left.weight, right.weight, Mean(b));
    forall k | b.start <= k <= b.end + 1
      ensures Surplus(rates, w, b, k) >= 0.0
    {
      if k <= right.start {
        WeightGrows(w, left.start, k);
        assert Surplus(rates, w, left, k) >= 0.0;
        Scale(Mean(b), Mean(left), WeightBetween(w, left.start, k));
      } else {
        var p := WeightBetween(w, right.start, k);
        WeightGrows(w, right.start, k);
        WeightGrows(w, k, right.end + 1);
        assert Surplus(rates, w, right, k) >= 0.0;
        MergedPrefix(Mean(left), Mean(right), left.weight, right.weight, Mean(b), p, Between(rates, w, right.start, k));
        assert WeightBetween(w, b.start, k) == left.weight + p;
      }
    }
  }

  /** The blocks tile the first n bins. */
  ghost predicate Tile(rates: seq<real>, w: seq<real>, blocks: seq<Block>, n: nat)
    requires |rates| == |w|
  {
    && (forall j :: 0 <= j < |blocks| ==> IsBlock(rates, w, blocks[j]))
    && (forall j :: 0 < j < |blocks| ==> blocks[j].start == blocks[j - 1].end + 1)
    && (if blocks == [] then n == 0 else blocks[0].start == 0 && blocks[|blocks| - 1].end + 1 == n)
  }

  ghost predicate Ascending(blocks: seq<Block>)
    requires forall j :: 0 <= j < |blocks| ==> blocks[j].weight > 0.0
  {
    forall j :: 0 < j < |blocks| ==> Mean(blocks[j - 1]) <= Mean(blocks[j])
  }

  lemma SingleBlock(rates: seq<real>, w: seq<real>, i: nat)
    requires |rates| == |w| && Positive(w) && i < |w|
    ensures IsBlock(rates, w, Block(i, i, w[i], rates[i] * w[i]))
  {
    var b := Block(i, i, w[i], rates[i] * w[i]);
    MeanTotal(b);
    assert Between(rates, w, i, i + 1) == b.total && WeightBetween(w, i, i + 1) == b.weight;
    assert Between(rates, w, i, i) == 0.0 && WeightBetween(w, i, i) == 0.0;
    Zero(0.0, Mean(b));
  }

  /** The loop's state: tiled, and ascending except for the last block. */
  ghost predicate Pooling(rates: seq<real>, w: seq<real>, blocks: seq<Block>, n: nat)
    requires |rates| == |w|
  {
    |blocks| >= 1 && Tile(rates, w, blocks, n) && Ascending(blocks[..|blocks| - 1])
  }

  lemma PoolNext(rates: seq<real>, w: seq<real>, blocks: seq<Block>, index: nat)
    requires |rates| == |w| && Positive(w) && index < |w|
    requires Tile(rates, w, blocks, index) && Ascending(blocks)
    ensures Pooling(rates, w, blocks + [Block(index, index, w[index], rates[index] * w[index])], index + 1)
  {
    SingleBlock(rates, w, index);
    var longer := blocks + [Block(index, index, w[index], rates[index] * w[index])];
    assert longer[..|longer| - 1] == blocks;
  }

  lemma PoolMerge(rates: seq<real>, w: seq<real>, blocks: seq<Block>, n: nat)
    requires |rates| == |w| && Positive(w) && Pooling(rates, w, blocks, n) && |blocks| > 1
    requires Mean(blocks[|blocks| - 2]) > Mean(blocks[|blocks| - 1])
    ensures Pooling(rates, w, blocks[..|blocks| - 2] + [Merged(blocks[|blocks| - 2], blocks[|blocks| - 1])], n)
  {
    var k := |blocks|;
    var merged := Merged(blocks[k - 2], blocks[k - 1]);
    MergeBlocks(rates, w, blocks[k - 2], blocks[k - 1]);
    var shorter := blocks[..k - 2] + [merged];
    assert shorter[..k - 2] == blocks[..k - 2];
    assert forall j :: 0 <= j < k - 2 ==> shorter[j] == blocks[j];
  }

  method PoolBlocks(rates: seq<real>, w: seq<real>) returns (blocks: seq<Block>)
    requires |rates| == |w| && Positive(w)
    ensures Tile(rates, w, blocks, |w|) && Ascending(blocks)
  {
    blocks := [];
    for index := 0 to |w|
      invariant Tile(rates, w, blocks, index) && Ascending(blocks)
    {
      PoolNext(rates, w, blocks, index);
      blocks := blocks + [Block(index, index, w[index], rates[index] * w[index])];
      while |blocks| > 1 && Mean(blocks[|blocks| - 2]) > Mean(blocks[|blocks| - 1])
        invariant Pooling(rates, w, blocks, index + 1)
        decreases |blocks|
      {
        PoolMerge(rates, w, blocks, index + 1);
        blocks := blocks[..|blocks| - 2] + [Merged(blocks[|blocks| - 2], blocks[|blocks| - 1])];
      }
    }
  }

  // ----- spreading the block means over the bins -----

  /** The optimality conditions for a fit of the first |x| bins, the lag at the end left open. */
  ghost predicate PartFits(rates: seq<real>, w: seq<real>, x: seq<real>) {
    && |x| <= |rates| == |w|
    && NonDecreasing(x)
    && (forall k :: 0 <= k <= |x| ==> Lag(rates, w, x, k) >= 0.0)
    && (forall k :: 0 < k < |x| && Lag(rates, w, x, k) > 0.0 ==> x[k - 1] == x[k])
  }

  lemma {:induction false} SumFrame(x: seq<real>, v: real, w: seq<real>, k: nat)
    requires k <= |x| && k <= |w|
    ensures Sum(x + [v], w, k) == Sum(x, w, k)
  {
    if k > 0 {
      SumFrame(x, v, w, k - 1);
    }
  }

  lemma FitNext(rates: seq<real>, w: seq<real>, x: seq<real>, rate: real)
    requires PartFits(rates, w, x) && |x| < |w|
    requires |x| > 0 ==> x[|x| - 1] <= rate
    requires |x| > 0 && Lag(rates, w, x, |x|) > 0.0 ==> x[|x| - 1] == rate
    requires Lag(rates, w, x, |x|) + Residual(rates, w, rate, |x|) >= 0.0
    ensures PartFits(rates, w, x + [rate])
    ensures Lag(rates, w, x + [rate], |x| + 1) == Lag(rates, w, x, |x|) + Residual(rates, w, rate, |x|)
  {
    var y := x + [rate];
    forall k | 0 <= k <= |x| ensures Lag(rates, w, y, k) == Lag(rates, w, x, k) {
      SumFrame(x, rate, w, k);
    }
    LagNext(rates, w, x, rate);
  }

  lemma LagNext(rates: seq<real>, w: seq<real>, x: seq<real>, rate: real)
    requires |x| < |rates| == |w|
    ensures Lag(rates, w, x + [rate], |x| + 1) == Lag(rates, w, x, |x|) + Residual(rates, w, rate, |x|)
  {
    SumFrame(x, rate, w, |x|);
    var r, v := rates[|x|], w[|x|];
    assert (r - rate) * v == r * v - rate * v;
  }

  /** Within a block, the lag is what the block's prefix holds above the mean. */
  ghost predicate InBlock(rates: seq<real>, w: seq<real>, b: Block, x: seq<real>)
    requires |rates| == |w| && IsBlock(rates, w, b)
  {
    && PartFits(rates, w, x) && b.start <= |x| <= b.end + 1
    && Lag(rates, w, x, |x|) == Surplus(rates, w, b, |x|)
    && (|x| > 0 ==> x[|x| - 1] <= Mean(b))
    && (|x| > b.start ==> x[|x| - 1] == Mean(b))
  }

  lemma SurplusNext(rates: seq<real>, w: seq<real>, b: Block, k: nat)
    requires |rates| == |w| && IsBlock(rates, w, b) && b.start <= k <= b.end
    ensures Surplus(rates, w, b, k + 1) == Surplus(rates, w, b, k) + Residual(rates, w, Mean(b), k)
  {
    var m, q := Mean(b), WeightBetween(w, b.start, k);
    assert WeightBetween(w, b.start, k + 1) == q + w[k];
    assert m * (q + w[k]) == m * q + m * w[k];
    assert (rates[k] - m) * w[k] == rates[k] * w[k] - m * w[k];
  }

  lemma BlockNext(rates: seq<real>, w: seq<real>, b: Block, x: seq<real>)
    requires |rates| == |w| && IsBlock(rates, w, b) && InBlock(rates, w, b, x) && |x| <= b.end
    ensures InBlock(rates, w, b, x + [Mean(b)])
  {
    var m := Mean(b);
    var lag, next := Lag(rates, w, x, |x|), Surplus(rates, w, b, |x| + 1);
    assert next >= 0.0 && lag + Residual(rates, w, m, |x|) == next by {
      SurplusNext(rates, w, b, |x|);
    }
    if |x| == b.start {
      LagAtStart(rates, w, b, x);
    }
    FitNext(rates, w, x, m);
  }

  lemma LagAtStart(rates: seq<real>, w: seq<real>, b: Block, x: seq<real>)
    requires |rates| == |w| && IsBlock(rates, w, b) && InBlock(rates, w, b, x) && |x| == b.start
    ensures Lag(rates, w, x, |x|) == 0.0
  {
    Zero(WeightBetween(w, b.start, b.start), Mean(b));
  }

  /** The bins before the last tiled one are fitted and the lag is closed. */
  ghost predicate Closed(rates: seq<real>, w: seq<real>, x: seq<real>, bound: real) {
    PartFits(rates, w, x) && Lag(rates, w, x, |x|) == 0.0 && (|x| > 0 ==> x[|x| - 1] <= bound)
  }

  lemma EnterBlock(rates: seq<real>, w: seq<real>, b: Block, x: seq<real>)
    requires |rates| == |w| && IsBlock(rates, w, b) && |x| == b.start && Closed(rates, w, x, Mean(b))
    ensures InBlock(rates, w, b, x)
  {
    assert Mean(b) * WeightBetween(w, b.start, b.start) == 0.0 by {
      Zero(WeightBetween(w, b.start, b.start), Mean(b));
    }
  }

  lemma LeaveBlock(rates: seq<real>, w: seq<real>, b: Block, x: seq<real>)
    requires |rates| == |w| && IsBlock(rates, w, b) && InBlock(rates, w, b, x) && |x| == b.end + 1
    ensures Closed(rates, w, x, Mean(b))
  {
    MeanTotal(b);
  }

  method FillBlock(rates: seq<real>, w: seq<real>, b: Block, filled: seq<real>) returns (result: seq<real>)
    requires |rates| == |w| == |filled| && IsBlock(rates, w, b) && Closed(rates, w, filled[..b.start], Mean(b))
    ensures |result| == |filled| && Closed(rates, w, result[..b.end + 1], Mean(b))
  {
    hide InBlock, Closed;
    result := filled;
    var rate := Mean(b);
    EnterBlock(rates, w, b, result[..b.start]);
    for index := b.start to b.end + 1
      invariant |result| == |rates| && InBlock(rates, w, b, result[..index])
    {
      BlockNext(rates, w, b, result[..index]);
      assert result[index := rate][..index + 1] == result[..index] + [rate];
      result := result[index := rate];
    }
    LeaveBlock(rates, w, b, result[..b.end + 1]);
  }

  method IsotonicRates(rates: seq<real>, w: seq<real>) returns (result: seq<real>)
    requires |rates| == |w| && Positive(w)
    ensures |result| == |rates| && Fits(rates, w, result)
    ensures IsBestFit(rates, w, result)
  {
    var blocks := PoolBlocks(rates, w);
    result := seq(|rates|, _ => 0.0);
    ghost var done: nat, bound := 0, if blocks == [] then 0.0 else Mean(blocks[0]);
    for j := 0 to |blocks|
      invariant |result| == |rates|
      invariant done == if j < |blocks| then blocks[j].start else |w|
      invariant j < |blocks| ==> bound <= Mean(blocks[j])
      invariant Closed(rates, w, result[..done], bound)
    {
      result := FillBlock(rates, w, blocks[j], result);
      done, bound := blocks[j].end + 1, Mean(blocks[j]);
    }
    assert result[..|w|] == result;
    BestFit(rates, w, result);
  }
}
