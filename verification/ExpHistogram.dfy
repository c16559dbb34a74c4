/** Turning exponential histogram buckets into values and counts, and what that loses. */
module ExpHistogram {

  /** A base is 2 to a positive power, whatever the scale. */
  type Base = b: real | b > 1.0 witness 2.0

  /** One side of a histogram: bucket k covers magnitudes from base^(offset+k) to base^(offset+k+1). */
  datatype Buckets = Buckets(offset: int, counts: seq<nat>)

  datatype DataPoint = DataPoint(base: Base, positive: Buckets, zeroCount: nat, negative: Buckets)

  datatype Converted = Converted(values: seq<real>, counts: seq<real>)

  function Join(a: Converted, b: Converted): Converted { Converted(a.values + b.values, a.counts + b.counts) }

  function Pow(b: Base, n: int): real
    decreases if n >= 0 then n else -n
  {
    if n == 0 then 1.0 else if n > 0 then b * Pow(b, n - 1) else Pow(b, n + 1) / b
  }

  lemma {:induction false} PowLaws(b: Base, n: int)
    ensures Pow(b, n) > 0.0 && Pow(b, n + 1) == b * Pow(b, n)
    decreases if n >= 0 then n else -n
  {
    if n > 0 {
      PowLaws(b, n - 1);
    } else if n < 0 {
      PowLaws(b, n + 1);
      var p := Pow(b, n + 1);
      assert p / b > 0.0 && b * (p / b) == p;
    }
  }

  function Midpoint(b: Base, index: int): real { (Pow(b, index) + Pow(b, index + 1)) / 2.0 }

  /** The values standing for positive and negative buckets, by index. */
  function Above(b: Base): int -> real { index => Midpoint(b, index) }

  function Below(b: Base): int -> real { index => -Midpoint(b, index) }

  /** One entry per nonempty bucket: the value standing for it, and its count. */
  function Entries(mid: int -> real, buckets: Buckets): (c: Converted)
    ensures |c.values| == |c.counts|
    decreases |buckets.counts|
  {
    if buckets.counts == [] then Converted([], [])
    else
      var last := |buckets.counts| - 1;
      var before := Entries(mid, buckets.(counts := buckets.counts[..last]));
      if buckets.counts[last] > 0
      then Join(before, Converted([mid(buckets.offset + last)], [buckets.counts[last] as real]))
      else before
  }

  function ZeroEntry(count: nat): Converted {
    if count > 0 then Converted([0.0], [count as real]) else Converted([], [])
  }

  function Conversion(p: DataPoint): (c: Converted)
    ensures |c.values| == |c.counts|
  {
    Join(Join(Entries(Above(p.base), p.positive), ZeroEntry(p.zeroCount)), Entries(Below(p.base), p.negative))
  }

  /** Each bucket's boundary nearer to zero is the previous bucket's farther one; only the first is computed afresh. */
  method ConvertPositive(b: Base, buckets: Buckets) returns (r: Converted)
    ensures r == Entries(Above(b), buckets)
  {
    var values, counts := [], [];
    var bucketBegin, bucketEnd := 0.0, 0.0;
    for bucketIndex := 0 to |buckets.counts|
      invariant if bucketIndex == 0 then bucketBegin == 0.0
                else bucketBegin > 0.0 && bucketEnd == Pow(b, buckets.offset + bucketIndex)
      invariant Converted(values, counts) == Entries(Above(b), buckets.(counts := buckets.counts[..bucketIndex]))
    {
      assert buckets.counts[..bucketIndex + 1][..bucketIndex] == buckets.counts[..bucketIndex];
      var index, count := bucketIndex + buckets.offset, buckets.counts[bucketIndex];
      PowLaws(b, index);
      if bucketBegin == 0.0 {
        bucketBegin := Pow(b, index);
      } else {
        bucketBegin := bucketEnd;
      }
      bucketEnd := Pow(b, index + 1);
      var metricVal := (bucketBegin + bucketEnd) / 2.0;
      if count > 0 {
        values, counts := values + [metricVal], counts + [count as real];
      }
    }
    assert buckets.counts[..|buckets.counts|] == buckets.counts;
    r := Converted(values, counts);
  }

  method ConvertNegative(b: Base, buckets: Buckets) returns (r: Converted)
    ensures r == Entries(Below(b), buckets)
  {
    var values, counts := [], [];
    var bucketBegin, bucketEnd := 0.0, 0.0;
    for bucketIndex := 0 to |buckets.counts|
      invariant if bucketIndex == 0 then bucketEnd == 0.0
                else bucketEnd < 0.0 && bucketBegin == -Pow(b, buckets.offset + bucketIndex)
      invariant Converted(values, counts) == Entries(Below(b), buckets.(counts := buckets.counts[..bucketIndex]))
    {
      assert buckets.counts[..bucketIndex + 1][..bucketIndex] == buckets.counts[..bucketIndex];
      var index, count := bucketIndex + buckets.offset, buckets.counts[bucketIndex];
      PowLaws(b, index);
      if bucketEnd == 0.0 {
        bucketEnd := -Pow(b, index);
      } else {
        bucketEnd := bucketBegin;
      }
      bucketBegin := -Pow(b, index + 1);
      var metricVal := (bucketBegin + bucketEnd) / 2.0;
      if count > 0 {
        values, counts := values + [metricVal], counts + [count as real];
      }
    }
    assert buckets.counts[..|buckets.counts|] == buckets.counts;
    r := Converted(values, counts);
  }

  method ConvertExpHistogram(p: DataPoint) returns (r: Converted)
    ensures r == Conversion(p)
  {
    r := ConvertPositive(p.base, p.positive);
    if p.zeroCount > 0 {
      r := Converted(r.values + [0.0], r.counts + [p.zeroCount as real]);
    }
    var negative := ConvertNegative(p.base, p.negative);
    r := Join(r, negative);
  }

  // ---------- The observations a histogram stands for ----------

  function Sum(xs: seq<real>): real { if xs == [] then 0.0 else Sum(xs[..|xs| - 1]) + xs[|xs| - 1] }

  function Abs(x: real): real { if x >= 0.0 then x else -x }

  /** The sum of a quantity over observations. */
  function SumOf(f: real -> real, xs: seq<real>): real {
    if xs == [] then 0.0 else SumOf(f, xs[..|xs| - 1]) + f(xs[|xs| - 1])
  }

  /** The sum of values, each weighed by its count. */
  function Weighted(weigh: (real, real) -> real, c: Converted): real
    requires |c.values| == |c.counts|
    decreases |c.values|
  {
    if c.values == [] then 0.0
    else
      var last := |c.values| - 1;
      Weighted(weigh, Converted(c.values[..last], c.counts[..last])) + weigh(c.values[last], c.counts[last])
  }

  /** Each value as often as its count says. */
  function Times(): (real, real) -> real { (value, count) => value * count }

  function Concat(xss: seq<seq<real>>): seq<real> {
    if xss == [] then [] else Concat(xss[..|xss| - 1]) + xss[|xss| - 1]
  }

  /** Observations sorted into buckets: as many in each as it counts, and each inside it. */
  ghost predicate Fill(b: Base, buckets: Buckets, negative: bool, obs: seq<seq<real>>) {
    && |obs| == |buckets.counts|
    && (forall k | 0 <= k < |obs| :: |obs[k]| == buckets.counts[k])
    && forall k, i | 0 <= k < |obs| && 0 <= i < |obs[k]| ::
         InBucket(b, buckets.offset + k, if negative then -obs[k][i] else obs[k][i])
  }

  predicate InBucket(b: Base, index: int, magnitude: real) { Pow(b, index) <= magnitude <= Pow(b, index + 1) }

  /** The same, knowing only how far an observation may be from the value that stands for its bucket. */
  ghost predicate Near(mid: int -> real, slack: real -> real, buckets: Buckets, obs: seq<seq<real>>) {
    && |obs| == |buckets.counts|
    && (forall k | 0 <= k < |obs| :: |obs[k]| == buckets.counts[k])
    && forall k, i | 0 <= k < |obs| && 0 <= i < |obs[k]| :: Abs(mid(buckets.offset + k) - obs[k][i]) <= slack(obs[k][i])
  }

  lemma {:induction false} SumsSplit(f: real -> real, xs: seq<real>, ys: seq<real>)
    ensures Sum(xs + ys) == Sum(xs) + Sum(ys) && SumOf(f, xs + ys) == SumOf(f, xs) + SumOf(f, ys)
  {
    if ys == [] {
      assert xs + ys == xs;
    } else {
      assert (xs + ys)[..|xs + ys| - 1] == xs + ys[..|ys| - 1];
      SumsSplit(f, xs, ys[..|ys| - 1]);
    }
  }

  lemma {:induction false} WeightedSplits(weigh: (real, real) -> real, c: Converted, d: Converted)
    requires |c.values| == |c.counts| && |d.values| == |d.counts|
    ensures Weighted(weigh, Join(c, d)) == Weighted(weigh, c) + Weighted(weigh, d)
    decreases |d.values|
  {
    var j := Join(c, d);
    if d.values == [] {
      assert j == c;
    } else {
      var init := Converted(d.values[..|d.values| - 1], d.counts[..|d.counts| - 1]);
      assert j.values[..|j.values| - 1] == Join(c, init).values && j.counts[..|j.counts| - 1] == Join(c, init).counts;
      WeightedSplits(weigh, c, init);
    }
  }

  function Repeat(m: real, n: nat): real { if n == 0 then 0.0 else Repeat(m, n - 1) + m }

  /** Weighing by a count is adding up that often. */
  ghost predicate Weighs(weigh: (real, real) -> real) {
    forall m: real, n: nat {:trigger weigh(m, n as real)} :: weigh(m, n as real) == Repeat(m, n)
  }

  lemma {:induction false} TimesRepeats(m: real, n: nat)
    ensures m * n as real == Repeat(m, n)
  {
    if n > 0 {
      TimesRepeats(m, n - 1);
      assert m * n as real == m * (n - 1) as real + m;
    }
  }

  lemma TimesWeighs()
    ensures Weighs(Times())
  {
    forall m: real, n: nat
      ensures Times()(m, n as real) == Repeat(m, n)
    {
      TimesRepeats(m, n);
    }
  }

  /** One bucket: its value, as often as it counts, against the sum of what is in it. */
  lemma {:induction false} BucketError(m: real, slack: real -> real, xs: seq<real>)
    requires forall i | 0 <= i < |xs| :: Abs(m - xs[i]) <= slack(xs[i])
    ensures Abs(Repeat(m, |xs|) - Sum(xs)) <= SumOf(slack, xs)
  {
    if xs != [] {
      BucketError(m, slack, xs[..|xs| - 1]);
    }
  }

  /** A conversion off by no more than the observations allow, and whose counts are right. */
  ghost predicate Faithful(weigh: (real, real) -> real, c: Converted, all: seq<real>, slack: real -> real) {
    && |c.values| == |c.counts|
    && Abs(Weighted(weigh, c) - Sum(all)) <= SumOf(slack, all)
    && Sum(c.counts) == |all| as real
  }

  lemma FaithfulTogether(
      weigh: (real, real) -> real, c: Converted, d: Converted, xs: seq<real>, ys: seq<real>, slack: real -> real)
    requires Faithful(weigh, c, xs, slack) && Faithful(weigh, d, ys, slack)
    ensures Faithful(weigh, Join(c, d), xs + ys, slack)
  {
    WeightedSplits(weigh, c, d);
    SumsSplit(slack, xs, ys);
    SumsSplit(slack, c.counts, d.counts);
  }

  lemma BucketFaithful(weigh: (real, real) -> real, m: real, slack: real -> real, xs: seq<real>)
    requires Weighs(weigh) && forall i | 0 <= i < |xs| :: Abs(m - xs[i]) <= slack(xs[i])
    ensures Faithful(weigh, Converted([m], [|xs| as real]), xs, slack)
  {
    BucketError(m, slack, xs);
    var c := Converted([m], [|xs| as real]);
    assert Converted(c.values[..0], c.counts[..0]) == Converted([], []);
    assert Weighted(weigh, c) == Weighted(weigh, Converted([], [])) + weigh(m, |xs| as real);
    assert Sum(c.counts) == Sum(c.counts[..0]) + |xs| as real;
  }

  lemma BucketAdded(weigh: (real, real) -> real, slack: real -> real, before: Converted, rest: seq<real>, m: real,
                    last: seq<real>, after: Converted)
    requires Weighs(weigh) && Faithful(weigh, before, rest, slack)
    requires forall i | 0 <= i < |last| :: Abs(m - last[i]) <= slack(last[i])
    requires after == if |last| > 0 then Join(before, Converted([m], [|last| as real])) else before
    ensures Faithful(weigh, after, rest + last, slack)
  {
    if |last| > 0 {
      BucketFaithful(weigh, m, slack, last);
      FaithfulTogether(weigh, before, Converted([m], [|last| as real]), rest, last, slack);
    } else {
      assert rest + last == rest;
    }
  }

  lemma NearInit(mid: int -> real, slack: real -> real, buckets: Buckets, obs: seq<seq<real>>)
    requires Near(mid, slack, buckets, obs) && obs != []
    ensures var n := |obs| - 1;
            && Near(mid, slack, buckets.(counts := buckets.counts[..n]), obs[..n])
            && |obs[n]| == buckets.counts[n]
            && forall i | 0 <= i < |obs[n]| :: Abs(mid(buckets.offset + n) - obs[n][i]) <= slack(obs[n][i])
  {
  }

  /** One side of the histogram. */
  lemma {:induction false} SideFaithful(
      weigh: (real, real) -> real, mid: int -> real, slack: real -> real, buckets: Buckets, obs: seq<seq<real>>)
    requires Weighs(weigh) && Near(mid, slack, buckets, obs)
    ensures Faithful(weigh, Entries(mid, buckets), Concat(obs), slack)
    decreases |buckets.counts|
  {
    if obs != [] {
      var n := |obs| - 1;
      var init := buckets.(counts := buckets.counts[..n]);
      NearInit(mid, slack, buckets, obs);
      SideFaithful(weigh, mid, slack, init, obs[..n]);
      BucketAdded(weigh, slack, Entries(mid, init), Concat(obs[..n]), mid(buckets.offset + n), obs[n],
                  Entries(mid, buckets));
    }
  }

  // ---------- The relative error of a base ----------

  function Slack(b: Base): real -> real { x => (b - 1.0) / 2.0 * Abs(x) }

  function SumAbs(xs: seq<real>): real { if xs == [] then 0.0 else SumAbs(xs[..|xs| - 1]) + Abs(xs[|xs| - 1]) }

  lemma {:induction false} SlackScalesSumAbs(b: Base, xs: seq<real>)
    ensures SumOf(Slack(b), xs) == (b - 1.0) / 2.0 * SumAbs(xs)
  {
    if xs != [] {
      SlackScalesSumAbs(b, xs[..|xs| - 1]);
    }
  }

  /** Half the width of a bucket is at most (base-1)/2 of anything in it. */
  lemma HalfWidth(b: Base, p: real, q: real, y: real)
    requires p > 0.0 && q == b * p && p <= y <= q
    ensures Abs((p + q) / 2.0 - y) <= Slack(b)(y) == Slack(b)(-y)
  {
    var h := (b - 1.0) / 2.0;
    assert h * p == (q - p) / 2.0;
    assert h * (y - p) >= 0.0;
    assert h * y == h * p + h * (y - p);
  }

  lemma MidpointIsClose(b: Base, index: int, y: real)
    requires InBucket(b, index, y)
    ensures Abs(Midpoint(b, index) - y) <= Slack(b)(y)
    ensures Abs(-Midpoint(b, index) - -y) <= Slack(b)(-y)
  {
    PowLaws(b, index);
    var p, q, slack := Pow(b, index), Pow(b, index + 1), Slack(b)(y);
    HalfWidth(b, p, q, y);
    BothSides((p + q) / 2.0, y, slack);
  }

  lemma BothSides(m: real, y: real, slack: real)
    requires Abs(m - y) <= slack
    ensures Abs(-m - -y) <= slack
  {
  }

  lemma FilledIsNear(b: Base, buckets: Buckets, negative: bool, obs: seq<seq<real>>)
    requires Fill(b, buckets, negative, obs)
    ensures Near(if negative then Below(b) else Above(b), Slack(b), buckets, obs)
  {
    forall k, i | 0 <= k < |obs| && 0 <= i < |obs[k]|
      ensures Abs((if negative then Below(b) else Above(b))(buckets.offset + k) - obs[k][i]) <= Slack(b)(obs[k][i])
    {
      MidpointIsClose(b, buckets.offset + k, if negative then -obs[k][i] else obs[k][i]);
    }
  }

  /** A histogram and observations it could have come from; those in the zero bucket are 0. */
  datatype Recorded = Recorded(point: DataPoint, positive: seq<seq<real>>, negative: seq<seq<real>>)

  ghost predicate Records(r: Recorded) {
    && Fill(r.point.base, r.point.positive, false, r.positive)
    && Fill(r.point.base, r.point.negative, true, r.negative)
  }

  function Zeros(n: nat): seq<real> { seq(n, _ => 0.0) }

  function Observations(r: Recorded): seq<real> {
    Concat(r.positive) + Zeros(r.point.zeroCount) + Concat(r.negative)
  }

  lemma ConversionFaithful(weigh: (real, real) -> real, slack: real -> real, p: DataPoint,
                           positive: seq<seq<real>>, negative: seq<seq<real>>)
    requires Weighs(weigh) && slack(0.0) >= 0.0
    requires Near(Above(p.base), slack, p.positive, positive) && Near(Below(p.base), slack, p.negative, negative)
    ensures Faithful(weigh, Conversion(p), Concat(positive) + Zeros(p.zeroCount) + Concat(negative), slack)
  {
    SideFaithful(weigh, Above(p.base), slack, p.positive, positive);
    SideFaithful(weigh, Below(p.base), slack, p.negative, negative);
    ZerosFaithful(weigh, p.zeroCount, slack);
    var pos, neg := Entries(Above(p.base), p.positive), Entries(Below(p.base), p.negative);
    var zero := ZeroEntry(p.zeroCount);
    FaithfulTogether(weigh, pos, zero, Concat(positive), Zeros(p.zeroCount), slack);
    FaithfulTogether(weigh, Join(pos, zero), neg, Concat(positive) + Zeros(p.zeroCount), Concat(negative), slack);
  }

  lemma ZerosFaithful(weigh: (real, real) -> real, n: nat, slack: real -> real)
    requires Weighs(weigh) && slack(0.0) >= 0.0
    ensures Faithful(weigh, ZeroEntry(n), Zeros(n), slack)
  {
    if n > 0 {
      BucketFaithful(weigh, 0.0, slack, Zeros(n));
    }
  }

  /**
    The converted sum, values times counts, is off from the true sum by at most (base-1)/2 times the absolute value of
    each observation, summed, and the counts sum to the number of observations.
   */
  lemma ConversionError(r: Recorded)
    requires Records(r)
    ensures Faithful(Times(), Conversion(r.point), Observations(r), Slack(r.point.base))
  {
    var p, slack := r.point, Slack(r.point.base);
    TimesWeighs();
    FilledIsNear(p.base, p.positive, false, r.positive);
    FilledIsNear(p.base, p.negative, true, r.negative);
    ConversionFaithful(Times(), slack, p, r.positive, r.negative);
  }

  // ---------- Lists of data points ----------

  /** A converted sum, the true sum, and what they may differ by. */
  datatype Totals = Totals(converted: real, observed: real, tolerance: real)

  function TotalsOf(r: Recorded): Totals {
    Totals(Weighted(Times(), Conversion(r.point)), Sum(Observations(r)),
           SumOf(Slack(r.point.base), Observations(r)))
  }

  predicate Tolerable(t: Totals) { Abs(t.converted - t.observed) <= t.tolerance }

  lemma PointTolerable(r: Recorded)
    requires Records(r)
    ensures Tolerable(TotalsOf(r))
  {
    ConversionError(r);
  }

  function AddUp(ts: seq<Totals>): Totals {
    if ts == [] then Totals(0.0, 0.0, 0.0)
    else
      var t, last := AddUp(ts[..|ts| - 1]), ts[|ts| - 1];
      Totals(t.converted + last.converted, t.observed + last.observed, t.tolerance + last.tolerance)
  }

  lemma {:induction false} ErrorsAddUp(ts: seq<Totals>)
    requires forall i | 0 <= i < |ts| :: Tolerable(ts[i])
    ensures Tolerable(AddUp(ts))
  {
    if ts != [] {
      ErrorsAddUp(ts[..|ts| - 1]);
    }
  }

  /** Over any list of data points, each with its own base, the errors at worst add up. */
  lemma ListError(rs: seq<Recorded>, ts: seq<Totals>)
    requires |ts| == |rs| && forall i | 0 <= i < |rs| :: Records(rs[i]) && ts[i] == TotalsOf(rs[i])
    ensures Tolerable(AddUp(ts))
  {
    forall i | 0 <= i < |ts|
      ensures Tolerable(ts[i])
    {
      PointTolerable(rs[i]);
    }
    ErrorsAddUp(ts);
  }
}
