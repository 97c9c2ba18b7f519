/**
 * The hourly roll-up arithmetic: recording one sample, merging two hourly rows, and the
 * reference meaning both are measured against, which is the direct count, minimum, maximum
 * and mean of a set of samples.
 */
module Aggregates {
  import opened Common
  import opened Totals
  import opened Schema

  /** Folds one optional value into a running count, minimum, maximum and mean. */
  function Record(a: Scalar, value: Option<real>): Scalar {
    match value
    case None => a
    case Some(v) =>
      var count := a.count + 1;
      Scalar(
        count,
        Some(match a.min case Some(c) => (if v < c then v else c) case None => v),
        Some(match a.max case Some(c) => (if v > c then v else c) case None => v),
        Some(match a.avg case Some(c) => c + (v - c) / (count as real) case None => v))
  }

  /** The `ON CONFLICT DO UPDATE` arithmetic; every right-hand side reads the stored row. */
  function Merge(current: Scalar, incoming: Scalar): Scalar {
    if current.count == 0 then Scalar(incoming.count, incoming.min, incoming.max, incoming.avg)
    else if incoming.count == 0 then current
    else
      Scalar(
        current.count + incoming.count,
        SqlMin(current.min, incoming.min),
        SqlMax(current.max, incoming.max),
        match (current.avg, incoming.avg)
        case (Some(c), Some(i)) =>
          Some(c + (i - c) * ((incoming.count as real) / ((current.count + incoming.count) as real)))
        case _ => None)
  }

  /** SQLite's scalar MIN and MAX are NULL when an argument is NULL. */
  function SqlMin(a: Option<real>, b: Option<real>): Option<real> {
    if a.None? || b.None? then None else Some(if b.value < a.value then b.value else a.value)
  }

  function SqlMax(a: Option<real>, b: Option<real>): Option<real> {
    if a.None? || b.None? then None else Some(if b.value > a.value then b.value else a.value)
  }

  const EMPTY: Scalar := Scalar(0, None, None, None)

  // ---- reference meaning ----

  ghost predicate Attains(v: map<nat, real>, x: real) {
    exists k :: k in v && v[k] == x
  }

  ghost predicate IsMin(x: real, v: map<nat, real>) {
    Attains(v, x) && forall k :: k in v ==> x <= v[k]
  }

  ghost predicate IsMax(x: real, v: map<nat, real>) {
    Attains(v, x) && forall k :: k in v ==> x >= v[k]
  }

  /** `n` copies of `x` added up. */
  function Times(n: nat, x: real): real {
    if n == 0 then 0.0 else Times(n - 1, x) + x
  }

  predicate IsMean(x: real, n: nat, total: real) {
    Times(n, x) == total
  }

  lemma {:induction false} TimesIsProduct(n: nat, x: real)
    ensures Times(n, x) == x * (n as real)
  {
    if n > 0 {
      TimesIsProduct(n - 1, x);
      assert n as real == (n - 1) as real + 1.0;
      assert x * (n as real) == x * ((n - 1) as real) + x;
    }
  }

  /** `a` is the direct count, minimum, maximum and mean of the values in `v`. */
  ghost predicate Describes(a: Scalar, v: map<nat, real>) {
    && a.count == |v|
    && (if v == map[] then a == EMPTY
        else
          && a.min.Some? && IsMin(a.min.value, v)
          && a.max.Some? && IsMax(a.max.value, v)
          && a.avg.Some? && IsMean(a.avg.value, |v|, Total(v)))
  }

  lemma ScaledStep(c: real, x: real, n: real)
    requires n > 0.0
    ensures (c + (x - c) / n) * n == c * (n - 1.0) + x
  {
    var f := (x - c) / n;
    assert f * n == x - c;
    assert (c + f) * n == c * n + f * n;
  }

  lemma ScaledMerge(c: real, i: real, p: real, q: real)
    requires p > 0.0 && q > 0.0
    ensures (c + (i - c) * (q / (p + q))) * (p + q) == c * p + i * q
  {
    var n := p + q;
    var f := q / n;
    assert f * n == q;
    assert (c + (i - c) * f) * n == c * n + (i - c) * (f * n);
  }

  lemma RecordMean(a: Scalar, x: real, total: real)
    requires if a.count == 0 then a.avg.None? && total == 0.0 else a.avg.Some? && IsMean(a.avg.value, a.count, total)
    ensures IsMean(Record(a, Some(x)).avg.value, a.count + 1, total + x)
  {
    var n := a.count + 1;
    var mean := Record(a, Some(x)).avg.value;
    TimesIsProduct(n, mean);
    if a.count > 0 {
      ScaledStep(a.avg.value, x, n as real);
      TimesIsProduct(a.count, a.avg.value);
    }
  }

  lemma MergeMean(a: Scalar, b: Scalar, s: real, t: real)
    requires a.count > 0 && a.avg.Some? && IsMean(a.avg.value, a.count, s)
    requires b.count > 0 && b.avg.Some? && IsMean(b.avg.value, b.count, t)
    ensures Merge(a, b).avg.Some? && IsMean(Merge(a, b).avg.value, a.count + b.count, s + t)
  {
    ScaledMerge(a.avg.value, b.avg.value, a.count as real, b.count as real);
    TimesIsProduct(a.count, a.avg.value);
    TimesIsProduct(b.count, b.avg.value);
    TimesIsProduct(a.count + b.count, Merge(a, b).avg.value);
  }

  lemma {:induction false} TimesMonotone(n: nat, x: real, y: real)
    requires n > 0 && x < y
    ensures Times(n, x) < Times(n, y)
  {
    if n > 1 { TimesMonotone(n - 1, x, y); }
  }

  lemma MeanUnique(x: real, y: real, n: nat, total: real)
    requires n > 0 && IsMean(x, n, total) && IsMean(y, n, total)
    ensures x == y
  {
    if x < y { TimesMonotone(n, x, y); } else if y < x { TimesMonotone(n, y, x); }
  }

  lemma AttainsInsert(v: map<nat, real>, k: nat, x: real, y: real)
    requires k !in v && (y == x || Attains(v, y))
    ensures Attains(v[k := x], y)
  {
    var w := v[k := x];
    if y == x { assert w[k] == y; }
    else { var j :| j in v && v[j] == y; assert w[j] == y; }
  }

  lemma AttainsUnion(v: map<nat, real>, w: map<nat, real>, y: real)
    requires v.Keys !! w.Keys && (Attains(v, y) || Attains(w, y))
    ensures Attains(v + w, y)
  {
    if Attains(v, y) { var j :| j in v && v[j] == y; assert (v + w)[j] == y; }
    else { var j :| j in w && w[j] == y; assert (v + w)[j] == y; }
  }

  lemma DescribesRecord(a: Scalar, v: map<nat, real>, k: nat, x: real)
    requires Describes(a, v) && k !in v
    ensures Describes(Record(a, Some(x)), v[k := x])
  {
    assert v == map[] ==> Total(v) == 0.0;
    hide Total, IsMean;
    var w, b := v[k := x], Record(a, Some(x));
    TotalInsert(v, k, x);
    assert w.Keys == v.Keys + {k};
    AttainsInsert(v, k, x, b.min.value);
    AttainsInsert(v, k, x, b.max.value);
    RecordMean(a, x, Total(v));
  }

  lemma DescribesMerge(a: Scalar, v: map<nat, real>, b: Scalar, w: map<nat, real>)
    requires Describes(a, v) && Describes(b, w) && v.Keys !! w.Keys
    ensures Describes(Merge(a, b), v + w)
  {
    var u := v + w;
    assert u.Keys == v.Keys + w.Keys;
    if v == map[] {
      assert u == w;
    } else if w == map[] {
      assert u == v;
    } else {
      TotalUnion(v, w);
      assert |u.Keys| == |v.Keys| + |w.Keys|;
      AttainsUnion(v, w, Merge(a, b).min.value);
      AttainsUnion(v, w, Merge(a, b).max.value);
      MergeMean(a, b, Total(v), Total(w));
    }
  }

  /** The reference meaning leaves no freedom. */
  lemma DescribesUnique(a: Scalar, b: Scalar, v: map<nat, real>)
    requires Describes(a, v) && Describes(b, v)
    ensures a == b
  {
    if v != map[] {
      MeanUnique(a.avg.value, b.avg.value, |v|, Total(v));
    }
  }

  // ---- whole hourly rows ----

  function Hour(collected: Instant): Instant { collected / HOUR * HOUR }

  function NewRow(s: Sample): HourlyRow
  {
    RecordRow(HourlyRow(s.collected, s.collected, 0, seq(METRICS, _ => EMPTY)), s)
  }

  function RecordRow(h: HourlyRow, s: Sample): HourlyRow
  {
    HourlyRow(
      if s.collected < h.intervalStart then s.collected else h.intervalStart,
      if s.collected > h.intervalEnd then s.collected else h.intervalEnd,
      h.sampleCount + 1,
      seq(METRICS, m requires 0 <= m < METRICS => Record(h.metrics[m], s.metrics[m])))
  }

  function MergeRow(h: HourlyRow, g: HourlyRow): HourlyRow
  {
    HourlyRow(
      if g.intervalStart < h.intervalStart then g.intervalStart else h.intervalStart,
      if g.intervalEnd > h.intervalEnd then g.intervalEnd else h.intervalEnd,
      h.sampleCount + g.sampleCount,
      seq(METRICS, m requires 0 <= m < METRICS => Merge(h.metrics[m], g.metrics[m])))
  }

  /** The values one metric takes over a set of samples; a sample may lack the metric. */
  ghost function ValuesOf(samples: map<nat, Sample>, m: nat): map<nat, real>
    requires m < METRICS
  {
    map k | k in samples && samples[k].metrics[m].Some? :: samples[k].metrics[m].value
  }

  /** `h` is the direct summary of `samples`: first and last collection time, count, and metrics. */
  ghost predicate Represents(h: HourlyRow, samples: map<nat, Sample>) {
    && h.sampleCount == |samples| > 0
    && (exists k :: k in samples && samples[k].collected == h.intervalStart)
    && (exists k :: k in samples && samples[k].collected == h.intervalEnd)
    && (forall k :: k in samples ==> h.intervalStart <= samples[k].collected <= h.intervalEnd)
    && (forall m :: 0 <= m < METRICS ==> Describes(h.metrics[m], ValuesOf(samples, m)))
  }

  lemma MetricsRecord(h: HourlyRow, samples: map<nat, Sample>, k: nat, s: Sample)
    requires k !in samples
    requires forall m :: 0 <= m < METRICS ==> Describes(h.metrics[m], ValuesOf(samples, m))
    ensures forall m :: 0 <= m < METRICS ==> Describes(RecordRow(h, s).metrics[m], ValuesOf(samples[k := s], m))
  {
    forall m | 0 <= m < METRICS
      ensures Describes(RecordRow(h, s).metrics[m], ValuesOf(samples[k := s], m))
    {
      var v := ValuesOf(samples, m);
      match s.metrics[m]
      case None => assert ValuesOf(samples[k := s], m) == v;
      case Some(x) =>
        assert ValuesOf(samples[k := s], m) == v[k := x];
        DescribesRecord(h.metrics[m], v, k, x);
    }
  }

  lemma RepresentsNew(k: nat, s: Sample)
    ensures Represents(NewRow(s), map[k := s])
  {
    var none: map<nat, Sample> := map[];
    var blank := HourlyRow(s.collected, s.collected, 0, seq(METRICS, _ => EMPTY));
    forall m | 0 <= m < METRICS ensures Describes(blank.metrics[m], ValuesOf(none, m)) {
      assert ValuesOf(none, m) == map[];
    }
    MetricsRecord(blank, none, k, s);
    assert none[k := s] == map[k := s];
    assert k in map[k := s];
  }

  lemma RepresentsRecord(h: HourlyRow, samples: map<nat, Sample>, k: nat, s: Sample)
    requires Represents(h, samples) && k !in samples
    ensures Represents(RecordRow(h, s), samples[k := s])
  {
    MetricsRecord(h, samples, k, s);
    var after := samples[k := s];
    assert k in after;
    var lo :| lo in samples && samples[lo].collected == h.intervalStart;
    var hi :| hi in samples && samples[hi].collected == h.intervalEnd;
    assert lo in after && hi in after;
  }

  lemma ValuesUnion(a: map<nat, Sample>, b: map<nat, Sample>, m: nat)
    requires a.Keys !! b.Keys && m < METRICS
    ensures ValuesOf(a + b, m) == ValuesOf(a, m) + ValuesOf(b, m)
    ensures ValuesOf(a, m).Keys !! ValuesOf(b, m).Keys
  {
  }

  lemma MetricsMerge(h: HourlyRow, a: map<nat, Sample>, g: HourlyRow, b: map<nat, Sample>)
    requires Represents(h, a) && Represents(g, b) && a.Keys !! b.Keys
    ensures forall m :: 0 <= m < METRICS ==> Describes(MergeRow(h, g).metrics[m], ValuesOf(a + b, m))
  {
    forall m | 0 <= m < METRICS ensures Describes(MergeRow(h, g).metrics[m], ValuesOf(a + b, m)) {
      ValuesUnion(a, b, m);
      DescribesMerge(h.metrics[m], ValuesOf(a, m), g.metrics[m], ValuesOf(b, m));
    }
  }

  lemma RepresentsMerge(h: HourlyRow, a: map<nat, Sample>, g: HourlyRow, b: map<nat, Sample>)
    requires Represents(h, a) && Represents(g, b) && a.Keys !! b.Keys
    ensures Represents(MergeRow(h, g), a + b)
  {
    var u := a + b;
    assert u.Keys == a.Keys + b.Keys && |u.Keys| == |a.Keys| + |b.Keys|;
    assert forall k :: k in a ==> k in u && u[k] == a[k];
    assert forall k :: k in b ==> k in u && u[k] == b[k];
    MetricsMerge(h, a, g, b);
  }

  lemma RepresentsUnique(h: HourlyRow, g: HourlyRow, samples: map<nat, Sample>)
    requires Represents(h, samples) && Represents(g, samples)
    ensures h == g
  {
    forall m | 0 <= m < METRICS ensures h.metrics[m] == g.metrics[m] {
      DescribesUnique(h.metrics[m], g.metrics[m], ValuesOf(samples, m));
    }
    assert h.metrics == g.metrics;
  }

  lemma ValuesAtMostSamples(samples: map<nat, Sample>, m: nat)
    requires m < METRICS
    ensures |ValuesOf(samples, m)| <= |samples|
  {
    SubsetSize(ValuesOf(samples, m).Keys, samples.Keys);
  }

  lemma HourSpan(t: Instant)
    ensures Hour(t) <= t < Hour(t) + HOUR
  {
  }

  /** The schema's CHECK constraints hold of every direct summary of samples of one hour. */
  lemma RepresentsMeetsChecks(h: HourlyRow, samples: map<nat, Sample>, bucketStart: Instant)
    requires Represents(h, samples)
    requires forall k :: k in samples ==> bucketStart == Hour(samples[k].collected)
    ensures h.sampleCount > 0 && bucketStart <= h.intervalStart <= h.intervalEnd < bucketStart + HOUR
    ensures forall m :: 0 <= m < METRICS ==> 0 <= h.metrics[m].count <= h.sampleCount
  {
    forall m | 0 <= m < METRICS ensures h.metrics[m].count <= h.sampleCount {
      ValuesAtMostSamples(samples, m);
    }
    var lo :| lo in samples && samples[lo].collected == h.intervalStart;
    var hi :| hi in samples && samples[hi].collected == h.intervalEnd;
    HourSpan(samples[lo].collected);
    HourSpan(samples[hi].collected);
  }

  // ---- batch-split independence ----

  predicate Covered(samples: map<nat, Sample>, batch: seq<nat>) {
    batch != [] && forall j :: 0 <= j < |batch| ==> batch[j] in samples
  }

  predicate AllCovered(samples: map<nat, Sample>, batches: seq<seq<nat>>) {
    batches != [] && forall b :: 0 <= b < |batches| ==> Covered(samples, batches[b])
  }

  function FoldBatch(samples: map<nat, Sample>, batch: seq<nat>): HourlyRow
    requires Covered(samples, batch)
  {
    if |batch| == 1 then NewRow(samples[batch[0]])
    else RecordRow(FoldBatch(samples, batch[..|batch| - 1]), samples[batch[|batch| - 1]])
  }

  function FoldBatches(samples: map<nat, Sample>, batches: seq<seq<nat>>): HourlyRow
    requires AllCovered(samples, batches)
  {
    if |batches| == 1 then FoldBatch(samples, batches[0])
    else MergeRow(FoldBatches(samples, batches[..|batches| - 1]), FoldBatch(samples, batches[|batches| - 1]))
  }

  function Flatten(batches: seq<seq<nat>>): seq<nat> {
    if batches == [] then [] else Flatten(batches[..|batches| - 1]) + batches[|batches| - 1]
  }

  function Restrict(samples: map<nat, Sample>, keys: seq<nat>): map<nat, Sample> {
    map k | k in samples && k in keys :: samples[k]
  }

  lemma RestrictSnoc(samples: map<nat, Sample>, init: seq<nat>, last: nat)
    requires Distinct(init + [last]) && last in samples
    ensures last !in init && last !in Restrict(samples, init) && Distinct(init)
    ensures Restrict(samples, init + [last]) == Restrict(samples, init)[last := samples[last]]
    ensures init == [] ==> Restrict(samples, init + [last]) == map[last := samples[last]]
  {
    DistinctParts(init, [last]);
    assert last in [last];
  }

  lemma RestrictUnion(samples: map<nat, Sample>, a: seq<nat>, b: seq<nat>)
    requires Distinct(a + b)
    ensures Distinct(a) && Distinct(b)
    ensures Restrict(samples, a).Keys !! Restrict(samples, b).Keys
    ensures Restrict(samples, a + b) == Restrict(samples, a) + Restrict(samples, b)
  {
    DistinctParts(a, b);
  }

  lemma RecordStep(samples: map<nat, Sample>, init: seq<nat>, last: nat, h: HourlyRow)
    requires last in samples && Distinct(init + [last])
    requires Represents(h, Restrict(samples, init))
    ensures Represents(RecordRow(h, samples[last]), Restrict(samples, init + [last]))
  {
    RestrictSnoc(samples, init, last);
    RepresentsRecord(h, Restrict(samples, init), last, samples[last]);
  }

  lemma MergeStep(samples: map<nat, Sample>, front: seq<nat>, last: seq<nat>, h: HourlyRow, g: HourlyRow)
    requires Distinct(front + last)
    requires Represents(h, Restrict(samples, front)) && Represents(g, Restrict(samples, last))
    ensures Represents(MergeRow(h, g), Restrict(samples, front + last))
  {
    RestrictUnion(samples, front, last);
    RepresentsMerge(h, Restrict(samples, front), g, Restrict(samples, last));
  }

  lemma {:induction false} FoldBatchRepresents(samples: map<nat, Sample>, batch: seq<nat>)
    requires Covered(samples, batch) && Distinct(batch)
    ensures Represents(FoldBatch(samples, batch), Restrict(samples, batch))
    decreases |batch|
  {
    var init, last := batch[..|batch| - 1], batch[|batch| - 1];
    assert batch == init + [last];
    if |batch| == 1 {
      RepresentsNew(last, samples[last]);
      RestrictSnoc(samples, init, last);
    } else {
      FoldBatchRepresents(samples, init);
      RecordStep(samples, init, last, FoldBatch(samples, init));
    }
  }

  lemma DistinctParts(front: seq<nat>, last: seq<nat>)
    requires Distinct(front + last)
    ensures Distinct(front) && Distinct(last) && forall k :: k in front ==> k !in last
  {
    var all := front + last;
    assert forall i :: 0 <= i < |front| ==> front[i] == all[i];
    assert forall i :: 0 <= i < |last| ==> last[i] == all[|front| + i];
  }

  lemma {:induction false} FoldBatchesRepresents(samples: map<nat, Sample>, batches: seq<seq<nat>>)
    requires AllCovered(samples, batches) && Distinct(Flatten(batches))
    ensures Represents(FoldBatches(samples, batches), Restrict(samples, Flatten(batches)))
    decreases |batches|
  {
    hide Represents, Restrict;
    var init, last := batches[..|batches| - 1], batches[|batches| - 1];
    var front := Flatten(init);
    assert Flatten(batches) == front + last;
    DistinctParts(front, last);
    FoldBatchRepresents(samples, last);
    if |batches| == 1 {
      assert front + last == last;
    } else {
      FoldBatchesRepresents(samples, init);
      MergeStep(samples, front, last, FoldBatches(samples, init), FoldBatch(samples, last));
    }
  }

  lemma RestrictAll(samples: map<nat, Sample>, keys: seq<nat>)
    requires forall k :: k in samples ==> k in keys
    ensures Restrict(samples, keys) == samples
  {
  }

  /**
   * Batch-split independence: however the same samples are cut into batches and ordered,
   * recording each batch and upserting the batches one after another stores the same row,
   * and it is the direct summary of all of them.
   */
  lemma BatchSplitIndependence(samples: map<nat, Sample>, one: seq<seq<nat>>, other: seq<seq<nat>>)
    requires AllCovered(samples, one) && AllCovered(samples, other)
    requires Distinct(Flatten(one)) && Distinct(Flatten(other))
    requires forall k :: k in samples ==> k in Flatten(one) && k in Flatten(other)
    ensures FoldBatches(samples, one) == FoldBatches(samples, other)
    ensures Represents(FoldBatches(samples, one), samples)
  {
    RestrictAll(samples, Flatten(one));
    RestrictAll(samples, Flatten(other));
    FoldBatchesRepresents(samples, one);
    FoldBatchesRepresents(samples, other);
    RepresentsUnique(FoldBatches(samples, one), FoldBatches(samples, other), samples);
  }
}
