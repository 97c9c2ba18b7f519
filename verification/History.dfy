/** The chart query: choosing a step, aligning the range, and grouping raw and hourly rows. */
module History {
  import opened Common
  import opened Schema

  // ---- choosing the step ----

  const STEPS: seq<int> := [1, 2, 5, 10, 30, 60, 120, 300, 900, 3600, 21_600, 86_400]
  const HOURLY: nat := 9            // index of 3600 in STEPS

  function FloorTo(t: int, step: int): int requires step > 0 { t / step * step }
  function CeilTo(t: int, step: int): int requires step > 0 { (t + step - 1) / step * step }

  function FromSeconds(from: Instant): int { from / SECOND }

  /** The whole timestamp rounded up, so that the fraction of the last second is covered. */
  function ToSeconds(to: Instant): int { to / SECOND + (if to % SECOND != 0 then 1 else 0) }

  function Span(from: Instant, to: Instant): int {
    var d := to - from;
    var seconds := if d >= 0 then d / SECOND else -((-d) / SECOND);
    if seconds > 1 then seconds else 1
  }

  function MinimumStep(from: Instant, to: Instant, maxPoints: nat): int
    requires maxPoints >= 1
  {
    var m := (Span(from, to) + maxPoints - 1) / maxPoints;
    if m > 1 then m else 1
  }

  /** Index of the first table step of at least `m` from index `i` on. */
  function FindStep(i: nat, m: int): nat
    requires i <= |STEPS|
    decreases |STEPS| - i
  {
    if i == |STEPS| || STEPS[i] >= m then i else FindStep(i + 1, m)
  }

  predicate Fits(from: Instant, to: Instant, step: int, maxPoints: nat)
    requires step > 0
  {
    (CeilTo(ToSeconds(to), step) - FloorTo(FromSeconds(from), step)) / step <= maxPoints
  }

  /** Some hourly row lies in the aligned range, widened to the whole hour of its start. */
  predicate Overlaps(hourly: map<BucketKey, HourlyRow>, host: Uuid, from: Instant, to: Instant, step: int)
    requires step > 0
  {
    exists k :: k in hourly && k.0 == host
      && FloorTo(FloorTo(FromSeconds(from), step), 3600) * SECOND <= k.1 < CeilTo(ToSeconds(to), step) * SECOND
  }

  predicate Acceptable(hourly: map<BucketKey, HourlyRow>, host: Uuid, from: Instant, to: Instant, maxPoints: nat,
                       step: int)
    requires step > 0
  {
    Fits(from, to, step, maxPoints) && (Overlaps(hourly, host, from, to, step) ==> step >= 3600)
  }

  ghost predicate HourAligned(hourly: map<BucketKey, HourlyRow>) {
    forall k :: k in hourly ==> k.1 % HOUR == 0
  }

  lemma FindStepFound(i: nat, m: int)
    requires i <= |STEPS|
    ensures i <= FindStep(i, m) <= |STEPS|
    ensures forall j :: i <= j < FindStep(i, m) ==> STEPS[j] < m
    ensures FindStep(i, m) < |STEPS| ==> STEPS[FindStep(i, m)] >= m
    decreases |STEPS| - i
  {
    if i < |STEPS| && STEPS[i] < m { FindStepFound(i + 1, m); }
  }

  lemma CoversSpan(from: Instant, to: Instant)
    ensures Span(from, to) > 1 ==> ToSeconds(to) - FromSeconds(from) >= Span(from, to)
  {
  }

  lemma AlignmentBounds(t: int, step: int)
    requires step > 0
    ensures FloorTo(t, step) <= t < FloorTo(t, step) + step
    ensures t <= CeilTo(t, step) < t + step
  {
    var q := (t + step - 1) / step;
    assert t + step - 1 == q * step + (t + step - 1) % step;
    assert t == t / step * step + t % step;
  }

  lemma BucketCount(lo: int, hi: int, step: int)
    requires step > 0
    ensures (CeilTo(hi, step) - FloorTo(lo, step)) / step * step == CeilTo(hi, step) - FloorTo(lo, step)
  {
    var a, b := (hi + step - 1) / step, lo / step;
    assert a * step - b * step == (a - b) * step;
    MultipleDivides(a - b, step);
  }

  lemma MultipleDivides(n: int, step: int)
    requires step > 0
    ensures (n * step) / step == n
  {
    var q := (n * step) / step;
    var d := n - q;
    assert 0 <= d * step < step;
    if d > 0 { LessMul(1, d, step); } else if d < 0 { LessMul(d, -1, step); }
  }

  lemma LessMul(a: int, b: int, c: int)
    requires a <= b && c >= 0
    ensures a * c <= b * c
  {
    assert (b - a) * c >= 0;
  }

  lemma TooManyBuckets(span: int, points: nat, step: int, n: int)
    requires points >= 1 && 0 < step < (span + points - 1) / points && n * step >= span
    ensures n > points
  {
    var m := (span + points - 1) / points;
    assert m * points <= span + points - 1;
    LessMul(step, m - 1, points);
    assert (m - 1) * points == m * points - points;
    assert step * points < span;
    if n <= points { LessMul(n, points, step); }
  }

  /** A step below the minimum can never meet the point budget. */
  lemma BelowMinimumNeverFits(from: Instant, to: Instant, maxPoints: nat, step: int)
    requires maxPoints >= 1 && 0 < step < MinimumStep(from, to, maxPoints)
    ensures !Fits(from, to, step, maxPoints)
  {
    var span := Span(from, to);
    CoversSpan(from, to);
    if span == 1 { MultipleDivides(1, maxPoints); }
    var lo, hi := FromSeconds(from), ToSeconds(to);
    AlignmentBounds(lo, step);
    AlignmentBounds(hi, step);
    BucketCount(lo, hi, step);
    TooManyBuckets(span, maxPoints, step, (CeilTo(hi, step) - FloorTo(lo, step)) / step);
  }

  predicate Divides(a: int, c: int) { a > 0 && c % a == 0 }

  lemma FloorUnique(x: int, c: int, q: int)
    requires c > 0 && q * c <= x < q * c + c
    ensures FloorTo(x, c) == q * c && x / c == q
  {
    var d := x / c - q;
    assert x == x / c * c + x % c;
    assert d * c == x / c * c - q * c;
    if d > 0 { LessMul(1, d, c); } else if d < 0 { LessMul(d, -1, c); }
  }

  /** Multiples of a coarser step are multiples of a finer one that divides it. */
  lemma CoarseIsFine(q: int, a: int, c: int)
    requires Divides(a, c)
    ensures q * c == (q * (c / a)) * a
  {
    assert c == c / a * a;
  }

  lemma FloorFloor(t: int, a: int, c: int)
    requires c > 0 && Divides(a, c)
    ensures FloorTo(FloorTo(t, a), c) == FloorTo(t, c)
  {
    var x, q := FloorTo(t, a), t / c;
    AlignmentBounds(t, a);
    AlignmentBounds(t, c);
    CoarseIsFine(q, a, c);
    var n := q * (c / a);
    if t / a < n { LessMul(t / a + 1, n, a); }
    LessMul(n, t / a, a);
    FloorUnique(x, c, q);
  }

  /** A multiple of the step is below the rounded-up end exactly when it is below the end itself. */
  lemma BelowCeil(q: int, t: int, a: int)
    requires a > 0
    ensures q * a < CeilTo(t, a) <==> q * a < t
  {
    AlignmentBounds(t, a);
    var n := (t + a - 1) / a;
    if q * a >= t && q < n { LessMul(q + 1, n, a); }
    if q >= n { LessMul(n, q, a); }
  }

  /** The hour starting at `k` meets the requested range, widened to the whole hour of its start. */
  predicate MeetsRange(from: Instant, to: Instant, k: Instant) {
    FloorTo(FromSeconds(from), 3600) * SECOND <= k < ToSeconds(to) * SECOND
  }

  predicate HourSeen(hours: set<BucketKey>, host: Uuid, from: Instant, to: Instant) {
    exists k :: k in hours && k.0 == host && MeetsRange(from, to, k.1)
  }

  /** Below an hour, whether an hourly row overlaps does not depend on the step. */
  lemma OverlapsBelowHour(hourly: map<BucketKey, HourlyRow>, host: Uuid, from: Instant, to: Instant, step: int)
    requires HourAligned(hourly) && Divides(step, 3600)
    ensures Overlaps(hourly, host, from, to, step) <==> HourSeen(hourly.Keys, host, from, to)
  {
    FloorFloor(FromSeconds(from), step, 3600);
    forall k | k in hourly
      ensures k.1 < CeilTo(ToSeconds(to), step) * SECOND <==> k.1 < ToSeconds(to) * SECOND
    {
      var q := k.1 / HOUR;
      assert k.1 == q * 3600 * SECOND;
      CoarseIsFine(q, step, 3600);
      BelowCeil(q * (3600 / step), ToSeconds(to), step);
    }
  }

  lemma StepsDivideHour(i: nat)
    requires i <= HOURLY
    ensures Divides(STEPS[i], 3600)
  {
  }

  /** `step` is in the table and acceptable, and no smaller table step is. */
  ghost predicate IsLeastStep(hourly: map<BucketKey, HourlyRow>, host: Uuid, from: Instant, to: Instant,
                              maxPoints: nat, step: int)
  {
    && step > 0 && Acceptable(hourly, host, from, to, maxPoints, step)
    && (exists i :: 0 <= i < |STEPS| && STEPS[i] == step)
    && (forall i :: 0 <= i < |STEPS| && STEPS[i] < step ==> !Acceptable(hourly, host, from, to, maxPoints, STEPS[i]))
  }

  ghost predicate NoneBefore(hourly: map<BucketKey, HourlyRow>, host: Uuid, from: Instant, to: Instant,
                             maxPoints: nat, n: nat)
    requires n <= |STEPS|
  {
    forall j :: 0 <= j < n ==> !Acceptable(hourly, host, from, to, maxPoints, STEPS[j])
  }

  lemma NoStepBelowMinimum(hourly: map<BucketKey, HourlyRow>, host: Uuid, from: Instant, to: Instant, maxPoints: nat,
                           i: nat)
    requires maxPoints >= 1 && i < |STEPS|
    requires forall j :: 0 <= j < i ==> STEPS[j] < MinimumStep(from, to, maxPoints)
    ensures NoneBefore(hourly, host, from, to, maxPoints, i)
  {
    forall j | 0 <= j < i ensures !Acceptable(hourly, host, from, to, maxPoints, STEPS[j]) {
      BelowMinimumNeverFits(from, to, maxPoints, STEPS[j]);
    }
  }

  /** Once an hourly row overlaps at some step below an hour, the search may skip every step below an hour. */
  lemma NoFinerStep(hourly: map<BucketKey, HourlyRow>, host: Uuid, from: Instant, to: Instant, maxPoints: nat, i: nat)
    requires HourAligned(hourly) && i < HOURLY && Overlaps(hourly, host, from, to, STEPS[i])
    requires NoneBefore(hourly, host, from, to, maxPoints, i)
    ensures NoneBefore(hourly, host, from, to, maxPoints, HOURLY)
  {
    StepsDivideHour(i);
    OverlapsBelowHour(hourly, host, from, to, STEPS[i]);
    forall j | i <= j < HOURLY ensures !Acceptable(hourly, host, from, to, maxPoints, STEPS[j]) {
      StepsDivideHour(j);
      OverlapsBelowHour(hourly, host, from, to, STEPS[j]);
    }
  }

  /**
   * The step search: it ends with the least table step that meets the point budget and is at least
   * an hour when an hourly row overlaps, and fails exactly when there is no such step.
   */
  method ChooseStep(hourly: map<BucketKey, HourlyRow>, host: Uuid, from: Instant, to: Instant, maxPoints: nat)
    returns (step: Option<int>)
    requires maxPoints >= 1 && HourAligned(hourly)
    ensures step.Some? ==> IsLeastStep(hourly, host, from, to, maxPoints, step.value)
    ensures step.None? ==> forall i :: 0 <= i < |STEPS| ==> !Acceptable(hourly, host, from, to, maxPoints, STEPS[i])
  {
    hide Overlaps, MinimumStep, Fits;
    var minimum := MinimumStep(from, to, maxPoints);
    FindStepFound(0, minimum);
    var i := FindStep(0, minimum);
    if i == |STEPS| { i := |STEPS| - 1; }
    NoStepBelowMinimum(hourly, host, from, to, maxPoints, i);
    while true
      invariant i < |STEPS| && NoneBefore(hourly, host, from, to, maxPoints, i)
      decreases |STEPS| - i
    {
      if !Fits(from, to, STEPS[i], maxPoints) {
        if i + 1 == |STEPS| { return None; }
        i := i + 1;
        continue;
      }
      if Overlaps(hourly, host, from, to, STEPS[i]) && STEPS[i] < 3600 {
        NoFinerStep(hourly, host, from, to, maxPoints, i);
        i := HOURLY;
        continue;
      }
      assert forall j :: 0 <= j < |STEPS| && STEPS[j] < STEPS[i] ==> j < i;
      return Some(STEPS[i]);
    }
  }

  /** What the chart endpoint lets through, a range of at most 31 days and 100 to 1000 points, always has a step. */
  lemma AllowedRangesHaveAStep(hourly: map<BucketKey, HourlyRow>, host: Uuid, from: Instant, to: Instant,
                               maxPoints: nat)
    requires from < to && to - from <= 31 * DAY && 100 <= maxPoints <= 1000
    ensures Acceptable(hourly, host, from, to, maxPoints, 86_400)
  {
  }

  /** The aligned range covers the requested one, ends on multiples of the step, and has at most `maxPoints` buckets. */
  lemma AlignedRangeCovers(from: Instant, to: Instant, maxPoints: nat, step: int)
    requires step > 0 && Fits(from, to, step, maxPoints)
    ensures var lo, hi := FloorTo(FromSeconds(from), step), CeilTo(ToSeconds(to), step);
            && lo % step == 0 && hi % step == 0
            && lo * SECOND <= from && to <= hi * SECOND
            && hi - lo <= maxPoints * step
  {
    AlignmentBounds(FromSeconds(from), step);
    AlignmentBounds(ToSeconds(to), step);
    BucketCount(FromSeconds(from), ToSeconds(to), step);
    LessMul((CeilTo(ToSeconds(to), step) - FloorTo(FromSeconds(from), step)) / step, maxPoints, step);
    MultipleDivides(FromSeconds(from) / step, step);
    MultipleDivides((ToSeconds(to) + step - 1) / step, step);
  }
}
