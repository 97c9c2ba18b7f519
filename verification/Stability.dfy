/** When retention leaves the answer to a chart question exactly as it was. */
module Stability {
  import opened Schema
  import opened Aggregates
  import opened Retention
  import opened Ledger
  import opened History
  import opened Chart

  // ---- which hours a roll-up adds ----

  /** The report belongs to the host and to an hour that meets the range. */
  predicate Meets(reports: map<Uuid, ReportRow>, r: Uuid, host: Uuid, from: Instant, to: Instant) {
    r in reports && reports[r].sample.host == host && MeetsRange(from, to, Hour(reports[r].sample.collected))
  }

  predicate BatchMeets(reports: map<Uuid, ReportRow>, batch: seq<Uuid>, host: Uuid, from: Instant, to: Instant) {
    exists r :: r in batch && Meets(reports, r, host, from, to)
  }

  lemma {:induction false} AccumulateKeys(reports: map<Uuid, ReportRow>, batch: seq<Uuid>)
    requires forall r :: r in batch ==> r in reports
    ensures forall k :: k in Accumulate(reports, batch) <==> exists r :: r in batch && KeyOf(reports[r].sample) == k
    decreases |batch|
  {
    if batch != [] {
      var init, last := batch[..|batch| - 1], batch[|batch| - 1];
      AccumulateKeys(reports, init);
      assert forall r :: r in batch <==> r in init || r == last;
    }
  }

  /** After a roll-up the hours that meet a range are those before and those of the batch. */
  lemma RollUpShowsHours(db: Db, batch: seq<Uuid>, now: Instant, host: Uuid, from: Instant, to: Instant)
    requires forall r :: r in batch ==> r in db.reports
    ensures db.hourly.Keys <= RollUp(db, batch, now).hourly.Keys
    ensures HourSeen(RollUp(db, batch, now).hourly.Keys, host, from, to) <==>
            HourSeen(db.hourly.Keys, host, from, to) || BatchMeets(db.reports, batch, host, from, to)
  {
    hide MeetsRange;
    var after := RollUp(db, batch, now).hourly.Keys;
    AccumulateKeys(db.reports, batch);
    if r :| r in batch && Meets(db.reports, r, host, from, to) {
      assert KeyOf(db.reports[r].sample) in after;
    }
  }

  // ---- the step ----

  lemma MoreHoursKeepStep(hourly: map<BucketKey, HourlyRow>, more: map<BucketKey, HourlyRow>, host: Uuid, from: Instant,
                          to: Instant, maxPoints: nat, step: int)
    requires hourly.Keys <= more.Keys && step >= 3600 && IsLeastStep(hourly, host, from, to, maxPoints, step)
    ensures IsLeastStep(more, host, from, to, maxPoints, step)
  {
    forall i | 0 <= i < |STEPS| && STEPS[i] < step ensures !Acceptable(more, host, from, to, maxPoints, STEPS[i]) {
      MoreHoursRejectMore(hourly, more, host, from, to, maxPoints, STEPS[i]);
    }
  }

  lemma MoreHoursRejectMore(hourly: map<BucketKey, HourlyRow>, more: map<BucketKey, HourlyRow>, host: Uuid,
                            from: Instant,
                            to: Instant, maxPoints: nat, step: int)
    requires hourly.Keys <= more.Keys && step > 0 && !Acceptable(hourly, host, from, to, maxPoints, step)
    ensures !Acceptable(more, host, from, to, maxPoints, step)
  {
    if Overlaps(hourly, host, from, to, step) {
      var k :| k in hourly && k.0 == host
        && FloorTo(FloorTo(FromSeconds(from), step), 3600) * SECOND <= k.1 < CeilTo(ToSeconds(to), step) * SECOND;
      assert k in more;
    }
  }

  /** More hours leave the least step least exactly when it is an hour or more, or none of them meets the range. */
  lemma StepStaysExactly(hourly: map<BucketKey, HourlyRow>, more: map<BucketKey, HourlyRow>, host: Uuid, from: Instant,
                         to: Instant, maxPoints: nat, i: nat)
    requires HourAligned(hourly) && HourAligned(more) && hourly.Keys <= more.Keys
    requires i < |STEPS| && IsLeastStep(hourly, host, from, to, maxPoints, STEPS[i])
    ensures IsLeastStep(more, host, from, to, maxPoints, STEPS[i]) <==>
            STEPS[i] >= 3600 || !HourSeen(more.Keys, host, from, to)
    ensures STEPS[i] < 3600 ==> !HourSeen(hourly.Keys, host, from, to)
  {
    hide HourSeen, Overlaps, Fits;
    if STEPS[i] >= 3600 {
      MoreHoursKeepStep(hourly, more, host, from, to, maxPoints, STEPS[i]);
    } else {
      StepsDivideHour(i);
      OverlapsBelowHour(hourly, host, from, to, STEPS[i]);
      OverlapsBelowHour(more, host, from, to, STEPS[i]);
      forall j | 0 <= j < |STEPS| && STEPS[j] < STEPS[i]
        ensures !Acceptable(more, host, from, to, maxPoints, STEPS[j])
      {
        MoreHoursRejectMore(hourly, more, host, from, to, maxPoints, STEPS[j]);
      }
    }
  }

  /** What a caller can see before the transaction: the step in use, and the reports about to be rolled up. */
  predicate Undisturbed(db: Db, e: Event, host: Uuid, from: Instant, to: Instant, step: int) {
    e.RollUpEvent? ==> step >= 3600 || !BatchMeets(db.reports, e.batch, host, from, to)
  }

  lemma HoursAfter(s: System, e: Event, host: Uuid, from: Instant, to: Instant)
    requires |s.place| == |s.log| && Enabled(s, e) && (e.RollUpEvent? || e.PurgeEvent?)
    ensures var after := Next(s, e).db.hourly;
            && s.db.hourly.Keys <= after.Keys && (e.PurgeEvent? ==> after == s.db.hourly)
            && (e.RollUpEvent? ==> (HourSeen(after.Keys, host, from, to) <==>
                  HourSeen(s.db.hourly.Keys, host, from, to) || BatchMeets(s.db.reports, e.batch, host, from, to)))
  {
    hide HourSeen, BatchMeets, Accumulate;
    if e.RollUpEvent? { RollUpShowsHours(s.db, e.batch, e.now, host, from, to); }
  }

  lemma AlignedAfter(s: System, e: Event)
    requires Inv(s) && Enabled(s, e)
    ensures |s.place| == |s.log| && HourAligned(s.db.hourly) && HourAligned(Next(s, e).db.hourly)
  {
    hide Inv, Next, Enabled;
    InvParts(s);
    LogsMatch(s);
    HoursAreAligned(s);
    NextKeepsInv(s, e);
    InvParts(Next(s, e));
    HoursAreAligned(Next(s, e));
  }

  /**
   * Deleting raw rows never changes the step of a chart. Rolling up keeps it exactly when the step
   * is an hour or more, or when no report of the batch belongs to an hour that meets the range.
   */
  lemma RetentionKeepsTheStep(s: System, e: Event, host: Uuid, from: Instant, to: Instant, maxPoints: nat, i: nat)
    requires Inv(s) && Enabled(s, e) && (e.PurgeEvent? || e.RollUpEvent?)
    requires i < |STEPS| && IsLeastStep(s.db.hourly, host, from, to, maxPoints, STEPS[i])
    ensures IsLeastStep(Next(s, e).db.hourly, host, from, to, maxPoints, STEPS[i]) <==>
            Undisturbed(s.db, e, host, from, to, STEPS[i])
  {
    hide Inv, Next, Enabled, IsLeastStep, HourSeen, BatchMeets, HourAligned;
    AlignedAfter(s, e);
    HoursAfter(s, e, host, from, to);
    StepStaysExactly(s.db.hourly, Next(s, e).db.hourly, host, from, to, maxPoints, i);
  }

  /** Without hourly rows, an hour in 720 points is drawn at 5 seconds. */
  lemma HourIsDrawnAtFive(host: Uuid)
    ensures IsLeastStep(map[], host, 0, 3600 * SECOND, 720, 5)
  {
    assert STEPS[2] == 5;
    forall i | 0 <= i < |STEPS| && STEPS[i] < 5 ensures !Fits(0, 3600 * SECOND, STEPS[i], 720) {
      assert i == 0 || i == 1;
    }
  }

  /** In one point, an hour is drawn as a whole, with or without hourly rows. */
  lemma HourInOnePoint(hourly: map<BucketKey, HourlyRow>, host: Uuid)
    ensures IsLeastStep(hourly, host, 0, 3600 * SECOND, 1, 3600)
  {
    assert STEPS[HOURLY] == 3600;
    forall i | 0 <= i < |STEPS| && STEPS[i] < 3600 ensures !Fits(0, 3600 * SECOND, STEPS[i], 1) {
      assert i < HOURLY;
    }
  }

  /** Once a report from the start of that hour is rolled up, it is not. */
  lemma NotAtFive(db: Db, host: Uuid, r: Uuid, now: Instant)
    requires r in db.reports && db.reports[r].sample.host == host && db.reports[r].sample.collected == 0
    ensures !IsLeastStep(RollUp(db, [r], now).hourly, host, 0, 3600 * SECOND, 720, 5)
  {
    AccumulateKeys(db.reports, [r]);
    assert r in [r] && KeyOf(db.reports[r].sample) == (host, 0);
    assert (host, 0) in RollUp(db, [r], now).hourly;
    assert Overlaps(RollUp(db, [r], now).hourly, host, 0, 3600 * SECOND, 5);
  }

  // ---- the whole answer ----

  lemma LeastStepIsUnique(hourly: map<BucketKey, HourlyRow>, host: Uuid, from: Instant, to: Instant, maxPoints: nat,
                          a: int, b: int)
    requires IsLeastStep(hourly, host, from, to, maxPoints, a) && IsLeastStep(hourly, host, from, to, maxPoints, b)
    ensures a == b
  {
    hide Acceptable;
    var i :| 0 <= i < |STEPS| && STEPS[i] == a;
    var j :| 0 <= j < |STEPS| && STEPS[j] == b;
  }

  /** The same range, step and points; the source label may move from raw to hourly. */
  predicate SameChart(r: SeriesResult, q: SeriesResult) {
    match r
    case NoHost => q.NoHost?
    case OutOfBudget => q.OutOfBudget?
    case Series(lo, hi, step, _, points) => q.Series? && (q.lo, q.hi, q.step, q.points) == (lo, hi, step, points)
  }

  lemma SameTables(s: System, e: Event)
    requires |s.place| == |s.log| && Enabled(s, e) && (e.PurgeEvent? || e.RollUpEvent?)
    ensures Next(s, e).db.hosts == s.db.hosts && |Next(s, e).place| == |Next(s, e).log|
    ensures e.PurgeEvent? ==> forall host, lo, hi :: HasRaw(Next(s, e).db, host, lo, hi) == HasRaw(s.db, host, lo, hi)
  {
    if e.PurgeEvent? {
      assert forall r :: r in e.rows ==> r in PurgeCandidates(s.db, e.cutoff);
      forall host, lo, hi ensures HasRaw(Next(s, e).db, host, lo, hi) == HasRaw(s.db, host, lo, hi) {
        PurgeKeepsRaw(s.db, e.rows, e.cutoff, host, lo, hi);
      }
    }
  }

  lemma PurgeKeepsRaw(db: Db, rows: seq<Uuid>, cutoff: Instant, host: Uuid, lo: int, hi: int)
    requires forall r :: r in rows ==> r in PurgeCandidates(db, cutoff)
    ensures HasRaw(Purge(db, rows), host, lo, hi) == HasRaw(db, host, lo, hi)
  {
    if HasRaw(db, host, lo, hi) {
      var r :| r in db.reports && db.reports[r].sample.host == host && db.reports[r].aggregatedAt.None?
               && lo * SECOND <= db.reports[r].sample.collected < hi * SECOND;
      assert r in Purge(db, rows).reports;
    }
  }

  // ---- the source label ----

  predicate InAlignedHour(reports: map<Uuid, ReportRow>, r: Uuid, host: Uuid, from: Instant, to: Instant, step: int)
    requires step > 0
  {
    && r in reports && reports[r].sample.host == host
    && FloorTo(FloorTo(FromSeconds(from), step), 3600) * SECOND <= Hour(reports[r].sample.collected)
    && Hour(reports[r].sample.collected) < CeilTo(ToSeconds(to), step) * SECOND
  }

  /** Some report of the batch belongs to an hour that the chart, drawn at this step, would take in. */
  predicate BatchOverlaps(reports: map<Uuid, ReportRow>, batch: seq<Uuid>, host: Uuid, from: Instant, to: Instant,
                          step: int)
    requires step > 0
  {
    exists r :: r in batch && InAlignedHour(reports, r, host, from, to, step)
  }

  /** Some raw row of the range is not in the batch. */
  predicate RawKept(db: Db, batch: seq<Uuid>, host: Uuid, lo: int, hi: int) {
    exists r :: r in db.reports && r !in batch && db.reports[r].sample.host == host && db.reports[r].aggregatedAt.None?
      && lo * SECOND <= db.reports[r].sample.collected < hi * SECOND
  }

  /**
   * What a caller can see before the transaction: if the chart shows hourly rows already, a raw row
   * stays or there was none, and if it does not, the batch adds none to it.
   */
  predicate KeepsLabel(db: Db, e: Event, host: Uuid, from: Instant, to: Instant, step: int)
    requires step > 0
  {
    var lo, hi := FloorTo(FromSeconds(from), step), CeilTo(ToSeconds(to), step);
    e.RollUpEvent? ==>
      if Overlaps(db.hourly, host, from, to, step)
      then HasRaw(db, host, lo, hi) ==> RawKept(db, e.batch, host, lo, hi)
      else !BatchOverlaps(db.reports, e.batch, host, from, to, step)
  }

  lemma RollUpOverlaps(db: Db, batch: seq<Uuid>, now: Instant, host: Uuid, from: Instant, to: Instant, step: int)
    requires step > 0 && forall r :: r in batch ==> r in db.reports
    ensures Overlaps(RollUp(db, batch, now).hourly, host, from, to, step) <==>
            Overlaps(db.hourly, host, from, to, step) || BatchOverlaps(db.reports, batch, host, from, to, step)
  {
    var after := RollUp(db, batch, now).hourly;
    AccumulateKeys(db.reports, batch);
    hide Accumulate, FloorTo, CeilTo, Hour;
    assert forall k :: k in after <==> k in db.hourly || exists r :: r in batch && KeyOf(db.reports[r].sample) == k;
    if r :| r in batch && InAlignedHour(db.reports, r, host, from, to, step) {
      assert KeyOf(db.reports[r].sample) in after;
    }
  }

  lemma RollUpKeepsRaw(db: Db, batch: seq<Uuid>, now: Instant, host: Uuid, lo: int, hi: int)
    requires forall r :: r in batch ==> r in db.reports
    ensures HasRaw(RollUp(db, batch, now), host, lo, hi) <==> RawKept(db, batch, host, lo, hi)
  {
    hide Accumulate, Upsert;
    var after := RollUp(db, batch, now);
    assert after.reports.Keys == db.reports.Keys;
  }

  lemma SameLabel(a: SourceKind, raw: bool, hourly: bool, b: SourceKind, raw': bool, hourly': bool)
    requires IsLabel(a, raw, hourly) && IsLabel(b, raw', hourly') && (hourly ==> hourly') && (raw' ==> raw)
    ensures a == b <==> (if hourly then raw ==> raw' else !hourly')
  {
  }

  lemma LabelStaysExactly(s: System, e: Event, host: Uuid, from: Instant, to: Instant, r: SeriesResult, q: SeriesResult)
    requires |s.place| == |s.log| && Enabled(s, e) && e.RollUpEvent? && |Next(s, e).place| == |Next(s, e).log|
    requires r.Series? && r.step > 0 && Draws(s, host, from, to, r)
    requires q.Series? && q.step == r.step && Draws(Next(s, e), host, from, to, q)
    ensures q.source == r.source <==> KeepsLabel(s.db, e, host, from, to, r.step)
  {
    hide IsSeries, Overlaps, HasRaw, RawKept, BatchOverlaps, RollUp, IsLabel;
    assert forall x :: x in e.batch ==> x in s.db.reports;
    RollUpOverlaps(s.db, e.batch, e.now, host, from, to, r.step);
    RollUpKeepsRaw(s.db, e.batch, e.now, host, r.lo, r.hi);
    RawKeptWasThere(s.db, e.batch, host, r.lo, r.hi);
    SameLabel(r.source, HasRaw(s.db, host, r.lo, r.hi), Overlaps(s.db.hourly, host, from, to, r.step),
              q.source, HasRaw(Next(s, e).db, host, r.lo, r.hi),
              Overlaps(Next(s, e).db.hourly, host, from, to, r.step));
  }

  lemma RawKeptWasThere(db: Db, batch: seq<Uuid>, host: Uuid, lo: int, hi: int)
    ensures RawKept(db, batch, host, lo, hi) ==> HasRaw(db, host, lo, hi)
  {
  }

  /**
   * The same question before and after a retention transaction gets the same range, step and
   * points exactly when the transaction leaves its step undisturbed, and then the same source label
   * exactly when the rows it shows remain of the same kinds; after a deletion of raw rows it gets
   * the very same answer.
   */
  lemma RetentionChangesNoAnswer(s: System, e: Event, host: Uuid, from: Instant, to: Instant, maxPoints: nat,
                                 r: SeriesResult, q: SeriesResult)
    requires |s.place| == |s.log| && Inv(s) && Enabled(s, e) && (e.PurgeEvent? || e.RollUpEvent?)
    requires IsAnswer(s, host, from, to, maxPoints, r)
    requires |Next(s, e).place| == |Next(s, e).log| && IsAnswer(Next(s, e), host, from, to, maxPoints, q)
    ensures SameChart(r, q) <==> (r.Series? ==> Undisturbed(s.db, e, host, from, to, r.step))
    ensures r.Series? && SameChart(r, q) ==> (q == r <==> KeepsLabel(s.db, e, host, from, to, r.step))
    ensures e.PurgeEvent? ==> q == r
  {
    hide Inv, Acceptable, IsSeries, Next, Undisturbed, HasRaw, Overlaps, KeepsLabel;
    SameTables(s, e);
    HoursAfter(s, e, host, from, to);
    if r.OutOfBudget? {
      forall i | 0 <= i < |STEPS| ensures !Acceptable(Next(s, e).db.hourly, host, from, to, maxPoints, STEPS[i]) {
        MoreHoursRejectMore(s.db.hourly, Next(s, e).db.hourly, host, from, to, maxPoints, STEPS[i]);
      }
    } else if r.Series? {
      var i :| 0 <= i < |STEPS| && STEPS[i] == r.step;
      RetentionKeepsTheStep(s, e, host, from, to, maxPoints, i);
      if Undisturbed(s.db, e, host, from, to, r.step) {
        SameSteps(s, e, host, from, to, maxPoints, r, q);
      }
      PurgeIsUndisturbed(s.db, e, host, from, to, r.step);
      if e.RollUpEvent? && SameChart(r, q) { LabelStaysExactly(s, e, host, from, to, r, q); }
    }
  }

  lemma PurgeIsUndisturbed(db: Db, e: Event, host: Uuid, from: Instant, to: Instant, step: int)
    requires step > 0
    ensures e.PurgeEvent? ==> Undisturbed(db, e, host, from, to, step) && KeepsLabel(db, e, host, from, to, step)
  {
  }

  lemma SameSteps(s: System, e: Event, host: Uuid, from: Instant, to: Instant, maxPoints: nat, r: SeriesResult,
                  q: SeriesResult)
    requires |s.place| == |s.log| && Inv(s) && Enabled(s, e) && (e.PurgeEvent? || e.RollUpEvent?)
    requires r.Series? && IsAnswer(s, host, from, to, maxPoints, r)
    requires |Next(s, e).place| == |Next(s, e).log| && IsAnswer(Next(s, e), host, from, to, maxPoints, q)
    requires Next(s, e).db.hosts == s.db.hosts && IsLeastStep(Next(s, e).db.hourly, host, from, to, maxPoints, r.step)
    ensures SameChart(r, q)
  {
    hide Inv, Acceptable, IsSeries, Next, HasRaw, Overlaps;
    var i :| 0 <= i < |STEPS| && STEPS[i] == r.step;
    LeastStepIsUnique(Next(s, e).db.hourly, host, from, to, maxPoints, q.step, r.step);
    RetentionIsInvisible(s, e, host, r.lo, r.hi, r.step, r.points);
    SeriesIsUnique(Next(s, e), host, r.lo, r.hi, r.step, r.points, q.points);
  }
}
