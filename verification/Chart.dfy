/** Grouping raw and hourly rows into chart points, proved against the accepted samples themselves. */
module Chart {
  import opened Common
  import opened Schema
  import opened Totals
  import opened Aggregates
  import opened Lifecycle
  import opened Retention
  import opened Ledger
  import opened History

  // ---- SQL group aggregates ----

  /** The running `SUM(count)`, `MIN`, `MAX` and `SUM(avg*count)` of one metric in a group. */
  datatype Partial = Partial(count: nat, min: Option<real>, max: Option<real>, weighted: real)

  const NOTHING: Partial := Partial(0, None, None, 0.0)

  function FoldMin(a: Option<real>, b: Option<real>): Option<real> {
    if a.None? then b else if b.None? then a else Some(if b.value < a.value then b.value else a.value)
  }

  function FoldMax(a: Option<real>, b: Option<real>): Option<real> {
    if a.None? then b else if b.None? then a else Some(if b.value > a.value then b.value else a.value)
  }

  function Weight(x: Scalar): real {
    if x.avg.Some? then x.avg.value * (x.count as real) else 0.0
  }

  function AddPartial(p: Partial, x: Scalar): Partial {
    Partial(
      p.count + x.count,
      FoldMin(p.min, if x.count > 0 then x.min else None),
      FoldMax(p.max, if x.count > 0 then x.max else None),
      p.weighted + Weight(x))
  }

  function Finish(p: Partial): Scalar {
    Scalar(p.count, p.min, p.max, if p.count == 0 then None else Some(p.weighted / (p.count as real)))
  }

  /** How the query presents one raw value: a count of one and the value three times, or NULLs. */
  function RawScalar(v: Option<real>): Scalar { Scalar(if v.Some? then 1 else 0, v, v, v) }

  ghost predicate Collects(p: Partial, v: map<nat, real>) {
    && p.count == |v|
    && (if v == map[] then p.min.None? && p.max.None?
        else p.min.Some? && IsMin(p.min.value, v) && p.max.Some? && IsMax(p.max.value, v))
    && p.weighted == Total(v)
  }

  lemma WeightIsTotal(x: Scalar, w: map<nat, real>)
    requires Describes(x, w)
    ensures Weight(x) == Total(w)
  {
    if x.avg.Some? {
      WeightOfMean(x, Total(w));
    }
  }

  lemma WeightOfMean(x: Scalar, total: real)
    requires x.avg.Some? && IsMean(x.avg.value, x.count, total)
    ensures Weight(x) == total
  {
    MeanTimes(x.avg.value, x.count, total);
  }

  lemma MeanTimes(mean: real, n: nat, total: real)
    requires IsMean(mean, n, total)
    ensures mean * (n as real) == total
  {
    TimesIsProduct(n, mean);
  }

  lemma FoldMinIsMin(a: Option<real>, v: map<nat, real>, b: Option<real>, w: map<nat, real>)
    requires v.Keys !! w.Keys && v + w != map[]
    requires if v == map[] then a.None? else a.Some? && IsMin(a.value, v)
    requires if w == map[] then b.None? else b.Some? && IsMin(b.value, w)
    ensures FoldMin(a, b).Some? && IsMin(FoldMin(a, b).value, v + w)
  {
    if v == map[] { assert v + w == w; } else if w == map[] { assert v + w == v; }
    AttainsUnion(v, w, FoldMin(a, b).value);
  }

  lemma FoldMaxIsMax(a: Option<real>, v: map<nat, real>, b: Option<real>, w: map<nat, real>)
    requires v.Keys !! w.Keys && v + w != map[]
    requires if v == map[] then a.None? else a.Some? && IsMax(a.value, v)
    requires if w == map[] then b.None? else b.Some? && IsMax(b.value, w)
    ensures FoldMax(a, b).Some? && IsMax(FoldMax(a, b).value, v + w)
  {
    if v == map[] { assert v + w == w; } else if w == map[] { assert v + w == v; }
    AttainsUnion(v, w, FoldMax(a, b).value);
  }

  lemma AddCollects(p: Partial, v: map<nat, real>, x: Scalar, w: map<nat, real>)
    requires Collects(p, v) && Describes(x, w) && v.Keys !! w.Keys
    ensures Collects(AddPartial(p, x), v + w)
  {
    assert (v + w).Keys == v.Keys + w.Keys && |(v + w).Keys| == |v.Keys| + |w.Keys|;
    TotalUnion(v, w);
    WeightIsTotal(x, w);
    if v + w != map[] {
      FoldMinIsMin(p.min, v, if x.count > 0 then x.min else None, w);
      FoldMaxIsMax(p.max, v, if x.count > 0 then x.max else None, w);
    } else {
      assert v == map[] by { assert v.Keys == {}; }
      assert w == map[] by { assert w.Keys == {}; }
    }
  }

  lemma FinishDescribes(p: Partial, v: map<nat, real>)
    requires Collects(p, v)
    ensures Describes(Finish(p), v)
  {
    if v != map[] {
      var mean := Finish(p).avg.value;
      TimesIsProduct(p.count, mean);
      DivideBack(p.weighted, p.count as real);
    }
  }

  lemma DivideBack(t: real, n: real)
    requires n > 0.0
    ensures t / n * n == t
  {
  }

  lemma RawDescribes(i: nat, v: Option<real>)
    ensures Describes(RawScalar(v), if v.Some? then map[i := v.value] else map[])
  {
    if v.Some? {
      var w: map<nat, real> := map[i := v.value];
      TotalInsert(map[], i, v.value);
      assert w == map[][i := v.value];
      assert w.Keys == {i};
      assert w[i] == v.value;
    }
  }

  // ---- rows and groups ----

  /** Which stored row a line of the UNION ALL comes from. */
  datatype Source = RawSource(report: Uuid) | HourSource(key: BucketKey)

  datatype SourceRow = SourceRow(start: int, sampleCount: nat, metrics: Scalars)

  type Partials = m: seq<Partial> | |m| == METRICS witness seq(METRICS, _ => NOTHING)

  datatype Group = Group(sampleCount: nat, metrics: Partials)

  const NO_ROWS: Group := Group(0, seq(METRICS, _ => NOTHING))

  function AddRow(g: Group, row: SourceRow): Group {
    Group(g.sampleCount + row.sampleCount,
          seq(METRICS, m requires 0 <= m < METRICS => AddPartial(g.metrics[m], row.metrics[m])))
  }

  /** The start of the chart point an epoch second falls into. */
  function BucketOf(start: int, lo: int, step: int): int
    requires step > 0
  {
    (start - lo) / step * step + lo
  }

  ghost predicate GroupCollects(g: Group, samples: map<nat, Sample>) {
    g.sampleCount == |samples| && forall m :: 0 <= m < METRICS ==> Collects(g.metrics[m], ValuesOf(samples, m))
  }

  ghost predicate RowSummarises(row: SourceRow, samples: map<nat, Sample>) {
    row.sampleCount == |samples| > 0 && forall m :: 0 <= m < METRICS ==> Describes(row.metrics[m], ValuesOf(samples, m))
  }

  lemma AddRowCollects(g: Group, a: map<nat, Sample>, row: SourceRow, b: map<nat, Sample>)
    requires GroupCollects(g, a) && RowSummarises(row, b) && a.Keys !! b.Keys
    ensures GroupCollects(AddRow(g, row), a + b)
  {
    assert (a + b).Keys == a.Keys + b.Keys && |(a + b).Keys| == |a.Keys| + |b.Keys|;
    forall m | 0 <= m < METRICS ensures Collects(AddRow(g, row).metrics[m], ValuesOf(a + b, m)) {
      ValuesUnion(a, b, m);
      AddCollects(g.metrics[m], ValuesOf(a, m), row.metrics[m], ValuesOf(b, m));
    }
  }

  lemma NoRowsCollects()
    ensures GroupCollects(NO_ROWS, map[])
  {
    forall m | 0 <= m < METRICS ensures Collects(NO_ROWS.metrics[m], ValuesOf(map[], m)) {
      assert ValuesOf(map[], m) == map[];
    }
  }

  /** The samples behind one source row, where `source` names the row each sample is counted in. */
  ghost function Behind(samples: map<nat, Sample>, source: map<nat, Source>, key: Source): map<nat, Sample>
    requires source.Keys == samples.Keys
  {
    map i | i in samples && source[i] == key :: samples[i]
  }

  /** The samples behind those of the visited rows that fall into point `b`. */
  ghost function Gathered(rows: map<Source, SourceRow>, samples: map<nat, Sample>, source: map<nat, Source>,
                          visited: set<Source>, lo: int, step: int, b: int): map<nat, Sample>
    requires source.Keys == samples.Keys && step > 0 && visited <= rows.Keys
  {
    map i | i in samples && source[i] in visited && BucketOf(rows[source[i]].start, lo, step) == b :: samples[i]
  }

  ghost predicate RowsSummarise(rows: map<Source, SourceRow>, samples: map<nat, Sample>, source: map<nat, Source>) {
    && source.Keys == samples.Keys
    && (forall i :: i in source ==> source[i] in rows)
    && (forall key :: key in rows ==> RowSummarises(rows[key], Behind(samples, source, key)))
  }

  ghost predicate GroupsCollect(groups: map<int, Group>, b: int, samples: map<nat, Sample>) {
    if b in groups then GroupCollects(groups[b], samples) && samples != map[] else samples == map[]
  }

  lemma GatherNext(rows: map<Source, SourceRow>, samples: map<nat, Sample>, source: map<nat, Source>,
                   visited: set<Source>, lo: int, step: int, b: int, key: Source)
    requires source.Keys == samples.Keys && step > 0 && visited <= rows.Keys && key in rows && key !in visited
    ensures var here := BucketOf(rows[key].start, lo, step) == b;
            var before := Gathered(rows, samples, source, visited, lo, step, b);
            && before.Keys !! Behind(samples, source, key).Keys
            && Gathered(rows, samples, source, visited + {key}, lo, step, b) ==
               (if here then before + Behind(samples, source, key) else before)
  {
  }

  /** `GROUP BY`: every group ends up with the rows of its point, visited in any order. */
  method GroupRows(rows: map<Source, SourceRow>, lo: int, step: int, ghost samples: map<nat, Sample>,
                   ghost source: map<nat, Source>)
    returns (groups: map<int, Group>)
    requires step > 0 && RowsSummarise(rows, samples, source)
    ensures forall b :: GroupsCollect(groups, b, Gathered(rows, samples, source, rows.Keys, lo, step, b))
  {
    groups := map[];
    var left := rows.Keys;
    forall b ensures Gathered(rows, samples, source, {}, lo, step, b) == map[] {
    }
    assert rows.Keys - left == {};
    while left != {}
      invariant left <= rows.Keys
      invariant forall b :: GroupsCollect(groups, b, Gathered(rows, samples, source, rows.Keys - left, lo, step, b))
      decreases |left|
    {
      var key :| key in left;
      var row := rows[key];
      var b := BucketOf(row.start, lo, step);
      AddToGroups(groups, rows, samples, source, rows.Keys - left, lo, step, key);
      groups := groups[b := AddRow(if b in groups then groups[b] else NO_ROWS, row)];
      assert rows.Keys - left + {key} == rows.Keys - (left - {key});
      left := left - {key};
    }
    assert rows.Keys - left == rows.Keys;
  }

  lemma AddToGroups(groups: map<int, Group>, rows: map<Source, SourceRow>, samples: map<nat, Sample>,
                    source: map<nat, Source>,
                    visited: set<Source>, lo: int, step: int, key: Source)
    requires step > 0 && RowsSummarise(rows, samples, source) && visited <= rows.Keys && key in rows && key !in visited
    requires forall b :: GroupsCollect(groups, b, Gathered(rows, samples, source, visited, lo, step, b))
    ensures var b := BucketOf(rows[key].start, lo, step);
            var after := groups[b := AddRow(if b in groups then groups[b] else NO_ROWS, rows[key])];
            forall c :: GroupsCollect(after, c, Gathered(rows, samples, source, visited + {key}, lo, step, c))
  {
    var b := BucketOf(rows[key].start, lo, step);
    var after := groups[b := AddRow(if b in groups then groups[b] else NO_ROWS, rows[key])];
    var own := Behind(samples, source, key);
    forall c ensures GroupsCollect(after, c, Gathered(rows, samples, source, visited + {key}, lo, step, c)) {
      GatherNext(rows, samples, source, visited, lo, step, c, key);
      var before := Gathered(rows, samples, source, visited, lo, step, c);
      assert GroupsCollect(groups, c, before);
      if c == b {
        NoRowsCollects();
        AddRowCollects(if b in groups then groups[b] else NO_ROWS, before, rows[key], own);
        assert |own| > 0;
        assert before + own != map[] by { var i :| i in own; assert i in before + own; }
      }
    }
  }

  // ---- the rows of the query ----

  function RawRows(db: Db, host: Uuid, lo: int, hi: int): map<Source, SourceRow> {
    map r | r in db.reports && db.reports[r].sample.host == host && db.reports[r].aggregatedAt.None?
            && lo * SECOND <= db.reports[r].sample.collected < hi * SECOND
      :: RawSource(r) := RawRow(db.reports[r].sample)
  }

  function RawRow(x: Sample): SourceRow {
    SourceRow(x.collected / SECOND, 1, seq(METRICS, m requires 0 <= m < METRICS => RawScalar(x.metrics[m])))
  }

  function HourRows(db: Db, host: Uuid, lo: int, hi: int): map<Source, SourceRow> {
    map k | k in db.hourly && k.0 == host && lo * SECOND <= k.1 < hi * SECOND
      :: HourSource(k) := SourceRow(db.hourly[k].intervalStart / SECOND, db.hourly[k].sampleCount, db.hourly[k].metrics)
  }

  function SourceRows(db: Db, host: Uuid, lo: int, hi: int): map<Source, SourceRow> {
    RawRows(db, host, lo, hi) + HourRows(db, host, lo, hi)
  }

  // ---- what the chart is about ----

  /** The accepted samples of a host collected in a range of seconds and not expired or erased. */
  ghost function Counted(s: System, host: Uuid, lo: int, hi: int): map<nat, Sample>
    requires |s.place| == |s.log|
  {
    map i | 0 <= i < |s.log| && (s.place[i] == Raw || s.place[i] == Rolled) && s.log[i].host == host
            && lo * SECOND <= s.log[i].collected < hi * SECOND
      :: s.log[i]
  }

  ghost function SourceOf(s: System, host: Uuid, lo: int, hi: int): map<nat, Source>
    requires |s.place| == |s.log|
  {
    map i | i in Counted(s, host, lo, hi) ::
      if s.place[i] == Raw then RawSource(s.log[i].id) else HourSource(KeyOf(s.log[i]))
  }

  /** The range cuts no hour that holds rolled-up samples of the host. */
  ghost predicate WholeHours(s: System, host: Uuid, lo: int, hi: int) {
    forall k :: k in s.db.hourly && k.0 == host && k.1 < hi * SECOND && lo * SECOND < k.1 + HOUR ==>
      lo * SECOND <= k.1 && k.1 + HOUR <= hi * SECOND
  }

  ghost predicate RolledKnown(s: System) {
    && |s.place| == |s.log|
    && forall i :: 0 <= i < |s.log| && s.place[i] == Rolled ==> KeyOf(s.log[i]) in s.db.hourly
  }

  lemma HourKeyInside(s: System, host: Uuid, lo: int, hi: int, i: nat)
    requires RolledKnown(s) && WholeHours(s, host, lo, hi)
    requires i < |s.log| && s.place[i] == Rolled && s.log[i].host == host
    ensures lo * SECOND <= s.log[i].collected < hi * SECOND <==> lo * SECOND <= Hour(s.log[i].collected) < hi * SECOND
  {
    HourSpan(s.log[i].collected);
    assert (host, Hour(s.log[i].collected)) in s.db.hourly;
  }

  lemma RawRowSummarises(i: nat, x: Sample)
    ensures RowSummarises(RawRow(x), map[i := x])
  {
    forall m | 0 <= m < METRICS ensures Describes(RawRow(x).metrics[m], ValuesOf(map[i := x], m)) {
      RawDescribes(i, x.metrics[m]);
      assert ValuesOf(map[i := x], m) == if x.metrics[m].Some? then map[i := x.metrics[m].value] else map[];
    }
  }

  lemma BehindRaw(s: System, host: Uuid, lo: int, hi: int, r: Uuid)
    requires Rows(s) && RawSource(r) in RawRows(s.db, host, lo, hi)
    ensures Behind(Counted(s, host, lo, hi), SourceOf(s, host, lo, hi), RawSource(r)) ==
            map[s.at[r] := s.db.reports[r].sample]
  {
    assert s.log[s.at[r]] == s.db.reports[r].sample && s.place[s.at[r]] == Raw;
  }

  lemma BehindHour(s: System, host: Uuid, lo: int, hi: int, k: BucketKey)
    requires RolledKnown(s) && WholeHours(s, host, lo, hi)
    requires k.0 == host && lo * SECOND <= k.1 < hi * SECOND
    ensures Behind(Counted(s, host, lo, hi), SourceOf(s, host, lo, hi), HourSource(k)) == RolledInto(s.log, s.place, k)
  {
    var own := RolledInto(s.log, s.place, k);
    forall i | i in own ensures i in Counted(s, host, lo, hi) {
      HourKeyInside(s, host, lo, hi, i);
    }
  }

  lemma SourceKnown(s: System, host: Uuid, lo: int, hi: int, i: nat)
    requires Rows(s) && RolledKnown(s) && WholeHours(s, host, lo, hi) && i in Counted(s, host, lo, hi)
    ensures SourceOf(s, host, lo, hi)[i] in SourceRows(s.db, host, lo, hi)
  {
    if s.place[i] == Raw {
      assert RawSource(s.log[i].id) in RawRows(s.db, host, lo, hi);
    } else {
      HourKeyInside(s, host, lo, hi, i);
      assert HourSource(KeyOf(s.log[i])) in HourRows(s.db, host, lo, hi);
    }
  }

  lemma RawSourceSummarises(s: System, host: Uuid, lo: int, hi: int, r: Uuid)
    requires Rows(s) && RawSource(r) in RawRows(s.db, host, lo, hi)
    ensures RowSummarises(RawRows(s.db, host, lo, hi)[RawSource(r)],
                          Behind(Counted(s, host, lo, hi), SourceOf(s, host, lo, hi), RawSource(r)))
  {
    BehindRaw(s, host, lo, hi, r);
    RawRowSummarises(s.at[r], s.db.reports[r].sample);
  }

  lemma HourSourceSummarises(s: System, host: Uuid, lo: int, hi: int, k: BucketKey)
    requires Hours(s) && WholeHours(s, host, lo, hi) && HourSource(k) in HourRows(s.db, host, lo, hi)
    ensures RowSummarises(HourRows(s.db, host, lo, hi)[HourSource(k)],
                          Behind(Counted(s, host, lo, hi), SourceOf(s, host, lo, hi), HourSource(k)))
  {
    BehindHour(s, host, lo, hi, k);
    assert Represents(s.db.hourly[k], RolledInto(s.log, s.place, k));
  }

  ghost predicate SourceFits(s: System, host: Uuid, lo: int, hi: int, key: Source)
    requires |s.place| == |s.log| && key in SourceRows(s.db, host, lo, hi)
  {
    RowSummarises(SourceRows(s.db, host, lo, hi)[key], Behind(Counted(s, host, lo, hi), SourceOf(s, host, lo, hi), key))
  }

  lemma SourceSummarises(s: System, host: Uuid, lo: int, hi: int, key: Source)
    requires |s.place| == |s.log| && key in SourceRows(s.db, host, lo, hi)
    requires Rows(s) && Hours(s) && WholeHours(s, host, lo, hi)
    ensures SourceFits(s, host, lo, hi, key)
  {
    hide Represents, Behind, Counted, SourceOf, RowSummarises;
    if key in HourRows(s.db, host, lo, hi) {
      HourSourceSummarises(s, host, lo, hi, key.key);
    } else {
      RawSourceSummarises(s, host, lo, hi, key.report);
    }
  }

  lemma SourcesSummarise(s: System, host: Uuid, lo: int, hi: int)
    requires Rows(s) && Hours(s) && WholeHours(s, host, lo, hi)
    ensures RowsSummarise(SourceRows(s.db, host, lo, hi), Counted(s, host, lo, hi), SourceOf(s, host, lo, hi))
  {
    var source := SourceOf(s, host, lo, hi);
    forall i | i in source ensures source[i] in SourceRows(s.db, host, lo, hi) {
      SourceKnown(s, host, lo, hi, i);
    }
    forall key | key in SourceRows(s.db, host, lo, hi) ensures SourceFits(s, host, lo, hi, key) {
      SourceSummarises(s, host, lo, hi, key);
    }
  }

  // ---- from groups to points ----

  /** The range is whole steps and cuts no rolled-up hour; rolled-up hours never share a step with half an hour. */
  ghost predicate ChartAligned(s: System, host: Uuid, lo: int, hi: int, step: int) {
    && step > 0 && lo <= hi && (hi - lo) % step == 0 && WholeHours(s, host, lo, hi)
    && (HourRows(s.db, host, lo, hi) == map[] || (step % 3600 == 0 && lo % 3600 == 0))
  }

  lemma BucketSpan(t: int, lo: int, step: int, b: int)
    requires step > 0
    ensures BucketOf(t, lo, step) == b <==> (b - lo) % step == 0 && b <= t < b + step
  {
    var q := (t - lo) / step;
    AlignmentBounds(t - lo, step);
    if BucketOf(t, lo, step) == b {
      MultipleDivides(q, step);
    } else if (b - lo) % step == 0 && b <= t < b + step {
      assert b - lo == (b - lo) / step * step;
      FloorUnique(t - lo, step, (b - lo) / step);
    }
  }

  lemma SameHourSamePoint(x: Instant, y: Instant, b: int, step: int)
    requires Hour(x) == Hour(y) && b % 3600 == 0 && step % 3600 == 0
    ensures b <= x / SECOND < b + step <==> b <= y / SECOND < b + step
  {
    HourSpan(x);
    HourSpan(y);
  }

  lemma AlignedToHours(b: int, lo: int, step: int)
    requires step > 0 && step % 3600 == 0 && lo % 3600 == 0 && (b - lo) % step == 0
    ensures b % 3600 == 0
  {
    var q := (b - lo) / step;
    assert b - lo == q * step;
    CoarseIsFine(q, 3600, step);
    MultipleDivides(q * (step / 3600), 3600);
  }

  /** The source row of a counted sample falls into the same point as the sample itself. */
  lemma HourInSamePoint(s: System, host: Uuid, lo: int, hi: int, step: int, b: int, i: nat)
    requires Hours(s) && ChartAligned(s, host, lo, hi, step) && i < |s.log| && s.place[i] == Rolled
    requires HourSource(KeyOf(s.log[i])) in HourRows(s.db, host, lo, hi)
    ensures (b - lo) % step == 0 ==>
              (b <= HourRows(s.db, host, lo, hi)[HourSource(KeyOf(s.log[i]))].start < b + step <==>
               b <= s.log[i].collected / SECOND < b + step)
  {
    hide Represents, RolledInto;
    var k := KeyOf(s.log[i]);
    HourlyStart(s, k);
    HourSpan(s.log[i].collected);
    FloorUnique(s.db.hourly[k].intervalStart, HOUR, k.1 / HOUR);
    if (b - lo) % step == 0 {
      AlignedToHours(b, lo, step);
      SameHourSamePoint(s.db.hourly[k].intervalStart, s.log[i].collected, b, step);
    }
  }

  lemma SourceInSamePoint(s: System, host: Uuid, lo: int, hi: int, step: int, b: int, i: nat)
    requires Rows(s) && Hours(s) && ChartAligned(s, host, lo, hi, step) && i in Counted(s, host, lo, hi)
    ensures SourceOf(s, host, lo, hi)[i] in SourceRows(s.db, host, lo, hi)
    ensures BucketOf(SourceRows(s.db, host, lo, hi)[SourceOf(s, host, lo, hi)[i]].start, lo, step) == b <==>
            (b - lo) % step == 0 && b <= s.log[i].collected / SECOND < b + step
  {
    hide Represents, RolledInto, RowsKeyed, BucketOf;
    SourceKnown(s, host, lo, hi, i);
    var row := SourceRows(s.db, host, lo, hi)[SourceOf(s, host, lo, hi)[i]];
    BucketSpan(row.start, lo, step, b);
    if s.place[i] == Raw {
      assert RawSource(s.log[i].id) in RawRows(s.db, host, lo, hi);
      assert s.db.reports[s.log[i].id].sample == s.log[i];
    } else {
      assert HourSource(KeyOf(s.log[i])) in HourRows(s.db, host, lo, hi);
      HourInSamePoint(s, host, lo, hi, step, b, i);
    }
  }

  lemma HourlyStart(s: System, k: BucketKey)
    requires Hours(s) && k in s.db.hourly
    ensures k.1 % HOUR == 0 && k.1 == k.1 / HOUR * HOUR && k.1 <= s.db.hourly[k].intervalStart < k.1 + HOUR
  {
    var own := RolledInto(s.log, s.place, k);
    RepresentsMeetsChecks(s.db.hourly[k], own, k.1);
    SomeRolledInto(s.db.hourly[k], own);
    var i :| i in own;
    HourIsWhole(own[i].collected);
  }

  lemma SomeRolledInto(h: HourlyRow, own: map<nat, Sample>)
    requires Represents(h, own)
    ensures own != map[]
  {
  }

  lemma HourIsWhole(t: Instant)
    ensures Hour(t) % HOUR == 0 && Hour(t) == Hour(t) / HOUR * HOUR
  {
    MultipleDivides(t / HOUR, HOUR);
  }

  lemma CountedInPoint(s: System, host: Uuid, lo: int, hi: int, b: int, step: int)
    requires |s.place| == |s.log| && step > 0
    ensures forall i :: i in Counted(s, host, lo, hi) ==>
              (i in Counted(s, host, b, b + step) <==> b <= s.log[i].collected / SECOND < b + step)
    ensures lo <= b && b + step <= hi ==>
            forall i :: i in Counted(s, host, b, b + step) ==> i in Counted(s, host, lo, hi)
    ensures b + step <= lo || hi <= b ==>
            forall i :: i in Counted(s, host, lo, hi) ==> !(b <= s.log[i].collected / SECOND < b + step)
  {
  }

  lemma GatheredIsCounted(s: System, host: Uuid, lo: int, hi: int, step: int, b: int)
    requires Rows(s) && Hours(s) && ChartAligned(s, host, lo, hi, step)
    ensures var rows := SourceRows(s.db, host, lo, hi);
            Gathered(rows, Counted(s, host, lo, hi), SourceOf(s, host, lo, hi), rows.Keys, lo, step, b) ==
            if (b - lo) % step == 0 && lo <= b < hi then Counted(s, host, b, b + step) else map[]
  {
    var rows, all, source := SourceRows(s.db, host, lo, hi), Counted(s, host, lo, hi), SourceOf(s, host, lo, hi);
    var gathered := Gathered(rows, all, source, rows.Keys, lo, step, b);
    forall i | i in all
      ensures i in gathered <==> (b - lo) % step == 0 && b <= s.log[i].collected / SECOND < b + step
    {
      SourceInSamePoint(s, host, lo, hi, step, b, i);
    }
    CountedInPoint(s, host, lo, hi, b, step);
    if (b - lo) % step == 0 {
      if lo <= b < hi { LastPointEnds(b, lo, hi, step); } else { OutsidePoint(b, lo, hi, step); }
    }
    GatheredFrom(gathered, all, if (b - lo) % step == 0 && lo <= b < hi then Counted(s, host, b, b + step) else map[]);
  }

  lemma GatheredFrom(a: map<nat, Sample>, all: map<nat, Sample>, b: map<nat, Sample>)
    requires forall i :: i in a ==> i in all && a[i] == all[i]
    requires forall i :: i in b ==> i in all && b[i] == all[i]
    requires forall i :: i in all ==> (i in a <==> i in b)
    ensures a == b
  {
  }

  lemma LastPointEnds(b: int, lo: int, hi: int, step: int)
    requires step > 0 && (hi - lo) % step == 0 && (b - lo) % step == 0 && b < hi
    ensures b + step <= hi
  {
    var p, q := (b - lo) / step, (hi - lo) / step;
    assert b - lo == p * step && hi - lo == q * step;
    if p >= q { LessMul(q, p, step); }
    LessMul(p + 1, q, step);
  }

  lemma OutsidePoint(b: int, lo: int, hi: int, step: int)
    requires step > 0 && (hi - lo) % step == 0 && (b - lo) % step == 0 && lo <= hi
    requires !(lo <= b < hi)
    ensures b + step <= lo || hi <= b
  {
    if b < lo {
      var p := (b - lo) / step;
      assert b - lo == p * step;
      if p >= 0 { LessMul(0, p, step); }
      LessMul(p, -1, step);
    }
  }

  // ---- the answer ----

  datatype Point = Point(start: int, end: int, sampleCount: nat, metrics: Scalars)

  /** A point is the direct count, minimum, maximum and mean of the samples of its interval. */
  ghost predicate PointIs(p: Point, samples: map<nat, Sample>) {
    p.sampleCount == |samples| > 0 && forall m :: 0 <= m < METRICS ==> Describes(p.metrics[m], ValuesOf(samples, m))
  }

  ghost predicate OnGrid(b: int, lo: int, hi: int, step: int)
    requires step > 0
  {
    (b - lo) % step == 0 && lo <= b < hi
  }

  ghost predicate Ascending(points: seq<Point>) {
    forall i, j :: 0 <= i < j < |points| ==> points[i].start < points[j].start
  }

  /** The points are exactly the nonempty intervals of the grid, in order, each summarised directly. */
  ghost predicate IsSeries(s: System, host: Uuid, lo: int, hi: int, step: int, points: seq<Point>)
    requires |s.place| == |s.log| && step > 0
  {
    && Ascending(points)
    && (forall p :: p in points ==>
          OnGrid(p.start, lo, hi, step) && p.end == p.start + step && PointIs(p, Counted(s, host, p.start, p.end)))
    && (forall b ::
          OnGrid(b, lo, hi, step) && Counted(s, host, b, b + step) != map[] ==>
            exists p :: p in points && p.start == b)
  }

  function PointOf(b: int, step: int, g: Group): Point {
    Point(b, b + step, g.sampleCount, seq(METRICS, m requires 0 <= m < METRICS => Finish(g.metrics[m])))
  }

  lemma PointOfGroup(b: int, step: int, g: Group, samples: map<nat, Sample>)
    requires GroupCollects(g, samples) && samples != map[]
    ensures PointIs(PointOf(b, step, g), samples)
  {
    assert |samples.Keys| > 0;
    forall m | 0 <= m < METRICS ensures Describes(PointOf(b, step, g).metrics[m], ValuesOf(samples, m)) {
      FinishDescribes(g.metrics[m], ValuesOf(samples, m));
    }
  }

  lemma BeforeLastStep(b: int, lo: int, step: int, n: nat)
    requires step > 0 && n > 0 && (b - lo) % step == 0 && lo <= b < lo + n * step && b != lo + (n - 1) * step
    ensures b < lo + (n - 1) * step
  {
    var q := (b - lo) / step;
    assert b - lo == q * step;
    if q >= n { LessMul(n, q, step); }
    LessMul(q, n - 1, step);
  }

  /** A grid of `n` steps has at most `n` starts: the LIMIT drops no point. */
  lemma {:induction false} GridSize(starts: set<int>, lo: int, step: int, n: nat)
    requires step > 0 && forall b :: b in starts ==> (b - lo) % step == 0 && lo <= b < lo + n * step
    ensures |starts| <= n
    decreases n
  {
    if n == 0 {
      assert lo + n * step == lo;
      assert forall b :: b !in starts;
      assert starts == {};
    } else {
      var last := lo + (n - 1) * step;
      forall b | b in starts - {last} ensures (b - lo) % step == 0 && lo <= b < last {
        BeforeLastStep(b, lo, step, n);
      }
      GridSize(starts - {last}, lo, step, n - 1);
      SubsetSize(starts, starts - {last} + {last});
    }
  }

  function StartRanks(groups: map<int, Group>): map<int, Rank> { map b | b in groups :: (b, 0, 0) }

  /** ORDER BY the bucket, with a LIMIT that drops nothing. */
  method Present(groups: map<int, Group>, step: int, limit: nat) returns (points: seq<Point>)
    requires |groups| <= limit
    ensures Ascending(points)
    ensures forall p :: p in points ==> p.start in groups && p == PointOf(p.start, step, groups[p.start])
    ensures forall b :: b in groups ==> exists p :: p in points && p.start == b
  {
    hide Finish, AddRow, IsFirst, Ascending;
    var rank := StartRanks(groups);
    assert rank.Keys == groups.Keys;
    var order := OrderedLimit(rank, limit);
    AllTaken(order, rank, limit);
    points := [];
    for i := 0 to |order|
      invariant |points| == i
      invariant forall j :: 0 <= j < i ==> points[j] == PointOf(order[j], step, groups[order[j]])
    {
      points := points + [PointOf(order[i], step, groups[order[i]])];
    }
    OrderAscends(groups, order, points, limit);
    OrderCovers(groups, order, points);
  }

  lemma OrderAscends(groups: map<int, Group>, order: seq<int>, points: seq<Point>, limit: nat)
    requires IsFirst(order, StartRanks(groups), limit)
    requires |points| == |order| && forall i :: 0 <= i < |order| ==> points[i].start == order[i]
    ensures Ascending(points)
  {
    var rank := StartRanks(groups);
    forall i, j | 0 <= i < j < |points| ensures points[i].start < points[j].start {
      assert order[i] != order[j] && !Precedes(rank[order[j]], rank[order[i]]);
    }
  }

  lemma OrderCovers(groups: map<int, Group>, order: seq<int>, points: seq<Point>)
    requires forall b :: b in groups <==> b in order
    requires |points| == |order| && forall i :: 0 <= i < |order| ==> points[i].start == order[i]
    ensures forall b :: b in groups ==> exists p :: p in points && p.start == b
    ensures forall p :: p in points ==> p.start in groups
  {
    forall b | b in groups ensures exists p :: p in points && p.start == b {
      var i :| 0 <= i < |order| && order[i] == b;
      assert points[i].start == b;
    }
  }

  lemma AllTaken<K>(rows: seq<K>, rank: map<K, Rank>, n: nat)
    requires IsFirst(rows, rank, n) && |rank| <= n
    ensures forall k :: k in rank <==> k in rows
  {
    DistinctSize(rows);
    var taken := set r | r in rows;
    if k :| k in rank && k !in rows {
      SubsetSize(taken, rank.Keys - {k});
    }
  }

  /** The groups hold, point by point, exactly the counted samples. */
  ghost predicate Grouped(s: System, host: Uuid, lo: int, hi: int, step: int, groups: map<int, Group>)
    requires |s.place| == |s.log| && step > 0
  {
    forall b :: GroupsCollect(groups, b, if OnGrid(b, lo, hi, step) then Counted(s, host, b, b + step) else map[])
  }

  lemma GatheredMeansGrouped(s: System, host: Uuid, lo: int, hi: int, step: int, groups: map<int, Group>)
    requires Rows(s) && Hours(s) && ChartAligned(s, host, lo, hi, step)
    requires var rows := SourceRows(s.db, host, lo, hi);
             forall b :: GroupsCollect(groups, b, Gathered(rows, Counted(s, host, lo, hi), SourceOf(s, host, lo, hi),
                                                           rows.Keys, lo, step, b))
    ensures Grouped(s, host, lo, hi, step, groups)
  {
    forall b
      ensures GroupsCollect(groups, b, if OnGrid(b, lo, hi, step) then Counted(s, host, b, b + step) else map[])
    {
      GatheredIsCounted(s, host, lo, hi, step, b);
    }
  }

  lemma GroupsMakeSeries(s: System, host: Uuid, lo: int, hi: int, step: int, groups: map<int, Group>,
                         points: seq<Point>)
    requires |s.place| == |s.log| && step > 0 && Grouped(s, host, lo, hi, step, groups)
    requires Ascending(points)
    requires forall p :: p in points ==> p.start in groups && p == PointOf(p.start, step, groups[p.start])
    requires forall b :: b in groups ==> exists p :: p in points && p.start == b
    ensures IsSeries(s, host, lo, hi, step, points)
  {
    hide PointOf, Counted, OnGrid, PointIs, Grouped, Ascending;
    GroupedMeansPoints(s, host, lo, hi, step, groups);
    forall p | p in points
      ensures OnGrid(p.start, lo, hi, step) && p.end == p.start + step && PointIs(p, Counted(s, host, p.start, p.end))
    {
      assert p.start in groups && p == PointOf(p.start, step, groups[p.start]);
    }
    forall b | OnGrid(b, lo, hi, step) && Counted(s, host, b, b + step) != map[]
      ensures exists p :: p in points && p.start == b
    {
      assert b in groups;
    }
  }

  lemma GroupedMeansPoints(s: System, host: Uuid, lo: int, hi: int, step: int, groups: map<int, Group>)
    requires |s.place| == |s.log| && step > 0 && Grouped(s, host, lo, hi, step, groups)
    ensures forall b :: b in groups ==>
              OnGrid(b, lo, hi, step) && PointOf(b, step, groups[b]).start == b
              && PointOf(b, step, groups[b]).end == b + step
              && PointIs(PointOf(b, step, groups[b]), Counted(s, host, b, b + step))
    ensures forall b :: OnGrid(b, lo, hi, step) && Counted(s, host, b, b + step) != map[] ==> b in groups
  {
    hide Counted, OnGrid, PointIs, GroupCollects;
    forall b | b in groups
      ensures OnGrid(b, lo, hi, step) && PointOf(b, step, groups[b]).start == b
              && PointOf(b, step, groups[b]).end == b + step
              && PointIs(PointOf(b, step, groups[b]), Counted(s, host, b, b + step))
    {
      assert GroupsCollect(groups, b, if OnGrid(b, lo, hi, step) then Counted(s, host, b, b + step) else map[]);
      PointOfGroup(b, step, groups[b], Counted(s, host, b, b + step));
    }
  }

  lemma GroupsOnGrid(s: System, host: Uuid, lo: int, hi: int, step: int, groups: map<int, Group>, n: nat)
    requires |s.place| == |s.log| && step > 0 && Grouped(s, host, lo, hi, step, groups) && hi - lo == n * step
    ensures |groups| <= n
  {
    forall b | b in groups ensures (b - lo) % step == 0 && lo <= b < lo + n * step {
      assert GroupsCollect(groups, b, if OnGrid(b, lo, hi, step) then Counted(s, host, b, b + step) else map[]);
    }
    GridSize(groups.Keys, lo, step, n);
  }

  datatype SourceKind = RawOnly | HourlyOnly | Mixed

  datatype SeriesResult =
    | NoHost
    | OutOfBudget
    | Series(lo: int, hi: int, step: int, source: SourceKind, points: seq<Point>)

  lemma HoursAreAligned(s: System)
    requires Hours(s)
    ensures HourAligned(s.db.hourly)
  {
    forall k | k in s.db.hourly ensures k.1 % HOUR == 0 {
      HourlyStart(s, k);
    }
  }

  lemma WholeStepsOfHours(t: int, step: int)
    requires step > 0 && step % 3600 == 0
    ensures FloorTo(t, step) % 3600 == 0 && CeilTo(t, step) % 3600 == 0
  {
    CoarseIsFine(t / step, 3600, step);
    CoarseIsFine((t + step - 1) / step, 3600, step);
    MultipleDivides((t / step) * (step / 3600), 3600);
    MultipleDivides(((t + step - 1) / step) * (step / 3600), 3600);
  }

  lemma NoHalfHours(s: System, host: Uuid, lo: int, hi: int)
    requires HourAligned(s.db.hourly)
    requires (lo % 3600 == 0 && hi % 3600 == 0)
             || forall k :: k in s.db.hourly && k.0 == host ==> !(FloorTo(lo, 3600) * SECOND <= k.1 < hi * SECOND)
    ensures WholeHours(s, host, lo, hi)
  {
    hide FloorTo;
    forall k | k in s.db.hourly && k.0 == host && k.1 < hi * SECOND && lo * SECOND < k.1 + HOUR
      ensures lo * SECOND <= k.1 && k.1 + HOUR <= hi * SECOND
    {
      NoHalfHour(lo, hi, k.1);
    }
  }

  lemma NoHalfHour(lo: int, hi: int, k: int)
    requires k % HOUR == 0 && k < hi * SECOND && lo * SECOND < k + HOUR
    requires (lo % 3600 == 0 && hi % 3600 == 0) || !(FloorTo(lo, 3600) * SECOND <= k < hi * SECOND)
    ensures lo * SECOND <= k && k + HOUR <= hi * SECOND
  {
    var hour := k / HOUR;
    assert k == hour * 3600 * SECOND;
    assert lo < hour * 3600 + 3600;
    assert lo / 3600 <= hour;
  }

  lemma AlignedGrid(from: Instant, to: Instant, step: int)
    requires step > 0 && from <= to
    ensures var lo, hi := FloorTo(FromSeconds(from), step), CeilTo(ToSeconds(to), step);
            lo <= hi && (hi - lo) % step == 0
  {
    var lo, hi := FloorTo(FromSeconds(from), step), CeilTo(ToSeconds(to), step);
    AlignmentBounds(FromSeconds(from), step);
    AlignmentBounds(ToSeconds(to), step);
    BucketCount(FromSeconds(from), ToSeconds(to), step);
    MultipleDivides((hi - lo) / step, step);
  }

  /** At the chosen step the final selection cuts no rolled-up hour, and below an hour there is none to select. */
  lemma AcceptableIsAligned(s: System, host: Uuid, from: Instant, to: Instant, maxPoints: nat, i: nat)
    requires HourAligned(s.db.hourly) && from <= to && i < |STEPS|
             && Acceptable(s.db.hourly, host, from, to, maxPoints, STEPS[i])
    ensures ChartAligned(s, host, FloorTo(FromSeconds(from), STEPS[i]), CeilTo(ToSeconds(to), STEPS[i]), STEPS[i])
    ensures HourRows(s.db, host, FloorTo(FromSeconds(from), STEPS[i]), CeilTo(ToSeconds(to), STEPS[i])) != map[] <==>
            Overlaps(s.db.hourly, host, from, to, STEPS[i])
  {
    var step := STEPS[i];
    AlignedGrid(from, to, step);
    if step >= 3600 {
      WholeStepsOfHours(FromSeconds(from), step);
      WholeStepsOfHours(ToSeconds(to), step);
    }
    HourRowsOverlap(s.db, host, from, to, step);
    NoHalfHours(s, host, FloorTo(FromSeconds(from), step), CeilTo(ToSeconds(to), step));
  }

  lemma HourRowsOverlap(db: Db, host: Uuid, from: Instant, to: Instant, step: int)
    requires step > 0 && HourAligned(db.hourly)
    ensures var lo, hi := FloorTo(FromSeconds(from), step), CeilTo(ToSeconds(to), step);
            && (HourRows(db, host, lo, hi) != map[] ==> Overlaps(db.hourly, host, from, to, step))
            && (FloorTo(lo, 3600) == lo && Overlaps(db.hourly, host, from, to, step) ==>
                HourRows(db, host, lo, hi) != map[])
  {
    var lo, hi := FloorTo(FromSeconds(from), step), CeilTo(ToSeconds(to), step);
    if HourRows(db, host, lo, hi) != map[] {
      var key :| key in HourRows(db, host, lo, hi);
      AlignmentBounds(lo, 3600);
      assert key.key in db.hourly;
    }
    if FloorTo(lo, 3600) == lo && Overlaps(db.hourly, host, from, to, step) {
      var k :| k in db.hourly && k.0 == host && lo * SECOND <= k.1 < hi * SECOND;
      assert HourSource(k) in HourRows(db, host, lo, hi);
    }
  }

  // ---- the query ----

  predicate HasRaw(db: Db, host: Uuid, lo: int, hi: int) {
    exists r :: r in db.reports && db.reports[r].sample.host == host && db.reports[r].aggregatedAt.None?
      && lo * SECOND <= db.reports[r].sample.collected < hi * SECOND
  }

  function KindOf(raw: bool, hourly: bool): SourceKind {
    if raw && hourly then Mixed else if hourly then HourlyOnly else RawOnly
  }

  /** The union, its grouping and the selection of at most `limit` points, on a grid that holds no more. */
  method SelectPoints(db: Db, host: Uuid, lo: int, hi: int, step: int, limit: nat, ghost s: System)
    returns (points: seq<Point>)
    requires s.db == db && Rows(s) && Hours(s) && ChartAligned(s, host, lo, hi, step) && (hi - lo) / step <= limit
    ensures IsSeries(s, host, lo, hi, step, points)
  {
    hide RowsKeyed, HoursPlaced, SourceRows, Counted, SourceOf, IsSeries, GroupsCollect, Grouped;
    SourcesSummarise(s, host, lo, hi);
    var groups := GroupRows(SourceRows(db, host, lo, hi), lo, step, Counted(s, host, lo, hi),
                            SourceOf(s, host, lo, hi));
    GatheredMeansGrouped(s, host, lo, hi, step, groups);
    GroupsOnGrid(s, host, lo, hi, step, groups, (hi - lo) / step);
    points := Present(groups, step, limit);
    GroupsMakeSeries(s, host, lo, hi, step, groups, points);
  }

  /**
   * An answer of the query in a given state: the least acceptable step with its aligned range and
   * source label, and the direct summaries of the counted samples; or no host; or no step at all.
   */
  ghost predicate IsAnswer(s: System, host: Uuid, from: Instant, to: Instant, maxPoints: nat, r: SeriesResult)
    requires |s.place| == |s.log|
  {
    && (r.NoHost? <==> !HostActive(s.db.hosts, host))
    && (r.OutOfBudget? ==> forall i :: 0 <= i < |STEPS| ==>
                             !Acceptable(s.db.hourly, host, from, to, maxPoints, STEPS[i]))
    && (r.Series? ==> IsLeastStep(s.db.hourly, host, from, to, maxPoints, r.step) && Draws(s, host, from, to, r))
  }

  ghost predicate Draws(s: System, host: Uuid, from: Instant, to: Instant, r: SeriesResult)
    requires |s.place| == |s.log| && r.Series? && r.step > 0
  {
    && r.lo == FloorTo(FromSeconds(from), r.step) && r.hi == CeilTo(ToSeconds(to), r.step)
    && IsSeries(s, host, r.lo, r.hi, r.step, r.points)
    && IsLabel(r.source, HasRaw(s.db, host, r.lo, r.hi), Overlaps(s.db.hourly, host, from, to, r.step))
  }

  predicate IsLabel(source: SourceKind, raw: bool, hourly: bool) {
    && (source == Mixed <==> raw && hourly)
    && (source == HourlyOnly <==> !raw && hourly)
  }

  lemma DailyIsAStep(hourly: map<BucketKey, HourlyRow>, host: Uuid, from: Instant, to: Instant, maxPoints: nat)
    requires from < to && to - from <= 31 * DAY && 100 <= maxPoints <= 1000
    ensures STEPS[|STEPS| - 1] == 86_400 && Acceptable(hourly, host, from, to, maxPoints, STEPS[|STEPS| - 1])
  {
    AllowedRangesHaveAStep(hourly, host, from, to, maxPoints);
  }

  /** The chart at the step chosen for it. */
  method Draw(db: Db, host: Uuid, from: Instant, to: Instant, maxPoints: nat, step: int, ghost s: System)
    returns (r: SeriesResult)
    requires s.db == db && Rows(s) && Hours(s) && HourAligned(db.hourly) && from <= to
    requires IsLeastStep(db.hourly, host, from, to, maxPoints, step)
    ensures r.Series? && r.step == step && Draws(s, host, from, to, r)
  {
    hide IsSeries, Rows, Hours, Overlaps, HasRaw, RowsKeyed;
    var lo, hi := FloorTo(FromSeconds(from), step), CeilTo(ToSeconds(to), step);
    ghost var i :| 0 <= i < |STEPS| && STEPS[i] == step;
    AcceptableIsAligned(s, host, from, to, maxPoints, i);
    BucketCount(FromSeconds(from), ToSeconds(to), step);
    LogsMatch(s);
    var points := SelectPoints(db, host, lo, hi, step, maxPoints, s);
    return Series(lo, hi, step, KindOf(HasRaw(db, host, lo, hi), Overlaps(db.hourly, host, from, to, step)), points);
  }

  /**
   * The chart of a host. In every state that satisfies the ledger invariants it answers with the
   * accepted samples themselves, and no range the endpoint lets through is out of budget.
   */
  method HistorySeries(db: Db, host: Uuid, from: Instant, to: Instant, maxPoints: nat, ghost s: System)
    returns (r: SeriesResult)
    requires s.db == db && Rows(s) && Hours(s) && from <= to && maxPoints >= 1
    ensures IsAnswer(s, host, from, to, maxPoints, r)
    ensures from < to && to - from <= 31 * DAY && 100 <= maxPoints <= 1000 ==> !r.OutOfBudget?
  {
    hide IsSeries, IsLeastStep, Draws;
    if !HostActive(db.hosts, host) { return NoHost; }
    HoursAreAligned(s);
    var found := ChooseStep(db.hourly, host, from, to, maxPoints);
    if found.None? {
      if from < to && to - from <= 31 * DAY && 100 <= maxPoints <= 1000 {
        DailyIsAStep(db.hourly, host, from, to, maxPoints);
      }
      return OutOfBudget;
    }
    r := Draw(db, host, from, to, maxPoints, found.value, s);
  }

  // ---- retention is invisible ----

  lemma PointIsUnique(p: Point, q: Point, samples: map<nat, Sample>)
    requires PointIs(p, samples) && PointIs(q, samples) && p.start == q.start && p.end == q.end
    ensures p == q
  {
    forall m | 0 <= m < METRICS ensures p.metrics[m] == q.metrics[m] {
      DescribesUnique(p.metrics[m], q.metrics[m], ValuesOf(samples, m));
    }
    assert p.metrics == q.metrics;
  }

  ghost function Starts(points: seq<Point>): set<int> { set p | p in points :: p.start }

  lemma {:induction false} AscendingUnique(a: seq<Point>, b: seq<Point>)
    requires Ascending(a) && Ascending(b) && Starts(a) == Starts(b)
    requires forall p, q :: p in a && q in b && p.start == q.start ==> p == q
    ensures a == b
    decreases |a|
  {
    if a == [] {
      assert b == [] || b[0].start in Starts(b);
    } else {
      assert a[0].start in Starts(b);
      var i :| 0 <= i < |b| && b[i].start == a[0].start;
      assert b[0].start in Starts(a);
      var j :| 0 <= j < |a| && a[j].start == b[0].start;
      assert a[0] == b[0];
      DropFirst(a);
      DropFirst(b);
      AscendingUnique(a[1..], b[1..]);
    }
  }

  lemma DropFirst(a: seq<Point>)
    requires a != [] && Ascending(a)
    ensures Ascending(a[1..]) && Starts(a[1..]) == Starts(a) - {a[0].start}
  {
    forall b | b in Starts(a) - {a[0].start} ensures b in Starts(a[1..]) {
      var p :| p in a && p.start == b;
      assert p in a[1..];
    }
  }

  /** The chart of a state is a function of its counted samples: no two answers differ. */
  lemma SeriesIsUnique(s: System, host: Uuid, lo: int, hi: int, step: int, a: seq<Point>, b: seq<Point>)
    requires |s.place| == |s.log| && step > 0
    requires IsSeries(s, host, lo, hi, step, a) && IsSeries(s, host, lo, hi, step, b)
    ensures a == b
  {
    hide Counted, OnGrid, PointIs, Starts;
    StartsWithin(s, host, lo, hi, step, a, b);
    StartsWithin(s, host, lo, hi, step, b, a);
    forall p, q | p in a && q in b && p.start == q.start ensures p == q {
      PointIsUnique(p, q, Counted(s, host, p.start, p.end));
    }
    AscendingUnique(a, b);
  }

  lemma StartsWithin(s: System, host: Uuid, lo: int, hi: int, step: int, a: seq<Point>, b: seq<Point>)
    requires |s.place| == |s.log| && step > 0
    requires IsSeries(s, host, lo, hi, step, a) && IsSeries(s, host, lo, hi, step, b)
    ensures Starts(a) <= Starts(b)
  {
    forall p | p in a ensures p.start in Starts(b) {
      assert Counted(s, host, p.start, p.start + step) != map[];
      var q :| q in b && q.start == p.start;
    }
  }

  lemma SameCounted(s: System, e: Event, host: Uuid, lo: int, hi: int)
    requires |s.place| == |s.log| && Enabled(s, e) && (e.RollUpEvent? || e.PurgeEvent?)
    ensures |Next(s, e).place| == |Next(s, e).log| && Counted(Next(s, e), host, lo, hi) == Counted(s, host, lo, hi)
  {
  }

  lemma SeriesTransfers(s: System, t: System, host: Uuid, lo: int, hi: int, step: int, points: seq<Point>)
    requires |s.place| == |s.log| && |t.place| == |t.log| && step > 0 && IsSeries(s, host, lo, hi, step, points)
    requires forall a, b :: Counted(t, host, a, b) == Counted(s, host, a, b)
    ensures IsSeries(t, host, lo, hi, step, points)
  {
  }

  /**
   * Retention is invisible to charts: rolling a batch up or deleting marked raw rows leaves the
   * chart of every host, range and step exactly as it was.
   */
  lemma RetentionIsInvisible(s: System, e: Event, host: Uuid, lo: int, hi: int, step: int, points: seq<Point>)
    requires Inv(s) && Enabled(s, e) && (e.RollUpEvent? || e.PurgeEvent?) && step > 0
    ensures |Next(s, e).place| == |Next(s, e).log|
    ensures IsSeries(s, host, lo, hi, step, points) <==> IsSeries(Next(s, e), host, lo, hi, step, points)
  {
    forall a, b
      ensures |Next(s, e).place| == |Next(s, e).log| && Counted(Next(s, e), host, a, b) == Counted(s, host, a, b)
    {
      SameCounted(s, e, host, a, b);
    }
    SameCounted(s, e, host, lo, hi);
    if IsSeries(s, host, lo, hi, step, points) { SeriesTransfers(s, Next(s, e), host, lo, hi, step, points); }
    if IsSeries(Next(s, e), host, lo, hi, step, points) { SeriesTransfers(Next(s, e), s, host, lo, hi, step, points); }
  }
}
