/** The three bounded retention transactions: roll up, delete marked raw rows, delete expired hours. */
module Retention {
  import opened Common
  import opened Schema
  import opened Aggregates

  predicate IsLatest(hosts: map<Uuid, HostRow>, r: Uuid) {
    exists h :: h in hosts && hosts[h].latest == Some(r)
  }

  predicate MayRollUp(db: Db, cutoff: Instant, r: Uuid) {
    && r in db.reports && db.reports[r].aggregatedAt.None? && db.reports[r].sample.collected < cutoff
    && !IsLatest(db.hosts, r)
  }

  function RollUpRank(db: Db, cutoff: Instant, r: Uuid): Rank
    requires MayRollUp(db, cutoff, r)
  {
    (db.reports[r].sample.collected, r, 0)
  }

  /** Unmarked reports collected before the cutoff, except any host's latest, by (collected_at, report_id). */
  function RollUpCandidates(db: Db, cutoff: Instant): map<Uuid, Rank> {
    map r | r in db.reports && MayRollUp(db, cutoff, r) :: RollUpRank(db, cutoff, r)
  }

  predicate MayPurge(db: Db, cutoff: Instant, r: Uuid) {
    && r in db.reports && db.reports[r].aggregatedAt.Some? && db.reports[r].sample.received < cutoff
    && !IsLatest(db.hosts, r)
  }

  function PurgeRank(db: Db, cutoff: Instant, r: Uuid): Rank
    requires MayPurge(db, cutoff, r)
  {
    (db.reports[r].aggregatedAt.value, r, 0)
  }

  /** Marked reports received before the cutoff, except any host's latest, by (aggregated_at, report_id). */
  function PurgeCandidates(db: Db, cutoff: Instant): map<Uuid, Rank> {
    map r | r in db.reports && MayPurge(db, cutoff, r) :: PurgeRank(db, cutoff, r)
  }

  predicate MayExpire(hourly: map<BucketKey, HourlyRow>, cutoff: Instant, k: BucketKey) {
    k in hourly && hourly[k].intervalEnd < cutoff
  }

  function ExpiryRank(hourly: map<BucketKey, HourlyRow>, cutoff: Instant, k: BucketKey): Rank
    requires MayExpire(hourly, cutoff, k)
  {
    (hourly[k].intervalEnd, k.0, k.1)
  }

  /** Hours whose last sample is before the cutoff, by (interval_end, host_id, bucket_start). */
  function ExpiryCandidates(db: Db, cutoff: Instant): map<BucketKey, Rank> {
    map k | k in db.hourly && MayExpire(db.hourly, cutoff, k) :: ExpiryRank(db.hourly, cutoff, k)
  }

  function KeyOf(s: Sample): BucketKey { (s.host, Hour(s.collected)) }

  /** One more report in the in-memory buckets of a batch. */
  function AddTo(buckets: map<BucketKey, HourlyRow>, s: Sample): map<BucketKey, HourlyRow> {
    buckets[KeyOf(s) := if KeyOf(s) in buckets then RecordRow(buckets[KeyOf(s)], s) else NewRow(s)]
  }

  function Accumulate(reports: map<Uuid, ReportRow>, batch: seq<Uuid>): map<BucketKey, HourlyRow>
    requires forall r :: r in batch ==> r in reports
  {
    if batch == [] then map[]
    else AddTo(Accumulate(reports, batch[..|batch| - 1]), reports[batch[|batch| - 1]].sample)
  }

  /** `INSERT ... ON CONFLICT DO UPDATE` of one bucket. */
  function Upserted(hourly: map<BucketKey, HourlyRow>, incoming: map<BucketKey, HourlyRow>, k: BucketKey): HourlyRow
    requires k in hourly || k in incoming
  {
    if k in hourly && k in incoming then MergeRow(hourly[k], incoming[k])
    else if k in incoming then incoming[k] else hourly[k]
  }

  function Upsert(hourly: map<BucketKey, HourlyRow>, incoming: map<BucketKey, HourlyRow>): map<BucketKey, HourlyRow> {
    map k | k in hourly.Keys + incoming.Keys :: Upserted(hourly, incoming, k)
  }

  function Mark(reports: map<Uuid, ReportRow>, batch: seq<Uuid>, now: Instant): map<Uuid, ReportRow> {
    map r | r in reports :: if r in batch then reports[r].(aggregatedAt := Some(now)) else reports[r]
  }

  function RollUp(db: Db, batch: seq<Uuid>, now: Instant): Db
    requires forall r :: r in batch ==> r in db.reports
  {
    db.(hourly := Upsert(db.hourly, Accumulate(db.reports, batch)), reports := Mark(db.reports, batch, now))
  }

  function Purge(db: Db, rows: seq<Uuid>): Db {
    db.(reports := map r | r in db.reports && r !in rows :: db.reports[r])
  }

  function Expire(db: Db, rows: seq<BucketKey>): Db {
    db.(hourly := map k | k in db.hourly && k !in rows :: db.hourly[k])
  }

  /** The upsert of every bucket of a batch, in any order: insert, or merge into the stored row. */
  method UpsertAll(hourly: map<BucketKey, HourlyRow>, rows: map<BucketKey, HourlyRow>)
    returns (after: map<BucketKey, HourlyRow>)
    ensures after == Upsert(hourly, rows)
  {
    hide MergeRow;
    after := hourly;
    var left := rows.Keys;
    while left != {}
      invariant left <= rows.Keys
      invariant forall k :: k in after <==> k in hourly || (k in rows && k !in left)
      invariant forall k :: k in after && k in left ==> k in hourly && after[k] == hourly[k]
      invariant forall k :: k in after && k !in left ==> after[k] == Upserted(hourly, rows, k)
      decreases |left|
    {
      var k :| k in left;
      after := after[k := if k in after then MergeRow(after[k], rows[k]) else rows[k]];
      left := left - {k};
    }
  }

  // ---- progress ----

  ghost predicate Quiet(db: Db, rawCutoff: Instant, aggregateCutoff: Instant) {
    && RollUpCandidates(db, rawCutoff) == map[]
    && PurgeCandidates(db, rawCutoff) == map[]
    && ExpiryCandidates(db, aggregateCutoff) == map[]
  }

  /** Work left, most significant first: rows to roll up, rows to delete, hours to expire. */
  ghost function Backlog(db: Db, rawCutoff: Instant, aggregateCutoff: Instant): (nat, nat, nat) {
    (|RollUpCandidates(db, rawCutoff).Keys|, |PurgeCandidates(db, rawCutoff).Keys|,
     |ExpiryCandidates(db, aggregateCutoff).Keys|)
  }

  ghost predicate Less(a: (nat, nat, nat), b: (nat, nat, nat)) {
    a.0 < b.0 || (a.0 == b.0 && (a.1 < b.1 || (a.1 == b.1 && a.2 < b.2)))
  }

  lemma TakenOut<K>(before: set<K>, after: set<K>, rows: seq<K>)
    requires Distinct(rows) && (forall r :: r in rows ==> r in before) && after == before - (set r | r in rows)
    ensures |after| + |rows| == |before|
  {
    var taken := set r | r in rows;
    DistinctSize(rows);
    assert before == after + taken && after !! taken;
  }

  lemma EmptyBatchMeansNone<K>(rows: seq<K>, rank: map<K, Rank>, n: nat)
    requires IsFirst(rows, rank, n) && n > 0 && rows == []
    ensures rank == map[]
  {
    ShortBatchTakesAll(rows, rank, n);
    assert rank.Keys == {};
  }

  /** How far a transaction or a whole run has brought the work left: not at all, or strictly down. */
  ghost predicate Advanced(before: Db, after: Db, rows: nat, rawCutoff: Instant, aggregateCutoff: Instant) {
    if rows == 0 then after == before
    else Less(Backlog(after, rawCutoff, aggregateCutoff), Backlog(before, rawCutoff, aggregateCutoff))
  }

  lemma RollUpTakesBatch(db: Db, batch: seq<Uuid>, now: Instant, cutoff: Instant)
    requires forall r :: r in batch ==> r in db.reports
    ensures RollUpCandidates(RollUp(db, batch, now), cutoff).Keys ==
            RollUpCandidates(db, cutoff).Keys - (set r | r in batch)
  {
  }

  lemma PurgeTakesRows(db: Db, rows: seq<Uuid>, cutoff: Instant)
    ensures PurgeCandidates(Purge(db, rows), cutoff).Keys == PurgeCandidates(db, cutoff).Keys - (set r | r in rows)
    ensures Purge(db, rows).reports.Keys == db.reports.Keys - (set r | r in rows)
    ensures Purge(db, rows).hourly == db.hourly
  {
  }

  /** Only marked rows are deleted: the same rows still wait to be rolled up. */
  lemma PurgeSparesUnmarked(db: Db, rows: seq<Uuid>, rawCutoff: Instant)
    requires forall r :: r in rows ==> r in PurgeCandidates(db, rawCutoff)
    ensures RollUpCandidates(Purge(db, rows), rawCutoff) == RollUpCandidates(db, rawCutoff)
  {
  }

  lemma PurgeRowsAreStored(db: Db, rawCutoff: Instant)
    ensures forall r :: r in PurgeCandidates(db, rawCutoff) ==> r in db.reports
  {
  }

  lemma PurgeNothing(db: Db)
    ensures Purge(db, []) == db
  {
    assert Purge(db, []).reports == db.reports;
  }

  lemma {:induction false} NoMoreHoursThanRows(reports: map<Uuid, ReportRow>, batch: seq<Uuid>)
    requires forall r :: r in batch ==> r in reports
    ensures |Accumulate(reports, batch).Keys| <= |batch|
    decreases |batch|
  {
    if batch != [] {
      var init, x := batch[..|batch| - 1], reports[batch[|batch| - 1]].sample;
      NoMoreHoursThanRows(reports, init);
      assert AddTo(Accumulate(reports, init), x).Keys == Accumulate(reports, init).Keys + {KeyOf(x)};
    }
  }

  lemma RollUpAddsHours(db: Db, batch: seq<Uuid>, now: Instant)
    requires forall r :: r in batch ==> r in db.reports
    ensures |db.hourly.Keys| <= |RollUp(db, batch, now).hourly.Keys| <= |db.hourly.Keys| + |batch|
  {
    var old_, new_ := db.hourly.Keys, Accumulate(db.reports, batch).Keys;
    NoMoreHoursThanRows(db.reports, batch);
    assert RollUp(db, batch, now).hourly.Keys == old_ + (new_ - old_);
    SubsetSize(new_ - old_, new_);
  }

  /** `n` rows rolled up: exactly those no longer wait for it, no row is deleted, and at most `n` hours are new. */
  ghost predicate RolledUp(before: Db, after: Db, n: nat, rawCutoff: Instant, aggregateCutoff: Instant) {
    && Advanced(before, after, n, rawCutoff, aggregateCutoff)
    && (n == 0 ==> RollUpCandidates(after, rawCutoff) == map[])
    && |RollUpCandidates(after, rawCutoff).Keys| + n == |RollUpCandidates(before, rawCutoff).Keys|
    && after.reports.Keys == before.reports.Keys
    && |before.hourly.Keys| <= |after.hourly.Keys| <= |before.hourly.Keys| + n
  }

  /** `n` rows deleted, all of them marked. */
  ghost predicate Purged(before: Db, after: Db, n: nat, rawCutoff: Instant, aggregateCutoff: Instant) {
    && Advanced(before, after, n, rawCutoff, aggregateCutoff)
    && (n == 0 ==> PurgeCandidates(after, rawCutoff) == map[])
    && |after.reports.Keys| + n == |before.reports.Keys|
    && after.hourly == before.hourly
    && RollUpCandidates(after, rawCutoff) == RollUpCandidates(before, rawCutoff)
  }

  /** `n` hours deleted, and nothing else touched. */
  ghost predicate Lapsing(before: Db, after: Db, n: nat, rawCutoff: Instant, aggregateCutoff: Instant) {
    && Advanced(before, after, n, rawCutoff, aggregateCutoff)
    && (n == 0 ==> ExpiryCandidates(after, aggregateCutoff) == map[])
    && |after.hourly.Keys| + n == |before.hourly.Keys|
    && after.reports == before.reports && after.hosts == before.hosts
  }

  lemma RollUpProgress(db: Db, batch: seq<Uuid>, now: Instant, limit: nat, rawCutoff: Instant, aggregateCutoff: Instant)
    requires IsFirst(batch, RollUpCandidates(db, rawCutoff), limit) && limit > 0
    requires forall r :: r in batch ==> r in db.reports
    ensures RolledUp(db, RollUp(db, batch, now), |batch|, rawCutoff, aggregateCutoff)
  {
    hide RollUp, RollUpCandidates, PurgeCandidates, ExpiryCandidates, IsFirst;
    var after := RollUp(db, batch, now);
    RollUpTakesBatch(db, batch, now, rawCutoff);
    RollUpAddsHours(db, batch, now);
    RollUpKeepsReports(db, batch, now);
    FirstParts(batch, RollUpCandidates(db, rawCutoff), limit);
    TakenOut(RollUpCandidates(db, rawCutoff).Keys, RollUpCandidates(after, rawCutoff).Keys, batch);
    if batch == [] {
      EmptyBatchMeansNone(batch, RollUpCandidates(db, rawCutoff), limit);
      RollUpNothing(db, now);
    }
  }

  lemma RollUpKeepsReports(db: Db, batch: seq<Uuid>, now: Instant)
    requires forall r :: r in batch ==> r in db.reports
    ensures RollUp(db, batch, now).reports.Keys == db.reports.Keys
  {
    hide Accumulate, Upsert;
  }

  lemma FirstParts<K>(rows: seq<K>, rank: map<K, Rank>, n: nat)
    requires IsFirst(rows, rank, n)
    ensures Distinct(rows) && forall r :: r in rows ==> r in rank
  {
  }

  lemma RollUpNothing(db: Db, now: Instant)
    ensures RollUp(db, [], now) == db
  {
    assert RollUp(db, [], now).reports == db.reports && RollUp(db, [], now).hourly == db.hourly;
  }

  lemma PurgeProgress(db: Db, rows: seq<Uuid>, limit: nat, rawCutoff: Instant, aggregateCutoff: Instant)
    requires IsFirst(rows, PurgeCandidates(db, rawCutoff), limit) && limit > 0
    ensures Purged(db, Purge(db, rows), |rows|, rawCutoff, aggregateCutoff)
  {
    hide PurgeCandidates, RollUpCandidates, Purge;
    var after := Purge(db, rows);
    PurgeSparesUnmarked(db, rows, rawCutoff);
    PurgeTakesRows(db, rows, rawCutoff);
    PurgeRowsAreStored(db, rawCutoff);
    TakenOut(PurgeCandidates(db, rawCutoff).Keys, PurgeCandidates(after, rawCutoff).Keys, rows);
    TakenOut(db.reports.Keys, after.reports.Keys, rows);
    if rows == [] {
      EmptyBatchMeansNone(rows, PurgeCandidates(db, rawCutoff), limit);
      PurgeNothing(db);
    }
  }

  lemma ExpireTakesHours(db: Db, hours: seq<BucketKey>, cutoff: Instant)
    ensures var after := Expire(db, hours);
            && ExpiryCandidates(after, cutoff).Keys == ExpiryCandidates(db, cutoff).Keys - (set h | h in hours)
            && after.hourly.Keys == db.hourly.Keys - (set h | h in hours)
            && after.reports == db.reports && after.hosts == db.hosts
    ensures ExpiryCandidates(db, cutoff).Keys <= db.hourly.Keys
    ensures Expire(db, []) == db
  {
    assert Expire(db, []).hourly == db.hourly;
  }

  lemma ExpireProgress(db: Db, hours: seq<BucketKey>, limit: nat, rawCutoff: Instant, aggregateCutoff: Instant)
    requires IsFirst(hours, ExpiryCandidates(db, aggregateCutoff), limit) && limit > 0
    ensures Lapsing(db, Expire(db, hours), |hours|, rawCutoff, aggregateCutoff)
  {
    ExpireKeepsOthers(db, hours, rawCutoff);
    hide ExpiryCandidates, Expire, RollUpCandidates, PurgeCandidates;
    var after := Expire(db, hours);
    ExpireTakesHours(db, hours, aggregateCutoff);
    TakenOut(ExpiryCandidates(db, aggregateCutoff).Keys, ExpiryCandidates(after, aggregateCutoff).Keys, hours);
    TakenOut(db.hourly.Keys, after.hourly.Keys, hours);
    if hours == [] {
      EmptyBatchMeansNone(hours, ExpiryCandidates(db, aggregateCutoff), limit);
    }
  }

  lemma ExpireKeepsOthers(db: Db, hours: seq<BucketKey>, rawCutoff: Instant)
    ensures RollUpCandidates(Expire(db, hours), rawCutoff) == RollUpCandidates(db, rawCutoff)
    ensures PurgeCandidates(Expire(db, hours), rawCutoff) == PurgeCandidates(db, rawCutoff)
  {
  }
}
