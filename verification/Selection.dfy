/** Which rows the three retention transactions take, in terms of the tables alone. */
module Selection {
  import opened Common
  import opened Schema
  import opened Aggregates
  import opened Retention

  // ---- what may be taken ----

  /** No host shows this report as its latest. */
  predicate Superseded(db: Db, r: Uuid) { forall h :: h in db.hosts ==> db.hosts[h].latest != Some(r) }

  /** An unmarked report of the table that is no host's latest and was collected before the cutoff. */
  predicate OldRaw(db: Db, r: Uuid, cutoff: Instant) {
    && r in db.reports && db.reports[r].aggregatedAt.None? && Superseded(db, r)
    && db.reports[r].sample.collected < cutoff
  }

  /** A marked report of the table that is no host's latest and was received before the cutoff. */
  predicate OldMarked(db: Db, r: Uuid, cutoff: Instant) {
    && r in db.reports && db.reports[r].aggregatedAt.Some? && Superseded(db, r)
    && db.reports[r].sample.received < cutoff
  }

  /** An hour of the table whose last sample was collected before the cutoff. */
  predicate OldHour(db: Db, k: BucketKey, cutoff: Instant) {
    k in db.hourly && db.hourly[k].intervalEnd < cutoff
  }

  predicate NoOldRaw(db: Db, cutoff: Instant) { forall r :: r in db.reports ==> !OldRaw(db, r, cutoff) }
  predicate NoOldMarked(db: Db, cutoff: Instant) { forall r :: r in db.reports ==> !OldMarked(db, r, cutoff) }
  predicate NoOldHour(db: Db, cutoff: Instant) { forall k :: k in db.hourly ==> !OldHour(db, k, cutoff) }

  lemma CandidatesAreOld(db: Db, cutoff: Instant)
    ensures forall r :: r in RollUpCandidates(db, cutoff) <==> OldRaw(db, r, cutoff)
    ensures forall r :: r in PurgeCandidates(db, cutoff) <==> OldMarked(db, r, cutoff)
    ensures forall k :: k in ExpiryCandidates(db, cutoff) <==> OldHour(db, k, cutoff)
    ensures forall r :: r in RollUpCandidates(db, cutoff) ==>
              RollUpCandidates(db, cutoff)[r] == (db.reports[r].sample.collected, r, 0)
    ensures forall r :: r in PurgeCandidates(db, cutoff) ==>
              PurgeCandidates(db, cutoff)[r] == (db.reports[r].aggregatedAt.value, r, 0)
    ensures forall k :: k in ExpiryCandidates(db, cutoff) ==>
              ExpiryCandidates(db, cutoff)[k] == (db.hourly[k].intervalEnd, k.0, k.1)
  {
  }

  // ---- what each transaction does ----

  /**
   * At most `limit` old raw reports are marked, the first collected first; fewer only if none is
   * left. Nothing else about any report changes, and no host.
   */
  ghost predicate MarksOldest(db: Db, after: Db, taken: set<Uuid>, cutoff: Instant, now: Instant, limit: nat) {
    && after == db.(reports := after.reports, hourly := after.hourly) && after.reports.Keys == db.reports.Keys
    && |taken| <= limit
    && (forall r :: r in taken ==>
          OldRaw(db, r, cutoff) && after.reports[r] == db.reports[r].(aggregatedAt := Some(now)))
    && (forall r :: r in db.reports && r !in taken ==> after.reports[r] == db.reports[r])
    && (|taken| < limit ==> forall r :: OldRaw(db, r, cutoff) ==> r in taken)
    && (forall r, q :: r in taken && OldRaw(db, q, cutoff) && q !in taken ==>
          db.reports[r].sample.collected <= db.reports[q].sample.collected)
  }

  /** At most `limit` old marked reports are deleted, the first marked first; fewer only if none is left. */
  ghost predicate DeletesOldest(db: Db, after: Db, taken: set<Uuid>, cutoff: Instant, limit: nat) {
    && after == db.(reports := after.reports)
    && |taken| <= limit
    && (forall r :: r in taken ==> OldMarked(db, r, cutoff))
    && (forall r :: r in after.reports <==> r in db.reports && r !in taken)
    && (forall r :: r in after.reports ==> after.reports[r] == db.reports[r])
    && (|taken| < limit ==> forall r :: OldMarked(db, r, cutoff) ==> r in taken)
    && (forall r, q :: r in taken && OldMarked(db, q, cutoff) && q !in taken ==>
          db.reports[r].aggregatedAt.value <= db.reports[q].aggregatedAt.value)
  }

  /** At most `limit` old hours are deleted, the first to end first; fewer only if none is left. */
  ghost predicate ExpiresOldest(db: Db, after: Db, taken: set<BucketKey>, cutoff: Instant, limit: nat) {
    && after == db.(hourly := after.hourly)
    && |taken| <= limit
    && (forall k :: k in taken ==> OldHour(db, k, cutoff))
    && (forall k :: k in after.hourly <==> k in db.hourly && k !in taken)
    && (forall k :: k in after.hourly ==> after.hourly[k] == db.hourly[k])
    && (|taken| < limit ==> forall k :: OldHour(db, k, cutoff) ==> k in taken)
    && (forall k, j :: k in taken && OldHour(db, j, cutoff) && j !in taken ==>
          db.hourly[k].intervalEnd <= db.hourly[j].intervalEnd)
  }

  function SetOf<K(==)>(rows: seq<K>): set<K> { set r | r in rows }

  lemma TakenSize<K>(rows: seq<K>, rank: map<K, Rank>, n: nat)
    requires IsFirst(rows, rank, n)
    ensures |SetOf(rows)| == |rows| <= n
    ensures |rows| < n ==> forall r :: r in rank ==> r in rows
  {
    DistinctSize(rows);
    if |rows| < n { ShortBatchTakesAll(rows, rank, n); }
  }

  lemma ChosenAreStored(db: Db, batch: seq<Uuid>, cutoff: Instant, limit: nat)
    requires IsFirst(batch, RollUpCandidates(db, cutoff), limit)
    ensures forall r :: r in batch ==> r in db.reports
  {
  }

  lemma RollUpMarksOldest(db: Db, batch: seq<Uuid>, cutoff: Instant, now: Instant, limit: nat)
    requires IsFirst(batch, RollUpCandidates(db, cutoff), limit) && forall r :: r in batch ==> r in db.reports
    ensures MarksOldest(db, RollUp(db, batch, now), SetOf(batch), cutoff, now, limit)
    ensures |SetOf(batch)| == |batch|
  {
    hide RollUpCandidates, PurgeCandidates, ExpiryCandidates, RollUp, OldRaw, OldMarked, OldHour;
    TakenSize(batch, RollUpCandidates(db, cutoff), limit);
    CandidatesAreOld(db, cutoff);
    RollUpRows(db, batch, now);
  }

  lemma RollUpRows(db: Db, batch: seq<Uuid>, now: Instant)
    requires forall r :: r in batch ==> r in db.reports
    ensures var after := RollUp(db, batch, now);
            && after == db.(reports := after.reports, hourly := after.hourly) && after.reports.Keys == db.reports.Keys
            && forall r :: r in db.reports ==>
                 after.reports[r] == if r in batch then db.reports[r].(aggregatedAt := Some(now)) else db.reports[r]
  {
    hide Accumulate, Upsert;
  }

  lemma PurgeDeletesOldest(db: Db, rows: seq<Uuid>, cutoff: Instant, limit: nat)
    requires IsFirst(rows, PurgeCandidates(db, cutoff), limit)
    ensures DeletesOldest(db, Purge(db, rows), SetOf(rows), cutoff, limit)
    ensures |SetOf(rows)| == |rows|
  {
    TakenSize(rows, PurgeCandidates(db, cutoff), limit);
    CandidatesAreOld(db, cutoff);
    hide RollUpCandidates, PurgeCandidates, ExpiryCandidates, OldRaw, OldMarked, OldHour;
  }

  lemma ExpiryDeletesOldest(db: Db, hours: seq<BucketKey>, cutoff: Instant, limit: nat)
    requires IsFirst(hours, ExpiryCandidates(db, cutoff), limit)
    ensures ExpiresOldest(db, Expire(db, hours), SetOf(hours), cutoff, limit)
    ensures |SetOf(hours)| == |hours|
  {
    TakenSize(hours, ExpiryCandidates(db, cutoff), limit);
    CandidatesAreOld(db, cutoff);
    hide RollUpCandidates, PurgeCandidates, ExpiryCandidates, OldRaw, OldMarked, OldHour;
  }

  // ---- nothing to do ----

  /**
   * With these retention times nothing is due: every report that is no host's latest was collected
   * lately, or is marked and was received lately, and every hour ends lately.
   */
  ghost predicate NothingDue(db: Db, now: Instant, rawRetention: int, aggregateRetention: int) {
    && (forall r :: r in db.reports && (forall h :: h in db.hosts ==> db.hosts[h].latest != Some(r)) ==>
          (if db.reports[r].aggregatedAt.None? then db.reports[r].sample.collected else db.reports[r].sample.received)
            >= now - rawRetention)
    && (forall k :: k in db.hourly ==> db.hourly[k].intervalEnd >= now - aggregateRetention)
  }

  lemma QuietMeansNothingDue(db: Db, now: Instant, rawRetention: int, aggregateRetention: int)
    ensures Quiet(db, now - rawRetention, now - aggregateRetention) <==>
            NothingDue(db, now, rawRetention, aggregateRetention)
  {
    CandidatesAreOld(db, now - rawRetention);
    CandidatesAreOld(db, now - aggregateRetention);
    hide RollUpCandidates, PurgeCandidates, ExpiryCandidates;
    assert forall r :: OldRaw(db, r, now - rawRetention) || OldMarked(db, r, now - rawRetention) <==>
                       r in db.reports && Superseded(db, r) &&
                         (if db.reports[r].aggregatedAt.None? then db.reports[r].sample.collected
                          else db.reports[r].sample.received) < now - rawRetention;
    NoneIn(RollUpCandidates(db, now - rawRetention));
    NoneIn(PurgeCandidates(db, now - rawRetention));
    NoneIn(ExpiryCandidates(db, now - aggregateRetention));
  }

  lemma NoneIn<K>(m: map<K, Rank>)
    ensures m == map[] <==> forall k :: k !in m
  {
  }
}
