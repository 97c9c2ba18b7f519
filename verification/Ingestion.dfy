/** When a report is accepted and what that stores, in every state a run can reach. */
module Ingestion {
  import opened Common
  import opened Schema
  import opened Totals
  import opened Lifecycle
  import opened Reports
  import opened Ledger

  // ---- which report is the latest ----

  /** `y` is newer than `x`: by collection time, but no later than receipt, then by receipt, then by identifier. */
  predicate Newer(y: Sample, x: Sample) {
    var cy := if y.collected <= y.received then y.collected else y.received;
    var cx := if x.collected <= x.received then x.collected else x.received;
    cx < cy || (cx == cy && (x.received < y.received || (x.received == y.received && x.id < y.id)))
  }

  /** Honest clocks are ordered by collection; a clock that runs ahead cannot keep later reports from being newer. */
  lemma NewerIsFair(x: Sample, y: Sample)
    ensures x.collected <= x.received && y.collected <= y.received && x.collected < y.collected ==> Newer(y, x)
    ensures x.received < y.received && y.collected >= y.received ==> Newer(y, x)
    ensures x.id != y.id ==> Newer(x, y) || Newer(y, x)
    ensures !(Newer(x, y) && Newer(y, x))
  {
  }

  lemma NewerIsPrecedes(y: Sample, x: Sample)
    ensures Newer(y, x) <==> Precedes(LatestKey(x), LatestKey(y))
  {
  }

  /** Newer than everything accepted from its host since the host was last activated. */
  ghost predicate Newest(s: System, x: Sample)
    requires x.host in s.since
  {
    forall i :: s.since[x.host] <= i < |s.log| && s.log[i].host == x.host ==> Newer(x, s.log[i])
  }

  lemma NewestBecomesLatest(s: System, x: Sample)
    requires Rows(s) && Latest(s) && x.host in s.db.hosts
    ensures x.host in s.since
    ensures BecomesLatest(s.db, x) <==> Newest(s, x)
  {
    hide LatestKey, Precedes, Newer, PayloadsHeld;
    var h := x.host;
    assert LatestFor(s.db.hosts[h], h, s.db.reports, s.log, s.at, s.since[h]);
    BecomesLatestExactly(s.db, h, x, s.log, s.at, s.since[h]);
    if s.db.hosts[h].latest.Some? {
      var r := s.db.reports[s.db.hosts[h].latest.value].sample;
      NewerIsPrecedes(x, r);
      assert s.log[s.at[r.id]] == r;
      if Newer(x, r) {
        forall i | s.since[h] <= i < |s.log| && s.log[i].host == h ensures Newer(x, s.log[i]) {
          NewerAfterAll(s.log[i], r, x);
        }
      }
    }
  }

  lemma NewerAfterAll(a: Sample, r: Sample, x: Sample)
    requires !Precedes(LatestKey(r), LatestKey(a)) && Newer(x, r)
    ensures Newer(x, a)
  {
  }

  // ---- admission ----

  /** The payload a host keeps: that of its latest report. */
  function Held(db: Db, h: Uuid): nat
    requires h in db.hosts
  {
    match db.hosts[h].latest
    case None => 0
    case Some(r) => if r in db.reports && db.reports[r].payload.Some? then db.reports[r].payload.value else 0
  }

  lemma {:induction false} OnlyOneCounts(m: map<Uuid, nat>, r: Uuid)
    requires forall q :: q in m && q != r ==> m[q] == 0
    ensures TotalNat(m) == if r in m then m[r] else 0
    decreases |m|
  {
    if m != map[] {
      var q :| q in m;
      TotalNatStep(m, q);
      OnlyOneCounts(m - {q}, r);
    }
  }

  /** What the SUM over all rows of a host adds up to. */
  lemma RetainedIsHeld(s: System, h: Uuid)
    requires Rows(s) && Latest(s) && h in s.db.hosts
    ensures Retained(s.db.reports, h) == Held(s.db, h)
  {
    var sizes := PayloadSizes(s.db.reports, h);
    assert LatestFor(s.db.hosts[h], h, s.db.reports, s.log, s.at, s.since[h]);
    OnlyOneCounts(sizes, if s.db.hosts[h].latest.Some? then s.db.hosts[h].latest.value else 0);
    if s.db.hosts[h].latest.None? && 0 in sizes { assert s.db.reports[0].payload.None?; }
  }

  /** Room for one more report of a host: rows, all rows, bytes of rows and payloads twice over, and storage. */
  predicate Room(db: Db, h: Uuid, payload: nat, storageOk: bool)
    requires h in db.hosts
  {
    var rows := |set r | r in db.reports && db.reports[r].sample.host == h|;
    && rows < 100_000 && |db.reports| < 1_000_000
    && (rows + 1) * 4096 + 2 * (Held(db, h) + payload) <= 1_073_741_824
    && storageOk
  }

  lemma AdmitsExactly(s: System, w: Write, payload: nat)
    requires Rows(s) && Latest(s) && w.sample.host in s.db.hosts && w.sample.id !in s.db.reports
    ensures Admitted(s.db.reports, w, payload) <==> Room(s.db, w.sample.host, payload, w.storageOk)
  {
    hide Rows, Latest, Held, Charge, Retained;
    var h := w.sample.host;
    RetainedIsHeld(s, h);
    assert RowsOf(s.db.reports, h) == set r | r in s.db.reports && s.db.reports[r].sample.host == h;
    ChargeIsExact(|RowsOf(s.db.reports, h)|, Retained(s.db.reports, h), payload);
  }

  /** The size of the payload that would be kept: only the newest report keeps one. */
  ghost function Keeps(s: System, w: Write): nat
    requires w.sample.host in s.since
  {
    if Newest(s, w.sample) then w.size else 0
  }

  /**
   * Each answer to a report by what was there before. A new report with a valid token is accepted
   * exactly when there is room for it; a delayed one as well as the newest.
   */
  lemma AcceptsExactly(s: System, w: Write)
    requires Inv(s)
    ensures var (after, outcome) := StoreReport(s.db, w);
            var x := w.sample;
            var valid := Resolves(s.db, w.token, x.host);
            && (valid ==> x.host in s.db.hosts && x.host in s.since)
            && (outcome == Unauthorized <==> !valid)
            && (outcome == ReportIdConflict <==>
                  valid && x.id in s.db.reports && s.db.reports[x.id].sample.host != x.host)
            && (outcome.Stored? && !outcome.accepted <==>
                  valid && x.id in s.db.reports && s.db.reports[x.id].sample.host == x.host)
            && (outcome.Stored? && !outcome.accepted ==> outcome.received == s.db.reports[x.id].sample.received)
            && (outcome == ReportsExhausted <==>
                  valid && x.id !in s.db.reports && !Room(s.db, x.host, Keeps(s, w), w.storageOk))
            && (outcome == StatementFailed <==>
                  valid && x.id !in s.db.reports && Room(s.db, x.host, Keeps(s, w), w.storageOk) && w.broken)
            && (outcome == Stored(true, x.received) <==>
                  valid && x.id !in s.db.reports && Room(s.db, x.host, Keeps(s, w), w.storageOk) && !w.broken)
            && (outcome.Stored? && outcome.accepted ==> outcome.received == x.received)
            && (outcome != Stored(true, x.received) ==> after == s.db)
  {
    hide LifecycleInv, ReportBounds, Rows, Hours, Latest, Room, BecomesLatest, Newest, LiveToken, StoreNew;
    if Resolves(s.db, w.token, w.sample.host) {
      NewestBecomesLatest(s, w.sample);
      if w.sample.id !in s.db.reports { AdmitsExactly(s, w, Keeps(s, w)); }
    }
    hide Admitted;
  }

  /** Everything an accepted report changes. */
  ghost predicate Accepts(s: System, after: Db, w: Write)
    requires w.sample.host in s.db.hosts && w.sample.host in s.since
  {
    var db, x, h := s.db, w.sample, w.sample.host;
    && after.invites == db.invites && after.pairings == db.pairings && after.hourly == db.hourly
    && (forall r :: r in after.reports <==> r in db.reports || r == x.id)
    && after.reports[x.id] == ReportRow(x, if Newest(s, x) then Some(w.size) else None, None)
    && (forall r :: r in db.reports ==>
          if Newest(s, x) && db.hosts[h].latest == Some(r) then after.reports[r] == db.reports[r].(payload := None)
          else after.reports[r] == db.reports[r])
    && (forall g :: g in after.hosts <==> g in db.hosts)
    && (forall g :: g in db.hosts && g != h ==> after.hosts[g] == db.hosts[g])
    && after.hosts[h] == HostRow(
      db.hosts[h].active, db.hosts[h].revokedAt,
      if Newest(s, x) then Some(x.id) else db.hosts[h].latest,
      if Newest(s, x) then Some(x.collected) else db.hosts[h].latestCollected,
      if db.hosts[h].lastSeen > x.received then db.hosts[h].lastSeen else x.received)
    && (forall c :: c in after.credentials <==> c in db.credentials)
    && (forall c :: c in db.credentials ==>
          after.credentials[c] == if db.credentials[c].token == w.token
                                  then db.credentials[c].(lastUsed := Some(x.received)) else db.credentials[c])
  }

  lemma AcceptanceStores(s: System, w: Write)
    requires Inv(s) && StoreReport(s.db, w).1 == Stored(true, w.sample.received)
    ensures w.sample.host in s.db.hosts && w.sample.host in s.since && Accepts(s, StoreReport(s.db, w).0, w)
  {
    hide *;
    AcceptedIsStoreNew(s, w);
    StoreNewWrites(s, w);
  }

  lemma AcceptedIsStoreNew(s: System, w: Write)
    requires Inv(s) && StoreReport(s.db, w).1 == Stored(true, w.sample.received)
    ensures StoreReport(s.db, w).0 == StoreNew(s.db, w) && w.sample.id !in s.db.reports
    ensures w.sample.host in s.db.hosts && w.sample.host in s.since && Rows(s) && Latest(s)
  {
    hide LifecycleInv, ReportBounds, Rows, Hours, Latest, Room, BecomesLatest, Newest, LiveToken, StoreNew;
    AcceptsExactly(s, w);
  }

  lemma StoreNewWrites(s: System, w: Write)
    requires Rows(s) && Latest(s) && w.sample.host in s.db.hosts && w.sample.id !in s.db.reports
    requires w.sample.host in s.since
    ensures Accepts(s, StoreNew(s.db, w), w)
  {
    hide Rows, Latest, BecomesLatest, Newest;
    NewestBecomesLatest(s, w.sample);
    if s.db.hosts[w.sample.host].latest.Some? { LatestIsStored(s, w.sample.host); }
  }

  lemma LatestIsStored(s: System, h: Uuid)
    requires Rows(s) && Latest(s) && h in s.db.hosts && s.db.hosts[h].latest.Some?
    ensures s.db.hosts[h].latest.value in s.db.reports
  {
    assert LatestFor(s.db.hosts[h], h, s.db.reports, s.log, s.at, s.since[h]);
  }

  // ---- batches ----

  /** The answer to one report of a batch, and what it leaves. */
  ghost predicate AnsweredAt(db: Db, writes: seq<Write>, i: nat)
    requires i < |writes|
  {
    var before := StoreBatch(db, writes[..i]).0;
    && i < |StoreBatch(db, writes).1|
    && StoreBatch(db, writes).1[i] == StoreReport(before, writes[i]).1
    && StoreBatch(db, writes[..i + 1]).0 == StoreReport(before, writes[i]).0
  }

  /** Every report of a batch is answered on its own, on the tables the reports before it left. */
  lemma {:induction false} BatchAnswersEach(db: Db, writes: seq<Write>, i: nat)
    requires i < |writes|
    ensures |StoreBatch(db, writes).1| == |writes| && AnsweredAt(db, writes, i)
    decreases |writes|
  {
    hide StoreReport;
    var n := |writes| - 1;
    assert writes[..n + 1] == writes;
    BatchLength(db, writes[..n]);
    if i < n {
      BatchAnswersEach(db, writes[..n], i);
      assert writes[..n][..i] == writes[..i] && writes[..n][..i + 1] == writes[..i + 1];
    }
  }

  lemma {:induction false} BatchLength(db: Db, writes: seq<Write>)
    ensures |StoreBatch(db, writes).1| == |writes|
    decreases |writes|
  {
    hide StoreReport;
    if writes != [] { BatchLength(db, writes[..|writes| - 1]); }
  }

  /** The reports of a batch that were stored. */
  ghost function Successful(db: Db, writes: seq<Write>): seq<Write> {
    if writes == [] then []
    else
      var init, last := writes[..|writes| - 1], writes[|writes| - 1];
      Successful(db, init) + (if StoreReport(StoreBatch(db, init).0, last).1.Stored? then [last] else [])
  }

  /** A report that fails leaves no trace: the batch without the failed ones does the same. */
  lemma {:induction false} FailuresLeaveNoTrace(db: Db, writes: seq<Write>)
    ensures StoreBatch(db, Successful(db, writes)).0 == StoreBatch(db, writes).0
    decreases |writes|
  {
    hide StoreReport;
    if writes != [] {
      var init, last := writes[..|writes| - 1], writes[|writes| - 1];
      FailuresLeaveNoTrace(db, init);
      var kept := Successful(db, init);
      assert (kept + [last])[..|kept + [last]| - 1] == kept;
      OnlyStoredChanges(StoreBatch(db, init).0, last);
      assert kept + [] == kept;
    }
  }

  lemma OnlyStoredChanges(db: Db, w: Write)
    ensures !StoreReport(db, w).1.Stored? ==> StoreReport(db, w).0 == db
  {
  }
}
