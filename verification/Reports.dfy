/** Report ingestion: admission, insertion, the latest pointer, and savepoint batches. */
module Reports {
  import opened Common
  import opened Schema
  import opened Totals
  import opened Lifecycle

  const HOST_REPORTS: nat := 100_000
  const TOTAL_REPORTS: nat := 1_000_000
  const HOST_BYTES: nat := 1024 * 1024 * 1024
  const ROW_BYTES: nat := 4096
  const U64_MAX: nat := 0xFFFF_FFFF_FFFF_FFFF

  /**
   * One report as the writer hands it over: `size` is the length of its full JSON.
   * `storageOk` is the verdict of the file-size check and `broken` says that a statement after the
   * insert fails, as on a corrupt row; both come from the environment.
   */
  datatype Write = Write(sample: Sample, token: Digest, size: nat, storageOk: bool, broken: bool)

  datatype ReportOutcome =
    | Stored(accepted: bool, received: Instant)
    | Unauthorized | ReportIdConflict | ReportsExhausted | StatementFailed

  // ---- admission ----

  function RowsOf(reports: map<Uuid, ReportRow>, host: Uuid): set<Uuid> {
    set r | r in reports && reports[r].sample.host == host
  }

  function PayloadSizes(reports: map<Uuid, ReportRow>, host: Uuid): map<Uuid, nat> {
    map r | r in reports && reports[r].sample.host == host ::
      if reports[r].payload.Some? then reports[r].payload.value else 0
  }

  function SaturatingAdd(a: nat, b: nat): nat { Least(a + b, U64_MAX) }
  function SaturatingMul(a: nat, b: nat): nat { Least(a * b, U64_MAX) }

  /** The bytes a host would be charged for, in saturating 64-bit arithmetic. */
  function Charge(rows: nat, retained: nat, payload: nat): nat {
    SaturatingAdd(SaturatingMul(SaturatingAdd(rows, 1), ROW_BYTES), SaturatingMul(SaturatingAdd(retained, payload), 2))
  }

  /** Saturation never lets an overrun through. */
  lemma ChargeIsExact(rows: nat, retained: nat, payload: nat)
    ensures Charge(rows, retained, payload) <= HOST_BYTES <==>
            (rows + 1) * ROW_BYTES + 2 * (retained + payload) <= HOST_BYTES
  {
  }

  ghost function Retained(reports: map<Uuid, ReportRow>, host: Uuid): nat {
    TotalNat(PayloadSizes(reports, host))
  }

  ghost predicate Admitted(reports: map<Uuid, ReportRow>, w: Write, payload: nat) {
    var rows := |RowsOf(reports, w.sample.host)|;
    || w.sample.id in reports
    || (rows < HOST_REPORTS && |reports| < TOTAL_REPORTS
        && Charge(rows, Retained(reports, w.sample.host), payload) <= HOST_BYTES && w.storageOk)
  }

  // ---- ordering ----

  /** The server-capped ordering key of a report: (min(collected, received), received, id). */
  function LatestKey(s: Sample): Rank {
    (if s.collected < s.received then s.collected else s.received, s.received, s.id)
  }

  predicate BecomesLatest(db: Db, s: Sample)
    requires s.host in db.hosts
  {
    var host := db.hosts[s.host];
    if host.latest.Some? && host.latestCollected.Some? && host.latest.value in db.reports then
      var received := db.reports[host.latest.value].sample.received;
      var collected := host.latestCollected.value;
      Precedes((if collected < received then collected else received, received, host.latest.value), LatestKey(s))
    else true
  }

  function Later(a: Instant, b: Instant): Instant { if a > b then a else b }

  /** The writes of an accepted report. */
  function StoreNew(db: Db, w: Write): Db
    requires w.sample.host in db.hosts
  {
    var s, host := w.sample, db.hosts[w.sample.host];
    var becomes := BecomesLatest(db, s);
    var row := ReportRow(s, if becomes then Some(w.size) else None, None);
    var inserted := db.reports[s.id := row];
    var seen := host.(lastSeen := Later(host.lastSeen, s.received));
    db.(
      reports := if becomes && host.latest != Some(s.id) then ClearPayload(inserted, host.latest) else inserted,
      hosts := db.hosts[s.host := if becomes
                                    then seen.(latest := Some(s.id), latestCollected := Some(s.collected)) else seen],
      credentials := map c | c in db.credentials ::
        if db.credentials[c].token == w.token
          then db.credentials[c].(lastUsed := Some(s.received)) else db.credentials[c])
  }

  ghost function StoreReport(db: Db, w: Write): (Db, ReportOutcome) {
    var s := w.sample;
    if !Resolves(db, w.token, s.host) then (db, Unauthorized)
    else if !Admitted(db.reports, w, if BecomesLatest(db, s) then w.size else 0) then (db, ReportsExhausted)
    else if s.id in db.reports then
      var stored := db.reports[s.id].sample;
      (db, if stored.host == s.host then Stored(false, stored.received) else ReportIdConflict)
    else if w.broken then (db, StatementFailed)
    else (StoreNew(db, w), Stored(true, s.received))
  }

  /** A writer batch: the reports one after another, where a failed one leaves no trace. */
  ghost function StoreBatch(db: Db, writes: seq<Write>): (Db, seq<ReportOutcome>) {
    if writes == [] then (db, [])
    else
      var (before, outcomes) := StoreBatch(db, writes[..|writes| - 1]);
      var (after, outcome) := StoreReport(before, writes[|writes| - 1]);
      (after, outcomes + [outcome])
  }

  // ---- resource bounds ----

  ghost predicate HostWithinBudget(reports: map<Uuid, ReportRow>, host: Uuid) {
    && |RowsOf(reports, host)| <= HOST_REPORTS
    && |RowsOf(reports, host)| * ROW_BYTES + 2 * Retained(reports, host) <= HOST_BYTES
  }

  ghost predicate ReportBounds(reports: map<Uuid, ReportRow>) {
    |reports.Keys| <= TOTAL_REPORTS && forall host :: HostWithinBudget(reports, host)
  }

  /** Rows may only go, and payloads may only be released. */
  ghost predicate Shrinks(reports: map<Uuid, ReportRow>, after: map<Uuid, ReportRow>) {
    forall r :: r in after ==>
      r in reports && after[r].sample == reports[r].sample
          && (after[r].payload == reports[r].payload || after[r].payload.None?)
  }

  lemma ShrinkingHost(reports: map<Uuid, ReportRow>, after: map<Uuid, ReportRow>, host: Uuid)
    requires Shrinks(reports, after)
    ensures |RowsOf(after, host)| <= |RowsOf(reports, host)|
    ensures Retained(after, host) <= Retained(reports, host)
  {
    SubsetSize(RowsOf(after, host), RowsOf(reports, host));
    TotalNatShrinks(PayloadSizes(after, host), PayloadSizes(reports, host));
  }

  lemma ShrinkingKeepsBounds(reports: map<Uuid, ReportRow>, after: map<Uuid, ReportRow>)
    requires ReportBounds(reports) && Shrinks(reports, after)
    ensures ReportBounds(after)
  {
    SubsetSize(after.Keys, reports.Keys);
    forall host ensures HostWithinBudget(after, host) {
      assert HostWithinBudget(reports, host);
      ShrinkingHost(reports, after, host);
    }
  }

  /** Inserting one row with `payload` bytes charges its own host and no other. */
  lemma InsertCharges(reports: map<Uuid, ReportRow>, row: ReportRow, host: Uuid)
    requires row.sample.id !in reports
    ensures var after := reports[row.sample.id := row];
            var own := row.sample.host == host;
            && |RowsOf(after, host)| == |RowsOf(reports, host)| + (if own then 1 else 0)
            && Retained(after, host) ==
                Retained(reports, host) + (if own && row.payload.Some? then row.payload.value else 0)
  {
    var after := reports[row.sample.id := row];
    if row.sample.host == host {
      assert RowsOf(after, host) == RowsOf(reports, host) + {row.sample.id};
      TotalNatStep(PayloadSizes(after, host), row.sample.id);
      assert PayloadSizes(after, host) - {row.sample.id} == PayloadSizes(reports, host);
    } else {
      assert RowsOf(after, host) == RowsOf(reports, host);
      assert PayloadSizes(after, host) == PayloadSizes(reports, host);
    }
  }

  lemma InsertKeepsBounds(reports: map<Uuid, ReportRow>, row: ReportRow, payload: nat)
    requires ReportBounds(reports) && row.sample.id !in reports
    requires payload == if row.payload.Some? then row.payload.value else 0
    requires |RowsOf(reports, row.sample.host)| < HOST_REPORTS && |reports| < TOTAL_REPORTS
    requires Charge(|RowsOf(reports, row.sample.host)|, Retained(reports, row.sample.host), payload) <= HOST_BYTES
    ensures ReportBounds(reports[row.sample.id := row])
  {
    var after := reports[row.sample.id := row];
    ChargeIsExact(|RowsOf(reports, row.sample.host)|, Retained(reports, row.sample.host), payload);
    assert after.Keys == reports.Keys + {row.sample.id};
    forall host ensures HostWithinBudget(after, host) {
      assert HostWithinBudget(reports, host);
      InsertCharges(reports, row, host);
    }
  }

  /** Ingestion never takes a host or the database over its budget, even while the latest payload is swapped. */
  lemma StoreReportKeepsBounds(db: Db, w: Write)
    requires ReportBounds(db.reports)
    ensures ReportBounds(StoreReport(db, w).0.reports)
  {
    var (after, outcome) := StoreReport(db, w);
    if outcome.Stored? && outcome.accepted {
      var becomes := BecomesLatest(db, w.sample);
      var row := ReportRow(w.sample, if becomes then Some(w.size) else None, None);
      InsertKeepsBounds(db.reports, row, if becomes then w.size else 0);
      ShrinkingKeepsBounds(db.reports[w.sample.id := row], after.reports);
    }
  }

  // ---- idempotence ----

  /** Resubmitting a stored id changes nothing: its own host gets the first receipt back, any other a conflict. */
  lemma ResubmissionIsIdempotent(db: Db, w: Write)
    requires w.sample.id in db.reports && Resolves(db, w.token, w.sample.host)
    ensures StoreReport(db, w).0 == db
    ensures StoreReport(db, w).1 ==
            if db.reports[w.sample.id].sample.host == w.sample.host
            then Stored(false, db.reports[w.sample.id].sample.received) else ReportIdConflict
  {
  }
}
