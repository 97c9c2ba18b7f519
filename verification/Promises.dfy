/** What the invariants promise over whole histories. */
module Promises {
  import opened Common
  import opened Schema
  import opened Aggregates
  import opened Lifecycle
  import opened Reports
  import opened Retention
  import opened Ledger

  // ---- conservation ----

  /** Acceptances of one host and hour that count at a given place. */
  ghost function PlacedAt(s: System, k: BucketKey, p: Place): set<nat>
    requires |s.place| == |s.log|
  {
    set i | 0 <= i < |s.log| && s.place[i] == p && KeyOf(s.log[i]) == k
  }

  ghost function AcceptedIn(s: System, k: BucketKey): set<nat> {
    set i | 0 <= i < |s.log| && KeyOf(s.log[i]) == k
  }

  function UnmarkedRows(db: Db, k: BucketKey): set<Uuid> {
    set r | r in db.reports && db.reports[r].aggregatedAt.None? && KeyOf(db.reports[r].sample) == k
  }

  function LiveSamples(db: Db, k: BucketKey): nat {
    if k in db.hourly then db.hourly[k].sampleCount else 0
  }

  lemma {:induction false} SameSize(rows: set<Uuid>, at: map<Uuid, nat>, indices: set<nat>)
    requires rows <= at.Keys
    requires forall r :: r in rows ==> at[r] in indices
    requires forall r, q :: r in rows && q in rows && r != q ==> at[r] != at[q]
    requires forall i :: i in indices ==> exists r :: r in rows && at[r] == i
    ensures |rows| == |indices|
    decreases |rows|
  {
    if rows == {} {
      assert forall i :: i !in indices;
      assert indices == {};
    } else {
      var r :| r in rows;
      forall i | i in indices - {at[r]} ensures exists q :: q in rows - {r} && at[q] == i {
        var q :| q in rows && at[q] == i;
        assert q in rows - {r};
      }
      SameSize(rows - {r}, at, indices - {at[r]});
    }
  }

  lemma RawIsUnmarked(s: System, k: BucketKey)
    requires Rows(s)
    ensures |PlacedAt(s, k, Raw)| == |UnmarkedRows(s.db, k)|
  {
    var rows, indices := UnmarkedRows(s.db, k), PlacedAt(s, k, Raw);
    forall i | i in indices ensures exists r :: r in rows && s.at[r] == i {
      assert s.log[i].id in rows;
    }
    SameSize(rows, s.at, indices);
  }

  lemma RolledIsCounted(s: System, k: BucketKey)
    requires Hours(s)
    ensures |PlacedAt(s, k, Rolled)| == LiveSamples(s.db, k)
  {
    var own := RolledInto(s.log, s.place, k);
    assert own.Keys == PlacedAt(s, k, Rolled);
    if k in s.db.hourly {
      assert Represents(s.db.hourly[k], own);
    } else {
      NothingRolled(s, k);
    }
  }

  lemma PlacesPartition(s: System, k: BucketKey)
    requires |s.place| == |s.log|
    ensures |AcceptedIn(s, k)| ==
            |PlacedAt(s, k, Raw)| + |PlacedAt(s, k, Rolled)| + |PlacedAt(s, k, Lapsed)| + |PlacedAt(s, k, Erased)|
  {
    var counted := PlacedAt(s, k, Raw) + PlacedAt(s, k, Rolled);
    var gone := PlacedAt(s, k, Lapsed) + PlacedAt(s, k, Erased);
    assert counted !! gone;
    assert AcceptedIn(s, k) == counted + gone;
    assert |counted| == |PlacedAt(s, k, Raw)| + |PlacedAt(s, k, Rolled)|;
    assert |gone| == |PlacedAt(s, k, Lapsed)| + |PlacedAt(s, k, Erased)|;
  }

  /**
   * Exactly once: in every reachable state, for each host and hour, the reports ever accepted are
   * the unmarked rows plus the live bucket's sample count plus those expired or erased with their
   * bucket or host.
   */
  lemma Conservation(s: System, k: BucketKey)
    requires Inv(s)
    ensures |AcceptedIn(s, k)| ==
            |UnmarkedRows(s.db, k)| + LiveSamples(s.db, k) + |PlacedAt(s, k, Lapsed)| + |PlacedAt(s, k, Erased)|
  {
    PlacesPartition(s, k);
    RawIsUnmarked(s, k);
    RolledIsCounted(s, k);
  }

  // ---- nothing is counted twice ----

  predicate MayMove(a: Place, b: Place) {
    a == b || (a == Raw && b == Rolled) || (a == Rolled && b == Lapsed) || b == Erased
  }

  /** Acceptances are never forgotten or reordered, and a sample only moves on: a marked one is never raw again. */
  ghost predicate MovesOn(s: System, t: System) {
    && |s.place| == |s.log| && |t.place| == |t.log| && s.log <= t.log
    && forall i :: 0 <= i < |s.log| ==>
         MayMove(s.place[i], t.place[i]) && (s.place[i] == Erased ==> t.place[i] == Erased)
  }

  lemma EveryStepMovesOn(s: System, e: Event)
    requires |s.place| == |s.log| && Enabled(s, e)
    ensures MovesOn(s, Next(s, e))
  {
    match e
    case CancelEvent(inviteId) =>
      if CancelInvite(s.db, inviteId).1 == Deleted { EraseMovesOn(s, s.db.invites[inviteId].instance); }
    case DeleteInviteEvent(inviteId) =>
      if inviteId in s.db.invites { EraseMovesOn(s, s.db.invites[inviteId].instance); }
    case DeleteHostEvent(host) => if host in s.db.hosts { EraseMovesOn(s, host); }
    case RollUpEvent(_, now, _, batch) => RollUpMovesOn(s, batch, now);
    case ExpireEvent(_, _, hours) => ExpireMovesOn(s, hours);
    case _ =>
  }

  lemma EraseMovesOn(s: System, host: Uuid)
    requires |s.place| == |s.log|
    ensures MovesOn(s, Erase(s, host))
  {
  }

  lemma RollUpMovesOn(s: System, batch: seq<Uuid>, now: Instant)
    requires |s.place| == |s.log| && forall r :: r in batch ==> r in s.db.reports
    ensures MovesOn(s, RollUpStep(s, batch, now))
  {
  }

  lemma ExpireMovesOn(s: System, hours: seq<BucketKey>)
    requires |s.place| == |s.log|
    ensures MovesOn(s, ExpireStep(s, hours))
  {
  }

  /**
   * Over any stretch of any run: what was accepted stays in the log, a sample once rolled up is
   * never counted as a raw row again, and one that expired or was erased is never counted at all.
   */
  lemma {:induction false} NeverCountedAgain(run: seq<System>, events: seq<Event>, n: nat, m: nat, i: nat)
    requires IsRun(run, events) && n <= m < |run| && i < |run[n].log|
    ensures |run[n].place| == |run[n].log| && |run[m].place| == |run[m].log|
    ensures i < |run[m].log| && run[m].log[i] == run[n].log[i]
    ensures run[n].place[i] != Raw ==> run[m].place[i] != Raw
    ensures run[n].place[i] == Lapsed || run[n].place[i] == Erased ==>
            run[m].place[i] == Lapsed || run[m].place[i] == Erased
    decreases m - n
  {
    hide Inv, Next, Enabled;
    LogsAlign(run, events, n);
    if n < m {
      NeverCountedAgain(run, events, n, m - 1, i);
      assert StepAt(run, events, m - 1);
      EveryStepMovesOn(run[m - 1], events[m - 1]);
    }
  }

  lemma LogsAlign(run: seq<System>, events: seq<Event>, n: nat)
    requires IsRun(run, events) && n < |run|
    ensures |run[n].place| == |run[n].log|
  {
    hide Next, Enabled, LifecycleInv, ReportBounds, Hours, Latest, RowsKeyed;
    EveryRunIsSafe(run, events, n);
  }

  // ---- what retention may touch ----

  /** No retention step marks, changes or deletes the latest report of any host. */
  lemma RetentionSparesLatest(s: System, e: Event, h: Uuid)
    requires |s.place| == |s.log| && Latest(s) && Enabled(s, e) && (e.RollUpEvent? || e.PurgeEvent? || e.ExpireEvent?)
    requires h in s.db.hosts && s.db.hosts[h].latest.Some?
    ensures var r := s.db.hosts[h].latest.value;
            var after := Next(s, e).db;
            && after.hosts == s.db.hosts
            && r in s.db.reports && r in after.reports && after.reports[r] == s.db.reports[r]
                && after.reports[r].aggregatedAt.None?
  {
    hide NoneLater, Accumulate, Upsert, PayloadsHeld, Precedes;
    assert LatestFor(s.db.hosts[h], h, s.db.reports, s.log, s.at, s.since[h]);
    var r := s.db.hosts[h].latest.value;
    assert IsLatest(s.db.hosts, r);
    match e
    case RollUpEvent(cutoff, now, limit, batch) => assert r !in RollUpCandidates(s.db, cutoff);
    case PurgeEvent(cutoff, limit, rows) => assert r !in PurgeCandidates(s.db, cutoff);
    case ExpireEvent(_, _, _) =>
  }

  /** An hour expires only when every sample counted in it is older than the cutoff. */
  lemma ExpiryIsSound(s: System, cutoff: Instant, limit: nat, hours: seq<BucketKey>, i: nat)
    requires Hours(s) && Enabled(s, ExpireEvent(cutoff, limit, hours)) && i < |s.log|
    requires s.place[i] == Rolled && ExpireStep(s, hours).place[i] != Rolled
    ensures s.log[i].collected < cutoff
  {
    ChosenAreCandidates(hours, ExpiryCandidates(s.db, cutoff), limit, KeyOf(s.log[i]));
    SampleBeforeEnd(s, i);
  }

  lemma ChosenAreCandidates(rows: seq<BucketKey>, rank: map<BucketKey, Rank>, n: nat, k: BucketKey)
    requires IsFirst(rows, rank, n) && k in rows
    ensures k in rank
  {
  }

  lemma SampleBeforeEnd(s: System, i: nat)
    requires Hours(s) && i < |s.log| && s.place[i] == Rolled
    ensures KeyOf(s.log[i]) in s.db.hourly && s.log[i].collected <= s.db.hourly[KeyOf(s.log[i])].intervalEnd
  {
    hide Describes, ValuesOf;
    assert Represents(s.db.hourly[KeyOf(s.log[i])], RolledInto(s.log, s.place, KeyOf(s.log[i])));
    assert i in RolledInto(s.log, s.place, KeyOf(s.log[i]));
  }

  /**
   * The latest report of a host is the greatest by (capped collection time, receipt, id) of all it
   * sent since its activation; its row is there, unmarked, and holds the host's only payload.
   */
  lemma LatestReportIsGreatest(s: System, h: Uuid, i: nat)
    requires Inv(s) && h in s.db.hosts && s.since[h] <= i < |s.log| && s.log[i].host == h
    ensures s.db.hosts[h].latest.Some? && s.db.hosts[h].latest.value in s.db.reports
    ensures var row := s.db.reports[s.db.hosts[h].latest.value];
            row.sample.host == h && row.aggregatedAt.None? && row.payload.Some?
            && !Precedes(LatestKey(row.sample), LatestKey(s.log[i]))
    ensures forall r :: r in s.db.reports && s.db.reports[r].sample.host == h && s.db.reports[r].payload.Some? ==>
              s.db.hosts[h].latest == Some(r)
  {
    hide LifecycleInv, ReportBounds, Hours, RowsPlaced;
    assert LatestFor(s.db.hosts[h], h, s.db.reports, s.log, s.at, s.since[h]);
  }

  // ---- how long a retry is recognised ----

  ghost predicate StoredAs(s: System, x: Sample) {
    x.id in s.db.reports && s.db.reports[x.id].sample == x
  }

  /** A stored report leaves only with its host, or by a purge whose cutoff is later than its receipt. */
  lemma StoredStays(s: System, e: Event, x: Sample)
    requires |s.place| == |s.log| && Enabled(s, e) && StoredAs(s, x) && x.host in Next(s, e).db.hosts
    requires e.PurgeEvent? ==> e.cutoff <= x.received
    ensures StoredAs(Next(s, e), x)
  {
    match e
    case CancelEvent(inviteId) =>
      if CancelInvite(s.db, inviteId).1 == Deleted { KeptByErase(s, s.db.invites[inviteId].instance, x); }
    case DeleteInviteEvent(inviteId) =>
      if inviteId in s.db.invites { KeptByErase(s, s.db.invites[inviteId].instance, x); }
    case DeleteHostEvent(host) => if host in s.db.hosts { KeptByErase(s, host, x); }
    case ActivateEvent(p, code, c, now) => KeptByActivation(s.db, p, code, c, now, x);
    case CreatePairingEvent(request, requestId, now, createdAt, gone, storageOk) =>
      CreatePairingSameReports(s.db, request, requestId, now, createdAt, gone, storageOk);
    case PurgeEvent(cutoff, limit, rows) => assert x.id !in PurgeCandidates(s.db, cutoff);
    case ReportEvent(w) => KeptByIngest(s.db, w, x);
    case _ =>
  }

  lemma KeptByErase(s: System, host: Uuid, x: Sample)
    requires |s.place| == |s.log| && StoredAs(s, x) && x.host in Erase(s, host).db.hosts
    ensures StoredAs(Erase(s, host), x)
  {
  }

  lemma KeptByActivation(db: Db, p: Uuid, code: Digest, c: Uuid, now: Instant, x: Sample)
    requires x.id in db.reports && db.reports[x.id].sample == x
    ensures x.id in Activate(db, p, code, c, now).0.reports && Activate(db, p, code, c, now).0.reports[x.id].sample == x
  {
  }

  lemma KeptByIngest(db: Db, w: Write, x: Sample)
    requires x.id in db.reports && db.reports[x.id].sample == x
    ensures x.id in StoreReport(db, w).0.reports && StoreReport(db, w).0.reports[x.id].sample == x
  {
    if w.sample.id !in db.reports { assert w.sample.id != x.id; }
  }

  /** The step neither deletes the host of `x` nor purges rows received as late as `x`. */
  ghost predicate Spares(e: Event, t: System, x: Sample) {
    x.host in t.db.hosts && (e.PurgeEvent? ==> e.cutoff <= x.received)
  }

  lemma SparedStepKeeps(s: System, e: Event, t: System, x: Sample)
    requires IsStep(s, e, t) && StoredAs(s, x) && Spares(e, t, x)
    ensures StoredAs(t, x)
  {
    StoredStays(s, e, x);
  }

  lemma {:induction false} StaysStored(run: seq<System>, events: seq<Event>, n: nat, m: nat, x: Sample)
    requires IsRun(run, events) && n <= m < |run| && StoredAs(run[n], x)
    requires forall j :: n <= j < m ==> Spares(events[j], run[j + 1], x)
    ensures StoredAs(run[m], x)
    decreases m - n
  {
    if n < m {
      var j := m - 1;
      StaysStored(run, events, n, j, x);
      assert StepAt(run, events, j) && Spares(events[j], run[j + 1], x);
      SparedStepKeeps(run[j], events[j], run[j + 1], x);
    }
  }

  /**
   * De-duplication horizon: once a report is stored, then in any run in which its host is never
   * deleted and every purge cutoff is at most its receipt time, it stays stored, so a retry by the
   * host returns the first receipt and changes nothing.
   */
  lemma RetryIsRecognised(run: seq<System>, events: seq<Event>, n: nat, m: nat, x: Sample, w: Write)
    requires IsRun(run, events) && n <= m < |run| && StoredAs(run[n], x)
    requires forall j :: n <= j < m ==> Spares(events[j], run[j + 1], x)
    requires w.sample.id == x.id && w.sample.host == x.host && Resolves(run[m].db, w.token, x.host)
    ensures StoreReport(run[m].db, w) == (run[m].db, Stored(false, x.received))
  {
    StaysStored(run, events, n, m, x);
    ResubmissionIsIdempotent(run[m].db, w);
  }

  // ---- identities over time ----

  /** No step ever revives a revoked credential or moves a pairing request backwards. */
  lemma EveryStepEvolves(s: System, e: Event)
    requires |s.place| == |s.log| && Enabled(s, e)
    ensures Evolves(s.db, Next(s, e).db)
  {
    hide Evolves, Activate, Lifecycle.CreatePairing, RotateInvite, StoreReport, DeleteHostRecords;
    SamePairings(s.db, Next(s, e).db);
    match e
    case CreatePairingEvent(request, requestId, now, createdAt, gone, storageOk) =>
      CreatePairingEvolves(s.db, request, requestId, now, createdAt, gone, storageOk);
    case ExpirePairingEvent(requestId, now) => ExpirePairingEvolves(s.db, requestId, now);
    case RotateEvent(inviteId, code, now) => RotateEvolves(s.db, inviteId, code, now);
    case ActivateEvent(requestId, code, credentialId, now) => ActivateEvolves(s.db, requestId, code, credentialId, now);
    case CancelEvent(inviteId) => CancelEvolves(s.db, inviteId);
    case DeleteInviteEvent(inviteId) =>
      if inviteId in s.db.invites { DeleteEvolves(s.db, s.db.invites[inviteId].instance); }
    case DeleteHostEvent(host) => DeleteEvolves(s.db, host);
    case ReportEvent(w) => { IngestEvolves(s.db, w); AcceptDb(s, w); }
    case _ =>
  }

  /** Where a request's status may be after any number of steps. */
  predicate MayReach(a: PairingStatus, b: PairingStatus) {
    a == b || a == Pending || (a == Active && b == Denied)
  }

  ghost predicate KeptThrough(run: seq<System>, n: nat, m: nat, p: Uuid) {
    n <= m < |run| && forall j :: n <= j <= m ==> p in run[j].db.pairings
  }

  /** Over any stretch of any run a request that is kept stays what it was asked for and only moves forward. */
  lemma {:induction false} RequestsMoveForward(run: seq<System>, events: seq<Event>, n: nat, m: nat, p: Uuid)
    requires IsRun(run, events) && KeptThrough(run, n, m, p)
    ensures var a, b := run[n].db.pairings[p], run[m].db.pairings[p];
            && MayReach(a.status, b.status)
            && b == a.(status := b.status, invite := b.invite, instance := b.instance)
            && (a.status != Pending ==> b.invite == a.invite && b.instance == a.instance)
    decreases m - n
  {
    hide Inv, Next, Enabled, CredentialsEvolve;
    if n < m {
      RequestsMoveForward(run, events, n, m - 1, p);
      assert StepAt(run, events, m - 1);
      LogsAlign(run, events, m - 1);
      EveryStepEvolves(run[m - 1], events[m - 1]);
    }
  }

  ghost predicate IssuedThrough(run: seq<System>, n: nat, m: nat, c: Uuid) {
    n <= m < |run| && forall j :: n <= j <= m ==> c in run[j].db.credentials
  }

  /** And a credential that is kept stays with its host and token, and once revoked stays revoked. */
  lemma {:induction false} RevokedStaysRevoked(run: seq<System>, events: seq<Event>, n: nat, m: nat, c: Uuid)
    requires IsRun(run, events) && IssuedThrough(run, n, m, c)
    ensures var a, b := run[n].db.credentials[c], run[m].db.credentials[c];
            && b.host == a.host && b.token == a.token
            && (a.revokedAt.Some? ==> b.revokedAt == a.revokedAt)
    decreases m - n
  {
    hide Inv, Next, Enabled, PairingsEvolve;
    if n < m {
      RevokedStaysRevoked(run, events, n, m - 1, c);
      assert StepAt(run, events, m - 1);
      LogsAlign(run, events, m - 1);
      EveryStepEvolves(run[m - 1], events[m - 1]);
    }
  }

  lemma ExpirePairingEvolves(db: Db, requestId: Uuid, now: Instant)
    ensures Evolves(db, ExpirePairing(db, requestId, now))
  {
  }

  lemma AcceptDb(s: System, w: Write)
    ensures Accept(s, w).db == StoreReport(s.db, w).0
  {
  }

  lemma CancelEvolves(db: Db, inviteId: Uuid)
    ensures Evolves(db, CancelInvite(db, inviteId).0)
  {
    hide DeleteHostRecords, Evolves;
    EvolvesReflexive(db);
    if inviteId in db.invites {
      DeleteEvolves(db, db.invites[inviteId].instance);
      SamePairings(db, CancelInvite(db, inviteId).0);
    }
  }

  lemma SamePairings(db: Db, after: Db)
    ensures after.pairings == db.pairings && after.credentials == db.credentials ==> Evolves(db, after)
  {
  }

  lemma DeleteEvolves(db: Db, host: Uuid)
    ensures Evolves(db, DeleteHostRecords(db, host))
  {
  }

  lemma IngestEvolves(db: Db, w: Write)
    ensures Evolves(db, StoreReport(db, w).0)
  {
  }
}
