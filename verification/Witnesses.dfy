/** Reachable databases that show what the server does not promise. */
module Witnesses {
  import opened Common
  import opened Totals
  import opened Schema
  import opened Aggregates
  import opened Lifecycle
  import opened Reports
  import opened Retention
  import opened Ledger
  import opened Promises
  import opened History
  import opened Chart
  import opened Stability
  import opened Schedule
  import opened Maintenance

  // ---- reaching a database ----

  ghost predicate Reached(db: Db) { exists s :: Reachable(s) && s.db == db }

  lemma ReachedByInvite(db: Db, inviteId: Uuid, instance: Uuid, code: Digest)
    requires Reached(db) && instance !in db.hosts && forall i :: i in db.invites ==> db.invites[i].instance != instance
    ensures Reached(CreateInvite(db, inviteId, instance, code, true).0)
  {
    hide Reachable;
    var s :| Reachable(s) && s.db == db;
    NextIsReachable(s, CreateInviteEvent(inviteId, instance, code, true));
  }

  lemma ReachedByRotation(db: Db, inviteId: Uuid, code: Digest, now: Instant)
    requires Reached(db)
    ensures Reached(RotateInvite(db, inviteId, code, now).0)
  {
    hide Reachable;
    var s :| Reachable(s) && s.db == db;
    NextIsReachable(s, RotateEvent(inviteId, code, now));
  }

  lemma ReachedByPairing(db: Db, request: PairingRequest, requestId: Uuid, now: Instant)
    requires Reached(db) && requestId !in db.pairings && Prunable(ExpireAll(db.pairings, now), now) == map[]
    ensures Reached(CreatePairing(db, request, requestId, now, now, [], true).0)
  {
    hide Reachable, Prunable;
    var s :| Reachable(s) && s.db == db;
    NextIsReachable(s, CreatePairingEvent(request, requestId, now, now, [], true));
  }

  lemma ReachedByActivation(db: Db, requestId: Uuid, code: Digest, credentialId: Uuid, now: Instant)
    requires Reached(db)
    ensures Reached(Activate(db, requestId, code, credentialId, now).0)
  {
    hide Reachable, Activate;
    var s :| Reachable(s) && s.db == db;
    NextIsReachable(s, ActivateEvent(requestId, code, credentialId, now));
  }

  lemma ReachedByDeletion(db: Db, host: Uuid)
    requires Reached(db) && host in db.hosts
    ensures Reached(DeleteHostRecords(db, host))
  {
    hide Reachable, DeleteHostRecords;
    var s :| Reachable(s) && s.db == db;
    NextIsReachable(s, DeleteHostEvent(host));
  }

  lemma ReachedByReport(db: Db, w: Write)
    requires Reached(db)
    ensures Reached(StoreReport(db, w).0)
  {
    hide Reachable, StoreReport;
    var s :| Reachable(s) && s.db == db;
    NextIsReachable(s, ReportEvent(w));
    AcceptDb(s, w);
  }

  /** The transaction with the one invite of the code. */
  lemma ActivatesBy(db: Db, p: Uuid, i: Uuid, c: Uuid, now: Instant)
    requires p in db.pairings && i in db.invites
             && forall j :: j in db.invites && db.invites[j].code == db.invites[i].code ==> j == i
    requires Reached(db)
    ensures Reached(ActivateWith(db, p, i, c, now).0)
  {
    hide ActivateWith, Reached;
    ReachedByActivation(db, p, db.invites[i].code, c, now);
    assert CodeTaken(db.invites, db.invites[i].code);
  }

  // ---- one host, paired and active ----

  const SEALED: InviteRow := InviteRow(100, 11, Sealed(100, 11), InvitePending)
  const ASK: PairingRequest := PairingRequest(500, Fresh, "linux", 21, 31)
  const INVITED: Db := EMPTY_DB.(invites := map[1 := SEALED])
  const ASKED: Db := INVITED.(pairings := map[41 := NewPairing(ASK, 0)])
  const PAIRED: Db := Db(
    map[100 := HostRow(true, None, None, None, 1)],
    map[51 := CredentialRow(100, 21, None, None)],
    map[1 := SEALED.(status := InviteActive)],
    map[41 := NewPairing(ASK, 0).(status := Active, invite := Some(1), instance := Some(100))],
    map[], map[])

  lemma EmptyIsReached()
    ensures Reached(EMPTY_DB)
  {
    StartIsReachable();
  }

  /** The limits of a database with at most two requests are out of reach. */
  lemma FewRequests(pairings: map<Uuid, PairingRow>, a: Uuid, b: Uuid, device: Uuid)
    requires pairings.Keys <= {a, b}
    ensures |pairings| <= 2 && |PendingPairings(pairings)| <= 2 && |PendingFor(pairings, device)| <= 2
  {
    SubsetSize(pairings.Keys, {a, b});
    SubsetSize(PendingPairings(pairings), {a, b});
    SubsetSize(PendingFor(pairings, device), {a, b});
  }

  lemma PairedIsReached()
    ensures Reached(PAIRED)
  {
    hide Reached;
    AskedIsReached();
    ActivatesBy(ASKED, 41, 1, 51, 1);
    assert ActivateWith(ASKED, 41, 1, 51, 1).0 == PAIRED;
  }

  lemma InvitedIsReached()
    ensures Reached(INVITED)
  {
    EmptyIsReached();
    ReachedByInvite(EMPTY_DB, 1, 100, 11);
    assert CreateInvite(EMPTY_DB, 1, 100, 11, true).0 == INVITED;
  }

  lemma AskedIsReached()
    ensures Reached(ASKED)
  {
    InvitedIsReached();
    assert ExpireAll(map[], 0) == map[] && Prunable(map[], 0) == map[] && Without(map[], []) == map[];
    ReachedByPairing(INVITED, ASK, 41, 0);
    FewRequests(map[], 0, 0, 500);
    assert CreatePairing(INVITED, ASK, 41, 0, 0, [], true).0 == ASKED;
  }

  // ---- a host without an invite ----

  const ROTATED: Db := Db(
    map[100 := HostRow(false, Some(2), None, None, 1)],
    map[51 := CredentialRow(100, 21, Some(2), None)],
    map[1 := InviteRow(100, 12, Sealed(100, 12), InvitePending)],
    map[41 := PAIRED.pairings[41].(status := Denied)],
    map[], map[])
  const RECOVERY: PairingRequest := PairingRequest(200, RecoverIdentity, "linux", 22, 32)
  const RECOVERING: Db := ROTATED.(pairings := ROTATED.pairings[42 := NewPairing(RECOVERY, 3)])
  const REBOUND: Db := Db(
    ROTATED.hosts[200 := HostRow(true, None, None, None, 4)],
    ROTATED.credentials[52 := CredentialRow(200, 22, None, None)],
    map[1 := InviteRow(200, 12, Sealed(200, 12), InviteActive)],
    ROTATED.pairings[42 := NewPairing(RECOVERY, 3).(status := Active, invite := Some(1), instance := Some(200))],
    map[], map[])

  lemma RotatedIsReached()
    ensures Reached(ROTATED)
  {
    hide Reached;
    PairedIsReached();
    ReachedByRotation(PAIRED, 1, 12, 2);
    assert RevokeCredentials(PAIRED.credentials, 100, 2) == ROTATED.credentials;
    assert DenyActive(PAIRED.pairings, 100) == ROTATED.pairings;
    hide RevokeCredentials, DenyActive;
    assert RotateInvite(PAIRED, 1, 12, 2).0 == ROTATED;
  }

  lemma NothingToTidy()
    ensures ExpireAll(ROTATED.pairings, 3) == ROTATED.pairings == Without(ROTATED.pairings, [])
    ensures Prunable(ExpireAll(ROTATED.pairings, 3), 3) == map[]
  {
    assert ExpireAll(ROTATED.pairings, 3) == ROTATED.pairings;
    assert Prunable(ROTATED.pairings, 3) == map[];
  }

  lemma RecoveringIsReached()
    ensures Reached(RECOVERING)
  {
    hide Reached, Prunable, ExpireAll, Without, PendingPairings, PendingFor;
    RotatedIsReached();
    NothingToTidy();
    ReachedByPairing(ROTATED, RECOVERY, 42, 3);
    FewRequests(ROTATED.pairings, 41, 41, 200);
    assert CreatePairing(ROTATED, RECOVERY, 42, 3, 3, [], true).0 == RECOVERING;
  }

  lemma MayRebind()
    ensures !RecoveryBlocked(RECOVERING, 1, 200) && !TokenIssued(RECOVERING.credentials, 22)
  {
    assert !HasLive(RECOVERING.credentials, 200);
  }

  lemma Rebinds()
    ensures ActivateWith(RECOVERING, 42, 1, 52, 4).0 == REBOUND
  {
    hide TokenIssued, RecoveryBlocked;
    MayRebind();
    var after := ActivateWith(RECOVERING, 42, 1, 52, 4).0;
    assert after.hosts == REBOUND.hosts && after.invites == REBOUND.invites;
  }

  /** The recover-identity rebind moves the invite of a revoked host to another identity. */
  lemma HostWithoutInvite() returns (db: Db, h: Uuid)
    ensures Reached(db) && h in db.hosts && forall i :: i in db.invites ==> db.invites[i].instance != h
  {
    hide Reached, ActivateWith;
    RecoveringIsReached();
    ActivatesBy(RECOVERING, 42, 1, 52, 4);
    Rebinds();
    db, h := REBOUND, 100;
  }

  /** Only a revoked host can be left so. */
  lemma HostWithoutInviteIsRevoked(db: Db, h: Uuid)
    requires Reached(db) && h in db.hosts && forall i :: i in db.invites ==> db.invites[i].instance != h
    ensures !db.hosts[h].active && !HasLive(db.credentials, h)
  {
    var s :| Reachable(s) && s.db == db;
    assert InvitesAgree(db) by { ReachableIsSafe(s); }
    assert !ActiveInviteFor(db.invites, h);
    assert !HostActive(db.hosts, h);
  }

  // ---- an active host without an active request ----

  const SECOND_ASK: PairingRequest := PairingRequest(100, Fresh, "linux", 22, 32)
  const SECOND_INVITED: Db := PAIRED.(
    invites := PAIRED.invites[2 := InviteRow(300, 12, Sealed(300, 12), InvitePending)])
  const SECOND_ASKED: Db := SECOND_INVITED.(pairings := PAIRED.pairings[42 := NewPairing(SECOND_ASK, 2)])
  const BOTH_PAIRED: Db := Db(
    PAIRED.hosts[300 := HostRow(true, None, None, None, 3)],
    PAIRED.credentials[52 := CredentialRow(300, 22, None, None)],
    PAIRED.invites[2 := InviteRow(300, 12, Sealed(300, 12), InviteActive)],
    PAIRED.pairings[42 := NewPairing(SECOND_ASK, 2).(status := Active, invite := Some(2), instance := Some(300))],
    map[], map[])

  lemma SecondInvitedIsReached()
    ensures Reached(SECOND_INVITED)
  {
    hide Reached;
    PairedIsReached();
    ReachedByInvite(PAIRED, 2, 300, 12);
    assert |PAIRED.invites.Keys| == |{1}|;
    assert CreateInvite(PAIRED, 2, 300, 12, true).0 == SECOND_INVITED;
  }

  lemma PairedIsTidy()
    ensures ExpireAll(PAIRED.pairings, 2) == PAIRED.pairings == Without(PAIRED.pairings, [])
    ensures Prunable(ExpireAll(PAIRED.pairings, 2), 2) == map[]
  {
    assert ExpireAll(PAIRED.pairings, 2) == PAIRED.pairings;
    assert Prunable(PAIRED.pairings, 2) == map[];
  }

  lemma SecondAskedIsReached()
    ensures Reached(SECOND_ASKED)
  {
    hide Reached, Prunable, ExpireAll, Without, PendingPairings, PendingFor;
    SecondInvitedIsReached();
    PairedIsTidy();
    ReachedByPairing(SECOND_INVITED, SECOND_ASK, 42, 2);
    FewRequests(PAIRED.pairings, 41, 41, 100);
    assert CreatePairing(SECOND_INVITED, SECOND_ASK, 42, 2, 2, [], true).0 == SECOND_ASKED;
  }

  lemma BothPairedIsReached()
    ensures Reached(BOTH_PAIRED)
  {
    hide Reached;
    SecondAskedIsReached();
    ActivatesBy(SECOND_ASKED, 42, 2, 52, 3);
    assert ActivateWith(SECOND_ASKED, 42, 2, 52, 3).0 == BOTH_PAIRED;
  }

  /** Deleting a host takes along the request of another host that had named it. */
  lemma ActiveHostWithoutRequest() returns (db: Db, h: Uuid)
    ensures Reached(db) && HostActive(db.hosts, h) && db.pairings == map[]
  {
    BothPairedIsReached();
    hide Reached;
    ReachedByDeletion(BOTH_PAIRED, 100);
    db, h := DeleteHostRecords(BOTH_PAIRED, 100), 300;
    assert forall p :: p in BOTH_PAIRED.pairings ==> p == 41 || p == 42;
    assert db.pairings == map[];
  }

  // ---- a retention run that flags a backlog although nothing is left ----

  const NO_METRICS: Metrics := seq(METRICS, _ => None)
  const OLDER: Sample := Sample(61, 100, 0, 10, NO_METRICS)
  const NEWER: Sample := Sample(62, 100, 20, 20, NO_METRICS)
  const ONE_REPORT: Db := PAIRED.(
    hosts := map[100 := HostRow(true, None, Some(61), Some(0), 10)],
    credentials := map[51 := CredentialRow(100, 21, None, Some(10))],
    reports := map[61 := ReportRow(OLDER, Some(1), None)])
  const TWO_REPORTS: Db := PAIRED.(
    hosts := map[100 := HostRow(true, None, Some(62), Some(20), 20)],
    credentials := map[51 := CredentialRow(100, 21, None, Some(20))],
    reports := map[61 := ReportRow(OLDER, None, None), 62 := ReportRow(NEWER, Some(1), None)])

  lemma NoReportsYet()
    ensures Admitted(map[], Write(OLDER, 21, 1, true, false), 1)
  {
    assert RowsOf(map[], 100) == {} && PayloadSizes(map[], 100) == map[];
  }

  lemma OneReportStored()
    ensures Admitted(ONE_REPORT.reports, Write(NEWER, 21, 1, true, false), 1)
  {
    assert RowsOf(ONE_REPORT.reports, 100) == {61};
    assert PayloadSizes(ONE_REPORT.reports, 100) == map[61 := 1];
    TotalNatOfOne();
    assert |ONE_REPORT.reports.Keys| == |{61}|;
  }

  lemma TotalNatOfOne()
    ensures TotalNat(map[61 := 1]) == 1
  {
    var m: map<Uuid, nat> := map[61 := 1];
    TotalNatStep(m, 61);
    assert m - {61} == map[];
  }

  lemma OneReportIsReached()
    ensures Reached(ONE_REPORT)
  {
    hide Reached, Admitted;
    PairedIsReached();
    var first := Write(OLDER, 21, 1, true, false);
    assert Live(PAIRED.credentials, 51);
    NoReportsYet();
    ReachedByReport(PAIRED, first);
    assert StoreNew(PAIRED, first).credentials == ONE_REPORT.credentials;
    assert StoreReport(PAIRED, first).0 == ONE_REPORT;
  }

  lemma TwoReportsIsReached()
    ensures Reached(TWO_REPORTS)
  {
    hide Reached, Admitted;
    OneReportIsReached();
    var second := Write(NEWER, 21, 1, true, false);
    assert Live(ONE_REPORT.credentials, 51);
    OneReportStored();
    ReachedByReport(ONE_REPORT, second);
    assert BecomesLatest(ONE_REPORT, NEWER);
    assert StoreNew(ONE_REPORT, second).credentials == TWO_REPORTS.credentials;
    assert StoreNew(ONE_REPORT, second).reports == TWO_REPORTS.reports;
    assert StoreReport(ONE_REPORT, second).0 == TWO_REPORTS;
  }

  const ROLLED: Db := TWO_REPORTS.(
    hourly := map[(100, 0) := NewRow(OLDER)],
    reports := TWO_REPORTS.reports[61 := ReportRow(OLDER, None, Some(DAY + 15))])
  const PURGED: Db := ROLLED.(reports := map[62 := TWO_REPORTS.reports[62]])
  const SHORT: Plan := Plan(DAY + 15, DAY, 2 * DAY, 1, 3)

  lemma LatestIs(hosts: map<Uuid, HostRow>, r: Uuid, q: Uuid)
    requires hosts.Keys == {100} && hosts[100].latest == Some(r) && q != r
    ensures IsLatest(hosts, r) && !IsLatest(hosts, q)
  {
    assert 100 in hosts;
  }

  lemma OlderIsCandidate()
    ensures RollUpCandidates(TWO_REPORTS, 15) == map[61 := (0, 61, 0)]
  {
    LatestIs(TWO_REPORTS.hosts, 62, 61);
  }

  lemma OlderIsMerged()
    ensures Upsert(TWO_REPORTS.hourly, Accumulate(TWO_REPORTS.reports, [61])) == ROLLED.hourly
  {
    assert Accumulate(TWO_REPORTS.reports, []) == map[];
    assert [61][..0] == [];
    assert Accumulate(TWO_REPORTS.reports, [61]) == map[(100, 0) := NewRow(OLDER)];
  }

  lemma OnlyIsFirst(k: Uuid, rank: Rank)
    ensures IsFirst([k], map[k := rank], 1)
  {
  }

  lemma RollsUpOne()
    ensures RollsUp(TWO_REPORTS, ROLLED, 1, SHORT)
  {
    OlderIsCandidate();
    OlderIsMerged();
    OnlyIsFirst(61, (0, 61, 0));
    hide RollUpCandidates, Accumulate, Upsert, IsFirst;
    assert Mark(TWO_REPORTS.reports, [61], DAY + 15) == ROLLED.reports;
    assert RollUp(TWO_REPORTS, [61], DAY + 15) == ROLLED;
  }

  lemma OlderMayGo()
    ensures IsFirst([61], PurgeCandidates(ROLLED, 15), 1)
  {
    LatestIs(ROLLED.hosts, 62, 61);
    assert PurgeCandidates(ROLLED, 15) == map[61 := (DAY + 15, 61, 0)];
  }

  lemma PurgesOne()
    ensures Purges(ROLLED, PURGED, 1, SHORT)
  {
    hide PurgeCandidates, IsFirst;
    OlderMayGo();
    assert Purge(ROLLED, [61]).reports == PURGED.reports;
    assert SHORT.RawCutoff() == 15;
  }

  lemma NothingToRollUp()
    ensures RollUpCandidates(PURGED, SHORT.RawCutoff()) == map[]
  {
    LatestIs(PURGED.hosts, 62, 61);
  }

  lemma NothingToPurge()
    ensures PurgeCandidates(PURGED, SHORT.RawCutoff()) == map[]
  {
    LatestIs(PURGED.hosts, 62, 61);
  }

  lemma NothingToExpire()
    ensures ExpiryCandidates(PURGED, SHORT.AggregateCutoff()) == map[]
  {
  }

  lemma ExpiresNone()
    ensures Expires(PURGED, PURGED, 0, SHORT)
  {
    hide ExpiryCandidates;
    NothingToExpire();
    assert Expire(PURGED, []).hourly == PURGED.hourly;
    assert IsFirst([], ExpiryCandidates(PURGED, SHORT.AggregateCutoff()), 1);
  }

  lemma NothingLeft()
    ensures Quiet(PURGED, SHORT.RawCutoff(), SHORT.AggregateCutoff())
  {
    hide RollUpCandidates, PurgeCandidates, ExpiryCandidates;
    NothingToRollUp();
    NothingToPurge();
    NothingToExpire();
  }

  /** A run from a reachable database that does all its work within its budget and is flagged all the same. */
  lemma FalseAlarm() returns (trail: seq<Db>, counts: seq<nat>, run: RunOutcome, p: Plan)
    ensures p.Proper() && IsTrail(trail, counts, p) && EndsOnTime(counts, p) && Adds(counts, run)
    ensures Reached(trail[0]) && Flagged(run, p) && Quiet(trail[|counts|], p.RawCutoff(), p.AggregateCutoff())
  {
    hide RollsUp, Purges, Expires, Quiet, Reached;
    TwoReportsIsReached();
    RollsUpOne();
    PurgesOne();
    ExpiresNone();
    NothingLeft();
    trail, counts, p := [TWO_REPORTS, ROLLED, PURGED, PURGED], [1, 1, 0], SHORT;
    run := RunOutcome(1, 1, 0, 3, true);
    SumsOf(1, 1, 0);
  }

  lemma SumsOf(a: nat, b: nat, c: nat)
    ensures SumOf([a, b, c], 0) == a && SumOf([a, b, c], 1) == b && SumOf([a, b, c], 2) == c
  {
    var one: seq<nat>, two: seq<nat>, three: seq<nat> := [a], [a, b], [a, b, c];
    assert three[..2] == two && two[..1] == one && one[..0] == [];
    assert SumOf(one, 0) == a && SumOf(one, 1) == 0 && SumOf(one, 2) == 0;
    assert SumOf(two, 0) == a && SumOf(two, 1) == b && SumOf(two, 2) == 0;
  }

  // ---- a roll-up that coarsens a chart ----

  /** In a reachable database: once the one old report of the hour is rolled up, 5 seconds will not do any more. */
  lemma RollUpCoarsens() returns (db: Db, batch: seq<Uuid>)
    ensures Reached(db) && IsFirst(batch, RollUpCandidates(db, 15), 1) && (forall r :: r in batch ==> r in db.reports)
    ensures IsLeastStep(db.hourly, 100, 0, 3600 * SECOND, 720, 5)
    ensures !IsLeastStep(RollUp(db, batch, DAY + 15).hourly, 100, 0, 3600 * SECOND, 720, 5)
  {
    hide Reached, IsLeastStep, RollUp;
    TwoReportsIsReached();
    db, batch := TWO_REPORTS, [61];
    OlderIsCandidate();
    HourIsDrawnAtFive(100);
    NotAtFive(db, 100, 61, DAY + 15);
  }

  /** The same batch turns the label of the hour in one point from raw to mixed, and leaves its step alone. */
  lemma RollUpRelabels() returns (db: Db, batch: seq<Uuid>)
    ensures Reached(db) && IsFirst(batch, RollUpCandidates(db, 15), 1) && (forall r :: r in batch ==> r in db.reports)
    ensures var after := RollUp(db, batch, DAY + 15);
            && IsLeastStep(db.hourly, 100, 0, 3600 * SECOND, 1, 3600)
            && IsLeastStep(after.hourly, 100, 0, 3600 * SECOND, 1, 3600)
            && IsLabel(RawOnly, HasRaw(db, 100, 0, 3600), Overlaps(db.hourly, 100, 0, 3600 * SECOND, 3600))
            && IsLabel(Mixed, HasRaw(after, 100, 0, 3600), Overlaps(after.hourly, 100, 0, 3600 * SECOND, 3600))
  {
    hide Reached, IsLeastStep, RollUp, RollUpCandidates, HasRaw, Overlaps;
    TwoReportsIsReached();
    db, batch := TWO_REPORTS, [61];
    OlderIsCandidate();
    HourInOnePoint(db.hourly, 100);
    HourInOnePoint(RollUp(db, batch, DAY + 15).hourly, 100);
    OlderIsShownByHour();
    NewerIsShownRaw();
    NothingByHour();
  }

  lemma NothingByHour()
    ensures !Overlaps(TWO_REPORTS.hourly, 100, 0, 3600 * SECOND, 3600)
  {
  }

  lemma OlderIsShownByHour()
    ensures Overlaps(RollUp(TWO_REPORTS, [61], DAY + 15).hourly, 100, 0, 3600 * SECOND, 3600)
  {
    AccumulateKeys(TWO_REPORTS.reports, [61]);
    assert 61 in [61] && KeyOf(TWO_REPORTS.reports[61].sample) == (100, 0);
    assert (100, 0) in RollUp(TWO_REPORTS, [61], DAY + 15).hourly;
  }

  lemma NewerIsShownRaw()
    ensures HasRaw(RollUp(TWO_REPORTS, [61], DAY + 15), 100, 0, 3600)
  {
    hide Accumulate, Upsert;
    var after := RollUp(TWO_REPORTS, [61], DAY + 15);
    assert 62 in after.reports && after.reports[62] == TWO_REPORTS.reports[62];
  }
}
