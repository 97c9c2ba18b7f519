/**
 * The whole server as a state machine over committed transactions, with the history its promises
 * are about: every acceptance of a report, and where each accepted sample is counted now.
 */
module Ledger {
  import opened Common
  import opened Schema
  import opened Aggregates
  import opened Lifecycle
  import opened Reports
  import opened Retention

  /** Where an accepted sample is counted: its own row, an hourly row, or nowhere any more. */
  datatype Place = Raw | Rolled | Lapsed | Erased

  /**
   * `log` is every acceptance in order and `place` where each one is counted; `at` names the
   * acceptance behind each stored report row and `since` the length of the log when a host was last
   * activated. Only `db` exists in the server.
   */
  datatype System = System(db: Db, log: seq<Sample>, place: seq<Place>, at: map<Uuid, nat>, since: map<Uuid, nat>)

  const START: System := System(EMPTY_DB, [], [], map[], map[])

  ghost function RolledInto(log: seq<Sample>, place: seq<Place>, k: BucketKey): map<nat, Sample>
    requires |place| == |log|
  {
    map i | 0 <= i < |log| && place[i] == Rolled && KeyOf(log[i]) == k :: log[i]
  }

  // ---- invariants ----

  ghost predicate RowsKeyed(hosts: set<Uuid>, reports: map<Uuid, ReportRow>) {
    forall r :: r in reports ==> reports[r].sample.id == r && reports[r].sample.host in hosts
  }

  /** Every stored row stands for one acceptance, and is unmarked exactly while that counts as raw. */
  ghost predicate RowsPlaced(reports: map<Uuid, ReportRow>, log: seq<Sample>, place: seq<Place>, at: map<Uuid, nat>) {
    && |place| == |log|
    && at.Keys == reports.Keys
    && (forall r :: r in reports ==>
          && at[r] < |log| && log[at[r]] == reports[r].sample
          && (reports[r].aggregatedAt.None? <==> place[at[r]] == Raw))
    && (forall i :: 0 <= i < |log| && place[i] == Raw ==> log[i].id in reports && at[log[i].id] == i)
  }

  /** Every hourly row is the direct summary of exactly the samples rolled into it. */
  ghost predicate HoursPlaced(hosts: set<Uuid>, hourly: map<BucketKey, HourlyRow>, log: seq<Sample>, place: seq<Place>)
  {
    && |place| == |log|
    && (forall i :: 0 <= i < |log| && place[i] == Rolled ==> KeyOf(log[i]) in hourly)
    && (forall k :: k in hourly ==> k.0 in hosts && Represents(hourly[k], RolledInto(log, place, k)))
  }

  /** Every acceptance of host `h` from position `since` on is no later than `s`. */
  ghost predicate NoneLater(s: Sample, h: Uuid, log: seq<Sample>, since: nat) {
    forall i :: since <= i < |log| && log[i].host == h ==> !Precedes(LatestKey(s), LatestKey(log[i]))
  }

  ghost predicate LatestFor(host: HostRow, h: Uuid, reports: map<Uuid, ReportRow>, log: seq<Sample>,
                            at: map<Uuid, nat>, since: nat)
  {
    && since <= |log|
    && match host.latest
       case None => host.latestCollected.None? && forall i :: since <= i < |log| ==> log[i].host != h
       case Some(r) =>
         && r in reports && r in at && reports[r].sample.host == h && reports[r].aggregatedAt.None?
         && host.latestCollected == Some(reports[r].sample.collected)
         && since <= at[r] < |log|
         && NoneLater(reports[r].sample, h, log, since)
  }

  /** A host's latest report is the greatest accepted since its activation. */
  ghost predicate LatestIsGreatest(hosts: map<Uuid, HostRow>, reports: map<Uuid, ReportRow>, log: seq<Sample>,
                                   at: map<Uuid, nat>, since: map<Uuid, nat>)
  {
    forall h :: h in hosts ==> h in since && LatestFor(hosts[h], h, reports, log, at, since[h])
  }

  /** Exactly the latest reports keep their payload. */
  ghost predicate PayloadsHeld(hosts: map<Uuid, HostRow>, reports: map<Uuid, ReportRow>) {
    forall r :: r in reports && reports[r].sample.host in hosts ==>
      (reports[r].payload.Some? <==> hosts[reports[r].sample.host].latest == Some(r))
  }

  ghost predicate Rows(s: System) {
    RowsKeyed(s.db.hosts.Keys, s.db.reports) && RowsPlaced(s.db.reports, s.log, s.place, s.at)
  }

  ghost predicate Hours(s: System) {
    HoursPlaced(s.db.hosts.Keys, s.db.hourly, s.log, s.place)
  }

  ghost predicate Latest(s: System) {
    LatestIsGreatest(s.db.hosts, s.db.reports, s.log, s.at, s.since) && PayloadsHeld(s.db.hosts, s.db.reports)
  }

  ghost predicate Inv(s: System) {
    LifecycleInv(s.db) && ReportBounds(s.db.reports) && Rows(s) && Hours(s) && Latest(s)
  }

  // ---- steps ----

  datatype Event =
    | CreateInviteEvent(inviteId: Uuid, instance: Uuid, code: Digest, storageOk: bool)
    | RotateEvent(inviteId: Uuid, code: Digest, now: Instant)
    | CancelEvent(inviteId: Uuid)
    | DeleteInviteEvent(inviteId: Uuid)
    | DeleteHostEvent(host: Uuid)
    | CreatePairingEvent(request: PairingRequest, requestId: Uuid, now: Instant, createdAt: Instant, gone: seq<Uuid>,
                         storageOk: bool)
    | ExpirePairingEvent(requestId: Uuid, now: Instant)
    | ActivateEvent(requestId: Uuid, code: Digest, credentialId: Uuid, now: Instant)
    | ReportEvent(write: Write)
    | RollUpEvent(cutoff: Instant, now: Instant, limit: nat, batch: seq<Uuid>)
    | PurgeEvent(cutoff: Instant, limit: nat, rows: seq<Uuid>)
    | ExpireEvent(cutoff: Instant, limit: nat, hours: seq<BucketKey>)

  /**
   * What the environment owes: a new random identifier is new, and the rows of a limited
   * statement are an answer of its ORDER BY and LIMIT.
   */
  ghost predicate Enabled(s: System, e: Event) {
    match e
    case CreateInviteEvent(_, instance, _, _) =>
      instance !in s.db.hosts && forall i :: i in s.db.invites ==> s.db.invites[i].instance != instance
    case CreatePairingEvent(request, requestId, now, _, gone, _) =>
      && requestId !in s.db.pairings
      && (TokenIssued(s.db.credentials, request.token) || SecretKnown(s.db.pairings, request.secret)
          || IsFirst(gone, Prunable(ExpireAll(s.db.pairings, now), now), PRUNE_BATCH))
    case RollUpEvent(cutoff, _, limit, batch) => IsFirst(batch, RollUpCandidates(s.db, cutoff), limit)
    case PurgeEvent(cutoff, limit, rows) => IsFirst(rows, PurgeCandidates(s.db, cutoff), limit)
    case ExpireEvent(cutoff, limit, hours) => IsFirst(hours, ExpiryCandidates(s.db, cutoff), limit)
    case _ => true
  }

  ghost function Erase(s: System, host: Uuid): System
    requires |s.place| == |s.log|
  {
    var db := DeleteHostRecords(s.db, host);
    s.(db := db,
       place := seq(|s.log|, i requires 0 <= i < |s.log| => if s.log[i].host == host then Erased else s.place[i]),
       at := map r | r in s.at && r in db.reports :: s.at[r])
  }

  ghost function Accept(s: System, w: Write): System {
    var (db, outcome) := StoreReport(s.db, w);
    if outcome.Stored? && outcome.accepted
    then s.(db := db, log := s.log + [w.sample], place := s.place + [Raw], at := s.at[w.sample.id := |s.log|])
    else s
  }

  /** A writer batch at the level of the state machine. */
  ghost function AcceptAll(s: System, writes: seq<Write>): System {
    if writes == [] then s else Accept(AcceptAll(s, writes[..|writes| - 1]), writes[|writes| - 1])
  }

  ghost function RollUpStep(s: System, batch: seq<Uuid>, now: Instant): System
    requires |s.place| == |s.log| && forall r :: r in batch ==> r in s.db.reports
  {
    s.(db := RollUp(s.db, batch, now),
       place := seq(|s.log|, i requires 0 <= i < |s.log| =>
                      if s.place[i] == Raw && s.log[i].id in batch then Rolled else s.place[i]))
  }

  ghost function PurgeStep(s: System, rows: seq<Uuid>): System {
    s.(db := Purge(s.db, rows), at := map r | r in s.at && r !in rows :: s.at[r])
  }

  ghost function ExpireStep(s: System, hours: seq<BucketKey>): System
    requires |s.place| == |s.log|
  {
    s.(db := Expire(s.db, hours),
       place := seq(|s.log|, i requires 0 <= i < |s.log| =>
                      if s.place[i] == Rolled && KeyOf(s.log[i]) in hours then Lapsed else s.place[i]))
  }

  ghost function ActivateStep(s: System, requestId: Uuid, code: Digest, credentialId: Uuid, now: Instant): System {
    var (db, outcome) := Activate(s.db, requestId, code, credentialId, now);
    if db == s.db then s
    else if outcome.Activated? then s.(db := db, since := s.since[outcome.instance := |s.log|])
    else s.(db := db)
  }

  ghost function Next(s: System, e: Event): System
    requires |s.place| == |s.log| && Enabled(s, e)
  {
    match e
    case CreateInviteEvent(inviteId, instance, code, storageOk) =>
      s.(db := CreateInvite(s.db, inviteId, instance, code, storageOk).0)
    case RotateEvent(inviteId, code, now) => s.(db := RotateInvite(s.db, inviteId, code, now).0)
    case CancelEvent(inviteId) =>
      if CancelInvite(s.db, inviteId).1 == Deleted then Erase(s, s.db.invites[inviteId].instance)
      else s.(db := CancelInvite(s.db, inviteId).0)
    case DeleteInviteEvent(inviteId) =>
      if inviteId in s.db.invites then Erase(s, s.db.invites[inviteId].instance) else s
    case DeleteHostEvent(host) => if host in s.db.hosts then Erase(s, host) else s
    case CreatePairingEvent(request, requestId, now, createdAt, gone, storageOk) =>
      s.(db := CreatePairing(s.db, request, requestId, now, createdAt, gone, storageOk).0)
    case ExpirePairingEvent(requestId, now) => s.(db := ExpirePairing(s.db, requestId, now))
    case ActivateEvent(requestId, code, credentialId, now) => ActivateStep(s, requestId, code, credentialId, now)
    case ReportEvent(write) => Accept(s, write)
    case RollUpEvent(_, now, _, batch) => RollUpStep(s, batch, now)
    case PurgeEvent(_, _, rows) => PurgeStep(s, rows)
    case ExpireEvent(_, _, hours) => ExpireStep(s, hours)
  }

  // ---- roll-up ----

  /** The acceptances behind the batch rows that fall into one hour of one host. */
  ghost function BatchInto(s: System, batch: seq<Uuid>, k: BucketKey): map<nat, Sample> {
    map i | 0 <= i < |s.log| && s.log[i].id in batch && s.log[i].id in s.at && s.at[s.log[i].id] == i
      && KeyOf(s.log[i]) == k :: s.log[i]
  }

  lemma BatchIntoSnoc(s: System, init: seq<Uuid>, last: Uuid, k: BucketKey)
    requires Rows(s) && Distinct(init + [last]) && last in s.db.reports
    ensures var x := s.db.reports[last].sample;
            && s.at[last] !in BatchInto(s, init, k)
            && BatchInto(s, init + [last], k) ==
                (if KeyOf(x) == k then BatchInto(s, init, k)[s.at[last] := x] else BatchInto(s, init, k))
  {
    assert last !in init by {
      DistinctParts(init, [last]);
      assert last in [last];
    }
    assert forall r :: r in init + [last] <==> r in init || r == last;
  }

  /** `h` is what the buckets of a batch hold for one hour: the summary of `samples`, or nothing at all. */
  ghost predicate Summarises(buckets: map<BucketKey, HourlyRow>, k: BucketKey, samples: map<nat, Sample>) {
    if k in buckets then Represents(buckets[k], samples) else samples == map[]
  }

  lemma AddToSummarises(buckets: map<BucketKey, HourlyRow>, k: BucketKey, samples: map<nat, Sample>, i: nat, x: Sample)
    requires Summarises(buckets, k, samples) && i !in samples
    ensures Summarises(AddTo(buckets, x), k, if KeyOf(x) == k then samples[i := x] else samples)
  {
    if KeyOf(x) == k {
      if k in buckets { RepresentsRecord(buckets[k], samples, i, x); } else { RepresentsNew(i, x); }
    }
  }

  /** The in-memory buckets of a batch summarise the batch, hour by hour. */
  lemma {:induction false} AccumulateRepresents(s: System, batch: seq<Uuid>, k: BucketKey)
    requires Rows(s) && Distinct(batch) && forall r :: r in batch ==> r in s.db.reports
    ensures Summarises(Accumulate(s.db.reports, batch), k, BatchInto(s, batch, k))
    decreases |batch|
  {
    if batch == [] {
      assert BatchInto(s, batch, k) == map[];
    } else {
      var init, last := batch[..|batch| - 1], batch[|batch| - 1];
      assert batch == init + [last];
      DistinctParts(init, [last]);
      AccumulateRepresents(s, init, k);
      BatchIntoSnoc(s, init, last, k);
      AddToSummarises(Accumulate(s.db.reports, init), k, BatchInto(s, init, k), s.at[last], s.db.reports[last].sample);
    }
  }

  ghost predicate Unmarked(s: System, batch: seq<Uuid>) {
    forall r :: r in batch ==> r in s.db.reports && s.db.reports[r].aggregatedAt.None?
  }

  /** The acceptances behind a batch are exactly the raw ones whose id is in it. */
  lemma BatchIsRaw(s: System, batch: seq<Uuid>, i: nat)
    requires Rows(s) && Unmarked(s, batch) && i < |s.log|
    ensures i in BatchInto(s, batch, KeyOf(s.log[i])) <==> s.place[i] == Raw && s.log[i].id in batch
  {
    if s.log[i].id in batch { assert s.db.reports[s.log[i].id].aggregatedAt.None?; }
  }

  /** Samples counted as rolled in `place` or just moved there. */
  lemma RolledGrows(log: seq<Sample>, place: seq<Place>, after: seq<Place>, k: BucketKey, moved: map<nat, Sample>)
    requires |place| == |log| == |after|
    requires forall i :: i in moved ==> i < |log| && moved[i] == log[i] && KeyOf(log[i]) == k && place[i] == Raw
    requires forall i :: 0 <= i < |log| && KeyOf(log[i]) == k ==>
               (after[i] == Rolled <==> place[i] == Rolled || i in moved)
    ensures RolledInto(log, place, k).Keys !! moved.Keys
    ensures RolledInto(log, after, k) == RolledInto(log, place, k) + moved
  {
  }

  lemma RollUpMoves(s: System, batch: seq<Uuid>, now: Instant, k: BucketKey)
    requires Rows(s) && Unmarked(s, batch)
    ensures RolledInto(s.log, s.place, k).Keys !! BatchInto(s, batch, k).Keys
    ensures RolledInto(s.log, RollUpStep(s, batch, now).place, k) ==
            RolledInto(s.log, s.place, k) + BatchInto(s, batch, k)
  {
    forall i: nat | i < |s.log| && KeyOf(s.log[i]) == k
      ensures i in BatchInto(s, batch, k) <==> s.place[i] == Raw && s.log[i].id in batch
    {
      BatchIsRaw(s, batch, i);
    }
    RolledGrows(s.log, s.place, RollUpStep(s, batch, now).place, k, BatchInto(s, batch, k));
  }

  lemma UpsertHour(hourly: map<BucketKey, HourlyRow>, incoming: map<BucketKey, HourlyRow>, k: BucketKey,
                   before: map<nat, Sample>, moved: map<nat, Sample>)
    requires k in Upsert(hourly, incoming) && before.Keys !! moved.Keys
    requires Summarises(hourly, k, before) && Summarises(incoming, k, moved)
    ensures Represents(Upsert(hourly, incoming)[k], before + moved)
  {
    if k in hourly && k in incoming {
      RepresentsMerge(hourly[k], before, incoming[k], moved);
    } else if k in incoming {
      assert before + moved == moved;
    } else {
      assert before + moved == before;
    }
  }

  lemma NothingRolled(s: System, k: BucketKey)
    requires Hours(s) && k !in s.db.hourly
    ensures RolledInto(s.log, s.place, k) == map[]
  {
  }

  lemma RollUpHour(s: System, batch: seq<Uuid>, now: Instant, k: BucketKey)
    requires Rows(s) && Hours(s) && Distinct(batch) && Unmarked(s, batch)
    requires k in RollUpStep(s, batch, now).db.hourly
    ensures Represents(RollUpStep(s, batch, now).db.hourly[k], RolledInto(s.log, RollUpStep(s, batch, now).place, k))
    ensures k.0 in s.db.hosts
  {
    var acc := Accumulate(s.db.reports, batch);
    AccumulateRepresents(s, batch, k);
    RollUpMoves(s, batch, now, k);
    if k !in s.db.hourly {
      NothingRolled(s, k);
      BatchHosts(s, batch, k);
    }
    UpsertHour(s.db.hourly, acc, k, RolledInto(s.log, s.place, k), BatchInto(s, batch, k));
  }

  lemma RollUpKeepsHours(s: System, batch: seq<Uuid>, now: Instant)
    requires Rows(s) && Hours(s) && Distinct(batch) && Unmarked(s, batch)
    ensures Hours(RollUpStep(s, batch, now))
  {
    var after := RollUpStep(s, batch, now);
    forall k | k in after.db.hourly
      ensures k.0 in after.db.hosts && Represents(after.db.hourly[k], RolledInto(after.log, after.place, k))
    {
      RollUpHour(s, batch, now, k);
    }
    forall i | 0 <= i < |after.log| && after.place[i] == Rolled ensures KeyOf(after.log[i]) in after.db.hourly {
      if s.place[i] == Raw {
        AccumulateRepresents(s, batch, KeyOf(s.log[i]));
        BatchIsRaw(s, batch, i);
      }
    }
  }

  lemma BatchHosts(s: System, batch: seq<Uuid>, k: BucketKey)
    requires Rows(s) && BatchInto(s, batch, k) != map[]
    ensures k.0 in s.db.hosts
  {
    var i :| i in BatchInto(s, batch, k);
  }

  lemma RollUpKeepsRows(s: System, batch: seq<Uuid>, now: Instant)
    requires Rows(s) && Unmarked(s, batch)
    ensures Rows(RollUpStep(s, batch, now))
  {
  }

  lemma MarkKeepsLatest(hosts: map<Uuid, HostRow>, reports: map<Uuid, ReportRow>, log: seq<Sample>, at: map<Uuid, nat>,
                        since: map<Uuid, nat>, after: map<Uuid, ReportRow>)
    requires LatestIsGreatest(hosts, reports, log, at, since)
    requires forall r :: r in reports && IsLatest(hosts, r) ==> r in after && after[r] == reports[r]
    ensures LatestIsGreatest(hosts, after, log, at, since)
  {
    forall h | h in hosts ensures LatestFor(hosts[h], h, after, log, at, since[h]) {
      assert LatestFor(hosts[h], h, reports, log, at, since[h]);
    }
  }

  /** A batch that holds no latest report leaves every latest pointer and payload alone. */
  lemma RollUpKeepsLatest(s: System, batch: seq<Uuid>, now: Instant)
    requires |s.place| == |s.log| && Latest(s)
             && forall r :: r in batch ==> r in s.db.reports && !IsLatest(s.db.hosts, r)
    ensures Latest(RollUpStep(s, batch, now))
  {
    MarkKeepsLatest(s.db.hosts, s.db.reports, s.log, s.at, s.since, Mark(s.db.reports, batch, now));
  }

  lemma CandidatesAreFree(s: System, cutoff: Instant, limit: nat, batch: seq<Uuid>)
    requires IsFirst(batch, RollUpCandidates(s.db, cutoff), limit)
    ensures Distinct(batch) && Unmarked(s, batch)
    ensures forall r :: r in batch ==> r in s.db.reports && !IsLatest(s.db.hosts, r)
  {
  }

  lemma RollUpKeeps(s: System, cutoff: Instant, limit: nat, batch: seq<Uuid>, now: Instant)
    requires Inv(s) && IsFirst(batch, RollUpCandidates(s.db, cutoff), limit)
    ensures Inv(RollUpStep(s, batch, now))
  {
    CandidatesAreFree(s, cutoff, limit, batch);
    RollUpKeepsRows(s, batch, now);
    RollUpKeepsHours(s, batch, now);
    RollUpKeepsLatest(s, batch, now);
    ShrinkingKeepsBounds(s.db.reports, RollUpStep(s, batch, now).db.reports);
    FrameReports(s.db, RollUpStep(s, batch, now).db);
  }

  // ---- deletion of marked rows and expired hours ----

  lemma PurgeKeepsRows(reports: map<Uuid, ReportRow>, log: seq<Sample>, place: seq<Place>, at: map<Uuid, nat>,
                       after: map<Uuid, ReportRow>, at': map<Uuid, nat>)
    requires RowsPlaced(reports, log, place, at)
    requires at'.Keys == after.Keys
             && forall r :: r in after ==> r in reports && after[r] == reports[r] && at'[r] == at[r]
    requires forall r :: r in reports && reports[r].aggregatedAt.None? ==> r in after
    ensures RowsPlaced(after, log, place, at')
  {
  }

  lemma PurgeKeepsLatest(s: System, rows: seq<Uuid>)
    requires Latest(s) && forall r :: r in rows ==> !IsLatest(s.db.hosts, r)
    requires s.at.Keys == s.db.reports.Keys
    ensures Latest(PurgeStep(s, rows))
  {
    var after := PurgeStep(s, rows);
    forall h | h in after.db.hosts
      ensures LatestFor(after.db.hosts[h], h, after.db.reports, after.log, after.at, after.since[h])
    {
      assert LatestFor(s.db.hosts[h], h, s.db.reports, s.log, s.at, s.since[h]);
      if s.db.hosts[h].latest.Some? { assert IsLatest(s.db.hosts, s.db.hosts[h].latest.value); }
    }
  }

  lemma PurgeKeeps(s: System, cutoff: Instant, limit: nat, rows: seq<Uuid>)
    requires Inv(s) && IsFirst(rows, PurgeCandidates(s.db, cutoff), limit)
    ensures Inv(PurgeStep(s, rows))
  {
    var after := PurgeStep(s, rows);
    assert forall r :: r in rows ==> r in PurgeCandidates(s.db, cutoff);
    PurgeKeepsRows(s.db.reports, s.log, s.place, s.at, after.db.reports, after.at);
    PurgeKeepsLatest(s, rows);
    ShrinkingKeepsBounds(s.db.reports, after.db.reports);
    FrameReports(s.db, after.db);
  }

  lemma ExpireKeepsHour(s: System, hours: seq<BucketKey>, k: BucketKey)
    requires |s.place| == |s.log|
    ensures RolledInto(s.log, ExpireStep(s, hours).place, k) ==
            (if k in hours then map[] else RolledInto(s.log, s.place, k))
  {
  }

  lemma ExpireKeepsHours(s: System, hours: seq<BucketKey>)
    requires Hours(s)
    ensures Hours(ExpireStep(s, hours))
  {
    var after := ExpireStep(s, hours);
    forall k | k in after.db.hourly
      ensures k.0 in after.db.hosts && Represents(after.db.hourly[k], RolledInto(after.log, after.place, k))
    {
      ExpireKeepsHour(s, hours, k);
    }
  }

  lemma ExpireKeepsRows(s: System, hours: seq<BucketKey>)
    requires Rows(s)
    ensures Rows(ExpireStep(s, hours))
  {
    hide RowsKeyed;
  }

  lemma ExpireKeeps(s: System, hours: seq<BucketKey>)
    requires Inv(s)
    ensures Inv(ExpireStep(s, hours))
  {
    hide Rows, Hours, UniqueKeys, OneLivePerHost, InvitesAgree, PendingTokensUnissued, ActivePairingsTruthful,
      PairingBounds,
      LatestIsGreatest, PayloadsHeld, ReportBounds;
    assert |s.place| == |s.log| by { assert Rows(s); LogsMatch(s); }
    ExpireKeepsRows(s, hours);
    ExpireKeepsHours(s, hours);
    FrameReports(s.db, ExpireStep(s, hours).db);
  }

  lemma LogsMatch(s: System)
    requires Rows(s)
    ensures |s.place| == |s.log|
  {
  }

  // ---- erasing a host ----

  lemma EraseKeepsHour(s: System, host: Uuid, k: BucketKey)
    requires |s.place| == |s.log|
    ensures RolledInto(s.log, Erase(s, host).place, k) == (if k.0 == host then map[] else RolledInto(s.log, s.place, k))
  {
  }

  lemma EraseKeepsHours(s: System, host: Uuid)
    requires Hours(s)
    ensures Hours(Erase(s, host))
  {
    var after := Erase(s, host);
    forall k | k in after.db.hourly
      ensures k.0 in after.db.hosts && Represents(after.db.hourly[k], RolledInto(after.log, after.place, k))
    {
      EraseKeepsHour(s, host, k);
    }
  }

  lemma EraseKeepsRows(s: System, host: Uuid)
    requires Rows(s)
    ensures Rows(Erase(s, host))
  {
    var after := Erase(s, host);
    assert forall r :: r in after.db.reports <==> r in s.db.reports && s.db.reports[r].sample.host != host;
  }

  lemma EraseKeepsLatest(s: System, host: Uuid)
    requires Rows(s) && Latest(s)
    ensures Latest(Erase(s, host))
  {
    var after := Erase(s, host);
    forall h | h in after.db.hosts
      ensures LatestFor(after.db.hosts[h], h, after.db.reports, after.log, after.at, after.since[h])
    {
      assert LatestFor(s.db.hosts[h], h, s.db.reports, s.log, s.at, s.since[h]);
    }
  }

  lemma EraseKeeps(s: System, host: Uuid)
    requires Inv(s)
    ensures Inv(Erase(s, host))
  {
    DeleteRecordsKeeps(s.db, host);
    EraseKeepsHours(s, host);
    EraseKeepsRows(s, host);
    EraseKeepsLatest(s, host);
    ShrinkingKeepsBounds(s.db.reports, Erase(s, host).db.reports);
  }

  // ---- administration ----

  /** Reports, hours and latest pointers are untouched. */
  ghost predicate SameReports(db: Db, after: Db) {
    && after.reports == db.reports && after.hourly == db.hourly && after.hosts.Keys == db.hosts.Keys
    && forall h :: h in db.hosts ==>
         after.hosts[h].latest == db.hosts[h].latest && after.hosts[h].latestCollected == db.hosts[h].latestCollected
  }

  lemma FrameLedger(s: System, db: Db)
    requires Inv(s) && LifecycleInv(db) && SameReports(s.db, db)
    ensures Inv(s.(db := db))
  {
    FrameLatest(s.db.hosts, db.hosts, s.db.reports, s.log, s.at, s.since);
  }

  lemma FrameLatest(hosts: map<Uuid, HostRow>, after: map<Uuid, HostRow>, reports: map<Uuid, ReportRow>,
                    log: seq<Sample>,
                    at: map<Uuid, nat>, since: map<Uuid, nat>)
    requires LatestIsGreatest(hosts, reports, log, at, since) && PayloadsHeld(hosts, reports)
    requires after.Keys == hosts.Keys
    requires forall h :: h in hosts ==>
               after[h].latest == hosts[h].latest && after[h].latestCollected == hosts[h].latestCollected
    ensures LatestIsGreatest(after, reports, log, at, since) && PayloadsHeld(after, reports)
  {
    forall h | h in after ensures LatestFor(after[h], h, reports, log, at, since[h]) {
      assert LatestFor(hosts[h], h, reports, log, at, since[h]);
    }
  }

  // ---- activation ----

  /** Clearing a payload changes no sample and no mark. */
  lemma ClearKeepsRows(reports: map<Uuid, ReportRow>, latest: Option<Uuid>, hosts: set<Uuid>, log: seq<Sample>,
                       place: seq<Place>, at: map<Uuid, nat>)
    requires RowsPlaced(reports, log, place, at) && RowsKeyed(hosts, reports)
    ensures RowsPlaced(ClearPayload(reports, latest), log, place, at) && RowsKeyed(hosts, ClearPayload(reports, latest))
    ensures Shrinks(reports, ClearPayload(reports, latest))
  {
    assert ClearPayload(reports, latest).Keys == reports.Keys;
  }

  lemma ResetLatest(hosts: map<Uuid, HostRow>, reports: map<Uuid, ReportRow>, log: seq<Sample>, at: map<Uuid, nat>,
                    since: map<Uuid, nat>,
                    h: Uuid, now: Instant)
    requires LatestIsGreatest(hosts, reports, log, at, since) && PayloadsHeld(hosts, reports)
    requires RowsKeyed(hosts.Keys, reports)
    ensures var after := hosts[h := HostRow(true, None, None, None, now)];
            var cleared := ClearPayload(reports, if h in hosts then hosts[h].latest else None);
            LatestIsGreatest(after, cleared, log, at, since[h := |log|]) && PayloadsHeld(after, cleared)
  {
    var after := hosts[h := HostRow(true, None, None, None, now)];
    var cleared := ClearPayload(reports, if h in hosts then hosts[h].latest else None);
    forall g | g in after
      ensures g in since[h := |log|] && LatestFor(after[g], g, cleared, log, at, since[h := |log|][g])
    {
      if g != h {
        assert LatestFor(hosts[g], g, reports, log, at, since[g]);
        if h in hosts { assert LatestFor(hosts[h], h, reports, log, at, since[h]); }
      }
    }
    if h in hosts { assert LatestFor(hosts[h], h, reports, log, at, since[h]); }
  }

  /** The tables of a successful activation. */
  lemma ActivationTables(db: Db, p: Uuid, i: Uuid, c: Uuid, now: Instant)
    requires p in db.pairings && i in db.invites && Activates(db, p, i, c, now)
    ensures var (after, outcome) := ActivateWith(db, p, i, c, now);
            && outcome.Activated?
            && after.hosts == db.hosts[outcome.instance := HostRow(true, None, None, None, now)]
            && after.reports == ClearPayload(db.reports, if outcome.instance in db.hosts
                                                           then db.hosts[outcome.instance].latest else None)
            && after.hourly == db.hourly
  {
  }

  lemma MoreHostsKeepRows(hosts: set<Uuid>, more: set<Uuid>, reports: map<Uuid, ReportRow>,
                          hourly: map<BucketKey, HourlyRow>,
                          log: seq<Sample>, place: seq<Place>)
    requires RowsKeyed(hosts, reports) && HoursPlaced(hosts, hourly, log, place) && hosts <= more
    ensures RowsKeyed(more, reports) && HoursPlaced(more, hourly, log, place)
  {
  }

  lemma ActivationResetsLatest(s: System, p: Uuid, i: Uuid, c: Uuid, now: Instant)
    requires Rows(s) && Hours(s) && Latest(s) && p in s.db.pairings && i in s.db.invites
             && Activates(s.db, p, i, c, now)
    ensures var (db, outcome) := ActivateWith(s.db, p, i, c, now);
            var after := s.(db := db, since := s.since[outcome.instance := |s.log|]);
            Rows(after) && Hours(after) && Latest(after) && Shrinks(s.db.reports, db.reports)
  {
    hide Activates, ActivateWith, HoursPlaced, RowsPlaced, RowsKeyed, LatestIsGreatest, PayloadsHeld, ClearPayload;
    ActivationTables(s.db, p, i, c, now);
    var (db, outcome) := ActivateWith(s.db, p, i, c, now);
    var h := outcome.instance;
    ClearKeepsRows(s.db.reports,
                   if h in s.db.hosts then s.db.hosts[h].latest else None, s.db.hosts.Keys, s.log, s.place, s.at);
    MoreHostsKeepRows(s.db.hosts.Keys, db.hosts.Keys, db.reports, db.hourly, s.log, s.place);
    ResetLatest(s.db.hosts, s.db.reports, s.log, s.at, s.since, h, now);
  }

  lemma ActivateStepKeeps(s: System, p: Uuid, code: Digest, c: Uuid, now: Instant)
    requires Inv(s)
    ensures Inv(ActivateStep(s, p, code, c, now))
  {
    hide UniqueKeys, OneLivePerHost, InvitesAgree, PendingTokensUnissued, ActivePairingsTruthful,
      PairingBounds, LatestIsGreatest, PayloadsHeld, RowsPlaced, RowsKeyed, HoursPlaced, ReportBounds;
    ActivateKeeps(s.db, p, code, c, now);
    if p in s.db.pairings && CodeTaken(s.db.invites, code) {
      var i :| i in s.db.invites && s.db.invites[i].code == code
        && Activate(s.db, p, code, c, now) == ActivateWith(s.db, p, i, c, now);
      if Activates(s.db, p, i, c, now) {
        ActivationResetsLatest(s, p, i, c, now);
        ShrinkingKeepsBounds(s.db.reports, ActivateWith(s.db, p, i, c, now).0.reports);
      } else {
        assert ActivateWith(s.db, p, i, c, now).0 == s.db;
      }
    }
  }

  // ---- ingestion ----

  lemma AppendKeepsHours(hosts: set<Uuid>, hourly: map<BucketKey, HourlyRow>, log: seq<Sample>, place: seq<Place>,
                         x: Sample)
    requires HoursPlaced(hosts, hourly, log, place)
    ensures HoursPlaced(hosts, hourly, log + [x], place + [Raw])
  {
    forall k | k in hourly ensures Represents(hourly[k], RolledInto(log + [x], place + [Raw], k)) {
      assert RolledInto(log + [x], place + [Raw], k) == RolledInto(log, place, k);
    }
  }

  lemma AppendKeepsRows(hosts: set<Uuid>, reports: map<Uuid, ReportRow>, log: seq<Sample>, place: seq<Place>,
                        at: map<Uuid, nat>, row: ReportRow)
    requires RowsPlaced(reports, log, place, at) && RowsKeyed(hosts, reports)
    requires row.sample.id !in reports && row.sample.host in hosts && row.aggregatedAt.None?
    ensures RowsPlaced(reports[row.sample.id := row], log + [row.sample], place + [Raw], at[row.sample.id := |log|])
    ensures RowsKeyed(hosts, reports[row.sample.id := row])
  {
  }

  /** Appending a sample of another host leaves a host's latest report the greatest. */
  lemma AppendOther(host: HostRow, h: Uuid, reports: map<Uuid, ReportRow>, log: seq<Sample>, at: map<Uuid, nat>,
                    since: nat,
                    after: map<Uuid, ReportRow>, x: Sample, at': map<Uuid, nat>)
    requires LatestFor(host, h, reports, log, at, since) && x.host != h
    requires forall r :: r in reports && reports[r].sample.host == h ==>
               r in after && after[r].sample == reports[r].sample && after[r].aggregatedAt == reports[r].aggregatedAt
    requires forall r :: r in at && r in reports ==> r in at' && at'[r] == at[r]
    ensures LatestFor(host, h, after, log + [x], at', since)
  {
  }

  /** The key used to compare is the key of the stored latest report. */
  lemma BecomesLatestExactly(db: Db, h: Uuid, x: Sample, log: seq<Sample>, at: map<Uuid, nat>, since: nat)
    requires h in db.hosts && x.host == h && RowsKeyed(db.hosts.Keys, db.reports)
    requires LatestFor(db.hosts[h], h, db.reports, log, at, since)
    ensures BecomesLatest(db, x) <==>
              db.hosts[h].latest.None? || Precedes(LatestKey(db.reports[db.hosts[h].latest.value].sample), LatestKey(x))
  {
  }

  lemma AppendOwn(db: Db, h: Uuid, x: Sample, log: seq<Sample>, at: map<Uuid, nat>, since: nat, w: Write)
    requires h in db.hosts && x == w.sample && x.host == h && RowsKeyed(db.hosts.Keys, db.reports)
             && x.id !in db.reports
    requires LatestFor(db.hosts[h], h, db.reports, log, at, since)
    ensures LatestFor(StoreNew(db, w).hosts[h], h, StoreNew(db, w).reports, log + [x], at[x.id := |log|], since)
  {
    BecomesLatestExactly(db, h, x, log, at, since);
    var after := StoreNew(db, w);
    var all := log + [x];
    if BecomesLatest(db, x) {
      forall i | since <= i < |all| && all[i].host == h ensures !Precedes(LatestKey(x), LatestKey(all[i])) {
        if i < |log| { assert all[i] == log[i]; }
      }
    } else {
      var r := db.hosts[h].latest.value;
      forall i | since <= i < |all| && all[i].host == h
        ensures !Precedes(LatestKey(db.reports[r].sample), LatestKey(all[i]))
      {
        if i < |log| { assert all[i] == log[i]; }
      }
    }
  }

  lemma StoreNewPayloads(db: Db, w: Write)
    requires w.sample.host in db.hosts && w.sample.id !in db.reports && RowsKeyed(db.hosts.Keys, db.reports)
    requires PayloadsHeld(db.hosts, db.reports)
    requires forall h :: h in db.hosts && db.hosts[h].latest.Some? ==>
      db.hosts[h].latest.value in db.reports && db.reports[db.hosts[h].latest.value].sample.host == h
    ensures PayloadsHeld(StoreNew(db, w).hosts, StoreNew(db, w).reports)
  {
  }

  lemma AcceptKeepsLatest(s: System, w: Write)
    requires Rows(s) && Latest(s) && w.sample.host in s.db.hosts && w.sample.id !in s.db.reports
    ensures LatestIsGreatest(StoreNew(s.db, w).hosts, StoreNew(s.db, w).reports,
                             s.log + [w.sample], s.at[w.sample.id := |s.log|], s.since)
    ensures PayloadsHeld(StoreNew(s.db, w).hosts, StoreNew(s.db, w).reports)
  {
    hide NoneLater, Precedes, LatestKey;
    var x, db := w.sample, StoreNew(s.db, w);
    forall h | h in db.hosts
      ensures h in s.since && LatestFor(db.hosts[h], h, db.reports, s.log + [x], s.at[x.id := |s.log|], s.since[h])
    {
      assert LatestFor(s.db.hosts[h], h, s.db.reports, s.log, s.at, s.since[h]);
      if h == x.host {
        AppendOwn(s.db, h, x, s.log, s.at, s.since[h], w);
      } else {
        assert LatestFor(s.db.hosts[x.host], x.host, s.db.reports, s.log, s.at, s.since[x.host]);
        AppendOther(s.db.hosts[h], h, s.db.reports, s.log, s.at, s.since[h], db.reports, x, s.at[x.id := |s.log|]);
      }
    }
    forall h | h in s.db.hosts && s.db.hosts[h].latest.Some?
      ensures s.db.hosts[h].latest.value in s.db.reports && s.db.reports[s.db.hosts[h].latest.value].sample.host == h
    {
      assert LatestFor(s.db.hosts[h], h, s.db.reports, s.log, s.at, s.since[h]);
    }
    StoreNewPayloads(s.db, w);
  }

  lemma AcceptKeepsRows(s: System, w: Write)
    requires Rows(s) && w.sample.host in s.db.hosts && w.sample.id !in s.db.reports
    ensures RowsKeyed(StoreNew(s.db, w).hosts.Keys, StoreNew(s.db, w).reports)
    ensures RowsPlaced(StoreNew(s.db, w).reports, s.log + [w.sample], s.place + [Raw], s.at[w.sample.id := |s.log|])
    ensures StoreNew(s.db, w).hosts.Keys == s.db.hosts.Keys
  {
    var x := w.sample;
    var row := ReportRow(x, if BecomesLatest(s.db, x) then Some(w.size) else None, None);
    AppendKeepsRows(s.db.hosts.Keys, s.db.reports, s.log, s.place, s.at, row);
    ClearKeepsRows(s.db.reports[x.id := row], s.db.hosts[x.host].latest, s.db.hosts.Keys,
                   s.log + [x], s.place + [Raw], s.at[x.id := |s.log|]);
    assert StoreNew(s.db, w).hosts.Keys == s.db.hosts.Keys;
  }

  lemma StoreReportKeepsLifecycle(db: Db, w: Write)
    requires LifecycleInv(db)
    ensures LifecycleInv(StoreReport(db, w).0)
  {
    var after := StoreReport(db, w).0;
    if after != db {
      UseKeeps(db, after, w.token, w.sample.received);
    }
  }

  /** Stamping the last use of a credential changes no guard. */
  lemma UseKeeps(db: Db, after: Db, token: Digest, received: Instant)
    requires LifecycleInv(db) && after.invites == db.invites && after.pairings == db.pairings
    requires after.hosts.Keys == db.hosts.Keys
    requires forall h :: h in db.hosts ==> after.hosts[h].active == db.hosts[h].active
    requires after.credentials == map c | c in db.credentials ::
               if db.credentials[c].token == token
                 then db.credentials[c].(lastUsed := Some(received)) else db.credentials[c]
    ensures LifecycleInv(after)
  {
    UseKeepsCredentials(db.credentials, after.credentials, token, received);
    assert forall h :: HostActive(after.hosts, h) == HostActive(db.hosts, h);
    forall p | p in after.pairings && after.pairings[p].status == Active ensures Truthful(after, after.pairings[p]) {
      assert Truthful(db, db.pairings[p]);
    }
  }

  lemma UseKeepsCredentials(before: map<Uuid, CredentialRow>, after: map<Uuid, CredentialRow>, token: Digest,
                            received: Instant)
    requires after == map c | c in before ::
                        if before[c].token == token then before[c].(lastUsed := Some(received)) else before[c]
    ensures forall c :: Live(after, c) == Live(before, c)
    ensures after.Keys == before.Keys
    ensures forall c :: c in before ==> after[c].host == before[c].host && after[c].token == before[c].token
    ensures forall h :: HasLive(after, h) == HasLive(before, h)
    ensures forall h, t :: LiveToken(after, h, t) == LiveToken(before, h, t)
    ensures forall t :: TokenIssued(after, t) == TokenIssued(before, t)
  {
    assert forall c :: Live(after, c) == Live(before, c);
    assert forall c :: c in before ==> after[c].host == before[c].host && after[c].token == before[c].token;
  }

  lemma AcceptKeeps(s: System, w: Write)
    requires Inv(s)
    ensures Inv(Accept(s, w))
  {
    hide UniqueKeys, OneLivePerHost, InvitesAgree, PendingTokensUnissued, ActivePairingsTruthful,
      PairingBounds, LatestIsGreatest, PayloadsHeld, RowsPlaced, RowsKeyed, HoursPlaced, ReportBounds;
    var (db, outcome) := StoreReport(s.db, w);
    if outcome.Stored? && outcome.accepted {
      StoreReportKeepsLifecycle(s.db, w);
      StoreReportKeepsBounds(s.db, w);
      AcceptKeepsRows(s, w);
      AcceptKeepsLatest(s, w);
      AppendKeepsHours(s.db.hosts.Keys, s.db.hourly, s.log, s.place, w.sample);
    }
  }

  // ---- every run ----

  lemma StartHolds()
    ensures Inv(START)
  {
    assert forall host :: RowsOf(START.db.reports, host) == {} && PayloadSizes(START.db.reports, host) == map[];
    assert PendingPairings(START.db.pairings) == {};
    assert forall device :: PendingFor(START.db.pairings, device) == {};
  }

  lemma CreateInviteSameReports(db: Db, inviteId: Uuid, instance: Uuid, code: Digest, storageOk: bool)
    ensures SameReports(db, CreateInvite(db, inviteId, instance, code, storageOk).0)
  {
  }

  lemma RotateSameReports(db: Db, inviteId: Uuid, code: Digest, now: Instant)
    ensures SameReports(db, RotateInvite(db, inviteId, code, now).0)
  {
  }

  lemma CancelSameReports(db: Db, inviteId: Uuid)
    requires CancelInvite(db, inviteId).1 != Deleted
    ensures SameReports(db, CancelInvite(db, inviteId).0)
  {
  }

  lemma CreatePairingSameReports(db: Db, request: PairingRequest, requestId: Uuid, now: Instant, createdAt: Instant,
                                 gone: seq<Uuid>, storageOk: bool)
    ensures SameReports(db, CreatePairing(db, request, requestId, now, createdAt, gone, storageOk).0)
  {
    hide Prunable, PendingPairings, PendingFor, ExpireAll, Without, TokenIssued, NewPairing, Matches;
  }

  lemma ExpirePairingSameReports(db: Db, requestId: Uuid, now: Instant)
    ensures SameReports(db, ExpirePairing(db, requestId, now))
  {
  }

  lemma InvParts(s: System)
    requires Inv(s)
    ensures LifecycleInv(s.db) && ReportBounds(s.db.reports) && Rows(s) && Hours(s) && Latest(s)
  {
  }

  lemma CreateInviteStep(s: System, inviteId: Uuid, instance: Uuid, code: Digest, storageOk: bool)
    requires Inv(s) && Enabled(s, CreateInviteEvent(inviteId, instance, code, storageOk))
    ensures Inv(s.(db := CreateInvite(s.db, inviteId, instance, code, storageOk).0))
  {
    CreateInviteKeeps(s.db, inviteId, instance, code, storageOk);
    CreateInviteSameReports(s.db, inviteId, instance, code, storageOk);
    FrameLedger(s, CreateInvite(s.db, inviteId, instance, code, storageOk).0);
  }

  lemma RotateStep(s: System, inviteId: Uuid, code: Digest, now: Instant)
    requires Inv(s)
    ensures Inv(s.(db := RotateInvite(s.db, inviteId, code, now).0))
  {
    RotateKeeps(s.db, inviteId, code, now);
    RotateSameReports(s.db, inviteId, code, now);
    FrameLedger(s, RotateInvite(s.db, inviteId, code, now).0);
  }

  lemma CancelStep(s: System, inviteId: Uuid)
    requires Inv(s) && CancelInvite(s.db, inviteId).1 != Deleted
    ensures Inv(s.(db := CancelInvite(s.db, inviteId).0))
  {
    CancelKeeps(s.db, inviteId);
    CancelSameReports(s.db, inviteId);
    FrameLedger(s, CancelInvite(s.db, inviteId).0);
  }

  lemma CreatePairingStep(s: System, request: PairingRequest, requestId: Uuid, now: Instant, createdAt: Instant,
                          gone: seq<Uuid>, storageOk: bool)
    requires Inv(s)
    ensures Inv(s.(db := CreatePairing(s.db, request, requestId, now, createdAt, gone, storageOk).0))
  {
    CreatePairingKeeps(s.db, request, requestId, now, createdAt, gone, storageOk);
    CreatePairingSameReports(s.db, request, requestId, now, createdAt, gone, storageOk);
    FrameLedger(s, CreatePairing(s.db, request, requestId, now, createdAt, gone, storageOk).0);
  }

  lemma ExpirePairingStep(s: System, requestId: Uuid, now: Instant)
    requires Inv(s)
    ensures Inv(s.(db := ExpirePairing(s.db, requestId, now)))
  {
    hide Inv, LifecycleInv, SameReports, ExpirePairing;
    assert LifecycleInv(s.db) by { InvParts(s); }
    Lifecycle.ExpireKeeps(s.db, requestId, now);
    ExpirePairingSameReports(s.db, requestId, now);
    FrameLedger(s, ExpirePairing(s.db, requestId, now));
  }

  lemma NextKeepsInv(s: System, e: Event)
    requires Inv(s) && Enabled(s, e)
    ensures Inv(Next(s, e))
  {
    hide Inv, Lifecycle.CreateInvite, RotateInvite, CreatePairing, ExpirePairing, StoreReport, Activate,
      DeleteHostRecords, RollUp, Purge, Expire, Prunable, ExpireAll;
    match e
    case CreateInviteEvent(inviteId, instance, code, storageOk) =>
      CreateInviteStep(s, inviteId, instance, code, storageOk);
    case RotateEvent(inviteId, code, now) => RotateStep(s, inviteId, code, now);
    case CancelEvent(inviteId) =>
      if CancelInvite(s.db, inviteId).1 == Deleted { EraseKeeps(s, s.db.invites[inviteId].instance); }
      else { CancelStep(s, inviteId); }
    case DeleteInviteEvent(inviteId) =>
      if inviteId in s.db.invites { EraseKeeps(s, s.db.invites[inviteId].instance); }
    case DeleteHostEvent(host) =>
      if host in s.db.hosts { EraseKeeps(s, host); }
    case CreatePairingEvent(request, requestId, now, createdAt, gone, storageOk) =>
      CreatePairingStep(s, request, requestId, now, createdAt, gone, storageOk);
    case ExpirePairingEvent(requestId, now) => ExpirePairingStep(s, requestId, now);
    case ActivateEvent(requestId, code, credentialId, now) => ActivateStepKeeps(s, requestId, code, credentialId, now);
    case ReportEvent(write) => AcceptKeeps(s, write);
    case RollUpEvent(cutoff, now, limit, batch) => RollUpKeeps(s, cutoff, limit, batch, now);
    case PurgeEvent(cutoff, limit, rows) => PurgeKeeps(s, cutoff, limit, rows);
    case ExpireEvent(cutoff, limit, hours) => ExpireKeeps(s, hours);
  }

  ghost predicate IsStep(s: System, e: Event, t: System) {
    |s.place| == |s.log| && Enabled(s, e) && t == Next(s, e)
  }

  ghost predicate StepAt(run: seq<System>, events: seq<Event>, n: nat) {
    n < |events| && n + 1 < |run| && IsStep(run[n], events[n], run[n + 1])
  }

  /** `run` is a history of committed transactions from an empty database; a crash only ends it early. */
  ghost predicate IsRun(run: seq<System>, events: seq<Event>) {
    && |run| == |events| + 1 && run[0] == START
    && forall n :: 0 <= n < |events| ==> StepAt(run, events, n)
  }

  /** Every state of every run, whatever the interleaving, satisfies all the invariants. */
  lemma {:induction false} EveryRunIsSafe(run: seq<System>, events: seq<Event>, n: nat)
    requires IsRun(run, events) && n < |run|
    ensures Inv(run[n])
    decreases n
  {
    hide Inv, Next, Enabled;
    if n == 0 {
      StartHolds();
    } else {
      EveryRunIsSafe(run, events, n - 1);
      assert StepAt(run, events, n - 1);
      NextKeepsInv(run[n - 1], events[n - 1]);
    }
  }

  ghost predicate EndsIn(run: seq<System>, events: seq<Event>, s: System) {
    IsRun(run, events) && run[|events|] == s
  }

  /** Some run ends in `s`. */
  ghost predicate Reachable(s: System) {
    |s.place| == |s.log| && exists run, events :: EndsIn(run, events, s)
  }

  lemma ReachableIsSafe(s: System)
    requires Reachable(s)
    ensures Inv(s)
  {
    hide Inv;
    var run, events :| EndsIn(run, events, s);
    EveryRunIsSafe(run, events, |events|);
  }

  lemma StartIsReachable()
    ensures Reachable(START)
  {
    assert EndsIn([START], [], START);
  }

  lemma NextIsReachable(s: System, e: Event)
    requires Reachable(s) && Enabled(s, e)
    ensures Reachable(Next(s, e))
  {
    var run, events :| EndsIn(run, events, s);
    var t := Next(s, e);
    assert |t.place| == |t.log| by {
      ReachableIsSafe(s);
      NextKeepsInv(s, e);
    }
    RunExtends(run, events, e, t);
  }

  lemma RunExtends(run: seq<System>, events: seq<Event>, e: Event, t: System)
    requires IsRun(run, events) && IsStep(run[|events|], e, t)
    ensures EndsIn(run + [t], events + [e], t)
  {
    var run', events' := run + [t], events + [e];
    forall n | 0 <= n < |events'| ensures StepAt(run', events', n) {
      if n < |events| {
        assert StepAt(run, events, n);
        assert run'[n] == run[n] && run'[n + 1] == run[n + 1] && events'[n] == events[n];
      }
    }
  }
}
