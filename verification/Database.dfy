/**
 * The store: one object whose fields are the tables, and one method per transaction. Each method
 * works step by step as the server does and is proved to commit exactly the step of the state
 * machine, so that every invariant holds after any sequence of calls.
 */
module Database {
  import opened Common
  import opened Schema
  import opened Totals
  import opened HourlyAggregates
  import opened Lifecycle
  import opened Reports
  import opened Retention
  import opened Selection
  import opened Ledger
  import opened History
  import opened Chart

  class Store {
    var hosts: map<Uuid, HostRow>
    var credentials: map<Uuid, CredentialRow>
    var invites: map<Uuid, InviteRow>
    var pairings: map<Uuid, PairingRow>
    var reports: map<Uuid, ReportRow>
    var hourly: map<BucketKey, HourlyRow>

    /** The history of this database: always a state some run reaches, with these tables. */
    ghost var system: System

    function View(): Db
      reads this
    {
      Db(hosts, credentials, invites, pairings, reports, hourly)
    }

    ghost predicate Valid()
      reads this
    {
      system.db == View() && Reachable(system)
    }

    constructor ()
      ensures Valid() && system == START
    {
      hosts, credentials, invites, pairings, reports, hourly := map[], map[], map[], map[], map[], map[];
      system := START;
      StartIsReachable();
    }

    /** Records that the transaction just performed is the step `e`. */
    ghost method Commit(e: Event)
      requires Reachable(system) && Enabled(system, e) && Next(system, e).db == View()
      modifies this`system
      ensures Valid() && system == old(Next(system, e))
    {
      NextIsReachable(system, e);
      system := Next(system, e);
    }

    // ---- invites ----

    method InviteTables(inviteId: Uuid, instance: Uuid, code: Digest, storageOk: bool) returns (outcome: InviteOutcome)
      modifies this`invites
      ensures (View(), outcome) == old(Lifecycle.CreateInvite(View(), inviteId, instance, code, storageOk))
    {
      if |invites| >= MAX_INVITES || !storageOk { return Exhausted; }
      if exists i :: i in invites && invites[i].instance == instance && invites[i].status == InvitePending {
        return InviteConflict;
      }
      if inviteId in invites || exists i :: i in invites && invites[i].code == code { return ConstraintFailed; }
      invites := invites[inviteId := InviteRow(instance, code, Sealed(instance, code), InvitePending)];
      return Created;
    }

    method CreateInvite(inviteId: Uuid, instance: Uuid, code: Digest, storageOk: bool) returns (outcome: InviteOutcome)
      requires Valid() && instance !in hosts && forall i :: i in invites ==> invites[i].instance != instance
      modifies this
      ensures Valid() && system == old(Next(system, CreateInviteEvent(inviteId, instance, code, storageOk)))
      ensures (View(), outcome) == old(Lifecycle.CreateInvite(View(), inviteId, instance, code, storageOk))
    {
      outcome := InviteTables(inviteId, instance, code, storageOk);
      Commit(CreateInviteEvent(inviteId, instance, code, storageOk));
    }

    method RotateTables(inviteId: Uuid, code: Digest, now: Instant) returns (outcome: RotateOutcome)
      modifies this
      ensures (View(), outcome) == old(Lifecycle.RotateInvite(View(), inviteId, code, now)) && system == old(system)
    {
      if inviteId !in invites || invites[inviteId].status == InviteCancelled { return RotateNotFound; }
      var h := invites[inviteId].instance;
      if exists i :: i in invites && i != inviteId
           && (invites[i].code == code || (invites[i].instance == h && invites[i].status == InvitePending)) {
        return RotateConstraintFailed;
      }
      invites := invites[inviteId := InviteRow(h, code, Sealed(h, code), InvitePending)];
      credentials := RevokeCredentials(credentials, h, now);
      pairings := DenyActive(pairings, h);
      if h in hosts {
        hosts := hosts[h := hosts[h].(active := false, revokedAt := Some(now))];
      }
      return Rotated;
    }

    method RotateInvite(inviteId: Uuid, code: Digest, now: Instant) returns (outcome: RotateOutcome)
      requires Valid()
      modifies this
      ensures Valid() && system == old(Next(system, RotateEvent(inviteId, code, now)))
      ensures (View(), outcome) == old(Lifecycle.RotateInvite(View(), inviteId, code, now))
    {
      outcome := RotateTables(inviteId, code, now);
      Commit(RotateEvent(inviteId, code, now));
    }

    /** Three deletes; the last one cascades to credentials, reports and hourly rows. */
    method DeleteRecords(host: Uuid)
      modifies this
      ensures View() == old(DeleteHostRecords(View(), host)) && system == old(system)
    {
      pairings := map p | p in pairings && pairings[p].instance != Some(host) && pairings[p].requestedHost != host ::
                    pairings[p];
      invites := map i | i in invites && invites[i].instance != host :: invites[i];
      hosts := map h | h in hosts && h != host :: hosts[h];
      credentials := map c | c in credentials && credentials[c].host != host :: credentials[c];
      reports := map r | r in reports && reports[r].sample.host != host :: reports[r];
      hourly := map k | k in hourly && k.0 != host :: hourly[k];
    }

    method CancelInvite(inviteId: Uuid) returns (outcome: CancelOutcome)
      requires Valid()
      modifies this
      ensures Valid() && system == old(Next(system, CancelEvent(inviteId)))
      ensures (View(), outcome) == old(Lifecycle.CancelInvite(View(), inviteId))
    {
      if inviteId !in invites {
        outcome := CancelNotFound;
      } else if invites[inviteId].status == InviteCancelled {
        DeleteRecords(invites[inviteId].instance);
        outcome := Deleted;
      } else if invites[inviteId].status != InvitePending {
        outcome := NotPending;
      } else {
        invites := invites[inviteId := invites[inviteId].(status := InviteCancelled)];
        outcome := Cancelled;
      }
      Commit(CancelEvent(inviteId));
    }

    method DeleteInvite(inviteId: Uuid) returns (deleted: bool)
      requires Valid()
      modifies this
      ensures Valid() && system == old(Next(system, DeleteInviteEvent(inviteId)))
      ensures (View(), deleted) == old(Lifecycle.DeleteInvite(View(), inviteId))
    {
      deleted := inviteId in invites;
      if deleted {
        DeleteRecords(invites[inviteId].instance);
      }
      Commit(DeleteInviteEvent(inviteId));
    }

    method DeleteHost(host: Uuid) returns (deleted: bool)
      requires Valid()
      modifies this
      ensures Valid() && system == old(Next(system, DeleteHostEvent(host)))
      ensures (View(), deleted) == old(Lifecycle.DeleteHost(View(), host))
    {
      deleted := host in hosts;
      if deleted {
        DeleteRecords(host);
      }
      Commit(DeleteHostEvent(host));
    }

    // ---- pairing ----

    /** A request with a known polling secret. */
    method RepeatRequest(p: Uuid, request: PairingRequest, now: Instant) returns (outcome: PairingOutcome)
      requires p in pairings
      modifies this
      ensures (View(), outcome) == old(RepeatPairing(View(), p, request, now)) && system == old(system)
    {
      var row := pairings[p];
      if !Matches(row, request) || row.status == Denied { return PairingConflict; }
      if row.status == Expired { return PairingExpired; }
      if row.status == Pending && row.expiresAt <= now {
        pairings := pairings[p := row.(status := Expired)];
        return PairingExpired;
      }
      if row.status != Pending { return PairingConflict; }
      return Ready(p, row.expiresAt, false);
    }

    /** A request with a new polling secret: expire, prune, check the three limits, insert. */
    method AdmitRequest(request: PairingRequest, requestId: Uuid, now: Instant, createdAt: Instant, storageOk: bool)
      returns (outcome: PairingOutcome, ghost gone: seq<Uuid>)
      modifies this
      ensures IsFirst(gone, old(Prunable(ExpireAll(pairings, now), now)), PRUNE_BATCH)
      ensures (View(), outcome) == old(AdmitPairing(View(), request, requestId, now, createdAt, gone, storageOk))
              && system == old(system)
    {
      var saved := pairings;
      pairings := ExpireAll(pairings, now);
      var pruned := OrderedLimit(Prunable(pairings, now), PRUNE_BATCH);
      gone := pruned;
      pairings := Without(pairings, pruned);
      if |pairings| >= MAX_PAIRINGS || !storageOk || |PendingPairings(pairings)| >= MAX_PENDING {
        return AtCapacity, gone;
      }
      if |PendingFor(pairings, request.requestedHost)| >= MAX_PENDING_PER_DEVICE { return DeviceAtCapacity, gone; }
      if requestId in pairings
        || exists p :: p in pairings && (pairings[p].token == request.token || pairings[p].secret == request.secret) {
        pairings := saved;
        return PairingConflict, gone;
      }
      pairings := pairings[requestId := NewPairing(request, createdAt)];
      return Ready(requestId, createdAt + PAIRING_LIFETIME, true), gone;
    }

    method PairingTables(request: PairingRequest, requestId: Uuid, now: Instant, createdAt: Instant, storageOk: bool)
      returns (outcome: PairingOutcome, ghost gone: seq<Uuid>)
      requires UniquePairings(pairings)
      modifies this
      ensures old(TokenIssued(credentials, request.token) || SecretKnown(pairings, request.secret)
                  || IsFirst(gone, Prunable(ExpireAll(pairings, now), now), PRUNE_BATCH))
      ensures system == old(system)
      ensures (View(), outcome) ==
              old(Lifecycle.CreatePairing(View(), request, requestId, now, createdAt, gone, storageOk))
    {
      gone := [];
      if TokenIssued(credentials, request.token) { return PairingConflict, gone; }
      if SecretKnown(pairings, request.secret) {
        var p :| p in pairings && pairings[p].secret == request.secret;
        SecretIsUnique(View(), request, requestId, now, createdAt, gone, storageOk, p);
        outcome := RepeatRequest(p, request, now);
      } else {
        outcome, gone := AdmitRequest(request, requestId, now, createdAt, storageOk);
      }
    }

    lemma SecretIsUnique(db: Db, request: PairingRequest, requestId: Uuid, now: Instant, createdAt: Instant,
                         gone: seq<Uuid>, storageOk: bool, p: Uuid)
      requires UniquePairings(db.pairings) && !TokenIssued(db.credentials, request.token)
      requires p in db.pairings && db.pairings[p].secret == request.secret
      ensures Lifecycle.CreatePairing(db, request, requestId, now, createdAt, gone, storageOk) ==
              RepeatPairing(db, p, request, now)
    {
    }

    method CreatePairing(request: PairingRequest, requestId: Uuid, now: Instant, createdAt: Instant, storageOk: bool)
      returns (outcome: PairingOutcome, ghost gone: seq<Uuid>)
      requires Valid() && requestId !in pairings
      modifies this
      ensures old(Enabled(system, CreatePairingEvent(request, requestId, now, createdAt, gone, storageOk)))
      ensures Valid() && system ==
              old(Next(system, CreatePairingEvent(request, requestId, now, createdAt, gone, storageOk)))
      ensures (View(), outcome) ==
              old(Lifecycle.CreatePairing(View(), request, requestId, now, createdAt, gone, storageOk))
    {
      assert UniquePairings(pairings) by { ReachableIsSafe(system); }
      outcome, gone := PairingTables(request, requestId, now, createdAt, storageOk);
      Commit(CreatePairingEvent(request, requestId, now, createdAt, gone, storageOk));
    }

    method ExpirePairing(requestId: Uuid, now: Instant)
      requires Valid()
      modifies this
      ensures Valid() && system == old(Next(system, ExpirePairingEvent(requestId, now)))
      ensures View() == old(Lifecycle.ExpirePairing(View(), requestId, now))
    {
      if requestId in pairings && pairings[requestId].status == Pending && pairings[requestId].expiresAt <= now {
        pairings := pairings[requestId := pairings[requestId].(status := Expired)];
      }
      Commit(ExpirePairingEvent(requestId, now));
    }

    method HostForToken(token: Digest) returns (host: Option<Uuid>)
      requires Valid()
      ensures host.Some? ==> Resolves(View(), token, host.value)
      ensures host.None? ==> forall h :: !Resolves(View(), token, h)
    {
      host := None;
      if exists c :: c in credentials && credentials[c].token == token && credentials[c].revokedAt.None?
           && HostActive(hosts, credentials[c].host) {
        var c :| c in credentials && credentials[c].token == token && credentials[c].revokedAt.None?
          && HostActive(hosts, credentials[c].host);
        host := Some(credentials[c].host);
      }
    }

    // ---- activation ----

    method ActivateTables(requestId: Uuid, code: Digest, credentialId: Uuid, now: Instant)
      returns (outcome: ActivateOutcome)
      requires UniqueInvites(invites)
      modifies this
      ensures (View(), outcome) == old(Lifecycle.Activate(View(), requestId, code, credentialId, now))
              && system == old(system)
    {
      if requestId !in pairings { return ActivateNotFound; }
      if !CodeTaken(invites, code) { return InvalidCode; }
      var i :| i in invites && invites[i].code == code;
      CodeIsUnique(View(), requestId, code, credentialId, now, i);
      outcome := ActivateInvite(requestId, i, credentialId, now);
    }

    lemma CodeIsUnique(db: Db, p: Uuid, code: Digest, credentialId: Uuid, now: Instant, i: Uuid)
      requires UniqueInvites(db.invites) && p in db.pairings && i in db.invites && db.invites[i].code == code
      ensures Lifecycle.Activate(db, p, code, credentialId, now) == ActivateWith(db, p, i, credentialId, now)
    {
    }

    method ActivateInvite(p: Uuid, i: Uuid, credentialId: Uuid, now: Instant) returns (outcome: ActivateOutcome)
      requires p in pairings && i in invites
      modifies this
      ensures (View(), outcome) == old(ActivateWith(View(), p, i, credentialId, now)) && system == old(system)
    {
      var pairing, invite := pairings[p], invites[i];
      var h := if pairing.mode == Fresh then invite.instance else pairing.requestedHost;
      if pairing.status == Active {
        var same := pairing.invite == Some(i) && pairing.instance == Some(h);
        return if same && LiveToken(credentials, h, pairing.token) then Activated(h) else ActivateConflict;
      }
      if pairing.status != Pending || invite.status != InvitePending { return ActivateConflict; }
      if pairing.expiresAt <= now { return ActivateExpired; }
      if pairing.mode == RecoverIdentity {
        var claimed := exists j :: j in invites && invites[j].instance == h && j != i;
        if claimed || HasLive(credentials, h) || (h in hosts && (hosts[h].active || invite.instance != h)) {
          return ActivateConflict;
        }
        if invite.instance != h && invite.sealed.owner != invite.instance { return DecryptFailed; }
      }
      // Nothing is written before the inserts are known to succeed; a failed insert rolls all of it back.
      if credentialId in credentials || TokenIssued(credentials, pairing.token) { return ActivateConstraintFailed; }
      if invite.instance != h {
        invites := invites[i := invite.(instance := h, sealed := Sealed(h, invite.sealed.code))];
      }
      if h in hosts && hosts[h].latest.Some? && hosts[h].latest.value in reports {
        var r := hosts[h].latest.value;
        reports := reports[r := reports[r].(payload := None)];
      }
      hosts := hosts[h := HostRow(true, None, None, None, now)];
      credentials := credentials[credentialId := CredentialRow(h, pairing.token, None, None)];
      pairings := pairings[p := pairing.(status := Active, invite := Some(i), instance := Some(h))];
      invites := invites[i := invites[i].(status := InviteActive)];
      assert invites == old(ActivateWith(View(), p, i, credentialId, now).0.invites);
      return Activated(h);
    }

    method Activate(requestId: Uuid, code: Digest, credentialId: Uuid, now: Instant) returns (outcome: ActivateOutcome)
      requires Valid()
      modifies this
      ensures Valid() && system == old(Next(system, ActivateEvent(requestId, code, credentialId, now)))
      ensures (View(), outcome) == old(Lifecycle.Activate(View(), requestId, code, credentialId, now))
    {
      assert UniqueInvites(invites) by { ReachableIsSafe(system); }
      outcome := ActivateTables(requestId, code, credentialId, now);
      Commit(ActivateEvent(requestId, code, credentialId, now));
    }

    // ---- reports ----

    /** `SELECT SUM(length(payload))` over the rows of one host. */
    method RetainedBytes(host: Uuid) returns (total: nat)
      ensures total == Retained(reports, host)
    {
      var sizes := PayloadSizes(reports, host);
      total := 0;
      while sizes != map[]
        invariant total + TotalNat(sizes) == Retained(reports, host)
        decreases |sizes|
      {
        var r :| r in sizes;
        TotalNatStep(sizes, r);
        assert (sizes - {r}).Keys == sizes.Keys - {r};
        total := total + sizes[r];
        sizes := sizes - {r};
      }
    }

    method Admit(w: Write, payload: nat) returns (ok: bool)
      ensures ok == Admitted(reports, w, payload)
    {
      if w.sample.id in reports { return true; }
      var rows := |RowsOf(reports, w.sample.host)|;
      var retained := RetainedBytes(w.sample.host);
      return rows < HOST_REPORTS && |reports| < TOTAL_REPORTS && Charge(rows, retained, payload) <= HOST_BYTES
             && w.storageOk;
    }

    /**
     * One report inside a savepoint. On `StatementFailed` the insert has already happened: it is
     * the caller's rollback that undoes it.
     */
    method StoreReportInTransaction(w: Write) returns (outcome: ReportOutcome)
      modifies this
      ensures outcome == old(StoreReport(View(), w)).1 && system == old(system)
      ensures outcome.Stored? ==> View() == old(StoreReport(View(), w)).0
    {
      hide BecomesLatest, Admitted, StoreNew;
      var s := w.sample;
      if !(HostActive(hosts, s.host) && LiveToken(credentials, s.host, w.token)) { return Unauthorized; }
      var host := hosts[s.host];
      var becomes := BecomesLatest(View(), s);
      var ok := Admit(w, if becomes then w.size else 0);
      if !ok { return ReportsExhausted; }
      if s.id in reports {
        var stored := reports[s.id].sample;
        return if stored.host == s.host then Stored(false, stored.received) else ReportIdConflict;
      }
      InsertReport(w, becomes);
      return if w.broken then StatementFailed else Stored(true, s.received);
    }

    /** The insert and, unless a later statement fails, the updates of host, latest payload and credential. */
    method InsertReport(w: Write, becomes: bool)
      requires w.sample.host in hosts && w.sample.id !in reports && becomes == BecomesLatest(View(), w.sample)
      modifies this`hosts, this`credentials, this`reports
      ensures !w.broken ==> View() == old(StoreNew(View(), w))
    {
      hide BecomesLatest;
      var s := w.sample;
      var host := hosts[s.host];
      reports := reports[s.id := ReportRow(s, if becomes then Some(w.size) else None, None)];
      if w.broken { return; }
      hosts := hosts[s.host := host.(lastSeen := Later(host.lastSeen, s.received))];
      if becomes {
        hosts := hosts[s.host := hosts[s.host].(latest := Some(s.id), latestCollected := Some(s.collected))];
        if host.latest.Some? && host.latest.value != s.id && host.latest.value in reports {
          reports := reports[host.latest.value := reports[host.latest.value].(payload := None)];
        }
      }
      credentials := map c | c in credentials ::
        if credentials[c].token == w.token then credentials[c].(lastUsed := Some(s.received)) else credentials[c];
    }

    /** A writer batch in one transaction, with a savepoint around every report. */
    method StoreReportBatch(writes: seq<Write>) returns (outcomes: seq<ReportOutcome>)
      requires Valid()
      modifies this
      ensures Valid() && system == old(AcceptAll(system, writes))
      ensures (View(), outcomes) == old(StoreBatch(View(), writes))
    {
      outcomes := [];
      assert writes[..0] == [];
      for i := 0 to |writes|
        invariant Valid() && system == old(AcceptAll(system, writes[..i]))
        invariant (View(), outcomes) == old(StoreBatch(View(), writes[..i]))
      {
        var outcome := Savepoint(writes[i]);
        outcomes := outcomes + [outcome];
        assert writes[..i + 1][..i] == writes[..i];
      }
      assert writes[..|writes|] == writes;
    }

    /** Begin, store, and either release or roll back. */
    method Savepoint(w: Write) returns (outcome: ReportOutcome)
      requires Valid()
      modifies this
      ensures Valid() && system == old(Accept(system, w))
      ensures (View(), outcome) == old(StoreReport(View(), w))
    {
      var savedHosts, savedCredentials, savedReports := hosts, credentials, reports;
      var savedInvites, savedPairings, savedHourly := invites, pairings, hourly;
      outcome := StoreReportInTransaction(w);
      if !outcome.Stored? {
        hosts, credentials, reports := savedHosts, savedCredentials, savedReports;
        invites, pairings, hourly := savedInvites, savedPairings, savedHourly;
      }
      Commit(ReportEvent(w));
    }

    // ---- retention ----

    /** Folds the batch into in-memory hourly aggregates, one object per host and hour. */
    method FillBuckets(batch: seq<Uuid>) returns (buckets: map<BucketKey, HourlyAggregate>)
      requires forall r :: r in batch ==> r in reports
      ensures buckets.Keys == Accumulate(reports, batch).Keys
      ensures forall k :: k in buckets ==> fresh(buckets[k]) && buckets[k].View() == Accumulate(reports, batch)[k]
    {
      buckets := map[];
      assert batch[..0] == [];
      for i := 0 to |batch|
        invariant buckets.Keys == Accumulate(reports, batch[..i]).Keys
        invariant forall k :: k in buckets ==>
                    fresh(buckets[k]) && buckets[k].View() == Accumulate(reports, batch[..i])[k]
        invariant forall j, k :: j in buckets && k in buckets && j != k ==> buckets[j] != buckets[k]
      {
        var sample := reports[batch[i]].sample;
        var key := KeyOf(sample);
        assert batch[..i + 1][..i] == batch[..i];
        assert Accumulate(reports, batch[..i + 1]) == AddTo(Accumulate(reports, batch[..i]), sample);
        if key in buckets {
          buckets[key].Record(sample);
        } else {
          var aggregate := new HourlyAggregate(sample);
          buckets := buckets[key := aggregate];
        }
      }
      assert batch[..|batch|] == batch;
    }

    /** The finished buckets as the rows to upsert. */
    method BatchRows(batch: seq<Uuid>) returns (rows: map<BucketKey, HourlyRow>)
      requires forall r :: r in batch ==> r in reports
      ensures rows == Accumulate(reports, batch)
    {
      var buckets := FillBuckets(batch);
      rows := map k | k in buckets :: buckets[k].View();
    }

    method RollUpTables(cutoff: Instant, now: Instant, limit: nat) returns (batch: seq<Uuid>)
      modifies this`reports, this`hourly
      ensures IsFirst(batch, old(RollUpCandidates(View(), cutoff)), limit)
      ensures View() == RollUp(old(View()), batch, now)
    {
      batch := OrderedLimit(RollUpCandidates(View(), cutoff), limit);
      var rows := BatchRows(batch);
      hourly := UpsertAll(hourly, rows);
      reports := Mark(reports, batch, now);
    }

    method AggregateRawBatch(cutoff: Instant, now: Instant, limit: nat) returns (rolled: nat, ghost batch: seq<Uuid>)
      requires Valid()
      modifies this
      ensures IsFirst(batch, old(RollUpCandidates(View(), cutoff)), limit) && rolled == |batch|
      ensures Valid() && system == Next(old(system), RollUpEvent(cutoff, now, limit, batch))
      ensures View() == RollUp(old(View()), batch, now)
      ensures MarksOldest(old(View()), View(), SetOf(batch), cutoff, now, limit) && rolled == |SetOf(batch)|
    {
      hide MarksOldest, IsFirst, RollUp, RollUpCandidates;
      var chosen := RollUpTables(cutoff, now, limit);
      rolled, batch := |chosen|, chosen;
      ChosenAreStored(old(View()), batch, cutoff, limit);
      RollUpMarksOldest(old(View()), batch, cutoff, now, limit);
      Commit(RollUpEvent(cutoff, now, limit, batch));
    }

    method PurgeTables(cutoff: Instant, limit: nat) returns (rows: seq<Uuid>)
      modifies this`reports
      ensures IsFirst(rows, old(PurgeCandidates(View(), cutoff)), limit)
      ensures View() == Purge(old(View()), rows)
    {
      rows := OrderedLimit(PurgeCandidates(View(), cutoff), limit);
      reports := map r | r in reports && r !in rows :: reports[r];
    }

    method DeleteAggregatedRawBatch(cutoff: Instant, limit: nat) returns (deleted: nat, ghost rows: seq<Uuid>)
      requires Valid()
      modifies this
      ensures IsFirst(rows, old(PurgeCandidates(View(), cutoff)), limit) && deleted == |rows|
      ensures Valid() && system == Next(old(system), PurgeEvent(cutoff, limit, rows))
      ensures View() == Purge(old(View()), rows)
      ensures DeletesOldest(old(View()), View(), SetOf(rows), cutoff, limit) && deleted == |SetOf(rows)|
    {
      hide DeletesOldest, IsFirst, Purge, PurgeCandidates;
      var chosen := PurgeTables(cutoff, limit);
      deleted, rows := |chosen|, chosen;
      PurgeDeletesOldest(old(View()), rows, cutoff, limit);
      Commit(PurgeEvent(cutoff, limit, rows));
    }

    method ExpireTables(cutoff: Instant, limit: nat) returns (hours: seq<BucketKey>)
      modifies this`hourly
      ensures IsFirst(hours, old(ExpiryCandidates(View(), cutoff)), limit)
      ensures View() == Expire(old(View()), hours)
    {
      hours := OrderedLimit(ExpiryCandidates(View(), cutoff), limit);
      hourly := map k | k in hourly && k !in hours :: hourly[k];
    }

    method DeleteExpiredAggregateBatch(cutoff: Instant, limit: nat) returns (deleted: nat, ghost hours: seq<BucketKey>)
      requires Valid()
      modifies this
      ensures IsFirst(hours, old(ExpiryCandidates(View(), cutoff)), limit) && deleted == |hours|
      ensures Valid() && system == Next(old(system), ExpireEvent(cutoff, limit, hours))
      ensures View() == Expire(old(View()), hours)
      ensures ExpiresOldest(old(View()), View(), SetOf(hours), cutoff, limit) && deleted == |SetOf(hours)|
    {
      hide ExpiresOldest, IsFirst, Expire, ExpiryCandidates;
      var chosen := ExpireTables(cutoff, limit);
      deleted, hours := |chosen|, chosen;
      ExpiryDeletesOldest(old(View()), hours, cutoff, limit);
      Commit(ExpireEvent(cutoff, limit, hours));
    }

    // ---- any transaction ----

    /** New identifiers are random, hence new. */
    predicate MayPerform(e: Event)
      reads this
    {
      match e
      case CreateInviteEvent(_, instance, _, _) =>
        instance !in hosts && forall i :: i in invites ==> invites[i].instance != instance
      case CreatePairingEvent(_, requestId, _, _, _, _) => requestId !in pairings
      case _ => true
    }

    /** The same transaction with the same arguments, except for the rows its limited statements take. */
    ghost predicate SameCall(t: Event, e: Event) {
      match t
      case CreatePairingEvent(_, _, _, _, _, _) => e.CreatePairingEvent? && e == t.(gone := e.gone)
      case RollUpEvent(_, _, _, _) => e.RollUpEvent? && e == t.(batch := e.batch)
      case PurgeEvent(_, _, _) => e.PurgeEvent? && e == t.(rows := e.rows)
      case ExpireEvent(_, _, _) => e.ExpireEvent? && e == t.(hours := e.hours)
      case _ => e == t
    }

    /** One transaction with the arguments of `t`; the rows of its limited statements are the store's own choice. */
    method Perform(t: Event) returns (ghost e: Event)
      requires Valid() && MayPerform(t)
      modifies this
      ensures SameCall(t, e) && Valid() && old(Enabled(system, e)) && system == old(Next(system, e))
    {
      hide Reachable, RollUpCandidates, PurgeCandidates, ExpiryCandidates, Prunable, ExpireAll, IsFirst, Accept,
        Lifecycle.CreateInvite, Lifecycle.RotateInvite, Lifecycle.CancelInvite, Lifecycle.DeleteInvite,
        Lifecycle.DeleteHost, Lifecycle.CreatePairing, Lifecycle.ExpirePairing, Lifecycle.Activate, StoreReport,
        RollUp, Purge, Expire, Erase,
        ActivateStep, RollUpStep, PurgeStep, ExpireStep;
      e := t;
      match t {
        case CreateInviteEvent(inviteId, instance, code, storageOk) =>
          var _ := CreateInvite(inviteId, instance, code, storageOk);
        case RotateEvent(inviteId, code, now) => var _ := RotateInvite(inviteId, code, now);
        case CancelEvent(inviteId) => var _ := CancelInvite(inviteId);
        case DeleteInviteEvent(inviteId) => var _ := DeleteInvite(inviteId);
        case DeleteHostEvent(host) => var _ := DeleteHost(host);
        case CreatePairingEvent(request, requestId, now, createdAt, _, storageOk) => {
          var _, gone := CreatePairing(request, requestId, now, createdAt, storageOk);
          e := CreatePairingEvent(request, requestId, now, createdAt, gone, storageOk);
        }
        case ExpirePairingEvent(requestId, now) => ExpirePairing(requestId, now);
        case ActivateEvent(requestId, code, credentialId, now) => var _ := Activate(requestId, code, credentialId, now);
        case ReportEvent(write) => {
          var _ := Savepoint(write);
        }
        case RollUpEvent(cutoff, now, limit, _) => {
          var _, batch := AggregateRawBatch(cutoff, now, limit);
          e := RollUpEvent(cutoff, now, limit, batch);
        }
        case PurgeEvent(cutoff, limit, _) => {
          var _, rows := DeleteAggregatedRawBatch(cutoff, limit);
          e := PurgeEvent(cutoff, limit, rows);
        }
        case ExpireEvent(cutoff, limit, _) => {
          var _, hours := DeleteExpiredAggregateBatch(cutoff, limit);
          e := ExpireEvent(cutoff, limit, hours);
        }
      }
    }

    // ---- charts ----

    /** The history query inside one read transaction: a chart of the samples accepted so far. */
    method HistorySeries(host: Uuid, from: Instant, to: Instant, maxPoints: nat) returns (r: SeriesResult)
      requires Valid() && from <= to && maxPoints >= 1
      ensures IsAnswer(system, host, from, to, maxPoints, r)
      ensures from < to && to - from <= 31 * DAY && 100 <= maxPoints <= 1000 ==> !r.OutOfBudget?
    {
      hide IsAnswer, Inv;
      assert Rows(system) && Hours(system) by { ReachableIsSafe(system); InvParts(system); }
      r := Chart.HistorySeries(View(), host, from, to, maxPoints, system);
    }
  }
}
