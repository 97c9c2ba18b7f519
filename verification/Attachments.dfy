/** When a host keeps the invite that names it, and an active host the request it was activated by. */
module Attachments {
  import opened Common
  import opened Schema
  import opened Lifecycle
  import opened Outcomes
  import opened Reports
  import opened Retention
  import opened Ledger
  import opened Promises

  // ---- what a transaction deletes ----

  /** The host whose records the transaction deletes. */
  function Doomed(db: Db, e: Event): Option<Uuid> {
    match e
    case CancelEvent(i) =>
      if i in db.invites && db.invites[i].status == InviteCancelled then Some(db.invites[i].instance) else None
    case DeleteInviteEvent(i) => if i in db.invites then Some(db.invites[i].instance) else None
    case DeleteHostEvent(h) => if h in db.hosts then Some(h) else None
    case _ => None
  }

  lemma DoomedIsDeleted(s: System, e: Event)
    requires |s.place| == |s.log| && Enabled(s, e) && Doomed(s.db, e).Some?
    ensures Next(s, e).db == DeleteHostRecords(s.db, Doomed(s.db, e).value)
  {
    hide DeleteHostRecords;
  }

  // ---- invites ----

  ghost predicate Invited(db: Db, h: Uuid) { exists i :: i in db.invites && db.invites[i].instance == h }

  ghost predicate AllInvited(db: Db) { forall h :: h in db.hosts ==> Invited(db, h) }

  /** An activation that is about to move the invite of `h` to the identity a request wants back. */
  ghost predicate RebindsAway(db: Db, e: Event, h: Uuid) {
    && e.ActivateEvent? && e.credentialId !in db.credentials
    && exists i :: MayActivate(db, e.requestId, i, e.code, e.now) && db.invites[i].instance == h
         && db.pairings[e.requestId].mode == RecoverIdentity && db.pairings[e.requestId].requestedHost != h
  }

  /** The hosts stay, and with them who is named by an invite. */
  ghost predicate KeepsInvites(db: Db, after: Db) {
    after.hosts.Keys == db.hosts.Keys && forall h :: h in db.hosts ==> (Invited(after, h) <==> Invited(db, h))
  }

  lemma SameInvitesKeep(db: Db, after: Db)
    requires after.hosts.Keys == db.hosts.Keys && after.invites == db.invites
    ensures KeepsInvites(db, after)
  {
  }

  lemma SameInstancesKeep(db: Db, after: Db)
    requires after.hosts.Keys == db.hosts.Keys && after.invites.Keys == db.invites.Keys
    requires forall i :: i in db.invites ==> after.invites[i].instance == db.invites[i].instance
    ensures KeepsInvites(db, after)
  {
  }

  lemma CreateKeepsInvites(db: Db, inviteId: Uuid, instance: Uuid, code: Digest, storageOk: bool)
    requires instance !in db.hosts
    ensures KeepsInvites(db, CreateInvite(db, inviteId, instance, code, storageOk).0)
  {
    var after := CreateInvite(db, inviteId, instance, code, storageOk).0;
    forall h | h in db.hosts ensures Invited(after, h) <==> Invited(db, h) {
      if i :| i in db.invites && db.invites[i].instance == h {
        assert i in after.invites && after.invites[i] == db.invites[i];
      }
    }
  }

  lemma IngestKeepsInvites(db: Db, w: Write)
    ensures StoreReport(db, w).0.invites == db.invites && StoreReport(db, w).0.pairings == db.pairings
    ensures StoreReport(db, w).0.hosts.Keys == db.hosts.Keys
    ensures forall h :: HostActive(StoreReport(db, w).0.hosts, h) == HostActive(db.hosts, h)
  {
  }

  lemma PairingsOnly(db: Db, request: PairingRequest, requestId: Uuid, now: Instant, createdAt: Instant,
                     gone: seq<Uuid>, storageOk: bool)
    ensures var after := CreatePairing(db, request, requestId, now, createdAt, gone, storageOk).0;
            after == db.(pairings := after.pairings)
  {
    hide Prunable, PendingPairings, PendingFor, ExpireAll, Without, TokenIssued, NewPairing, Matches;
  }

  lemma OthersKeepInvites(s: System, e: Event)
    requires |s.place| == |s.log| && Enabled(s, e) && !e.ActivateEvent? && Doomed(s.db, e).None?
    ensures KeepsInvites(s.db, Next(s, e).db)
  {
    hide KeepsInvites, Lifecycle.CreatePairing, StoreReport, Accumulate, DeleteHostRecords, ActivateStep;
    var after := Next(s, e).db;
    match e
    case ActivateEvent(_, _, _, _) =>
    case CreateInviteEvent(inviteId, instance, code, storageOk) =>
      CreateKeepsInvites(s.db, inviteId, instance, code, storageOk);
    case RotateEvent(inviteId, code, now) => SameInstancesKeep(s.db, after);
    case CancelEvent(inviteId) => SameInstancesKeep(s.db, after);
    case CreatePairingEvent(request, requestId, now, createdAt, gone, storageOk) => {
      PairingsOnly(s.db, request, requestId, now, createdAt, gone, storageOk);
      SameInvitesKeep(s.db, after);
    }
    case ReportEvent(w) => {
      IngestKeepsInvites(s.db, w);
      AcceptDb(s, w);
      SameInvitesKeep(s.db, after);
    }
    case _ => SameInvitesKeep(s.db, after);
  }

  lemma DeletionKeepsInvites(db: Db, d: Uuid, h: Uuid)
    requires h != d
    ensures Invited(DeleteHostRecords(db, d), h) <==> Invited(db, h)
  {
    var after := DeleteHostRecords(db, d);
    if i :| i in db.invites && db.invites[i].instance == h { assert i in after.invites; }
  }

  /** A successful activation takes the invite along, and the claimed identity was nobody's. */
  lemma ActivationMovesInvite(db: Db, p: Uuid, i: Uuid, code: Digest, c: Uuid, now: Instant, h: Uuid)
    requires LifecycleInv(db) && MayActivate(db, p, i, code, now) && c !in db.credentials
    requires ActivateWith(db, p, i, c, now).1.Activated?
    ensures var (after, outcome) := ActivateWith(db, p, i, c, now);
            && outcome.instance == InstanceFor(db.pairings[p], db.invites[i])
            && after.hosts.Keys == db.hosts.Keys + {outcome.instance}
            && Invited(after, outcome.instance)
            && (h in db.hosts && h != outcome.instance ==>
                  (Invited(after, h) <==> Invited(db, h) && db.invites[i].instance != h))
            && (outcome.instance in db.hosts ==> db.invites[i].instance == outcome.instance)
  {
    hide OneLivePerHost, PendingTokensUnissued, ActivePairingsTruthful, PairingBounds, UniqueTokens, UniquePairings,
      ClearPayload, InvitesAgree;
    var (after, outcome) := ActivateWith(db, p, i, c, now);
    assert after.invites.Keys == db.invites.Keys && after.invites[i].instance == outcome.instance;
    assert forall j :: j in db.invites && j != i ==> after.invites[j] == db.invites[j];
    if j :| j in db.invites && db.invites[j].instance == h && j != i { assert after.invites[j].instance == h; }
  }

  lemma OtherwiseUnchanged(db: Db, p: Uuid, i: Uuid, c: Uuid, now: Instant)
    requires p in db.pairings && i in db.invites
    ensures ActivateWith(db, p, i, c, now).0 == db
            || (c !in db.credentials && db.pairings[p].status == Pending && ActivateWith(db, p, i, c, now).1.Activated?)
  {
    hide RecoveryBlocked, TokenIssued, ClearPayload;
  }

  /** The one invite whose activation a call amounts to, if it changes anything at all. */
  lemma ActivationChanges(db: Db, p: Uuid, code: Digest, c: Uuid, now: Instant) returns (i: Uuid)
    requires LifecycleInv(db)
    ensures forall j :: MayActivate(db, p, j, code, now) ==> j == i
    ensures if c !in db.credentials && MayActivate(db, p, i, code, now)
            then && Activate(db, p, code, c, now) == ActivateWith(db, p, i, c, now)
                 && Activate(db, p, code, c, now).1.Activated?
            else Activate(db, p, code, c, now).0 == db
  {
    hide LifecycleInv, ActivateWith, Claimable;
    i := 0;
    if p in db.pairings && CodeTaken(db.invites, code) {
      i :| i in db.invites && db.invites[i].code == code
        && Activate(db, p, code, c, now) == ActivateWith(db, p, i, c, now);
      CodeNamesOne(db, code, i);
      OtherwiseUnchanged(db, p, i, c, now);
      if c !in db.credentials { ActivatesWithExactly(db, p, i, c, now); }
    }
  }

  lemma ActivateDb(s: System, e: Event)
    requires |s.place| == |s.log| && Enabled(s, e) && e.ActivateEvent?
    ensures Next(s, e).db == Activate(s.db, e.requestId, e.code, e.credentialId, e.now).0
  {
    hide Activate;
  }

  lemma ActivationKeepsInvite(s: System, e: Event, h: Uuid)
    requires |s.place| == |s.log| && LifecycleInv(s.db) && Enabled(s, e) && e.ActivateEvent?
    requires h in Next(s, e).db.hosts
    ensures Invited(Next(s, e).db, h) <==> (h in s.db.hosts ==> Invited(s.db, h) && !RebindsAway(s.db, e, h))
    ensures s.db.hosts.Keys <= Next(s, e).db.hosts.Keys
  {
    hide LifecycleInv, ActivateWith, Claimable, Activate;
    ActivateDb(s, e);
    var i := ActivationChanges(s.db, e.requestId, e.code, e.credentialId, e.now);
    if e.credentialId !in s.db.credentials && MayActivate(s.db, e.requestId, i, e.code, e.now) {
      ActivationMovesInvite(s.db, e.requestId, i, e.code, e.credentialId, e.now, h);
    }
  }

  /**
   * Host by host: the transaction leaves a host without an invite exactly when it had none, or when
   * it rebinds the host's invite to another identity; a new host always has one.
   */
  lemma HostKeepsInvite(s: System, e: Event, h: Uuid)
    requires Inv(s) && Enabled(s, e) && |s.place| == |s.log| && h in Next(s, e).db.hosts
    ensures Invited(Next(s, e).db, h) <==> (h in s.db.hosts ==> Invited(s.db, h) && !RebindsAway(s.db, e, h))
  {
    hide Next, Invited, Doomed, MayActivate;
    if e.ActivateEvent? {
      ActivationKeepsInvite(s, e, h);
    } else if Doomed(s.db, e).Some? {
      DoomedIsDeleted(s, e);
      DeletionKeepsInvites(s.db, Doomed(s.db, e).value, h);
    } else {
      OthersKeepInvites(s, e);
    }
  }

  /** Where every host has an invite, a transaction keeps it so exactly when it rebinds none of theirs away. */
  lemma AllInvitedExactly(s: System, e: Event)
    requires Inv(s) && Enabled(s, e) && |s.place| == |s.log| && AllInvited(s.db)
    ensures AllInvited(Next(s, e).db) <==> forall h :: h in s.db.hosts ==> !RebindsAway(s.db, e, h)
  {
    hide Inv, Next, Invited, RebindsAway;
    forall h | h in Next(s, e).db.hosts
      ensures Invited(Next(s, e).db, h) <==> (h in s.db.hosts ==> !RebindsAway(s.db, e, h))
    {
      HostKeepsInvite(s, e, h);
    }
    if h :| h in s.db.hosts && RebindsAway(s.db, e, h) {
      HostsStay(s, e, h);
    }
  }

  lemma HostsStay(s: System, e: Event, h: Uuid)
    requires Inv(s) && Enabled(s, e) && |s.place| == |s.log| && h in s.db.hosts && RebindsAway(s.db, e, h)
    ensures h in Next(s, e).db.hosts
  {
    hide Activate, MayActivate;
    ActivateDb(s, e);
    var i := ActivationChanges(s.db, e.requestId, e.code, e.credentialId, e.now);
    if MayActivate(s.db, e.requestId, i, e.code, e.now) {
      ActivationMovesInvite(s.db, e.requestId, i, e.code, e.credentialId, e.now, h);
    }
  }

  // ---- requests ----

  ghost predicate Asks(pairings: map<Uuid, PairingRow>, p: Uuid, h: Uuid) {
    p in pairings && pairings[p].status == Active && pairings[p].instance == Some(h)
  }

  ghost predicate Requested(db: Db, h: Uuid) { exists p :: Asks(db.pairings, p, h) }

  ghost predicate AllRequested(db: Db) { forall h :: HostActive(db.hosts, h) ==> Requested(db, h) }

  /** A deletion of another host whose identity the request behind `h` had named. */
  ghost predicate TakesAlong(db: Db, e: Event, h: Uuid) {
    && Doomed(db, e).Some? && Doomed(db, e).value != h
    && exists p :: Asks(db.pairings, p, h) && db.pairings[p].requestedHost == Doomed(db, e).value
  }

  ghost predicate SameAsks(pairings: map<Uuid, PairingRow>, after: map<Uuid, PairingRow>) {
    forall p, h :: Asks(after, p, h) <==> Asks(pairings, p, h)
  }

  /** Every host is as active as it was, and active requests are the same. */
  ghost predicate KeepsRequests(db: Db, after: Db) {
    && (forall h :: HostActive(after.hosts, h) == HostActive(db.hosts, h))
    && SameAsks(db.pairings, after.pairings)
  }

  lemma ExpiringKeepsAsks(pairings: map<Uuid, PairingRow>, now: Instant)
    ensures SameAsks(pairings, ExpireAll(pairings, now))
  {
  }

  lemma PruningKeepsAsks(pairings: map<Uuid, PairingRow>, gone: seq<Uuid>, now: Instant)
    requires forall p :: p in gone ==> p in Prunable(pairings, now)
    ensures SameAsks(pairings, Without(pairings, gone))
  {
  }

  lemma RepeatKeepsAsks(db: Db, p: Uuid, request: PairingRequest, now: Instant)
    requires p in db.pairings
    ensures SameAsks(db.pairings, RepeatPairing(db, p, request, now).0.pairings)
  {
  }

  lemma AdmitKeepsAsks(db: Db, request: PairingRequest, requestId: Uuid, now: Instant, createdAt: Instant,
                       gone: seq<Uuid>, storageOk: bool)
    requires requestId !in db.pairings && forall p :: p in gone ==> p in Prunable(ExpireAll(db.pairings, now), now)
    ensures SameAsks(db.pairings, AdmitPairing(db, request, requestId, now, createdAt, gone, storageOk).0.pairings)
  {
    ExpiringKeepsAsks(db.pairings, now);
    PruningKeepsAsks(ExpireAll(db.pairings, now), gone, now);
    assert requestId !in ExpireAll(db.pairings, now);
    hide ExpireAll, Prunable, PendingPairings, PendingFor;
  }

  lemma CreateKeepsRequests(db: Db, request: PairingRequest, requestId: Uuid, now: Instant, createdAt: Instant,
                            gone: seq<Uuid>, storageOk: bool)
    requires requestId !in db.pairings
    requires TokenIssued(db.credentials, request.token) || SecretKnown(db.pairings, request.secret)
             || IsFirst(gone, Prunable(ExpireAll(db.pairings, now), now), PRUNE_BATCH)
    ensures KeepsRequests(db, CreatePairing(db, request, requestId, now, createdAt, gone, storageOk).0)
  {
    PairingsOnly(db, request, requestId, now, createdAt, gone, storageOk);
    hide Prunable, ExpireAll, TokenIssued, AdmitPairing, RepeatPairing, Asks;
    if TokenIssued(db.credentials, request.token) {
    } else if SecretKnown(db.pairings, request.secret) {
      var p :| p in db.pairings && db.pairings[p].secret == request.secret
        && CreatePairing(db, request, requestId, now, createdAt, gone, storageOk) == RepeatPairing(db, p, request, now);
      RepeatKeepsAsks(db, p, request, now);
    } else {
      AdmitKeepsAsks(db, request, requestId, now, createdAt, gone, storageOk);
    }
  }

  lemma ExpireKeepsRequests(db: Db, requestId: Uuid, now: Instant)
    ensures KeepsRequests(db, ExpirePairing(db, requestId, now))
  {
  }

  lemma SamePairingsKeep(db: Db, after: Db)
    requires after.pairings == db.pairings && forall h :: HostActive(after.hosts, h) == HostActive(db.hosts, h)
    ensures KeepsRequests(db, after)
  {
  }

  lemma OthersKeepRequests(s: System, e: Event)
    requires |s.place| == |s.log| && Enabled(s, e) && !e.ActivateEvent? && !e.RotateEvent? && Doomed(s.db, e).None?
    ensures KeepsRequests(s.db, Next(s, e).db)
  {
    hide KeepsRequests, Lifecycle.CreatePairing, Lifecycle.ExpirePairing, StoreReport, Accumulate, DeleteHostRecords,
      ActivateStep, RotateInvite, Prunable, ExpireAll;
    var after := Next(s, e).db;
    match e
    case ActivateEvent(_, _, _, _) =>
    case RotateEvent(_, _, _) =>
    case CreatePairingEvent(request, requestId, now, createdAt, gone, storageOk) =>
      CreateKeepsRequests(s.db, request, requestId, now, createdAt, gone, storageOk);
    case ExpirePairingEvent(requestId, now) => ExpireKeepsRequests(s.db, requestId, now);
    case ReportEvent(w) => {
      IngestKeepsInvites(s.db, w);
      AcceptDb(s, w);
      SamePairingsKeep(s.db, after);
    }
    case _ => SamePairingsKeep(s.db, after);
  }

  /** Rotation denies only the request of the host it makes inactive. */
  lemma RotationKeepsRequest(db: Db, inviteId: Uuid, code: Digest, now: Instant, h: Uuid)
    requires HostActive(RotateInvite(db, inviteId, code, now).0.hosts, h)
    ensures HostActive(db.hosts, h)
    ensures Requested(RotateInvite(db, inviteId, code, now).0, h) <==> Requested(db, h)
  {
    var after := RotateInvite(db, inviteId, code, now).0;
    assert forall p :: Asks(after.pairings, p, h) <==> Asks(db.pairings, p, h);
  }

  /** A host has one active request, so it loses it exactly when that one names the deleted identity. */
  lemma DeletionKeepsRequest(db: Db, d: Uuid, h: Uuid)
    requires LifecycleInv(db) && HostActive(DeleteHostRecords(db, d).hosts, h)
    ensures HostActive(db.hosts, h) && h != d
    ensures Requested(DeleteHostRecords(db, d), h) <==>
            Requested(db, h) && !exists p :: Asks(db.pairings, p, h) && db.pairings[p].requestedHost == d
  {
    hide LifecycleInv;
    var after := DeleteHostRecords(db, d);
    assert forall p :: Asks(after.pairings, p, h) <==>
                       Asks(db.pairings, p, h) && db.pairings[p].requestedHost != d;
    forall p, q | Asks(db.pairings, p, h) && Asks(db.pairings, q, h) ensures p == q {
      OneActivePairingPerInstance(db, p, q);
    }
  }

  lemma ActivationMakesRequest(db: Db, p: Uuid, i: Uuid, code: Digest, c: Uuid, now: Instant, h: Uuid)
    requires LifecycleInv(db) && MayActivate(db, p, i, code, now) && c !in db.credentials
    requires ActivateWith(db, p, i, c, now).1.Activated?
    ensures var (after, outcome) := ActivateWith(db, p, i, c, now);
            && !HostActive(db.hosts, outcome.instance) && Requested(after, outcome.instance)
            && (h != outcome.instance ==>
                  HostActive(after.hosts, h) == HostActive(db.hosts, h) && (Requested(after, h) <==> Requested(db, h)))
  {
    hide OneLivePerHost, PendingTokensUnissued, ActivePairingsTruthful, PairingBounds, UniqueTokens, UniquePairings,
      ClearPayload, HasLive;
    var (after, outcome) := ActivateWith(db, p, i, c, now);
    assert Asks(after.pairings, p, outcome.instance);
    assert h != outcome.instance ==> forall q :: Asks(after.pairings, q, h) <==> Asks(db.pairings, q, h);
  }

  lemma ActivationKeepsRequest(s: System, e: Event, h: Uuid)
    requires |s.place| == |s.log| && LifecycleInv(s.db) && Enabled(s, e) && e.ActivateEvent?
    requires HostActive(Next(s, e).db.hosts, h)
    ensures Requested(Next(s, e).db, h) <==> (HostActive(s.db.hosts, h) ==> Requested(s.db, h))
  {
    hide LifecycleInv, ActivateWith, MayActivate, Activate, Requested;
    ActivateDb(s, e);
    var i := ActivationChanges(s.db, e.requestId, e.code, e.credentialId, e.now);
    if e.credentialId !in s.db.credentials && MayActivate(s.db, e.requestId, i, e.code, e.now) {
      ActivationMakesRequest(s.db, e.requestId, i, e.code, e.credentialId, e.now, h);
    }
  }

  lemma NoneDoomed(s: System, e: Event)
    requires |s.place| == |s.log| && Enabled(s, e)
    ensures e.ActivateEvent? || e.RotateEvent? ==> Doomed(s.db, e).None?
    ensures e.RotateEvent? ==> Next(s, e).db == RotateInvite(s.db, e.inviteId, e.code, e.now).0
  {
    hide RotateInvite, ActivateStep;
  }

  lemma InvHasLifecycle(s: System)
    requires Inv(s)
    ensures LifecycleInv(s.db)
  {
  }

  /**
   * Host by host: an active host is without an active request exactly when it was already active
   * without one, or when the identity its request had named has just been deleted. A host that the
   * transaction activates always has one.
   */
  lemma HostKeepsRequest(s: System, e: Event, h: Uuid)
    requires Inv(s) && Enabled(s, e) && |s.place| == |s.log| && HostActive(Next(s, e).db.hosts, h)
    ensures Requested(Next(s, e).db, h) <==>
            (HostActive(s.db.hosts, h) ==> Requested(s.db, h) && !TakesAlong(s.db, e, h))
  {
    hide Inv, Next, Enabled, Asks, Doomed, HostActive, RotateInvite;
    NoneDoomed(s, e);
    InvHasLifecycle(s);
    if e.ActivateEvent? {
      ActivationKeepsRequest(s, e, h);
    } else if e.RotateEvent? {
      RotationKeepsRequest(s.db, e.inviteId, e.code, e.now, h);
    } else if Doomed(s.db, e).Some? {
      DoomedIsDeleted(s, e);
      DeletionKeepsRequest(s.db, Doomed(s.db, e).value, h);
    } else {
      OthersKeepRequests(s, e);
    }
  }

  /** Where every active host has its request, a transaction keeps it so exactly when it takes none along. */
  lemma AllRequestedExactly(s: System, e: Event)
    requires Inv(s) && Enabled(s, e) && |s.place| == |s.log| && AllRequested(s.db)
    ensures AllRequested(Next(s, e).db) <==> forall h :: HostActive(s.db.hosts, h) ==> !TakesAlong(s.db, e, h)
  {
    hide Inv, Next, Requested, TakesAlong;
    forall h | HostActive(Next(s, e).db.hosts, h)
      ensures Requested(Next(s, e).db, h) <==> (HostActive(s.db.hosts, h) ==> !TakesAlong(s.db, e, h))
    {
      HostKeepsRequest(s, e, h);
    }
    forall h | HostActive(s.db.hosts, h) && TakesAlong(s.db, e, h) ensures HostActive(Next(s, e).db.hosts, h) {
      OthersStayActive(s, e, h);
    }
  }

  lemma OthersStayActive(s: System, e: Event, h: Uuid)
    requires Enabled(s, e) && |s.place| == |s.log| && HostActive(s.db.hosts, h) && TakesAlong(s.db, e, h)
    ensures HostActive(Next(s, e).db.hosts, h)
  {
    hide Next, Doomed;
    DoomedIsDeleted(s, e);
  }

  // ---- over whole runs ----

  /** In every run, every host had an invite all along exactly when no activation rebound one of theirs away. */
  lemma {:induction false} InvitesStayExactly(run: seq<System>, events: seq<Event>, n: nat)
    requires IsRun(run, events) && n < |run|
    ensures (forall m :: 0 <= m <= n ==> AllInvited(run[m].db)) <==>
            (forall m, h :: 0 <= m < n && h in run[m].db.hosts ==> !RebindsAway(run[m].db, events[m], h))
    decreases n
  {
    hide Inv, Next, Enabled, Invited, RebindsAway;
    if n > 0 {
      InvitesStayExactly(run, events, n - 1);
      assert StepAt(run, events, n - 1);
      EveryRunIsSafe(run, events, n - 1);
      LogsAlign(run, events, n - 1);
      if AllInvited(run[n - 1].db) { AllInvitedExactly(run[n - 1], events[n - 1]); }
    }
  }

  /** And every active host had an active request all along exactly when no deletion took one along. */
  lemma {:induction false} RequestsStayExactly(run: seq<System>, events: seq<Event>, n: nat)
    requires IsRun(run, events) && n < |run|
    ensures (forall m :: 0 <= m <= n ==> AllRequested(run[m].db)) <==>
            (forall m, h :: 0 <= m < n && HostActive(run[m].db.hosts, h) ==> !TakesAlong(run[m].db, events[m], h))
    decreases n
  {
    hide Inv, Next, Enabled, Requested, TakesAlong;
    if n > 0 {
      RequestsStayExactly(run, events, n - 1);
      assert StepAt(run, events, n - 1);
      EveryRunIsSafe(run, events, n - 1);
      LogsAlign(run, events, n - 1);
      if AllRequested(run[n - 1].db) { AllRequestedExactly(run[n - 1], events[n - 1]); }
    }
  }
}
