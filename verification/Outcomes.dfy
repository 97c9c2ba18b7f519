/** When the pairing operations succeed, in terms of what a caller can see in a reachable database. */
module Outcomes {
  import opened Common
  import opened Schema
  import opened Lifecycle

  // ---- invites ----

  /**
   * Rotation fails only on a missing or cancelled invite, or a code another invite holds: never on a second
   * pending invite.
   */
  lemma RotatesExactly(db: Db, inviteId: Uuid, code: Digest, now: Instant)
    requires LifecycleInv(db)
    ensures RotateInvite(db, inviteId, code, now).1.Rotated? <==>
            && inviteId in db.invites && db.invites[inviteId].status != InviteCancelled
            && forall i :: i in db.invites && i != inviteId ==> db.invites[i].code != code
  {
    hide OneLivePerHost, InvitesAgree, PendingTokensUnissued, ActivePairingsTruthful, PairingBounds, UniqueTokens,
      UniquePairings;
  }

  // ---- activation ----

  /** An identity that a pending invite may take: nobody else's, and if its host is known, the invite's own. */
  ghost predicate Claimable(db: Db, i: Uuid, h: Uuid)
    requires i in db.invites
  {
    && (forall j :: j in db.invites && j != i ==> db.invites[j].instance != h)
    && (h in db.hosts ==> db.invites[i].instance == h)
  }

  /**
   * In a reachable database the recovery guard is just that: its checks of host status and live credentials
   * add nothing.
   */
  lemma RecoveryGuardSimplifies(db: Db, i: Uuid, h: Uuid)
    requires LifecycleInv(db) && i in db.invites && db.invites[i].status == InvitePending
    ensures RecoveryBlocked(db, i, h) <==> !Claimable(db, i, h)
  {
    hide PendingTokensUnissued, ActivePairingsTruthful, PairingBounds, UniqueTokens, UniquePairings;
  }

  ghost predicate MayActivate(db: Db, p: Uuid, i: Uuid, code: Digest, now: Instant) {
    && p in db.pairings && db.pairings[p].status == Pending && now < db.pairings[p].expiresAt
    && i in db.invites && db.invites[i].code == code && db.invites[i].status == InvitePending
    && (db.pairings[p].mode == RecoverIdentity ==> Claimable(db, i, db.pairings[p].requestedHost))
  }

  /**
   * A pending request becomes active exactly when it is in time and its code names a pending invite that
   * may take the identity.
   */
  lemma ActivatesExactly(db: Db, p: Uuid, code: Digest, c: Uuid, now: Instant)
    requires LifecycleInv(db) && c !in db.credentials
    ensures var (after, outcome) := Activate(db, p, code, c, now);
            (p in db.pairings && db.pairings[p].status == Pending && outcome.Activated?) <==>
                exists i :: MayActivate(db, p, i, code, now)
  {
    hide LifecycleInv, ActivateWith;
    if p in db.pairings && CodeTaken(db.invites, code) {
      var i :| i in db.invites && db.invites[i].code == code
        && Activate(db, p, code, c, now) == ActivateWith(db, p, i, c, now);
      ActivatesWithExactly(db, p, i, c, now);
      CodeNamesOne(db, code, i);
      assert forall j :: MayActivate(db, p, j, code, now) ==> j == i;
    }
  }

  lemma CodeNamesOne(db: Db, code: Digest, i: Uuid)
    requires LifecycleInv(db) && i in db.invites && db.invites[i].code == code
    ensures forall j :: j in db.invites && db.invites[j].code == code ==> j == i
  {
    hide OneLivePerHost, InvitesAgree, PendingTokensUnissued, ActivePairingsTruthful, PairingBounds, UniqueTokens,
      UniquePairings;
  }

  lemma ActivatesWithExactly(db: Db, p: Uuid, i: Uuid, c: Uuid, now: Instant)
    requires LifecycleInv(db) && p in db.pairings && i in db.invites && c !in db.credentials
    ensures db.pairings[p].status == Pending && ActivateWith(db, p, i, c, now).1.Activated? <==>
            MayActivate(db, p, i, db.invites[i].code, now)
  {
    hide LifecycleInv, RecoveryBlocked, Claimable, TokenIssued, LiveToken;
    ActivationInsertIsUnique(db, p, i, c, now);
    if db.invites[i].status == InvitePending { RecoveryGuardSimplifies(db, i, db.pairings[p].requestedHost); }
  }

  // ---- pairing ----

  /** The request a client was told is ready: pending, as asked, with the stated expiry. */
  ghost predicate Waits(pairings: map<Uuid, PairingRow>, r: Uuid, request: PairingRequest, expiresAt: Instant) {
    && r in pairings && pairings[r].status == Pending && pairings[r].expiresAt == expiresAt
    && Matches(pairings[r], request) && pairings[r].secret == request.secret
  }

  lemma ReadyRequestWaits(db: Db, request: PairingRequest, requestId: Uuid, now: Instant, createdAt: Instant,
                          gone: seq<Uuid>, storageOk: bool)
    ensures var (after, outcome) := CreatePairing(db, request, requestId, now, createdAt, gone, storageOk);
            outcome.Ready? ==>
              && Waits(after.pairings, outcome.request, request, outcome.expiresAt)
              && (outcome.created <==> !SecretKnown(db.pairings, request.secret))
              && (outcome.created ==> outcome.expiresAt == createdAt + PAIRING_LIFETIME)
              && (!outcome.created ==> after == db && now < outcome.expiresAt)
              && !TokenIssued(db.credentials, request.token) && after.credentials == db.credentials
  {
    hide Without, ExpireAll, PendingPairings, PendingFor, TokenIssued;
    if SecretKnown(db.pairings, request.secret) && !TokenIssued(db.credentials, request.token) {
      var p :| p in db.pairings && db.pairings[p].secret == request.secret
               && CreatePairing(db, request, requestId, now, createdAt, gone, storageOk) ==
                   RepeatPairing(db, p, request, now);
    }
  }

  /** Asking again before it expires finds the same request and changes nothing. */
  lemma RepeatFindsTheSame(db: Db, request: PairingRequest, r: Uuid, expiresAt: Instant, requestId: Uuid,
                           now: Instant, createdAt: Instant,
                           gone: seq<Uuid>, storageOk: bool)
    requires UniquePairings(db.pairings) && !TokenIssued(db.credentials, request.token)
    requires Waits(db.pairings, r, request, expiresAt) && now < expiresAt
    ensures CreatePairing(db, request, requestId, now, createdAt, gone, storageOk) == (db, Ready(r, expiresAt, false))
  {
    hide TokenIssued, AdmitPairing;
    assert SecretKnown(db.pairings, request.secret);
    var p :| p in db.pairings && db.pairings[p].secret == request.secret
             && CreatePairing(db, request, requestId, now, createdAt, gone, storageOk) ==
                 RepeatPairing(db, p, request, now);
    assert p == r;
  }

  /** What a new request may forget: requests denied 30 days ago or that ran out a day ago. An active one never. */
  predicate Settled(row: PairingRow, now: Instant) {
    || (row.status == Denied && row.createdAt < now - 30 * DAY)
    || ((row.status == Expired || row.status == Pending) && row.expiresAt <= now - DAY)
  }

  lemma PruningIsSafe(db: Db, request: PairingRequest, requestId: Uuid, now: Instant, createdAt: Instant,
                      gone: seq<Uuid>, storageOk: bool, p: Uuid)
    requires IsFirst(gone, Prunable(ExpireAll(db.pairings, now), now), PRUNE_BATCH)
    requires p in db.pairings && p !in CreatePairing(db, request, requestId, now, createdAt, gone, storageOk).0.pairings
    ensures Settled(db.pairings[p], now) && p in gone
    ensures |gone| <= PRUNE_BATCH
  {
    hide PendingPairings, PendingFor, TokenIssued, NewPairing, Matches;
    if !TokenIssued(db.credentials, request.token) && !SecretKnown(db.pairings, request.secret) {
      assert p in gone;
      assert p in Prunable(ExpireAll(db.pairings, now), now);
    }
  }
}
