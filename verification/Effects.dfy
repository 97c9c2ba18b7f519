/** What each transaction on invites, requests, credentials and hosts answers and does, on the tables themselves. */
module Effects {
  import opened Common
  import opened Schema
  import opened Lifecycle
  import opened Outcomes
  import opened Reports
  import opened Retention
  import opened Ledger
  import opened Promises
  import opened Attachments

  // ---- invites ----

  /** Each answer to a request for an invite, by what was there before; a fresh instance never conflicts. */
  lemma CreatesExactly(db: Db, inviteId: Uuid, instance: Uuid, code: Digest, storageOk: bool)
    requires forall i :: i in db.invites ==> db.invites[i].instance != instance
    ensures var (after, outcome) := CreateInvite(db, inviteId, instance, code, storageOk);
            var room := |db.invites| < 4096 && storageOk;
            var taken := inviteId in db.invites || exists i :: i in db.invites && db.invites[i].code == code;
            && (outcome == Exhausted <==> !room)
            && (outcome == ConstraintFailed <==> room && taken)
            && (outcome == Created <==> room && !taken)
            && (outcome != Created ==> after == db)
            && (outcome == Created ==>
                  && after == db.(invites := after.invites) && after.invites.Keys == db.invites.Keys + {inviteId}
                  && after.invites[inviteId] == InviteRow(instance, code, Sealed(instance, code), InvitePending)
                  && forall i :: i in db.invites ==> after.invites[i] == db.invites[i])
  {
  }

  /** Each answer to a rotation, and everything it writes. */
  lemma RotationWrites(db: Db, inviteId: Uuid, code: Digest, now: Instant)
    requires LifecycleInv(db)
    ensures var (after, outcome) := RotateInvite(db, inviteId, code, now);
            var known := inviteId in db.invites && db.invites[inviteId].status != InviteCancelled;
            var taken := exists i :: i in db.invites && i != inviteId && db.invites[i].code == code;
            && (outcome == RotateNotFound <==> !known)
            && (outcome == RotateConstraintFailed <==> known && taken)
            && (outcome == Rotated <==> known && !taken)
            && (outcome != Rotated ==> after == db)
            && (outcome == Rotated ==> Rotates(db, after, inviteId, code, now))
  {
    hide UniquePairings, UniqueTokens, OneLivePerHost, InvitesAgree, PendingTokensUnissued, ActivePairingsTruthful,
      PairingBounds;
    if RotateInvite(db, inviteId, code, now).1 == Rotated { RotatedWrites(db, inviteId, code, now); }
  }

  lemma RotatedWrites(db: Db, inviteId: Uuid, code: Digest, now: Instant)
    requires RotateInvite(db, inviteId, code, now).1 == Rotated
    ensures Rotates(db, RotateInvite(db, inviteId, code, now).0, inviteId, code, now)
  {
  }

  /**
   * The invite waits under its new code; the live credentials of its host are revoked, its active
   * requests denied and the host itself inactive. Nothing else is touched.
   */
  ghost predicate Rotates(db: Db, after: Db, inviteId: Uuid, code: Digest, now: Instant)
    requires inviteId in db.invites
  {
    var h := db.invites[inviteId].instance;
    && after.reports == db.reports && after.hourly == db.hourly
    && after.invites == db.invites[inviteId := InviteRow(h, code, Sealed(h, code), InvitePending)]
    && after.credentials.Keys == db.credentials.Keys && after.pairings.Keys == db.pairings.Keys
    && after.hosts.Keys == db.hosts.Keys
    && (forall c :: c in db.credentials ==>
          if db.credentials[c].host == h && db.credentials[c].revokedAt.None?
          then after.credentials[c] == db.credentials[c].(revokedAt := Some(now))
          else after.credentials[c] == db.credentials[c])
    && (forall p :: p in db.pairings ==>
          if db.pairings[p].instance == Some(h) && db.pairings[p].status == Active
          then after.pairings[p] == db.pairings[p].(status := Denied) else after.pairings[p] == db.pairings[p])
    && (forall g :: g in db.hosts ==>
          if g == h then after.hosts[g] == db.hosts[g].(active := false, revokedAt := Some(now))
          else after.hosts[g] == db.hosts[g])
  }

  /** Each answer to a cancellation, by the status of the invite before, and everything it writes. */
  lemma CancelsExactly(db: Db, inviteId: Uuid)
    ensures var (after, outcome) := CancelInvite(db, inviteId);
            && (outcome == CancelNotFound <==> inviteId !in db.invites)
            && (outcome == Cancelled <==> inviteId in db.invites && db.invites[inviteId].status == InvitePending)
            && (outcome == NotPending <==> inviteId in db.invites && db.invites[inviteId].status == InviteActive)
            && (outcome == Deleted <==> inviteId in db.invites && db.invites[inviteId].status == InviteCancelled)
            && (outcome == CancelNotFound || outcome == NotPending ==> after == db)
            && (outcome == Cancelled ==>
                  after == db.(invites := db.invites[inviteId := db.invites[inviteId].(status := InviteCancelled)]))
            && (outcome == Deleted ==>
                  Erases(db, after, db.invites[inviteId].instance) && inviteId !in after.invites)
  {
    hide DeleteHostRecords;
    if inviteId in db.invites { DeletionErases(db, db.invites[inviteId].instance); }
  }

  // ---- deletion ----

  /** Every row that names the host is gone, and every other row is as it was. */
  ghost predicate Erases(db: Db, after: Db, host: Uuid) {
    && (forall h :: h in after.hosts <==> h in db.hosts && h != host)
    && (forall c :: c in after.credentials <==> c in db.credentials && db.credentials[c].host != host)
    && (forall i :: i in after.invites <==> i in db.invites && db.invites[i].instance != host)
    && (forall p :: p in after.pairings <==>
          p in db.pairings && db.pairings[p].instance != Some(host) && db.pairings[p].requestedHost != host)
    && (forall r :: r in after.reports <==> r in db.reports && db.reports[r].sample.host != host)
    && (forall k :: k in after.hourly <==> k in db.hourly && k.0 != host)
    && (forall h :: h in after.hosts ==> after.hosts[h] == db.hosts[h])
    && (forall c :: c in after.credentials ==> after.credentials[c] == db.credentials[c])
    && (forall i :: i in after.invites ==> after.invites[i] == db.invites[i])
    && (forall p :: p in after.pairings ==> after.pairings[p] == db.pairings[p])
    && (forall r :: r in after.reports ==> after.reports[r] == db.reports[r])
    && (forall k :: k in after.hourly ==> after.hourly[k] == db.hourly[k])
  }

  lemma DeletionErases(db: Db, host: Uuid)
    ensures Erases(db, DeleteHostRecords(db, host), host)
  {
  }

  /** Deleting an invite or a host erases its host if it is known, and changes nothing otherwise. */
  lemma DeletesExactly(db: Db, inviteId: Uuid, host: Uuid)
    ensures var (after, deleted) := DeleteInvite(db, inviteId);
            && (deleted <==> inviteId in db.invites)
            && (if deleted then Erases(db, after, db.invites[inviteId].instance) else after == db)
    ensures var (after, deleted) := DeleteHost(db, host);
            && (deleted <==> host in db.hosts) && (if deleted then Erases(db, after, host) else after == db)
  {
    hide Erases, DeleteHostRecords;
    DeletionErases(db, host);
    if inviteId in db.invites { DeletionErases(db, db.invites[inviteId].instance); }
  }

  // ---- cancelled for good ----

  ghost predicate Shut(db: Db, inviteId: Uuid, code: Digest) {
    inviteId in db.invites && db.invites[inviteId].code == code && db.invites[inviteId].status == InviteCancelled
  }

  /** The code of a cancelled invite activates nothing and changes nothing, and rotation does not find it. */
  lemma ShutOpensNothing(db: Db, inviteId: Uuid, code: Digest, p: Uuid, c: Uuid, now: Instant, fresh_: Digest)
    requires LifecycleInv(db) && Shut(db, inviteId, code)
    ensures !Activate(db, p, code, c, now).1.Activated? && Activate(db, p, code, c, now).0 == db
    ensures RotateInvite(db, inviteId, fresh_, now) == (db, RotateNotFound)
  {
    hide LifecycleInv, ActivateWith;
    CodeNamesOne(db, code, inviteId);
    if p in db.pairings { ShutRefuses(db, p, inviteId, c, now); }
  }

  lemma ShutRefuses(db: Db, p: Uuid, i: Uuid, c: Uuid, now: Instant)
    requires LifecycleInv(db) && p in db.pairings && i in db.invites && db.invites[i].status == InviteCancelled
    ensures !ActivateWith(db, p, i, c, now).1.Activated? && ActivateWith(db, p, i, c, now).0 == db
  {
    hide UniqueKeys, OneLivePerHost, InvitesAgree, PendingTokensUnissued, PairingBounds, RecoveryBlocked, ClearPayload;
    if db.pairings[p].status == Active { assert Truthful(db, db.pairings[p]); }
  }

  /** A cancelled invite stays just as it is until it is deleted. */
  lemma StepKeepsShut(s: System, e: Event, inviteId: Uuid, code: Digest)
    requires Inv(s) && Enabled(s, e) && |s.place| == |s.log| && Shut(s.db, inviteId, code)
    requires inviteId in Next(s, e).db.invites
    ensures Shut(Next(s, e).db, inviteId, code)
  {
    hide LifecycleInv, ReportBounds, Rows, Hours, Latest, Activate, Lifecycle.CreatePairing, StoreReport,
      DeleteHostRecords, Accumulate, Upsert, ActivateStep;
    match e
    case ActivateEvent(p, code', c, now) => {
      ActivateDb(s, e);
      ActivationSparesShut(s.db, p, code', c, now, inviteId);
    }
    case CreatePairingEvent(request, requestId, now, createdAt, gone, storageOk) =>
      PairingsOnly(s.db, request, requestId, now, createdAt, gone, storageOk);
    case ReportEvent(w) => {
      IngestKeepsInvites(s.db, w);
      AcceptDb(s, w);
    }
    case CancelEvent(i) => if i in s.db.invites { DeletionSpares(s.db, s.db.invites[i].instance, inviteId); }
    case DeleteInviteEvent(i) => if i in s.db.invites { DeletionSpares(s.db, s.db.invites[i].instance, inviteId); }
    case DeleteHostEvent(h) => DeletionSpares(s.db, h, inviteId);
    case _ =>
  }

  lemma DeletionSpares(db: Db, d: Uuid, inviteId: Uuid)
    ensures inviteId in DeleteHostRecords(db, d).invites ==>
              inviteId in db.invites && DeleteHostRecords(db, d).invites[inviteId] == db.invites[inviteId]
  {
  }

  lemma ActivationSparesShut(db: Db, p: Uuid, code: Digest, c: Uuid, now: Instant, inviteId: Uuid)
    requires LifecycleInv(db) && inviteId in db.invites && db.invites[inviteId].status == InviteCancelled
    ensures var after := Activate(db, p, code, c, now).0;
            inviteId in after.invites && after.invites[inviteId] == db.invites[inviteId]
  {
    hide LifecycleInv, Activate, RecoveryBlocked, TokenIssued, ClearPayload, Claimable;
    var i := ActivationChanges(db, p, code, c, now);
  }

  ghost predicate InvitePresent(run: seq<System>, n: nat, m: nat, inviteId: Uuid) {
    n <= m < |run| && forall j :: n <= j <= m ==> inviteId in run[j].db.invites
  }

  /**
   * Over any stretch of any run in which a cancelled invite is not deleted, its code activates no
   * request at any moment, and it cannot be rotated back.
   */
  lemma {:induction false} CancelledStaysShut(run: seq<System>, events: seq<Event>, n: nat, m: nat, inviteId: Uuid,
                                              code: Digest, p: Uuid, c: Uuid, now: Instant, fresh_: Digest)
    requires IsRun(run, events) && InvitePresent(run, n, m, inviteId) && Shut(run[n].db, inviteId, code)
    ensures Shut(run[m].db, inviteId, code)
    ensures Activate(run[m].db, p, code, c, now).0 == run[m].db && !Activate(run[m].db, p, code, c, now).1.Activated?
    ensures RotateInvite(run[m].db, inviteId, fresh_, now).1 == RotateNotFound
    decreases m - n
  {
    hide Next, Enabled, Shut, Activate, RotateInvite, LifecycleInv, ReportBounds, Rows, Hours, Latest;
    if n < m {
      CancelledStaysShut(run, events, n, m - 1, inviteId, code, p, c, now, fresh_);
      assert StepAt(run, events, m - 1);
      EveryRunIsSafe(run, events, m - 1);
      LogsAlign(run, events, m - 1);
      StepKeepsShut(run[m - 1], events[m - 1], inviteId, code);
    }
    EveryRunIsSafe(run, events, m);
    ShutOpensNothing(run[m].db, inviteId, code, p, c, now, fresh_);
  }

  // ---- activation ----

  /** The identity a request asks for under an invite. */
  function Claims(row: PairingRow, invite: InviteRow): Uuid {
    if row.mode == RecoverIdentity then row.requestedHost else invite.instance
  }

  /** Each answer to an activation, by the request and the one invite with that code. */
  lemma ActivationAnswers(db: Db, p: Uuid, code: Digest, c: Uuid, now: Instant)
    requires LifecycleInv(db)
    ensures var (after, outcome) := Activate(db, p, code, c, now);
            && (outcome == ActivateNotFound <==> p !in db.pairings)
            && (outcome == InvalidCode <==>
                  p in db.pairings && forall i :: i in db.invites ==> db.invites[i].code != code)
            && (outcome == ActivateExpired <==> exists i :: RunsOut(db, p, i, code, now))
            && (outcome == ActivateConstraintFailed <==>
                  c in db.credentials && exists i :: MayActivate(db, p, i, code, now))
            && outcome != DecryptFailed
            && (outcome.Activated? && db.pairings[p].status == Pending <==>
                  c !in db.credentials && exists i :: MayActivate(db, p, i, code, now))
            && (outcome.Activated? && db.pairings[p].status != Pending ==> after == db)
            && (!outcome.Activated? ==> after == db)
  {
    hide LifecycleInv, ActivateWith, Claimable;
    if p in db.pairings && CodeTaken(db.invites, code) {
      var i :| i in db.invites && db.invites[i].code == code
        && Activate(db, p, code, c, now) == ActivateWith(db, p, i, c, now);
      CodeNamesOne(db, code, i);
      AnswersWith(db, p, i, c, now);
      assert forall j :: MayActivate(db, p, j, code, now) ==> j == i;
    }
  }

  /** A request past its time, with the code of a pending invite. */
  ghost predicate RunsOut(db: Db, p: Uuid, i: Uuid, code: Digest, now: Instant) {
    && p in db.pairings && db.pairings[p].status == Pending && db.pairings[p].expiresAt <= now
    && i in db.invites && db.invites[i].code == code && db.invites[i].status == InvitePending
  }

  lemma AnswersWith(db: Db, p: Uuid, i: Uuid, c: Uuid, now: Instant)
    requires LifecycleInv(db) && p in db.pairings && i in db.invites
    ensures var (after, outcome) := ActivateWith(db, p, i, c, now);
            var code := db.invites[i].code;
            && outcome != ActivateNotFound && outcome != InvalidCode && outcome != DecryptFailed
            && (outcome == ActivateExpired <==> RunsOut(db, p, i, code, now))
            && (outcome == ActivateConstraintFailed <==> c in db.credentials && MayActivate(db, p, i, code, now))
            && (outcome.Activated? && db.pairings[p].status == Pending <==>
                  c !in db.credentials && MayActivate(db, p, i, code, now))
            && (outcome.Activated? && db.pairings[p].status != Pending ==> after == db)
            && (!outcome.Activated? ==> after == db)
  {
    hide LifecycleInv, RecoveryBlocked, Claimable, TokenIssued, LiveToken, ClearPayload;
    ActivationInsertIsUnique(db, p, i, c, now);
    if db.invites[i].status == InvitePending { RecoveryGuardSimplifies(db, i, db.pairings[p].requestedHost); }
  }

  /** What a new activation writes, and that it lets exactly this client in. */
  ghost predicate Grants(db: Db, after: Db, p: Uuid, i: Uuid, c: Uuid, now: Instant)
    requires p in db.pairings && i in db.invites
  {
    var row, invite := db.pairings[p], db.invites[i];
    var h := Claims(row, invite);
    && after.hourly == db.hourly
    && after.hosts == db.hosts[h := HostRow(true, None, None, None, now)]
    && after.credentials == db.credentials[c := CredentialRow(h, row.token, None, None)]
    && after.pairings == db.pairings[p := row.(status := Active, invite := Some(i), instance := Some(h))]
    && after.invites == db.invites[i := InviteRow(h, invite.code, Sealed(h, invite.code), InviteActive)]
    && after.reports.Keys == db.reports.Keys
    && (forall r :: r in db.reports ==>
          if h in db.hosts && db.hosts[h].latest == Some(r)
          then after.reports[r] == db.reports[r].(payload := None) else after.reports[r] == db.reports[r])
    && (forall t :: Resolves(after, t, h) <==> t == row.token)
    && (forall t, g :: g != h ==> (Resolves(after, t, g) <==> Resolves(db, t, g)))
  }

  lemma ActivationGrants(db: Db, p: Uuid, i: Uuid, code: Digest, c: Uuid, now: Instant)
    requires LifecycleInv(db) && MayActivate(db, p, i, code, now) && c !in db.credentials
    ensures var (after, outcome) := Activate(db, p, code, c, now);
            outcome == Activated(Claims(db.pairings[p], db.invites[i])) && Grants(db, after, p, i, c, now)
  {
    hide LifecycleInv, ActivateWith, Grants, Claimable;
    ActivatesExactly(db, p, code, c, now);
    var j := ActivationChanges(db, p, code, c, now);
    GrantsWith(db, p, i, c, now);
  }

  lemma GrantsWith(db: Db, p: Uuid, i: Uuid, c: Uuid, now: Instant)
    requires LifecycleInv(db) && p in db.pairings && i in db.invites && Activates(db, p, i, c, now)
    ensures ActivateWith(db, p, i, c, now).1 == Activated(Claims(db.pairings[p], db.invites[i]))
    ensures Grants(db, ActivateWith(db, p, i, c, now).0, p, i, c, now)
  {
    hide UniqueKeys, OneLivePerHost, PendingTokensUnissued, ActivePairingsTruthful, PairingBounds;
    ActivateLive(db, p, i, c, now);
    ActivationInsertIsUnique(db, p, i, c, now);
  }

  // ---- what an invite is for ----

  ghost predicate InTime(db: Db, p: Uuid, now: Instant) {
    && p in db.pairings && db.pairings[p].status == Pending && db.pairings[p].mode == Fresh
    && now < db.pairings[p].expiresAt
  }

  /** The code of a new invite activates any request in time that wants no identity back, under its instance. */
  lemma CreatedInviteOpens(db: Db, inviteId: Uuid, instance: Uuid, code: Digest, storageOk: bool, p: Uuid, c: Uuid,
                           now: Instant)
    requires LifecycleInv(db) && InTime(db, p, now) && c !in db.credentials
    requires instance !in db.hosts && forall i :: i in db.invites ==> db.invites[i].instance != instance
    requires CreateInvite(db, inviteId, instance, code, storageOk).1 == Created
    ensures Activate(CreateInvite(db, inviteId, instance, code, storageOk).0, p, code, c, now).1 == Activated(instance)
  {
    hide LifecycleInv, Activate, CreateInvite;
    CreateInviteKeeps(db, inviteId, instance, code, storageOk);
    CreatesExactly(db, inviteId, instance, code, storageOk);
    ActivationGrants(CreateInvite(db, inviteId, instance, code, storageOk).0, p, inviteId, code, c, now);
  }

  /** And so does the new code of a rotated invite, under the same instance as before. */
  lemma RotatedInviteOpens(db: Db, inviteId: Uuid, code: Digest, t: Instant, p: Uuid, c: Uuid, now: Instant)
    requires LifecycleInv(db) && InTime(db, p, now) && c !in db.credentials
    requires RotateInvite(db, inviteId, code, t).1 == Rotated
    ensures Activate(RotateInvite(db, inviteId, code, t).0, p, code, c, now).1 ==
            Activated(db.invites[inviteId].instance)
  {
    hide LifecycleInv, Activate, RotateInvite;
    RotateKeeps(db, inviteId, code, t);
    RotationWrites(db, inviteId, code, t);
    var after := RotateInvite(db, inviteId, code, t).0;
    assert after.pairings[p] == db.pairings[p];
    ActivationGrants(after, p, inviteId, code, c, now);
  }
}
