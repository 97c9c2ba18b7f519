/** What time does to pairing requests: which transaction may end one that still waits, and when. */
module Deadlines {
  import opened Common
  import opened Schema
  import opened Lifecycle
  import opened Outcomes
  import opened Reports
  import opened Retention
  import opened Ledger
  import opened Promises
  import opened Attachments
  import opened Effects

  /** The moment at which a transaction looks at the deadline of request `p`, if it does. */
  function Clock(e: Event, p: Uuid): Option<Instant> {
    match e
    case CreatePairingEvent(_, _, now, _, _, _) => Some(now)
    case ExpirePairingEvent(r, now) => if r == p then Some(now) else None
    case _ => None
  }

  /** The transaction comes in time for the request, is not its activation, and deletes no host it names. */
  predicate Spares(db: Db, e: Event, p: Uuid)
    requires p in db.pairings
  {
    var row := db.pairings[p];
    && (Clock(e, p).Some? ==> Clock(e, p).value < row.expiresAt)
    && !(e.ActivateEvent? && e.requestId == p)
    && (Doomed(db, e).Some? ==> row.requestedHost != Doomed(db, e).value && row.instance != Some(Doomed(db, e).value))
  }

  ghost predicate Unchanged(db: Db, after: Db, p: Uuid) {
    p in db.pairings && p in after.pairings && after.pairings[p] == db.pairings[p]
  }

  // ---- new requests ----

  /** What expiring and pruning do to one row. */
  lemma TidyRows(db: Db, now: Instant, gone: seq<Uuid>)
    ensures var left := Tidy(db, now, gone).pairings;
            && Tidy(db, now, gone) == db.(pairings := left)
            && (forall p :: p in left <==> p in db.pairings && p !in gone)
            && (forall p :: p in left ==>
                  left[p] == if db.pairings[p].status == Pending && db.pairings[p].expiresAt <= now
                             then db.pairings[p].(status := Expired) else db.pairings[p])
  {
  }

  lemma PrunedIsSettled(db: Db, now: Instant, gone: seq<Uuid>, p: Uuid)
    requires IsFirst(gone, Prunable(ExpireAll(db.pairings, now), now), PRUNE_BATCH) && p in gone
    ensures p in db.pairings && Settled(db.pairings[p], now)
  {
    assert p in Prunable(ExpireAll(db.pairings, now), now);
  }

  /** A new request leaves every pending request before its deadline alone. */
  lemma CreateSparesPending(db: Db, request: PairingRequest, requestId: Uuid, now: Instant, createdAt: Instant,
                            gone: seq<Uuid>, storageOk: bool, p: Uuid)
    requires requestId !in db.pairings
    requires TokenIssued(db.credentials, request.token) || SecretKnown(db.pairings, request.secret)
             || IsFirst(gone, Prunable(ExpireAll(db.pairings, now), now), PRUNE_BATCH)
    requires p in db.pairings && db.pairings[p].status == Pending && now < db.pairings[p].expiresAt
    ensures Unchanged(db, CreatePairing(db, request, requestId, now, createdAt, gone, storageOk).0, p)
  {
    hide PendingPairings, PendingFor, TokenIssued, Tidy, IsFirst, Prunable, ExpireAll;
    if TokenIssued(db.credentials, request.token) {
    } else if SecretKnown(db.pairings, request.secret) {
      var q :| q in db.pairings && db.pairings[q].secret == request.secret
        && CreatePairing(db, request, requestId, now, createdAt, gone, storageOk) == RepeatPairing(db, q, request, now);
    } else {
      TidyRows(db, now, gone);
      if p in gone { PrunedIsSettled(db, now, gone, p); }
    }
  }

  // ---- every transaction ----

  /** A pending request that a transaction spares stays exactly as it is. */
  lemma SparedIsUnchanged(s: System, e: Event, p: Uuid)
    requires Inv(s) && Enabled(s, e) && |s.place| == |s.log|
    requires p in s.db.pairings && s.db.pairings[p].status == Pending && Spares(s.db, e, p)
    ensures Unchanged(s.db, Next(s, e).db, p)
  {
    hide LifecycleInv, ReportBounds, Rows, Hours, Latest, Lifecycle.CreatePairing, StoreReport, DeleteHostRecords,
      Accumulate, Upsert, ActivateStep, Prunable, ExpireAll, Activate;
    if Doomed(s.db, e).Some? {
      DoomedIsDeleted(s, e);
      DeletionErases(s.db, Doomed(s.db, e).value);
    } else {
      match e
      case CreatePairingEvent(request, requestId, now, createdAt, gone, storageOk) =>
        CreateSparesPending(s.db, request, requestId, now, createdAt, gone, storageOk, p);
      case ActivateEvent(q, code, c, now) => {
        ActivateDb(s, e);
        ActivationTouchesOne(s.db, q, code, c, now, p);
      }
      case ReportEvent(w) => {
        IngestKeepsInvites(s.db, w);
        AcceptDb(s, w);
      }
      case _ =>
    }
  }

  lemma ActivationTouchesOne(db: Db, q: Uuid, code: Digest, c: Uuid, now: Instant, p: Uuid)
    requires LifecycleInv(db) && p in db.pairings
    ensures p in Activate(db, q, code, c, now).0.pairings
    ensures p != q ==> Activate(db, q, code, c, now).0.pairings[p] == db.pairings[p]
    ensures p == q && Activate(db, q, code, c, now).0.pairings[p] != db.pairings[p] ==>
              exists i :: MayActivate(db, p, i, code, now)
  {
    hide LifecycleInv, Activate, RecoveryBlocked, TokenIssued, ClearPayload, Claimable;
    var i := ActivationChanges(db, q, code, c, now);
  }

  /** Why a request may be gone after a transaction, or have changed its status. */
  ghost predicate HasCause(db: Db, after: Db, e: Event, p: Uuid)
    requires p in db.pairings
  {
    var row := db.pairings[p];
    if p !in after.pairings then
      || (Doomed(db, e).Some?
          && (row.requestedHost == Doomed(db, e).value || row.instance == Some(Doomed(db, e).value)))
      || (e.CreatePairingEvent? && Settled(row, e.now))
    else if after.pairings[p] == row then true
    else
      match after.pairings[p].status
      case Expired => row.status == Pending && Clock(e, p).Some? && row.expiresAt <= Clock(e, p).value
      case Active => row.status == Pending && e.ActivateEvent? && e.requestId == p
                     && exists i :: MayActivate(db, p, i, e.code, e.now)
      case Denied => row.status == Active && e.RotateEvent? && e.inviteId in db.invites
                     && row.instance == Some(db.invites[e.inviteId].instance)
      case Pending => false
  }

  /** A request ends only by its deadline, its activation, the rotation of its invite, its age, or a deletion. */
  lemma EveryEndHasACause(s: System, e: Event, p: Uuid)
    requires Inv(s) && Enabled(s, e) && |s.place| == |s.log| && p in s.db.pairings
    ensures HasCause(s.db, Next(s, e).db, e, p)
  {
    hide LifecycleInv, ReportBounds, Rows, Hours, Latest, Lifecycle.CreatePairing, StoreReport, DeleteHostRecords,
      Accumulate, Upsert, ActivateStep, Prunable, ExpireAll, Activate, MayActivate;
    if Doomed(s.db, e).Some? {
      DeletionHasCause(s, e, p);
    } else {
      match e
      case CreatePairingEvent(request, requestId, now, createdAt, gone, storageOk) =>
        CreateHasCause(s.db, request, requestId, now, createdAt, gone, storageOk, p);
      case ActivateEvent(q, code, c, now) => {
        ActivateDb(s, e);
        ActivationTouchesOne(s.db, q, code, c, now, p);
        ActivationOnlyActivates(s.db, q, code, c, now, p);
      }
      case ReportEvent(w) => {
        IngestKeepsInvites(s.db, w);
        AcceptDb(s, w);
      }
      case _ =>
    }
  }

  lemma DeletionHasCause(s: System, e: Event, p: Uuid)
    requires Enabled(s, e) && |s.place| == |s.log| && p in s.db.pairings && Doomed(s.db, e).Some?
    ensures HasCause(s.db, Next(s, e).db, e, p)
  {
    hide Next, Enabled, Doomed, DeleteHostRecords, Settled, MayActivate;
    DoomedIsDeleted(s, e);
    DeletionErases(s.db, Doomed(s.db, e).value);
  }

  lemma ActivationOnlyActivates(db: Db, q: Uuid, code: Digest, c: Uuid, now: Instant, p: Uuid)
    requires LifecycleInv(db) && p in db.pairings
    ensures var after := Activate(db, q, code, c, now).0;
            p in after.pairings && after.pairings[p] != db.pairings[p] ==>
              db.pairings[p].status == Pending && after.pairings[p].status == Active
  {
    hide LifecycleInv, Activate, RecoveryBlocked, TokenIssued, ClearPayload, Claimable;
    var i := ActivationChanges(db, q, code, c, now);
  }

  lemma CreateHasCause(db: Db, request: PairingRequest, requestId: Uuid, now: Instant, createdAt: Instant,
                       gone: seq<Uuid>, storageOk: bool, p: Uuid)
    requires requestId !in db.pairings && p in db.pairings
    requires TokenIssued(db.credentials, request.token) || SecretKnown(db.pairings, request.secret)
             || IsFirst(gone, Prunable(ExpireAll(db.pairings, now), now), PRUNE_BATCH)
    ensures HasCause(db, CreatePairing(db, request, requestId, now, createdAt, gone, storageOk).0,
                     CreatePairingEvent(request, requestId, now, createdAt, gone, storageOk), p)
  {
    hide PendingPairings, PendingFor, TokenIssued, MayActivate, Tidy, IsFirst, Prunable, ExpireAll, Settled;
    if TokenIssued(db.credentials, request.token) {
    } else if SecretKnown(db.pairings, request.secret) {
      hide HasCause, RepeatPairing;
      var q :| q in db.pairings && db.pairings[q].secret == request.secret
        && CreatePairing(db, request, requestId, now, createdAt, gone, storageOk) == RepeatPairing(db, q, request, now);
      RepeatHasCause(db, q, request, CreatePairingEvent(request, requestId, now, createdAt, gone, storageOk), p);
    } else {
      hide AdmitPairing;
      TidyRows(db, now, gone);
      AdmitWrites(db, request, requestId, now, createdAt, gone, storageOk);
      if p in gone { PrunedIsSettled(db, now, gone, p); }
    }
  }

  lemma RepeatHasCause(db: Db, q: Uuid, request: PairingRequest, e: Event, p: Uuid)
    requires q in db.pairings && p in db.pairings && e.CreatePairingEvent?
    ensures HasCause(db, RepeatPairing(db, q, request, e.now).0, e, p)
  {
    hide Settled, Matches, MayActivate;
  }

  // ---- whole runs ----

  ghost predicate SparedThrough(run: seq<System>, events: seq<Event>, n: nat, m: nat, p: Uuid) {
    && n <= m < |run| && |run| == |events| + 1
    && forall j :: n <= j < m ==> p in run[j].db.pairings && Spares(run[j].db, events[j], p)
  }

  /**
   * A request in time stays as it is, with the answer its client was given, through any stretch of
   * any run without its own activation or the deletion of the host it names.
   */
  lemma {:induction false} WaitsThrough(run: seq<System>, events: seq<Event>, n: nat, m: nat, p: Uuid)
    requires IsRun(run, events) && SparedThrough(run, events, n, m, p)
    requires p in run[n].db.pairings && run[n].db.pairings[p].status == Pending
    ensures p in run[m].db.pairings && run[m].db.pairings[p] == run[n].db.pairings[p]
    decreases m - n
  {
    hide Inv, Next, Enabled, Spares;
    if n < m {
      WaitsThrough(run, events, n, m - 1, p);
      assert StepAt(run, events, m - 1);
      EveryRunIsSafe(run, events, m - 1);
      LogsAlign(run, events, m - 1);
      SparedIsUnchanged(run[m - 1], events[m - 1], p);
    }
  }

  /** The update behind every look at a request: exactly a pending request past its deadline expires. */
  lemma ExpiresExactly(db: Db, p: Uuid, now: Instant)
    ensures var after := ExpirePairing(db, p, now);
            && after == db.(pairings := after.pairings) && after.pairings.Keys == db.pairings.Keys
            && (forall q :: q in db.pairings && q != p ==> after.pairings[q] == db.pairings[q])
            && (p in db.pairings ==>
                  after.pairings[p] == if db.pairings[p].status == Pending && db.pairings[p].expiresAt <= now
                                       then db.pairings[p].(status := Expired) else db.pairings[p])
  {
  }

  // ---- the answer to a new request ----

  /** Requests that still wait, all of them or those of one device. */
  function Waiting(db: Db, now: Instant): set<Uuid> {
    set p | p in db.pairings && db.pairings[p].status == Pending && now < db.pairings[p].expiresAt
  }

  function WaitingFor(db: Db, now: Instant, device: Uuid): set<Uuid> {
    set p | p in db.pairings && db.pairings[p].status == Pending && now < db.pairings[p].expiresAt
      && db.pairings[p].requestedHost == device
  }

  lemma PendingAreKept(db: Db, now: Instant, gone: seq<Uuid>, device: Uuid)
    requires IsFirst(gone, Prunable(ExpireAll(db.pairings, now), now), PRUNE_BATCH)
    ensures PendingPairings(Tidy(db, now, gone).pairings) == Waiting(db, now)
    ensures PendingFor(Tidy(db, now, gone).pairings, device) == WaitingFor(db, now, device)
  {
    hide Tidy, IsFirst, Prunable, ExpireAll;
    TidyRows(db, now, gone);
    forall p | p in gone ensures p !in Waiting(db, now) { PrunedIsSettled(db, now, gone, p); }
  }

  lemma PrunedAreCounted(db: Db, now: Instant, gone: seq<Uuid>)
    requires IsFirst(gone, Prunable(ExpireAll(db.pairings, now), now), PRUNE_BATCH)
    ensures |Tidy(db, now, gone).pairings| + |gone| == |db.pairings|
  {
    hide *;
    TidyRows(db, now, gone);
    FirstParts(gone, Prunable(ExpireAll(db.pairings, now), now), PRUNE_BATCH);
    forall p | p in gone ensures p in db.pairings { PrunedIsSettled(db, now, gone, p); }
    TakenOut(db.pairings.Keys, Tidy(db, now, gone).pairings.Keys, gone);
  }

  /** Each answer to a request with a new secret, counted on the tables before it. */
  lemma AsksExactly(db: Db, request: PairingRequest, requestId: Uuid, now: Instant, createdAt: Instant,
                    gone: seq<Uuid>, storageOk: bool)
    requires requestId !in db.pairings && !TokenIssued(db.credentials, request.token)
    requires forall p :: p in db.pairings ==> db.pairings[p].secret != request.secret
    requires IsFirst(gone, Prunable(ExpireAll(db.pairings, now), now), PRUNE_BATCH)
    ensures var (after, outcome) := CreatePairing(db, request, requestId, now, createdAt, gone, storageOk);
            var full := |db.pairings| - |gone| >= 8192 || !storageOk || |Waiting(db, now)| >= 4096;
            var busy := |WaitingFor(db, now, request.requestedHost)| >= 4;
            var used := exists p :: p in db.pairings && p !in gone && db.pairings[p].token == request.token;
            && (outcome == AtCapacity <==> full)
            && (outcome == DeviceAtCapacity <==> !full && busy)
            && (outcome == PairingConflict <==> !full && !busy && used)
            && (outcome == Ready(requestId, createdAt + 900 * SECOND, true) <==> !full && !busy && !used)
            && (outcome == PairingConflict ==> after == db)
            && (outcome != PairingConflict ==>
                  Asked(db, after, request, requestId, now, createdAt, gone, outcome.Ready?))
  {
    hide Prunable, ExpireAll, IsFirst, PendingPairings, PendingFor, TokenIssued, Waiting, WaitingFor, Tidy, Asked;
    TidyRows(db, now, gone);
    PendingAreKept(db, now, gone, request.requestedHost);
    PrunedAreCounted(db, now, gone);
    assert !SecretKnown(db.pairings, request.secret);
    AdmitWrites(db, request, requestId, now, createdAt, gone, storageOk);
  }

  lemma AdmitWrites(db: Db, request: PairingRequest, requestId: Uuid, now: Instant, createdAt: Instant,
                    gone: seq<Uuid>, storageOk: bool)
    requires requestId !in db.pairings
    ensures var (after, outcome) := AdmitPairing(db, request, requestId, now, createdAt, gone, storageOk);
            && (outcome == PairingConflict ==> after == db)
            && (outcome != PairingConflict ==>
                  Asked(db, after, request, requestId, now, createdAt, gone, outcome.Ready?))
  {
    hide PendingPairings, PendingFor, Tidy;
    TidyRows(db, now, gone);
  }

  /** Overdue requests have expired, the pruned ones are gone, and the new one is there if it was let in. */
  ghost predicate Asked(db: Db, after: Db, request: PairingRequest, requestId: Uuid, now: Instant, createdAt: Instant,
                        gone: seq<Uuid>, letIn: bool)
  {
    && after == db.(pairings := after.pairings)
    && (forall p :: p in db.pairings && p != requestId ==>
          (p in after.pairings <==> p !in gone)
          && (p !in gone ==> after.pairings[p] ==
                               if db.pairings[p].status == Pending && db.pairings[p].expiresAt <= now
                               then db.pairings[p].(status := Expired) else db.pairings[p]))
    && (forall p :: p in after.pairings ==> p in db.pairings || p == requestId)
    && (requestId in after.pairings <==> letIn)
    && (letIn ==> after.pairings[requestId] ==
                    PairingRow(request.requestedHost, request.mode, request.platform, request.token, request.secret,
                               Pending, None, None, createdAt + 900 * SECOND, createdAt))
  }

  /** Each answer to a request repeated with its secret. */
  lemma RepeatsExactly(db: Db, p: Uuid, request: PairingRequest, requestId: Uuid, now: Instant, createdAt: Instant,
                       gone: seq<Uuid>, storageOk: bool)
    requires UniquePairings(db.pairings) && !TokenIssued(db.credentials, request.token)
    requires p in db.pairings && db.pairings[p].secret == request.secret
    ensures var (after, outcome) := CreatePairing(db, request, requestId, now, createdAt, gone, storageOk);
            var row := db.pairings[p];
            var same := && row.requestedHost == request.requestedHost && row.mode == request.mode
                        && row.platform == request.platform && row.token == request.token;
            var late := row.status == Pending && row.expiresAt <= now;
            && (outcome == PairingConflict <==> !same || row.status == Denied || row.status == Active)
            && (outcome == PairingExpired <==> same && (row.status == Expired || late))
            && (outcome == Ready(p, row.expiresAt, false) <==> same && row.status == Pending && now < row.expiresAt)
            && after == (if same && late then db.(pairings := db.pairings[p := row.(status := Expired)]) else db)
  {
    hide TokenIssued, AdmitPairing;
    assert SecretKnown(db.pairings, request.secret);
    var q :| q in db.pairings && db.pairings[q].secret == request.secret
      && CreatePairing(db, request, requestId, now, createdAt, gone, storageOk) == RepeatPairing(db, q, request, now);
    assert q == p;
  }

  /** A token that was ever issued is refused, whatever else the request says. */
  lemma IssuedTokenConflicts(db: Db, request: PairingRequest, requestId: Uuid, now: Instant, createdAt: Instant,
                             gone: seq<Uuid>, storageOk: bool, c: Uuid)
    requires c in db.credentials && db.credentials[c].token == request.token
    ensures CreatePairing(db, request, requestId, now, createdAt, gone, storageOk) == (db, PairingConflict)
  {
  }
}
