/**
 * Invites, pairing requests, credentials and hosts: what each committed transaction does to the
 * tables, and the cross-table facts that every one of them keeps.
 */
module Lifecycle {
  import opened Common
  import opened Schema

  const MAX_INVITES: nat := 4096
  const MAX_PAIRINGS: nat := 8192
  const MAX_PENDING: nat := 4096
  const MAX_PENDING_PER_DEVICE: nat := 4
  const PRUNE_BATCH: nat := 512
  const PAIRING_LIFETIME: int := 15 * 60 * SECOND

  // ---- views used by guards ----

  predicate HostActive(hosts: map<Uuid, HostRow>, host: Uuid) {
    host in hosts && hosts[host].active
  }

  predicate Live(credentials: map<Uuid, CredentialRow>, c: Uuid) {
    c in credentials && credentials[c].revokedAt.None?
  }

  predicate HasLive(credentials: map<Uuid, CredentialRow>, host: Uuid) {
    exists c :: c in credentials && Live(credentials, c) && credentials[c].host == host
  }

  predicate LiveToken(credentials: map<Uuid, CredentialRow>, host: Uuid, token: Digest) {
    exists c :: c in credentials && Live(credentials, c) && credentials[c].host == host && credentials[c].token == token
  }

  predicate TokenIssued(credentials: map<Uuid, CredentialRow>, token: Digest) {
    exists c :: c in credentials && credentials[c].token == token
  }

  predicate CodeTaken(invites: map<Uuid, InviteRow>, code: Digest) {
    exists i :: i in invites && invites[i].code == code
  }

  predicate ActiveInviteFor(invites: map<Uuid, InviteRow>, host: Uuid) {
    exists i :: i in invites && invites[i].instance == host && invites[i].status == InviteActive
  }

  function PendingPairings(pairings: map<Uuid, PairingRow>): set<Uuid> {
    set p | p in pairings && pairings[p].status == Pending
  }

  function PendingFor(pairings: map<Uuid, PairingRow>, device: Uuid): set<Uuid> {
    set p | p in pairings && pairings[p].status == Pending && pairings[p].requestedHost == device
  }

  // ---- transactions ----

  datatype InviteOutcome = Created | InviteConflict | Exhausted | ConstraintFailed

  /** `storageOk` is the verdict of the file-size and free-space check. */
  function CreateInvite(db: Db, inviteId: Uuid, instance: Uuid, code: Digest, storageOk: bool): (Db, InviteOutcome) {
    if |db.invites| >= MAX_INVITES || !storageOk then (db, Exhausted)
    else if exists i :: i in db.invites && db.invites[i].instance == instance
              && db.invites[i].status == InvitePending then
      (db, InviteConflict)
    else if inviteId in db.invites || CodeTaken(db.invites, code) then (db, ConstraintFailed)
    else
      (db.(invites := db.invites[inviteId := InviteRow(instance, code, Sealed(instance, code), InvitePending)]),
       Created)
  }

  function RevokeCredentials(credentials: map<Uuid, CredentialRow>, host: Uuid, now: Instant): map<Uuid, CredentialRow>
  {
    map c | c in credentials ::
      if credentials[c].host == host && credentials[c].revokedAt.None?
      then credentials[c].(revokedAt := Some(now)) else credentials[c]
  }

  function DenyActive(pairings: map<Uuid, PairingRow>, instance: Uuid): map<Uuid, PairingRow> {
    map p | p in pairings ::
      if pairings[p].instance == Some(instance) && pairings[p].status == Active
      then pairings[p].(status := Denied) else pairings[p]
  }

  datatype RotateOutcome = Rotated | RotateNotFound | RotateConstraintFailed

  function RotateInvite(db: Db, inviteId: Uuid, code: Digest, now: Instant): (Db, RotateOutcome) {
    if inviteId !in db.invites || db.invites[inviteId].status == InviteCancelled then (db, RotateNotFound)
    else if exists i :: i in db.invites && i != inviteId &&
                        (db.invites[i].code == code ||
                         (db.invites[i].instance == db.invites[inviteId].instance
                          && db.invites[i].status == InvitePending))
    then (db, RotateConstraintFailed)
    else
      var h := db.invites[inviteId].instance;
      (db.(
        invites := db.invites[inviteId := InviteRow(h, code, Sealed(h, code), InvitePending)],
        credentials := RevokeCredentials(db.credentials, h, now),
        pairings := DenyActive(db.pairings, h),
        hosts := if h in db.hosts
                   then db.hosts[h := db.hosts[h].(active := false, revokedAt := Some(now))] else db.hosts),
       Rotated)
  }

  /** Deletes a host with everything that refers to it; reports, credentials and aggregates cascade. */
  function DeleteHostRecords(db: Db, host: Uuid): Db {
    Db(
      map h | h in db.hosts && h != host :: db.hosts[h],
      map c | c in db.credentials && db.credentials[c].host != host :: db.credentials[c],
      map i | i in db.invites && db.invites[i].instance != host :: db.invites[i],
      map p | p in db.pairings && db.pairings[p].instance != Some(host) && db.pairings[p].requestedHost != host ::
        db.pairings[p],
      map r | r in db.reports && db.reports[r].sample.host != host :: db.reports[r],
      map k | k in db.hourly && k.0 != host :: db.hourly[k])
  }

  datatype CancelOutcome = Cancelled | Deleted | CancelNotFound | NotPending

  function CancelInvite(db: Db, inviteId: Uuid): (Db, CancelOutcome) {
    if inviteId !in db.invites then (db, CancelNotFound)
    else
      var invite := db.invites[inviteId];
      match invite.status
      case InviteCancelled => (DeleteHostRecords(db, invite.instance), Deleted)
      case InviteActive => (db, NotPending)
      case InvitePending => (db.(invites := db.invites[inviteId := invite.(status := InviteCancelled)]), Cancelled)
  }

  function DeleteInvite(db: Db, inviteId: Uuid): (Db, bool) {
    if inviteId in db.invites then (DeleteHostRecords(db, db.invites[inviteId].instance), true) else (db, false)
  }

  function DeleteHost(db: Db, host: Uuid): (Db, bool) {
    if host in db.hosts then (DeleteHostRecords(db, host), true) else (db, false)
  }

  datatype PairingRequest = PairingRequest(
    requestedHost: Uuid, mode: PairingMode, platform: string, token: Digest, secret: Digest)

  datatype PairingOutcome =
    | Ready(request: Uuid, expiresAt: Instant, created: bool)
    | PairingExpired | PairingConflict | AtCapacity | DeviceAtCapacity

  predicate Matches(row: PairingRow, request: PairingRequest) {
    && row.requestedHost == request.requestedHost && row.mode == request.mode && row.platform == request.platform
    && row.token == request.token
  }

  function ExpireAll(pairings: map<Uuid, PairingRow>, now: Instant): map<Uuid, PairingRow> {
    map p | p in pairings ::
      if pairings[p].status == Pending && pairings[p].expiresAt <= now
      then pairings[p].(status := Expired) else pairings[p]
  }

  predicate MayPrune(pairings: map<Uuid, PairingRow>, now: Instant, p: Uuid) {
    && p in pairings
    && ((pairings[p].status == Expired && pairings[p].expiresAt <= now - DAY)
        || (pairings[p].status == Denied && pairings[p].createdAt < now - 30 * DAY))
  }

  function PruneRank(pairings: map<Uuid, PairingRow>, now: Instant, p: Uuid): Rank
    requires MayPrune(pairings, now, p)
  {
    (pairings[p].createdAt, 0, 0)
  }

  /** Settled requests old enough to be forgotten, ranked by age. */
  function Prunable(pairings: map<Uuid, PairingRow>, now: Instant): map<Uuid, Rank> {
    map p | p in pairings && MayPrune(pairings, now, p) :: PruneRank(pairings, now, p)
  }

  function Without(pairings: map<Uuid, PairingRow>, gone: seq<Uuid>): map<Uuid, PairingRow> {
    map p | p in pairings && p !in gone :: pairings[p]
  }

  /** The tables after expiring and pruning, the first half of `create_pairing`. */
  function Tidy(db: Db, now: Instant, gone: seq<Uuid>): Db {
    db.(pairings := Without(ExpireAll(db.pairings, now), gone))
  }

  predicate SecretKnown(pairings: map<Uuid, PairingRow>, secret: Digest) {
    exists p :: p in pairings && pairings[p].secret == secret
  }

  function NewPairing(request: PairingRequest, createdAt: Instant): PairingRow {
    PairingRow(request.requestedHost, request.mode, request.platform, request.token, request.secret,
               Pending, None, None, createdAt + PAIRING_LIFETIME, createdAt)
  }

  /** What a repeated request with a known polling secret reads and writes. */
  function RepeatPairing(db: Db, p: Uuid, request: PairingRequest, now: Instant): (Db, PairingOutcome)
    requires p in db.pairings
  {
    var row := db.pairings[p];
    if !Matches(row, request) || row.status == Denied then (db, PairingConflict)
    else if row.status == Expired then (db, PairingExpired)
    else if row.status == Pending && row.expiresAt <= now then
      (db.(pairings := db.pairings[p := row.(status := Expired)]), PairingExpired)
    else if row.status != Pending then (db, PairingConflict)
    else (db, Ready(p, row.expiresAt, false))
  }

  /** Admission and insertion of a request with a new polling secret. */
  function AdmitPairing(db: Db, request: PairingRequest, requestId: Uuid, now: Instant, createdAt: Instant,
                        gone: seq<Uuid>, storageOk: bool): (Db, PairingOutcome)
  {
    var tidy := Tidy(db, now, gone);
    if |tidy.pairings| >= MAX_PAIRINGS || !storageOk || |PendingPairings(tidy.pairings)| >= MAX_PENDING then
      (tidy, AtCapacity)
    else if |PendingFor(tidy.pairings, request.requestedHost)| >= MAX_PENDING_PER_DEVICE then (tidy, DeviceAtCapacity)
    else if requestId in tidy.pairings
            || exists p :: p in tidy.pairings
                 && (tidy.pairings[p].token == request.token || tidy.pairings[p].secret == request.secret)
    then (db, PairingConflict)
    else
      (tidy.(pairings := tidy.pairings[requestId := NewPairing(request, createdAt)]),
       Ready(requestId, createdAt + PAIRING_LIFETIME, true))
  }

  /** `gone` are the pruned rows, an answer of the age-ordered, limited subquery. */
  ghost function CreatePairing(db: Db, request: PairingRequest, requestId: Uuid, now: Instant, createdAt: Instant,
                               gone: seq<Uuid>, storageOk: bool): (Db, PairingOutcome)
  {
    if TokenIssued(db.credentials, request.token) then (db, PairingConflict)
    else if SecretKnown(db.pairings, request.secret) then
      var p :| p in db.pairings && db.pairings[p].secret == request.secret;
      RepeatPairing(db, p, request, now)
    else AdmitPairing(db, request, requestId, now, createdAt, gone, storageOk)
  }

  function ExpirePairing(db: Db, requestId: Uuid, now: Instant): Db {
    if requestId in db.pairings && db.pairings[requestId].status == Pending && db.pairings[requestId].expiresAt <= now
    then db.(pairings := db.pairings[requestId := db.pairings[requestId].(status := Expired)])
    else db
  }

  datatype ActivateOutcome =
    | Activated(instance: Uuid) | ActivateNotFound | InvalidCode | ActivateExpired | ActivateConflict
    | DecryptFailed | ActivateConstraintFailed

  function InstanceFor(pairing: PairingRow, invite: InviteRow): Uuid {
    match pairing.mode
    case Fresh => invite.instance
    case RecoverIdentity => pairing.requestedHost
  }

  /** The recover-identity guard: a new invite must never claim a known host or a live credential. */
  predicate RecoveryBlocked(db: Db, i: Uuid, instance: Uuid)
    requires i in db.invites
  {
    || (exists j :: j in db.invites && j != i && db.invites[j].instance == instance)
    || HasLive(db.credentials, instance)
    || (instance in db.hosts && (db.hosts[instance].active || db.invites[i].instance != instance))
  }

  function ClearPayload(reports: map<Uuid, ReportRow>, latest: Option<Uuid>): map<Uuid, ReportRow> {
    if latest.Some? && latest.value in reports
    then reports[latest.value := reports[latest.value].(payload := None)] else reports
  }

  function LatestOf(db: Db, host: Uuid): Option<Uuid> {
    if host in db.hosts then db.hosts[host].latest else None
  }

  function ActivateWith(db: Db, p: Uuid, i: Uuid, credentialId: Uuid, now: Instant): (Db, ActivateOutcome)
    requires p in db.pairings && i in db.invites
  {
    var pairing, invite := db.pairings[p], db.invites[i];
    var h := InstanceFor(pairing, invite);
    if pairing.status == Active then
      (db, if pairing.invite == Some(i) && pairing.instance == Some(h) && LiveToken(db.credentials, h, pairing.token)
           then Activated(h) else ActivateConflict)
    else if pairing.status != Pending || invite.status != InvitePending then (db, ActivateConflict)
    else if pairing.expiresAt <= now then (db, ActivateExpired)
    else if pairing.mode == RecoverIdentity && RecoveryBlocked(db, i, h) then (db, ActivateConflict)
    else if invite.instance != h && invite.sealed.owner != invite.instance then (db, DecryptFailed)
    else if credentialId in db.credentials || TokenIssued(db.credentials, pairing.token) then
      (db, ActivateConstraintFailed)
    else
      (db.(
        reports := ClearPayload(db.reports, LatestOf(db, h)),
        hosts := db.hosts[h := HostRow(true, None, None, None, now)],
        credentials := db.credentials[credentialId := CredentialRow(h, pairing.token, None, None)],
        pairings := db.pairings[p := pairing.(status := Active, invite := Some(i), instance := Some(h))],
        invites := db.invites[i := invite.(
          instance := h, status := InviteActive,
          sealed := if invite.instance == h then invite.sealed else Sealed(h, invite.sealed.code))]),
       Activated(h))
  }

  ghost function Activate(db: Db, p: Uuid, code: Digest, credentialId: Uuid, now: Instant): (Db, ActivateOutcome) {
    if p !in db.pairings then (db, ActivateNotFound)
    else if !CodeTaken(db.invites, code) then (db, InvalidCode)
    else
      var i :| i in db.invites && db.invites[i].code == code;
      ActivateWith(db, p, i, credentialId, now)
  }

  /** The host a report token resolves to. */
  predicate Resolves(db: Db, token: Digest, host: Uuid) {
    HostActive(db.hosts, host) && LiveToken(db.credentials, host, token)
  }

  // ---- invariants ----

  ghost predicate UniqueInvites(invites: map<Uuid, InviteRow>) {
    forall i, j :: i in invites && j in invites && i != j ==>
      invites[i].instance != invites[j].instance && invites[i].code != invites[j].code
  }

  ghost predicate UniqueTokens(credentials: map<Uuid, CredentialRow>) {
    forall c, d :: c in credentials && d in credentials && c != d ==> credentials[c].token != credentials[d].token
  }

  ghost predicate UniquePairings(pairings: map<Uuid, PairingRow>) {
    forall p, q :: p in pairings && q in pairings && p != q ==>
      pairings[p].token != pairings[q].token && pairings[p].secret != pairings[q].secret
  }

  ghost predicate UniqueKeys(db: Db) {
    UniqueInvites(db.invites) && UniqueTokens(db.credentials) && UniquePairings(db.pairings)
  }

  ghost predicate OneLivePerHost(db: Db) {
    && (forall c :: c in db.credentials ==> db.credentials[c].host in db.hosts)
    && (forall c, d ::
          Live(db.credentials, c) && Live(db.credentials, d) && db.credentials[c].host == db.credentials[d].host ==>
            c == d)
  }

  /** An invite is active exactly when its host is active with a live credential, and seals its own code. */
  ghost predicate InvitesAgree(db: Db) {
    && (forall i :: i in db.invites ==>
          var h := db.invites[i].instance;
          && (db.invites[i].status == InviteActive <==> HostActive(db.hosts, h))
          && (db.invites[i].status == InviteActive <==> HasLive(db.credentials, h))
          && db.invites[i].sealed == Sealed(h, db.invites[i].code))
    && (forall c :: Live(db.credentials, c) ==> HostActive(db.hosts, db.credentials[c].host))
    && (forall h :: HostActive(db.hosts, h) ==> HasLive(db.credentials, h) && ActiveInviteFor(db.invites, h))
  }

  ghost predicate PendingTokensUnissued(db: Db) {
    forall p :: p in db.pairings && db.pairings[p].status == Pending ==>
      !TokenIssued(db.credentials, db.pairings[p].token)
  }

  ghost predicate Truthful(db: Db, row: PairingRow) {
    && row.invite.Some? && row.instance.Some? && row.invite.value in db.invites
    && db.invites[row.invite.value].status == InviteActive
    && db.invites[row.invite.value].instance == row.instance.value
    && HostActive(db.hosts, row.instance.value)
    && LiveToken(db.credentials, row.instance.value, row.token)
    && (row.mode == RecoverIdentity ==> row.instance.value == row.requestedHost)
  }

  ghost predicate ActivePairingsTruthful(db: Db) {
    forall p :: p in db.pairings && db.pairings[p].status == Active ==> Truthful(db, db.pairings[p])
  }

  ghost predicate PairingBounds(db: Db) {
    && |db.invites.Keys| <= MAX_INVITES
    && |db.pairings.Keys| <= MAX_PAIRINGS
    && |PendingPairings(db.pairings)| <= MAX_PENDING
    && forall device :: |PendingFor(db.pairings, device)| <= MAX_PENDING_PER_DEVICE
  }

  ghost predicate LifecycleInv(db: Db) {
    && UniqueKeys(db) && OneLivePerHost(db) && InvitesAgree(db)
    && PendingTokensUnissued(db) && ActivePairingsTruthful(db) && PairingBounds(db)
  }

  // ---- preservation ----

  /** The tables of the report side do not matter here. */
  lemma FrameReports(db: Db, after: Db)
    requires LifecycleInv(db)
    requires after.credentials == db.credentials && after.invites == db.invites && after.pairings == db.pairings
    requires after.hosts.Keys == db.hosts.Keys
    requires forall h :: h in db.hosts ==> after.hosts[h].active == db.hosts[h].active
    ensures LifecycleInv(after)
  {
    assert forall h :: HostActive(after.hosts, h) == HostActive(db.hosts, h);
    forall p | p in after.pairings && after.pairings[p].status == Active ensures Truthful(after, after.pairings[p]) {
      assert Truthful(db, db.pairings[p]);
    }
  }

  /** Steps that leave credentials, hosts and every active invite alone, such as issuing or cancelling. */
  lemma InviteOnlyKeeps(db: Db, after: Db)
    requires LifecycleInv(db)
    requires after == db.(invites := after.invites) && |after.invites| <= MAX_INVITES && UniqueKeys(after)
    requires forall i :: i in db.invites && db.invites[i].status == InviteActive ==>
               i in after.invites && after.invites[i] == db.invites[i]
    requires forall i :: i in after.invites ==>
      && after.invites[i].sealed == Sealed(after.invites[i].instance, after.invites[i].code)
      && (if after.invites[i].status == InviteActive then i in db.invites && db.invites[i] == after.invites[i]
          else !HostActive(db.hosts, after.invites[i].instance) && !HasLive(db.credentials, after.invites[i].instance))
    ensures LifecycleInv(after)
  {
    forall h | HostActive(after.hosts, h) ensures ActiveInviteFor(after.invites, h) {
      assert ActiveInviteFor(db.invites, h);
      var i :| i in db.invites && db.invites[i].instance == h && db.invites[i].status == InviteActive;
      assert after.invites[i] == db.invites[i];
    }
    assert OneLivePerHost(after) && InvitesAgree(after);
    forall p | p in after.pairings && after.pairings[p].status == Active ensures Truthful(after, after.pairings[p]) {
      assert Truthful(db, db.pairings[p]);
    }
  }

  lemma CreateInviteKeeps(db: Db, inviteId: Uuid, instance: Uuid, code: Digest, storageOk: bool)
    requires LifecycleInv(db)
    requires instance !in db.hosts && forall i :: i in db.invites ==> db.invites[i].instance != instance
    ensures LifecycleInv(CreateInvite(db, inviteId, instance, code, storageOk).0)
  {
    hide UniqueTokens, UniquePairings, OneLivePerHost, ActivePairingsTruthful, PendingTokensUnissued;
    var after := CreateInvite(db, inviteId, instance, code, storageOk).0;
    if after != db {
      assert !HasLive(db.credentials, instance);
      InviteOnlyKeeps(db, after);
    }
  }

  lemma CancelPendingKeeps(db: Db, inviteId: Uuid)
    requires LifecycleInv(db) && inviteId in db.invites && db.invites[inviteId].status == InvitePending
    ensures LifecycleInv(CancelInvite(db, inviteId).0)
  {
    hide UniqueTokens, UniquePairings, OneLivePerHost, ActivePairingsTruthful, PendingTokensUnissued;
    var after := CancelInvite(db, inviteId).0;
    assert after.invites.Keys == db.invites.Keys;
    InviteOnlyKeeps(db, after);
  }

  // ---- rotation ----

  lemma RotateKeeps(db: Db, inviteId: Uuid, code: Digest, now: Instant)
    requires LifecycleInv(db)
    ensures LifecycleInv(RotateInvite(db, inviteId, code, now).0)
  {
    var after := RotateInvite(db, inviteId, code, now).0;
    if RotateInvite(db, inviteId, code, now).1 == Rotated {
      RotateKeys(db, inviteId, code, now);
      RotateRows(db, inviteId, code, now);
      RotateInvites(db, inviteId, code, now);
      RotatePairings(db, inviteId, code, now);
      RotateBounds(db, inviteId, code, now);
    }
  }

  /** After a rotation the instance has no live credential; every other host keeps its own. */
  lemma RotateLive(db: Db, inviteId: Uuid, code: Digest, now: Instant)
    requires RotateInvite(db, inviteId, code, now).1 == Rotated
    ensures var after := RotateInvite(db, inviteId, code, now).0;
            var h := db.invites[inviteId].instance;
            && (forall c :: Live(after.credentials, c) <==> Live(db.credentials, c) && db.credentials[c].host != h)
            && !HasLive(after.credentials, h)
            && (forall g :: g != h ==> HasLive(after.credentials, g) == HasLive(db.credentials, g))
            && (forall g, t :: LiveToken(after.credentials, g, t) == (g != h && LiveToken(db.credentials, g, t)))
  {
    var after := RotateInvite(db, inviteId, code, now).0;
    var h := db.invites[inviteId].instance;
    assert forall c :: Live(after.credentials, c) <==> Live(db.credentials, c) && db.credentials[c].host != h;
    assert forall c :: c in db.credentials ==>
             && after.credentials[c].host == db.credentials[c].host
             && after.credentials[c].token == db.credentials[c].token;
  }

  lemma RevokeSameKeys(credentials: map<Uuid, CredentialRow>, host: Uuid, now: Instant)
    ensures RevokeCredentials(credentials, host, now).Keys == credentials.Keys
    ensures forall c :: c in credentials ==>
      RevokeCredentials(credentials, host, now)[c].(revokedAt := None) == credentials[c].(revokedAt := None)
    ensures UniqueTokens(credentials) ==> UniqueTokens(RevokeCredentials(credentials, host, now))
  {
  }

  lemma DenySameKeys(pairings: map<Uuid, PairingRow>, host: Uuid)
    ensures DenyActive(pairings, host).Keys == pairings.Keys
    ensures forall p :: p in pairings ==>
              DenyActive(pairings, host)[p].(status := Pending) == pairings[p].(status := Pending)
    ensures UniquePairings(pairings) ==> UniquePairings(DenyActive(pairings, host))
  {
  }

  lemma RotateKeys(db: Db, inviteId: Uuid, code: Digest, now: Instant)
    requires LifecycleInv(db) && RotateInvite(db, inviteId, code, now).1 == Rotated
    ensures UniqueKeys(RotateInvite(db, inviteId, code, now).0)
    ensures RotateInvite(db, inviteId, code, now).0.invites.Keys == db.invites.Keys
  {
    hide RevokeCredentials, DenyActive, UniqueTokens, UniquePairings, OneLivePerHost, InvitesAgree,
      PendingTokensUnissued, ActivePairingsTruthful, PairingBounds;
    var after := RotateInvite(db, inviteId, code, now).0;
    RevokeSameKeys(db.credentials, db.invites[inviteId].instance, now);
    DenySameKeys(db.pairings, db.invites[inviteId].instance);
    assert UniqueInvites(after.invites);
  }

  lemma RotateRows(db: Db, inviteId: Uuid, code: Digest, now: Instant)
    requires LifecycleInv(db) && RotateInvite(db, inviteId, code, now).1 == Rotated
    ensures var after := RotateInvite(db, inviteId, code, now).0;
            OneLivePerHost(after) && PendingTokensUnissued(after)
  {
    var after := RotateInvite(db, inviteId, code, now).0;
    RotateLive(db, inviteId, code, now);
    assert forall c :: c in after.credentials ==>
      c in db.credentials && after.credentials[c].host == db.credentials[c].host
          && after.credentials[c].token == db.credentials[c].token;
    assert OneLivePerHost(after);
    assert forall t :: TokenIssued(after.credentials, t) ==> TokenIssued(db.credentials, t);
    forall p | p in after.pairings && after.pairings[p].status == Pending
      ensures !TokenIssued(after.credentials, after.pairings[p].token)
    {
      assert db.pairings[p].status == Pending && db.pairings[p].token == after.pairings[p].token;
    }
  }

  lemma RotateInvites(db: Db, inviteId: Uuid, code: Digest, now: Instant)
    requires LifecycleInv(db) && RotateInvite(db, inviteId, code, now).1 == Rotated
    ensures InvitesAgree(RotateInvite(db, inviteId, code, now).0)
  {
    var after := RotateInvite(db, inviteId, code, now).0;
    var h := db.invites[inviteId].instance;
    RotateLive(db, inviteId, code, now);
    RotatedHosts(db, inviteId, code, now);
    forall i | i in after.invites && i != inviteId
      ensures after.invites[i] == db.invites[i] && db.invites[i].instance != h
    {
    }
    forall g | HostActive(after.hosts, g) ensures ActiveInviteFor(after.invites, g) {
      assert ActiveInviteFor(db.invites, g);
      var i :| i in db.invites && db.invites[i].instance == g && db.invites[i].status == InviteActive;
      assert after.invites[i] == db.invites[i];
    }
  }

  lemma RotatedHosts(db: Db, inviteId: Uuid, code: Digest, now: Instant)
    requires RotateInvite(db, inviteId, code, now).1 == Rotated
    ensures forall g :: HostActive(RotateInvite(db, inviteId, code, now).0.hosts, g) <==>
              HostActive(db.hosts, g) && g != db.invites[inviteId].instance
  {
  }

  lemma DenyingKeepsPending(pairings: map<Uuid, PairingRow>, h: Uuid)
    ensures DenyActive(pairings, h).Keys == pairings.Keys
    ensures PendingPairings(DenyActive(pairings, h)) == PendingPairings(pairings)
    ensures forall device :: PendingFor(DenyActive(pairings, h), device) == PendingFor(pairings, device)
  {
    assert DenyActive(pairings, h).Keys == pairings.Keys;
  }

  lemma RotateBounds(db: Db, inviteId: Uuid, code: Digest, now: Instant)
    requires PairingBounds(db) && RotateInvite(db, inviteId, code, now).1 == Rotated
    ensures PairingBounds(RotateInvite(db, inviteId, code, now).0)
  {
    hide PendingPairings, PendingFor, DenyActive, RevokeCredentials;
    DenyingKeepsPending(db.pairings, db.invites[inviteId].instance);
    assert RotateInvite(db, inviteId, code, now).0.invites.Keys == db.invites.Keys;
  }

  lemma RotatePairings(db: Db, inviteId: Uuid, code: Digest, now: Instant)
    requires ActivePairingsTruthful(db) && UniqueInvites(db.invites)
             && RotateInvite(db, inviteId, code, now).1 == Rotated
    ensures ActivePairingsTruthful(RotateInvite(db, inviteId, code, now).0)
  {
    hide RevokeCredentials, ActiveInviteFor;
    var after := RotateInvite(db, inviteId, code, now).0;
    RotateLive(db, inviteId, code, now);
    forall p | p in after.pairings && after.pairings[p].status == Active ensures Truthful(after, after.pairings[p]) {
      assert after.pairings[p] == db.pairings[p] && Truthful(db, db.pairings[p]);
    }
  }

  // ---- deletion ----

  lemma DeleteRecordsLive(db: Db, host: Uuid)
    ensures var after := DeleteHostRecords(db, host);
            && (forall c :: Live(after.credentials, c) <==> Live(db.credentials, c) && db.credentials[c].host != host)
            && !HasLive(after.credentials, host)
            && (forall g :: g != host ==> HasLive(after.credentials, g) == HasLive(db.credentials, g))
            && (forall g, t :: LiveToken(after.credentials, g, t) == (g != host && LiveToken(db.credentials, g, t)))
            && (forall t :: TokenIssued(after.credentials, t) ==> TokenIssued(db.credentials, t))
  {
    var after := DeleteHostRecords(db, host);
    assert forall c :: c in after.credentials ==> after.credentials[c] == db.credentials[c];
    assert forall c :: c in db.credentials && db.credentials[c].host != host ==> c in after.credentials;
    assert forall c :: Live(after.credentials, c) <==> Live(db.credentials, c) && db.credentials[c].host != host;
  }

  lemma DeleteRecordsInvites(db: Db, host: Uuid)
    requires LifecycleInv(db)
    ensures InvitesAgree(DeleteHostRecords(db, host))
  {
    var after := DeleteHostRecords(db, host);
    DeleteRecordsLive(db, host);
    assert forall g :: HostActive(after.hosts, g) <==> HostActive(db.hosts, g) && g != host;
    forall g | HostActive(after.hosts, g) ensures ActiveInviteFor(after.invites, g) {
      assert ActiveInviteFor(db.invites, g);
      var i :| i in db.invites && db.invites[i].instance == g && db.invites[i].status == InviteActive;
      assert after.invites[i] == db.invites[i];
    }
  }

  lemma FewerRows(db: Db, after: Db)
    requires PairingBounds(db)
    requires after.invites.Keys <= db.invites.Keys && after.pairings.Keys <= db.pairings.Keys
    requires forall p :: p in after.pairings && after.pairings[p].status == Pending ==>
      db.pairings[p].status == Pending && db.pairings[p].requestedHost == after.pairings[p].requestedHost
    ensures PairingBounds(after)
  {
    SubsetSize(after.invites.Keys, db.invites.Keys);
    SubsetSize(after.pairings.Keys, db.pairings.Keys);
    SubsetSize(PendingPairings(after.pairings), PendingPairings(db.pairings));
    forall device ensures |PendingFor(after.pairings, device)| <= MAX_PENDING_PER_DEVICE {
      SubsetSize(PendingFor(after.pairings, device), PendingFor(db.pairings, device));
    }
  }

  lemma DeleteRecordsTruthful(db: Db, host: Uuid)
    requires ActivePairingsTruthful(db)
    ensures ActivePairingsTruthful(DeleteHostRecords(db, host))
  {
    hide LiveToken, HasLive;
    var after := DeleteHostRecords(db, host);
    DeleteRecordsLive(db, host);
    forall p | p in after.pairings && after.pairings[p].status == Active ensures Truthful(after, after.pairings[p]) {
      assert after.pairings[p] == db.pairings[p] && Truthful(db, db.pairings[p]);
    }
  }

  lemma DeleteRecordsKeeps(db: Db, host: Uuid)
    requires LifecycleInv(db)
    ensures LifecycleInv(DeleteHostRecords(db, host))
  {
    hide InvitesAgree, PairingBounds, ActivePairingsTruthful, HasLive, LiveToken;
    var after := DeleteHostRecords(db, host);
    DeleteRecordsLive(db, host);
    assert UniqueKeys(after);
    assert OneLivePerHost(after);
    DeleteRecordsInvites(db, host);
    FewerRows(db, after);
    DeleteRecordsTruthful(db, host);
    assert PendingTokensUnissued(after);
  }

  lemma CancelKeeps(db: Db, inviteId: Uuid)
    requires LifecycleInv(db)
    ensures LifecycleInv(CancelInvite(db, inviteId).0)
  {
    if inviteId in db.invites {
      match db.invites[inviteId].status
      case InviteCancelled => DeleteRecordsKeeps(db, db.invites[inviteId].instance);
      case InviteActive =>
      case InvitePending => CancelPendingKeeps(db, inviteId);
    }
  }

  // ---- pairing ----

  /** Pairing rows may only go, or leave the pending state without becoming active. */
  lemma SettlingKeeps(db: Db, after: Db)
    requires LifecycleInv(db)
    requires after == db.(pairings := after.pairings)
    requires forall p :: p in after.pairings ==>
      && p in db.pairings
      && (after.pairings[p] == db.pairings[p]
          || (db.pairings[p].status == Pending && after.pairings[p] == db.pairings[p].(status := Expired)))
    ensures LifecycleInv(after)
  {
    hide PairingBounds, UniqueInvites, UniqueTokens;
    FewerRows(db, after);
    assert UniquePairings(after.pairings);
    assert OneLivePerHost(after) && PendingTokensUnissued(after);
    forall h | HostActive(after.hosts, h) ensures ActiveInviteFor(after.invites, h) {
      assert ActiveInviteFor(db.invites, h);
    }
    assert InvitesAgree(after);
    forall p | p in after.pairings && after.pairings[p].status == Active ensures Truthful(after, after.pairings[p]) {
      assert Truthful(db, db.pairings[p]);
    }
  }

  lemma AdmitKeeps(db: Db, request: PairingRequest, requestId: Uuid, now: Instant, createdAt: Instant,
                   gone: seq<Uuid>, storageOk: bool)
    requires LifecycleInv(db) && !TokenIssued(db.credentials, request.token)
    ensures LifecycleInv(AdmitPairing(db, request, requestId, now, createdAt, gone, storageOk).0)
  {
    var tidy := Tidy(db, now, gone);
    SettlingKeeps(db, tidy);
    var (after, outcome) := AdmitPairing(db, request, requestId, now, createdAt, gone, storageOk);
    if outcome.Ready? {
      AddPairingKeeps(tidy, request, requestId, createdAt);
    }
  }

  lemma PendingInsert(pairings: map<Uuid, PairingRow>, row: PairingRow, requestId: Uuid, device: Uuid)
    requires requestId !in pairings && row.status == Pending
    ensures PendingPairings(pairings[requestId := row]) == PendingPairings(pairings) + {requestId}
    ensures PendingFor(pairings[requestId := row], device) ==
            PendingFor(pairings, device) + (if device == row.requestedHost then {requestId} else {})
  {
  }

  lemma AddPairingBounds(db: Db, row: PairingRow, requestId: Uuid)
    requires PairingBounds(db) && requestId !in db.pairings && row.status == Pending
    requires |db.pairings| < MAX_PAIRINGS && |PendingPairings(db.pairings)| < MAX_PENDING
    requires |PendingFor(db.pairings, row.requestedHost)| < MAX_PENDING_PER_DEVICE
    ensures PairingBounds(db.(pairings := db.pairings[requestId := row]))
  {
    var pairings := db.pairings[requestId := row];
    assert pairings.Keys == db.pairings.Keys + {requestId};
    PendingInsert(db.pairings, row, requestId, row.requestedHost);
    forall device ensures |PendingFor(pairings, device)| <= MAX_PENDING_PER_DEVICE {
      PendingInsert(db.pairings, row, requestId, device);
    }
  }

  lemma AddPairingUnique(pairings: map<Uuid, PairingRow>, row: PairingRow, requestId: Uuid)
    requires UniquePairings(pairings)
    requires forall p :: p in pairings ==> pairings[p].token != row.token && pairings[p].secret != row.secret
    ensures UniquePairings(pairings[requestId := row])
  {
  }

  /** A pending row whose token was never issued leaves the other tables' facts alone. */
  lemma PendingRowKeeps(db: Db, row: PairingRow, requestId: Uuid)
    requires LifecycleInv(db) && row.status == Pending && !TokenIssued(db.credentials, row.token)
             && requestId !in db.pairings
    ensures var after := db.(pairings := db.pairings[requestId := row]);
            OneLivePerHost(after) && InvitesAgree(after) && PendingTokensUnissued(after)
                && ActivePairingsTruthful(after)
  {
    var after := db.(pairings := db.pairings[requestId := row]);
    forall h | HostActive(after.hosts, h) ensures ActiveInviteFor(after.invites, h) {
      assert ActiveInviteFor(db.invites, h);
    }
    forall p | p in after.pairings && after.pairings[p].status == Active ensures Truthful(after, after.pairings[p]) {
      assert after.pairings[p] == db.pairings[p] && Truthful(db, db.pairings[p]);
    }
  }

  lemma AddPairingKeeps(db: Db, request: PairingRequest, requestId: Uuid, createdAt: Instant)
    requires LifecycleInv(db) && !TokenIssued(db.credentials, request.token) && requestId !in db.pairings
    requires forall p :: p in db.pairings ==>
               db.pairings[p].token != request.token && db.pairings[p].secret != request.secret
    requires |db.pairings| < MAX_PAIRINGS && |PendingPairings(db.pairings)| < MAX_PENDING
    requires |PendingFor(db.pairings, request.requestedHost)| < MAX_PENDING_PER_DEVICE
    ensures LifecycleInv(db.(pairings := db.pairings[requestId := NewPairing(request, createdAt)]))
  {
    var row := NewPairing(request, createdAt);
    AddPairingBounds(db, row, requestId);
    AddPairingUnique(db.pairings, row, requestId);
    PendingRowKeeps(db, row, requestId);
  }

  lemma CreatePairingKeeps(db: Db, request: PairingRequest, requestId: Uuid, now: Instant, createdAt: Instant,
                           gone: seq<Uuid>, storageOk: bool)
    requires LifecycleInv(db)
    ensures LifecycleInv(CreatePairing(db, request, requestId, now, createdAt, gone, storageOk).0)
  {
    var after := CreatePairing(db, request, requestId, now, createdAt, gone, storageOk).0;
    if !TokenIssued(db.credentials, request.token) {
      if SecretKnown(db.pairings, request.secret) {
        SettlingKeeps(db, after);
      } else {
        AdmitKeeps(db, request, requestId, now, createdAt, gone, storageOk);
      }
    }
  }

  lemma ExpireKeeps(db: Db, requestId: Uuid, now: Instant)
    requires LifecycleInv(db)
    ensures LifecycleInv(ExpirePairing(db, requestId, now))
  {
    SettlingKeeps(db, ExpirePairing(db, requestId, now));
  }

  // ---- activation ----

  /**
   * Activation reaches its inserts only for an instance that holds no live credential, and the
   * request's token is then in no credential row: neither uniqueness failure can occur.
   */
  lemma ActivationInsertIsUnique(db: Db, p: Uuid, i: Uuid, credentialId: Uuid, now: Instant)
    requires LifecycleInv(db) && p in db.pairings && i in db.invites
    ensures db.pairings[p].status == Pending ==> !TokenIssued(db.credentials, db.pairings[p].token)
    ensures credentialId !in db.credentials ==> ActivateWith(db, p, i, credentialId, now).1 != ActivateConstraintFailed
    ensures ActivateWith(db, p, i, credentialId, now).1 != DecryptFailed
    ensures ActivateWith(db, p, i, credentialId, now).0 != db ==>
              var h := InstanceFor(db.pairings[p], db.invites[i]);
              !HasLive(db.credentials, h) && !HostActive(db.hosts, h)
                  && forall j :: j in db.invites && j != i ==> db.invites[j].instance != h
  {
  }

  predicate Activates(db: Db, p: Uuid, i: Uuid, credentialId: Uuid, now: Instant)
    requires p in db.pairings && i in db.invites
  {
    db.pairings[p].status == Pending && ActivateWith(db, p, i, credentialId, now).1.Activated?
  }

  lemma ActivateLive(db: Db, p: Uuid, i: Uuid, c: Uuid, now: Instant)
    requires p in db.pairings && i in db.invites && Activates(db, p, i, c, now)
    ensures var after := ActivateWith(db, p, i, c, now).0;
            var h := InstanceFor(db.pairings[p], db.invites[i]);
            && c !in db.credentials
                && after.credentials == db.credentials[c := CredentialRow(h, db.pairings[p].token, None, None)]
            && (forall d :: Live(after.credentials, d) <==> d == c || Live(db.credentials, d))
            && HasLive(after.credentials, h) && HostActive(after.hosts, h)
            && (forall g :: g != h ==>
                  && HasLive(after.credentials, g) == HasLive(db.credentials, g)
                  && HostActive(after.hosts, g) == HostActive(db.hosts, g))
            && LiveToken(after.credentials, h, db.pairings[p].token)
            && (forall g, t :: LiveToken(db.credentials, g, t) ==> LiveToken(after.credentials, g, t))
            && (forall t :: TokenIssued(after.credentials, t) ==>
                  t == db.pairings[p].token || TokenIssued(db.credentials, t))
  {
    var after := ActivateWith(db, p, i, c, now).0;
    var h := InstanceFor(db.pairings[p], db.invites[i]);
    assert Live(after.credentials, c) && after.credentials[c].host == h
           && after.credentials[c].token == db.pairings[p].token;
    assert forall d :: d in db.credentials ==> after.credentials[d] == db.credentials[d];
    forall g, t | LiveToken(db.credentials, g, t) ensures LiveToken(after.credentials, g, t) {
      var d :| d in db.credentials && Live(db.credentials, d) && db.credentials[d].host == g
        && db.credentials[d].token == t;
      assert Live(after.credentials, d);
    }
    forall g | g != h ensures HasLive(after.credentials, g) == HasLive(db.credentials, g) {
      if HasLive(db.credentials, g) {
        var d :| d in db.credentials && Live(db.credentials, d) && db.credentials[d].host == g;
        assert Live(after.credentials, d);
      }
    }
  }

  lemma ActivateUniqueInvites(db: Db, p: Uuid, i: Uuid, c: Uuid, now: Instant)
    requires LifecycleInv(db) && p in db.pairings && i in db.invites && Activates(db, p, i, c, now)
    ensures UniqueInvites(ActivateWith(db, p, i, c, now).0.invites)
    ensures forall j :: j in db.invites && j != i ==>
              db.invites[j].instance != InstanceFor(db.pairings[p], db.invites[i])
  {
    ActivationInsertIsUnique(db, p, i, c, now);
  }

  lemma ActivateInvites(db: Db, p: Uuid, i: Uuid, c: Uuid, now: Instant)
    requires LifecycleInv(db) && p in db.pairings && i in db.invites && Activates(db, p, i, c, now)
    ensures InvitesAgree(ActivateWith(db, p, i, c, now).0)
  {
    hide UniqueTokens, UniquePairings, OneLivePerHost, PendingTokensUnissued, ActivePairingsTruthful, PairingBounds;
    var after := ActivateWith(db, p, i, c, now).0;
    var h := InstanceFor(db.pairings[p], db.invites[i]);
    ActivateLive(db, p, i, c, now);
    ActivateUniqueInvites(db, p, i, c, now);
    assert after.invites[i].instance == h && after.invites[i].status == InviteActive
           && after.invites[i].sealed == Sealed(h, after.invites[i].code);
    forall g | HostActive(after.hosts, g) ensures ActiveInviteFor(after.invites, g) {
      if g != h {
        assert ActiveInviteFor(db.invites, g);
        var j :| j in db.invites && db.invites[j].instance == g && db.invites[j].status == InviteActive;
        assert after.invites[j] == db.invites[j];
      }
    }
  }

  lemma ActivateTokens(db: Db, p: Uuid, i: Uuid, c: Uuid, now: Instant)
    requires LifecycleInv(db) && p in db.pairings && i in db.invites && Activates(db, p, i, c, now)
    ensures UniqueTokens(ActivateWith(db, p, i, c, now).0.credentials)
  {
    assert !TokenIssued(db.credentials, db.pairings[p].token);
    assert forall d :: d in db.credentials ==> db.credentials[d].token != db.pairings[p].token;
  }

  lemma ActivateCredentials(db: Db, p: Uuid, i: Uuid, c: Uuid, now: Instant)
    requires LifecycleInv(db) && p in db.pairings && i in db.invites && Activates(db, p, i, c, now)
    ensures OneLivePerHost(ActivateWith(db, p, i, c, now).0)
  {
    hide UniqueInvites, UniquePairings, ActivePairingsTruthful, PairingBounds, ActiveInviteFor;
    var after := ActivateWith(db, p, i, c, now).0;
    var h := InstanceFor(db.pairings[p], db.invites[i]);
    ActivateLive(db, p, i, c, now);
    ActivationInsertIsUnique(db, p, i, c, now);
    assert forall d :: Live(db.credentials, d) ==> db.credentials[d].host != h;
    assert after.hosts.Keys == db.hosts.Keys + {h};
    assert forall d :: d in db.credentials ==> after.credentials[d] == db.credentials[d];
  }

  lemma ActivateBounds(db: Db, p: Uuid, i: Uuid, c: Uuid, now: Instant)
    requires LifecycleInv(db) && p in db.pairings && i in db.invites && Activates(db, p, i, c, now)
    ensures PairingBounds(ActivateWith(db, p, i, c, now).0)
  {
    hide UniqueKeys, OneLivePerHost, InvitesAgree, PendingTokensUnissued, ActivePairingsTruthful, PairingBounds,
      RecoveryBlocked, TokenIssued, ClearPayload, LatestOf;
    var after := ActivateWith(db, p, i, c, now).0;
    assert after.invites.Keys == db.invites.Keys && after.pairings.Keys == db.pairings.Keys;
    FewerRows(db, after);
  }

  lemma ActivateTruthful(db: Db, p: Uuid, i: Uuid, c: Uuid, now: Instant)
    requires LifecycleInv(db) && p in db.pairings && i in db.invites && Activates(db, p, i, c, now)
    ensures ActivePairingsTruthful(ActivateWith(db, p, i, c, now).0)
  {
    hide UniqueKeys, OneLivePerHost, PendingTokensUnissued, PairingBounds, ClearPayload, LatestOf, TokenIssued,
      ActiveInviteFor;
    var after := ActivateWith(db, p, i, c, now).0;
    ActivateLive(db, p, i, c, now);
    forall q | q in after.pairings && after.pairings[q].status == Active ensures Truthful(after, after.pairings[q]) {
      if q != p {
        assert after.pairings[q] == db.pairings[q] && Truthful(db, db.pairings[q]);
        assert db.pairings[q].invite.value != i;
      }
    }
  }

  lemma ActivatePairings(db: Db, p: Uuid, i: Uuid, c: Uuid, now: Instant)
    requires LifecycleInv(db) && p in db.pairings && i in db.invites && Activates(db, p, i, c, now)
    ensures var after := ActivateWith(db, p, i, c, now).0;
            UniquePairings(after.pairings) && PendingTokensUnissued(after)
    ensures ActivateWith(db, p, i, c, now).0.pairings.Keys == db.pairings.Keys
  {
    hide UniqueInvites, UniqueTokens, OneLivePerHost, PairingBounds, InvitesAgree, ActivePairingsTruthful,
      ClearPayload, LatestOf;
    var after := ActivateWith(db, p, i, c, now).0;
    ActivateLive(db, p, i, c, now);
    forall q | q in after.pairings && after.pairings[q].status == Pending
      ensures !TokenIssued(after.credentials, after.pairings[q].token)
    {
      assert q != p && !TokenIssued(db.credentials, db.pairings[q].token);
    }
  }

  lemma ActivateKeeps(db: Db, p: Uuid, code: Digest, c: Uuid, now: Instant)
    requires LifecycleInv(db)
    ensures LifecycleInv(Activate(db, p, code, c, now).0)
  {
    if p in db.pairings && CodeTaken(db.invites, code) {
      var i :| i in db.invites && db.invites[i].code == code
        && Activate(db, p, code, c, now) == ActivateWith(db, p, i, c, now);
      if Activates(db, p, i, c, now) {
        ActivateUniqueInvites(db, p, i, c, now);
        ActivateInvites(db, p, i, c, now);
        ActivateTokens(db, p, i, c, now);
        ActivateCredentials(db, p, i, c, now);
        ActivatePairings(db, p, i, c, now);
        ActivateTruthful(db, p, i, c, now);
        ActivateBounds(db, p, i, c, now);
      }
    }
  }

  // ---- what the invariants promise to a caller ----

  /** A report token resolves to at most one host. */
  lemma TokenResolvesOnce(db: Db, token: Digest, g: Uuid, h: Uuid)
    requires LifecycleInv(db) && Resolves(db, token, g) && Resolves(db, token, h)
    ensures g == h
  {
  }

  lemma OneActivePairingPerInstance(db: Db, p: Uuid, q: Uuid)
    requires LifecycleInv(db) && p in db.pairings && q in db.pairings
    requires db.pairings[p].status == Active && db.pairings[q].status == Active
    requires db.pairings[p].instance == db.pairings[q].instance
    ensures p == q
  {
    assert Truthful(db, db.pairings[p]) && Truthful(db, db.pairings[q]);
  }

  /**
   * An active request replayed with its invite's current code returns the same instance and changes
   * nothing; with the code of any other invite it conflicts.
   */
  lemma ReplayIsIdempotent(db: Db, p: Uuid, code: Digest, c: Uuid, now: Instant)
    requires LifecycleInv(db) && p in db.pairings && db.pairings[p].status == Active && CodeTaken(db.invites, code)
    ensures Activate(db, p, code, c, now).0 == db
    ensures db.pairings[p].instance.Some? && db.pairings[p].invite.Some? && db.pairings[p].invite.value in db.invites
    ensures Activate(db, p, code, c, now).1 ==
            if code == db.invites[db.pairings[p].invite.value].code then Activated(db.pairings[p].instance.value)
            else ActivateConflict
  {
    assert Truthful(db, db.pairings[p]);
  }

  /**
   * Rotation to a different code cuts the old client off completely: its request reads denied, no
   * token resolves to the instance any more, and the old code opens no invite.
   */
  lemma RotationCutsOff(db: Db, inviteId: Uuid, code: Digest, now: Instant)
    requires LifecycleInv(db) && RotateInvite(db, inviteId, code, now).1 == Rotated
    requires code != db.invites[inviteId].code
    ensures var after := RotateInvite(db, inviteId, code, now).0;
            var h := db.invites[inviteId].instance;
            && !CodeTaken(after.invites, db.invites[inviteId].code)
            && (forall token :: !Resolves(after, token, h))
            && (forall token, g :: g != h ==> (Resolves(after, token, g) <==> Resolves(db, token, g)))
            && (forall p ::
                  p in db.pairings && db.pairings[p].status == Active && db.pairings[p].instance == Some(h) ==>
                    p in after.pairings && after.pairings[p].status == Denied)
            && (forall p :: p in db.pairings && db.pairings[p].instance != Some(h) ==>
                  p in after.pairings && after.pairings[p] == db.pairings[p])
  {
    RotateLive(db, inviteId, code, now);
    RotatedHosts(db, inviteId, code, now);
  }

  // ---- how rows may evolve ----

  predicate MayBecome(a: PairingStatus, b: PairingStatus) {
    a == b || (a == Pending && (b == Active || b == Expired)) || (a == Active && b == Denied)
  }

  /** A surviving request keeps its identity and only moves forward. */
  ghost predicate PairingsEvolve(before: map<Uuid, PairingRow>, after: map<Uuid, PairingRow>) {
    forall p :: p in before && p in after ==>
      && MayBecome(before[p].status, after[p].status)
      && after[p] == before[p].(status := after[p].status, invite := after[p].invite, instance := after[p].instance)
      && (before[p].status != Pending ==>
          after[p].invite == before[p].invite && after[p].instance == before[p].instance)
  }

  /** A credential keeps its host and token, and a revoked one stays revoked. */
  ghost predicate CredentialsEvolve(before: map<Uuid, CredentialRow>, after: map<Uuid, CredentialRow>) {
    forall c :: c in before && c in after ==>
      && after[c].host == before[c].host && after[c].token == before[c].token
      && (before[c].revokedAt.Some? ==> after[c].revokedAt == before[c].revokedAt)
  }

  ghost predicate Evolves(db: Db, after: Db) {
    PairingsEvolve(db.pairings, after.pairings) && CredentialsEvolve(db.credentials, after.credentials)
  }

  lemma AdmitEvolves(db: Db, request: PairingRequest, requestId: Uuid, now: Instant, createdAt: Instant,
                     gone: seq<Uuid>, storageOk: bool)
    requires requestId !in db.pairings
    ensures Evolves(db, AdmitPairing(db, request, requestId, now, createdAt, gone, storageOk).0)
  {
    var tidy := Tidy(db, now, gone);
    assert PairingsEvolve(db.pairings, tidy.pairings);
    var after := AdmitPairing(db, request, requestId, now, createdAt, gone, storageOk).0;
    assert after == db || after == tidy || after.pairings == tidy.pairings[requestId := NewPairing(request, createdAt)];
  }

  lemma EvolvesReflexive(db: Db)
    ensures Evolves(db, db)
  {
  }

  lemma RepeatEvolves(db: Db, p: Uuid, request: PairingRequest, now: Instant)
    requires p in db.pairings
    ensures Evolves(db, RepeatPairing(db, p, request, now).0)
  {
    hide Matches, CredentialsEvolve;
    EvolvesReflexive(db);
  }

  lemma CreatePairingEvolves(db: Db, request: PairingRequest, requestId: Uuid, now: Instant, createdAt: Instant,
                             gone: seq<Uuid>, storageOk: bool)
    requires requestId !in db.pairings
    ensures Evolves(db, CreatePairing(db, request, requestId, now, createdAt, gone, storageOk).0)
  {
    if TokenIssued(db.credentials, request.token) {
      EvolvesReflexive(db);
    } else if SecretKnown(db.pairings, request.secret) {
      var p :| p in db.pairings && db.pairings[p].secret == request.secret
               && CreatePairing(db, request, requestId, now, createdAt, gone, storageOk) ==
                   RepeatPairing(db, p, request, now);
      RepeatEvolves(db, p, request, now);
    } else {
      AdmitEvolves(db, request, requestId, now, createdAt, gone, storageOk);
    }
  }

  lemma ActivateWithEvolves(db: Db, p: Uuid, i: Uuid, c: Uuid, now: Instant)
    requires p in db.pairings && i in db.invites
    ensures Evolves(db, ActivateWith(db, p, i, c, now).0)
  {
    hide RecoveryBlocked, LiveToken, TokenIssued, ClearPayload, LatestOf, CodeTaken, InstanceFor;
  }

  lemma ActivateEvolves(db: Db, p: Uuid, code: Digest, c: Uuid, now: Instant)
    ensures Evolves(db, Activate(db, p, code, c, now).0)
  {
    hide Evolves, ActivateWith;
    EvolvesReflexive(db);
    if p in db.pairings && CodeTaken(db.invites, code) {
      var i :| i in db.invites && db.invites[i].code == code
        && Activate(db, p, code, c, now) == ActivateWith(db, p, i, c, now);
      ActivateWithEvolves(db, p, i, c, now);
    }
  }

  lemma RotateEvolves(db: Db, inviteId: Uuid, code: Digest, now: Instant)
    ensures Evolves(db, RotateInvite(db, inviteId, code, now).0)
  {
  }
}
