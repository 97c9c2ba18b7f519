/**
 * The SQLite tables as values. One `Db` is one committed snapshot; every transaction is a step
 * from one `Db` to the next. Tables are maps keyed by their primary key.
 */
module Schema {
  import opened Common

  type Uuid = nat            // 128-bit identifiers, ordered by their bytes
  type Digest = nat          // opaque hashes; equal digests mean equal secrets
  type Instant = int         // nanoseconds since the Unix epoch

  const SECOND: int := 1_000_000_000
  const HOUR: int := 3600 * SECOND
  const DAY: int := 24 * HOUR
  const METRICS: nat := 15

  // ---- telemetry ----

  /** count/min/max/avg of one metric; `None` is SQL NULL. */
  datatype Scalar = Scalar(count: nat, min: Option<real>, max: Option<real>, avg: Option<real>)

  /** The 15 metrics of a report; a client may leave any of them out. */
  type Metrics = m: seq<Option<real>> | |m| == METRICS witness seq(METRICS, _ => None)

  type Scalars = m: seq<Scalar> | |m| == METRICS witness seq(METRICS, _ => Scalar(0, None, None, None))

  datatype HourlyRow = HourlyRow(intervalStart: Instant, intervalEnd: Instant, sampleCount: nat, metrics: Scalars)

  type BucketKey = (Uuid, Instant)   // host_id, bucket_start

  /** One accepted report as far as history is concerned. */
  datatype Sample = Sample(id: Uuid, host: Uuid, collected: Instant, received: Instant, metrics: Metrics)

  datatype ReportRow = ReportRow(
    sample: Sample,
    payload: Option<nat>,             // size in bytes of the retained full report
    aggregatedAt: Option<Instant>)

  // ---- hosts and credentials ----

  datatype HostRow = HostRow(
    active: bool,                     // lifecycle_status: 'active' or 'revoked'
    revokedAt: Option<Instant>,
    latest: Option<Uuid>,
    latestCollected: Option<Instant>,
    lastSeen: Instant)

  datatype CredentialRow = CredentialRow(host: Uuid, token: Digest, revokedAt: Option<Instant>,
                                         lastUsed: Option<Instant>)

  datatype InviteStatus = InvitePending | InviteActive | InviteCancelled

  /** The encrypted authorization code: it opens only under the instance it was sealed for. */
  datatype Sealed = Sealed(owner: Uuid, code: Digest)

  datatype InviteRow = InviteRow(instance: Uuid, code: Digest, sealed: Sealed, status: InviteStatus)

  datatype PairingMode = Fresh | RecoverIdentity
  datatype PairingStatus = Pending | Active | Expired | Denied

  datatype PairingRow = PairingRow(
    requestedHost: Uuid, mode: PairingMode, platform: string, token: Digest, secret: Digest,
    status: PairingStatus, invite: Option<Uuid>, instance: Option<Uuid>,
    expiresAt: Instant, createdAt: Instant)

  datatype Db = Db(
    hosts: map<Uuid, HostRow>,
    credentials: map<Uuid, CredentialRow>,
    invites: map<Uuid, InviteRow>,
    pairings: map<Uuid, PairingRow>,
    reports: map<Uuid, ReportRow>,
    hourly: map<BucketKey, HourlyRow>)

  const EMPTY_DB: Db := Db(map[], map[], map[], map[], map[], map[])
}
