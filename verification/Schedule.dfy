/** The schedule of a retention run: which transaction comes when, and what a trail of them is. */
module Schedule {
  import opened Common
  import opened Schema
  import opened Retention
  import opened Selection

  /** The cutoffs and limits of one run. */
  datatype Plan = Plan(now: Instant, rawRetention: int, aggregateRetention: int, batchSize: nat, maxTransactions: nat) {
    predicate Proper() { batchSize > 0 && maxTransactions >= 3 }
    function RawCutoff(): Instant { now - rawRetention }
    function AggregateCutoff(): Instant { now - aggregateRetention }
  }

  datatype RunOutcome = RunOutcome(
    aggregatedReports: nat, deletedRawReports: nat, deletedHours: nat, transactions: nat, backlogRemaining: bool)
  {
    function Rows(): nat { aggregatedReports + deletedRawReports + deletedHours }
  }

  // ---- the three transactions ----

  ghost predicate RollsUp(before: Db, after: Db, n: nat, p: Plan) {
    exists batch :: IsFirst(batch, RollUpCandidates(before, p.RawCutoff()), p.batchSize)
      && |batch| == n && after == RollUp(before, batch, p.now)
  }

  ghost predicate Purges(before: Db, after: Db, n: nat, p: Plan) {
    exists rows :: IsFirst(rows, PurgeCandidates(before, p.RawCutoff()), p.batchSize)
      && |rows| == n && after == Purge(before, rows)
  }

  ghost predicate Expires(before: Db, after: Db, n: nat, p: Plan) {
    exists hours :: IsFirst(hours, ExpiryCandidates(before, p.AggregateCutoff()), p.batchSize)
      && |hours| == n && after == Expire(before, hours)
  }

  // ---- the schedule of a run ----

  /** Transactions take turns: roll up, delete raw rows, expire hours. */
  ghost predicate Turn(n: nat, before: Db, after: Db, count: nat, p: Plan) {
    if n % 3 == 0 then RollsUp(before, after, count, p)
    else if n % 3 == 1 then Purges(before, after, count, p)
    else Expires(before, after, count, p)
  }

  /** `trail` are the tables before, between and after the transactions and `counts` the rows each one touched. */
  ghost predicate IsTrail(trail: seq<Db>, counts: seq<nat>, p: Plan) {
    && |trail| == |counts| + 1
    && forall n :: 0 <= n < |counts| ==> Turn(n, trail[n], trail[n + 1], counts[n], p)
  }

  lemma TrailLength(trail: seq<Db>, counts: seq<nat>, p: Plan)
    requires IsTrail(trail, counts, p)
    ensures |trail| == |counts| + 1
  {
    hide Turn;
  }

  lemma TurnAt(trail: seq<Db>, counts: seq<nat>, p: Plan, n: nat)
    requires IsTrail(trail, counts, p) && n < |counts|
    ensures Turn(n, trail[n], trail[n + 1], counts[n], p)
  {
    hide Turn;
  }

  /** The same with other transactions in between: `found` and `left` are the tables before and after each one. */
  ghost predicate IsTurns(found: seq<Db>, left: seq<Db>, counts: seq<nat>, p: Plan) {
    && |found| == |left| == |counts|
    && forall n :: 0 <= n < |counts| ==> Turn(n, found[n], left[n], counts[n], p)
  }

  predicate IdleRound(counts: seq<nat>, j: nat) {
    3 * j + 3 <= |counts| && counts[3 * j] == 0 && counts[3 * j + 1] == 0 && counts[3 * j + 2] == 0
  }

  ghost predicate Busy(counts: seq<nat>) { forall j: nat :: !IdleRound(counts, j) }

  /** A run ends with its first idle round, or with its budget. */
  ghost predicate EndsOnTime(counts: seq<nat>, p: Plan) {
    && |counts| <= p.maxTransactions
    && ((Busy(counts) && |counts| == p.maxTransactions) || EndsIdle(counts))
  }

  /** The last round is idle, and the first one to be. */
  ghost predicate EndsIdle(counts: seq<nat>) {
    |counts| >= 3 && |counts| % 3 == 0 && Busy(counts[..|counts| - 1]) && IdleRound(counts, |counts| / 3 - 1)
  }

  /** Appending a round, one transaction after the other. */
  lemma BusyGrows(counts: seq<nat>, a: nat, b: nat, c: nat)
    requires Busy(counts) && |counts| % 3 == 0
    ensures Busy(counts + [a]) && Busy(counts + [a] + [b])
    ensures if a == b == c == 0 then EndsIdle(counts + [a] + [b] + [c]) else Busy(counts + [a] + [b] + [c])
  {
    var one, two, three := counts + [a], counts + [a] + [b], counts + [a] + [b] + [c];
    forall j: nat ensures !IdleRound(one, j) && !IdleRound(two, j) && (IdleRound(three, j) ==> 3 * j == |counts|) {
      assert !IdleRound(counts, j);
    }
    assert three[..|three| - 1] == two;
    assert three[|counts|] == a && three[|counts| + 1] == b && three[|counts| + 2] == c;
  }

  /** The rows touched by the transactions of one kind. */
  function SumOf(counts: seq<nat>, kind: nat): nat {
    if counts == [] then 0
    else SumOf(counts[..|counts| - 1], kind) + (if (|counts| - 1) % 3 == kind then counts[|counts| - 1] else 0)
  }

  ghost predicate Adds(counts: seq<nat>, run: RunOutcome) {
    && run.transactions == |counts|
    && run.aggregatedReports == SumOf(counts, 0) && run.deletedRawReports == SumOf(counts, 1)
        && run.deletedHours == SumOf(counts, 2)
  }

  lemma SumsAdd(counts: seq<nat>, n: nat)
    ensures SumOf(counts + [n], |counts| % 3) == SumOf(counts, |counts| % 3) + n
    ensures forall kind :: kind != |counts| % 3 ==> SumOf(counts + [n], kind) == SumOf(counts, kind)
  {
    assert (counts + [n])[..|counts|] == counts;
  }

  lemma OneMoreTurn(trail: seq<Db>, counts: seq<nat>, db: Db, n: nat, p: Plan)
    requires IsTrail(trail, counts, p) && Turn(|counts|, trail[|counts|], db, n, p)
    ensures IsTrail(trail + [db], counts + [n], p)
  {
    hide Turn;
    var longer, more := trail + [db], counts + [n];
    forall i | 0 <= i < |more| ensures Turn(i, longer[i], longer[i + 1], more[i], p) {
      if i < |counts| { assert Turn(i, trail[i], trail[i + 1], counts[i], p); }
    }
  }

  // ---- turns that find nothing ----

  /** A turn that touches nothing had nothing to do and leaves the tables as they were. */
  lemma IdleTurn(n: nat, before: Db, after: Db, p: Plan)
    requires Turn(n, before, after, 0, p) && p.Proper()
    ensures after == before
    ensures n % 3 == 0 ==> RollUpCandidates(before, p.RawCutoff()) == map[]
    ensures n % 3 == 1 ==> PurgeCandidates(before, p.RawCutoff()) == map[]
    ensures n % 3 == 2 ==> ExpiryCandidates(before, p.AggregateCutoff()) == map[]
  {
    NothingChanges(before, p);
    hide RollUpCandidates, PurgeCandidates, ExpiryCandidates, RollUp, Purge, Expire, IsFirst;
    if n % 3 == 0 {
      EmptyBatchMeansNone<Uuid>([], RollUpCandidates(before, p.RawCutoff()), p.batchSize);
    } else if n % 3 == 1 {
      EmptyBatchMeansNone<Uuid>([], PurgeCandidates(before, p.RawCutoff()), p.batchSize);
    } else {
      EmptyBatchMeansNone<BucketKey>([], ExpiryCandidates(before, p.AggregateCutoff()), p.batchSize);
    }
  }

  lemma NothingChanges(db: Db, p: Plan)
    ensures RollUp(db, [], p.now) == db && Purge(db, []) == db && Expire(db, []) == db
  {
    RollUpNothing(db, p.now);
    PurgeNothing(db);
    assert Expire(db, []).hourly == db.hourly;
  }

  /** In a quiet database every turn finds nothing. */
  lemma QuietTurn(n: nat, db: Db, p: Plan)
    requires Quiet(db, p.RawCutoff(), p.AggregateCutoff())
    ensures Turn(n, db, db, 0, p)
  {
    NothingChanges(db, p);
    hide RollUpCandidates, PurgeCandidates, ExpiryCandidates, RollUp, Purge, Expire;
    assert IsFirst([], RollUpCandidates(db, p.RawCutoff()), p.batchSize);
    assert IsFirst([], PurgeCandidates(db, p.RawCutoff()), p.batchSize);
    assert IsFirst([], ExpiryCandidates(db, p.AggregateCutoff()), p.batchSize);
  }

  lemma {:induction false} QuietGoesOn(trail: seq<Db>, counts: seq<nat>, p: Plan, n: nat)
    returns (longer: seq<Db>, more: seq<nat>)
    requires IsTrail(trail, counts, p) && Quiet(trail[|counts|], p.RawCutoff(), p.AggregateCutoff()) && |counts| <= n
    ensures IsTrail(longer, more, p) && |more| == n && longer[0] == trail[0] && longer[n] == trail[|counts|]
    decreases n - |counts|
  {
    hide Quiet, Turn;
    longer, more := trail, counts;
    if |counts| < n {
      var db := trail[|counts|];
      QuietTurn(|counts|, db, p);
      OneMoreTurn(trail, counts, db, 0, p);
      longer, more := QuietGoesOn(trail + [db], counts + [0], p, n);
    }
  }

  /** The last round of a run that ends idle found nothing to do, whatever else was written in between. */
  lemma IdleRoundFoundNothing(found: seq<Db>, left: seq<Db>, counts: seq<nat>, p: Plan)
    requires IsTurns(found, left, counts, p) && EndsIdle(counts) && p.Proper()
    ensures var n := |counts|;
            && RollUpCandidates(found[n - 3], p.RawCutoff()) == map[]
            && PurgeCandidates(found[n - 2], p.RawCutoff()) == map[]
            && ExpiryCandidates(found[n - 1], p.AggregateCutoff()) == map[]
            && NoOldRaw(found[n - 3], p.now - p.rawRetention)
            && NoOldMarked(found[n - 2], p.now - p.rawRetention)
            && NoOldHour(found[n - 1], p.now - p.aggregateRetention)
            && left[n - 3] == found[n - 3] && left[n - 2] == found[n - 2] && left[n - 1] == found[n - 1]
  {
    hide Turn, RollUpCandidates, PurgeCandidates, ExpiryCandidates, Busy, OldRaw, OldMarked, OldHour;
    var n := |counts|;
    CandidatesAreOld(found[n - 3], p.RawCutoff());
    CandidatesAreOld(found[n - 2], p.RawCutoff());
    CandidatesAreOld(found[n - 1], p.AggregateCutoff());
    assert 3 * (n / 3 - 1) == n - 3;
    IdleTurn(n - 3, found[n - 3], left[n - 3], p);
    IdleTurn(n - 2, found[n - 2], left[n - 2], p);
    IdleTurn(n - 1, found[n - 1], left[n - 1], p);
  }

  /** And if nothing else was written, nothing is left to do. */
  lemma IdleRoundIsQuiet(trail: seq<Db>, counts: seq<nat>, p: Plan)
    requires IsTrail(trail, counts, p) && EndsIdle(counts) && p.Proper()
    ensures Quiet(trail[|counts|], p.RawCutoff(), p.AggregateCutoff())
  {
    hide Turn, RollUpCandidates, PurgeCandidates, ExpiryCandidates, Busy, EndsIdle;
    TrailTurns(trail, counts, p);
    IdleRoundFoundNothing(trail[..|counts|], trail[1..], counts, p);
    assert |counts| >= 3 by { IdleIsLong(counts); }
  }

  lemma IdleIsLong(counts: seq<nat>)
    requires EndsIdle(counts)
    ensures |counts| >= 3
  {
  }

  lemma TrailTurns(trail: seq<Db>, counts: seq<nat>, p: Plan)
    requires IsTrail(trail, counts, p)
    ensures IsTurns(trail[..|counts|], trail[1..], counts, p)
  {
    hide Turn;
    forall n | 0 <= n < |counts| ensures Turn(n, trail[..|counts|][n], trail[1..][n], counts[n], p) {
      assert Turn(n, trail[n], trail[n + 1], counts[n], p);
    }
  }
}
