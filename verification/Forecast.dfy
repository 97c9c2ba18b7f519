/** What one retention run leaves to do, counted on the tables it starts from. */
module Forecast {
  import opened Common
  import opened Schema
  import opened Aggregates
  import opened Retention
  import opened Selection
  import opened Schedule

  // ---- one order, one answer ----

  lemma OrderExists<K(!new)>(rank: map<K, Rank>)
    ensures exists rows :: IsFirst(rows, rank, |rank|)
  {
    var rows := TakeRest([], rank.Keys, rank);
  }

  lemma {:induction false} TakeRest<K(!new)>(rows: seq<K>, left: set<K>, rank: map<K, Rank>) returns (all: seq<K>)
    requires TakenSoFar(rows, left, rank)
    ensures IsFirst(all, rank, |rank|)
    decreases |left|
  {
    if left == {} {
      all := rows;
    } else {
      MinimumExists(left, rank);
      var k :| k in left && forall j :: j in left ==> !Precedes(rank[j], rank[k]);
      TakeNext(rows, left, rank, k);
      all := TakeRest(rows + [k], left - {k}, rank);
    }
  }

  /** All rows in the order of their ranks. */
  ghost function InOrder<K(!new)>(rank: map<K, Rank>): (rows: seq<K>)
    ensures IsFirst(rows, rank, |rank|)
  {
    OrderExists(rank);
    var rows :| IsFirst(rows, rank, |rank|);
    rows
  }

  ghost predicate NoTies<K(!new)>(rank: map<K, Rank>) {
    forall j, k :: j in rank && k in rank && j != k ==> rank[j] != rank[k]
  }

  /** Without ties a limited answer is a prefix of every longer one. */
  lemma FirstIsPrefix<K(!new)>(rows: seq<K>, more: seq<K>, rank: map<K, Rank>, n: nat, m: nat)
    requires IsFirst(rows, rank, n) && IsFirst(more, rank, m) && n <= m && NoTies(rank)
    ensures |rows| <= |more| && rows == more[..|rows|]
  {
    SamePrefix(rows, more, rank, n, m, |rows|);
    assert rows[..|rows|] == rows;
  }

  lemma {:induction false} SamePrefix<K(!new)>(rows: seq<K>, more: seq<K>, rank: map<K, Rank>, n: nat, m: nat, i: nat)
    requires IsFirst(rows, rank, n) && IsFirst(more, rank, m) && n <= m && NoTies(rank) && i <= |rows|
    ensures i <= |more| && rows[..i] == more[..i]
    decreases i
  {
    if i > 0 {
      SamePrefix(rows, more, rank, n, m, i - 1);
      var x, y := rows[i - 1], more[i - 1];
      NotPassedOver(rows, rank, n, i - 1, y);
      NotPassedOver(more, rank, m, i - 1, x);
    }
  }

  lemma NotPassedOver<K(!new)>(rows: seq<K>, rank: map<K, Rank>, n: nat, i: nat, k: K)
    requires IsFirst(rows, rank, n) && i < |rows| && k in rank && k !in rows[..i]
    ensures !Precedes(rank[k], rank[rows[i]])
  {
    assert forall j :: 0 <= j < i ==> rows[..i][j] == rows[j];
    if k in rows {
      var j :| 0 <= j < |rows| && rows[j] == k;
    }
  }

  /** Once the first rows are gone, the rest is the order of what is left. */
  lemma RestInOrder<K(!new)>(rows: seq<K>, rank: map<K, Rank>, i: nat, left: map<K, Rank>)
    requires IsFirst(rows, rank, |rank|) && i <= |rows|
    requires left.Keys == (set k | k in rows[i..]) && forall k :: k in left ==> k in rank && left[k] == rank[k]
    ensures IsFirst(rows[i..], left, |left|)
  {
    var rest := rows[i..];
    DistinctSize(rest);
    assert |left| == |left.Keys|;
  }

  // ---- turns ----

  /** How many of the first `n` transactions roll up, delete marked rows, and expire hours. */
  function Rolls(n: nat): nat { (n + 2) / 3 }
  function Purgings(n: nat): nat { (n + 1) / 3 }

  /** The reports waiting to be rolled up, in the order in which that happens. */
  ghost function Waiting(db: Db, p: Plan): seq<Uuid> { InOrder(RollUpCandidates(db, p.RawCutoff())) }

  /** They are the old raw reports of the table, each once, the first collected first. */
  lemma WaitingIsOldRaw(db: Db, p: Plan)
    ensures forall r :: r in Waiting(db, p) <==> OldRaw(db, r, p.now - p.rawRetention)
    ensures Distinct(Waiting(db, p))
    ensures forall i, j :: 0 <= i < j < |Waiting(db, p)| ==>
              && Waiting(db, p)[i] in db.reports && Waiting(db, p)[j] in db.reports
              && db.reports[Waiting(db, p)[i]].sample.collected <= db.reports[Waiting(db, p)[j]].sample.collected
  {
    hide RollUpCandidates, OldRaw, OldMarked, OldHour, InOrder;
    var all, rank := Waiting(db, p), RollUpCandidates(db, p.RawCutoff());
    CandidatesAreOld(db, p.RawCutoff());
    AllInOrder(all, rank);
    CandidatesAreStored(db, p.RawCutoff());
    assert forall r :: r in all <==> r in rank;
    forall i, j | 0 <= i < j < |all|
      ensures all[i] in db.reports && all[j] in db.reports
      ensures db.reports[all[i]].sample.collected <= db.reports[all[j]].sample.collected
    {
      assert all[i] in rank && all[j] in rank && !Precedes(rank[all[j]], rank[all[i]]);
    }
  }

  lemma CandidatesAreStored(db: Db, cutoff: Instant)
    ensures forall r :: r in RollUpCandidates(db, cutoff) ==> r in db.reports
  {
  }

  /** How many of them `k` batches take. */
  ghost function Taken(db: Db, p: Plan, k: nat): nat { Least(k * p.batchSize, |Waiting(db, p)|) }

  lemma NextBatch(db: Db, p: Plan, k: nat)
    ensures Taken(db, p, k) <= Taken(db, p, k + 1) <= |Waiting(db, p)|
    ensures Taken(db, p, k + 1) == Taken(db, p, k) + Least(p.batchSize, |Waiting(db, p)| - Taken(db, p, k))
  {
    hide Waiting;
    assert (k + 1) * p.batchSize == k * p.batchSize + p.batchSize;
  }

  ghost function Batch(db: Db, p: Plan, k: nat): seq<Uuid>
  {
    NextBatch(db, p, k);
    Waiting(db, p)[Taken(db, p, k)..Taken(db, p, k + 1)]
  }

  // ---- rows waiting to be rolled up ----

  /** After some batches: the rest of the rows waits as it did, and nothing else does. */
  ghost predicate StillWaiting(start: Db, db: Db, p: Plan, k: nat) {
    var rest := Waiting(start, p)[Taken(start, p, k)..];
    && db.hosts == start.hosts
    && RollUpCandidates(db, p.RawCutoff()).Keys == (set r | r in rest)
    && forall r :: r in rest ==> r in db.reports && r in start.reports && db.reports[r] == start.reports[r]
  }

  lemma NothingTaken(start: Db, p: Plan)
    ensures StillWaiting(start, start, p, 0)
  {
    hide InOrder;
    var all := Waiting(start, p);
    assert all[0..] == all;
    DistinctSize(all);
    var candidates := RollUpCandidates(start, p.RawCutoff());
    AllInOrder(all, candidates);
  }

  lemma AllInOrder<K(!new)>(all: seq<K>, rank: map<K, Rank>)
    requires IsFirst(all, rank, |rank|)
    ensures rank.Keys == set r | r in all
  {
    DistinctSize(all);
    var taken := set r | r in all;
    if k :| k in rank && k !in taken {
      SubsetSize(taken, rank.Keys - {k});
    }
  }

  lemma ReportsHaveNoTies(db: Db, cutoff: Instant)
    ensures NoTies(RollUpCandidates(db, cutoff)) && NoTies(PurgeCandidates(db, cutoff))
  {
  }

  lemma SameRanks(start: Db, db: Db, p: Plan, k: nat)
    requires StillWaiting(start, db, p, k)
    ensures forall r :: r in RollUpCandidates(db, p.RawCutoff()) ==>
              && r in RollUpCandidates(start, p.RawCutoff())
              && RollUpCandidates(db, p.RawCutoff())[r] == RollUpCandidates(start, p.RawCutoff())[r]
  {
    hide InOrder;
    var rest := Waiting(start, p)[Taken(start, p, k)..];
    forall r | r in RollUpCandidates(db, p.RawCutoff())
      ensures r in RollUpCandidates(start, p.RawCutoff())
    {
      assert r in rest;
      assert r in Waiting(start, p);
    }
  }

  lemma RestWaits(start: Db, db: Db, p: Plan, k: nat)
    requires StillWaiting(start, db, p, k)
    ensures var candidates := RollUpCandidates(db, p.RawCutoff());
            IsFirst(Waiting(start, p)[Taken(start, p, k)..], candidates, |candidates|) && NoTies(candidates)
  {
    SameRanks(start, db, p, k);
    ReportsHaveNoTies(db, p.RawCutoff());
    hide RollUpCandidates, InOrder, NoTies, IsFirst;
    RestInOrder(Waiting(start, p), RollUpCandidates(start, p.RawCutoff()), Taken(start, p, k),
                RollUpCandidates(db, p.RawCutoff()));
  }

  lemma BatchIsNext(start: Db, db: Db, batch: seq<Uuid>, p: Plan, k: nat)
    requires StillWaiting(start, db, p, k) && IsFirst(batch, RollUpCandidates(db, p.RawCutoff()), p.batchSize)
    ensures batch == Batch(start, p, k)
  {
    hide RollUpCandidates, Waiting, Taken, IsFirst, NoTies, StillWaiting;
    var all, done := Waiting(start, p), Taken(start, p, k);
    NextBatch(start, p, k);
    RestWaits(start, db, p, k);
    FirstIsPrefixOfAll(batch, all[done..], RollUpCandidates(db, p.RawCutoff()), p.batchSize);
    assert all[done..][..|batch|] == all[done..done + |batch|];
  }

  lemma FirstIsPrefixOfAll<K(!new)>(rows: seq<K>, all: seq<K>, rank: map<K, Rank>, n: nat)
    requires IsFirst(rows, rank, n) && IsFirst(all, rank, |rank|) && NoTies(rank)
    ensures |rows| == Least(n, |all|) && rows == all[..|rows|]
  {
    assert IsFirst(rows, rank, |rows|);
    FirstIsPrefix(rows, all, rank, |rows|, |rank|);
  }

  lemma RestShrinks(db: Db, p: Plan, k: nat)
    ensures var rest, batch := Waiting(db, p)[Taken(db, p, k)..], Batch(db, p, k);
            && rest == batch + Waiting(db, p)[Taken(db, p, k + 1)..]
            && Distinct(rest)
            && (forall r :: r in Waiting(db, p)[Taken(db, p, k + 1)..] <==> r in rest && r !in batch)
  {
    var all := Waiting(db, p);
    assert Distinct(all);
    hide Waiting, Taken;
    NextBatch(db, p, k);
    var rest, batch, left := all[Taken(db, p, k)..], Batch(db, p, k), all[Taken(db, p, k + 1)..];
    assert rest == batch + left;
    DistinctParts(batch, left);
  }

  lemma RollUpFrame(db: Db, batch: seq<Uuid>, now: Instant)
    requires forall r :: r in batch ==> r in db.reports
    ensures var after := RollUp(db, batch, now);
            && after.hosts == db.hosts && after.reports.Keys == db.reports.Keys
            && forall r :: r in db.reports && r !in batch ==> after.reports[r] == db.reports[r]
  {
    hide Accumulate, Upsert;
  }

  /** A roll-up takes the next batch. */
  lemma RollsNextBatch(start: Db, before: Db, after: Db, n: nat, p: Plan, k: nat)
    requires StillWaiting(start, before, p, k) && RollsUp(before, after, n, p)
    ensures var batch := Batch(start, p, k);
            && Distinct(batch)
            && (forall r :: r in batch ==> r in RollUpCandidates(before, p.RawCutoff()) && r in before.reports)
            && after == RollUp(before, batch, p.now)
  {
    hide StillWaiting, RollUp, Batch;
    var batch :| IsFirst(batch, RollUpCandidates(before, p.RawCutoff()), p.batchSize)
      && |batch| == n && after == RollUp(before, batch, p.now);
    BatchIsNext(start, before, batch, p, k);
  }

  lemma RollUpKeepsWaiting(start: Db, before: Db, after: Db, n: nat, p: Plan, k: nat)
    requires StillWaiting(start, before, p, k) && RollsUp(before, after, n, p)
    ensures StillWaiting(start, after, p, k + 1)
  {
    hide RollsUp, RollUp, RollUpCandidates, Waiting, Taken, Batch, Distinct, IsFirst;
    RollsNextBatch(start, before, after, n, p, k);
    RestShrinks(start, p, k);
    RollUpTakesBatch(before, Batch(start, p, k), p.now, p.RawCutoff());
    RollUpFrame(before, Batch(start, p, k), p.now);
  }

  lemma PurgeKeepsWaiting(start: Db, before: Db, after: Db, n: nat, p: Plan, k: nat)
    requires StillWaiting(start, before, p, k) && Purges(before, after, n, p)
    ensures StillWaiting(start, after, p, k)
  {
    var rows :| IsFirst(rows, PurgeCandidates(before, p.RawCutoff()), p.batchSize)
      && |rows| == n && after == Purge(before, rows);
    PurgeSparesUnmarked(before, rows, p.RawCutoff());
    assert forall r :: r in rows ==> r !in RollUpCandidates(before, p.RawCutoff());
    hide Waiting, Taken, IsFirst, RollUpCandidates, PurgeCandidates;
  }

  lemma ExpireKeepsWaiting(start: Db, before: Db, after: Db, n: nat, p: Plan, k: nat)
    requires StillWaiting(start, before, p, k) && Expires(before, after, n, p)
    ensures StillWaiting(start, after, p, k)
  {
    var hours :| IsFirst(hours, ExpiryCandidates(before, p.AggregateCutoff()), p.batchSize)
      && |hours| == n && after == Expire(before, hours);
    ExpireKeepsOthers(before, hours, p.RawCutoff());
    hide Waiting, Taken, IsFirst, RollUpCandidates;
  }

  lemma RollsAfter(n: nat)
    ensures Rolls(n + 1) == (if n % 3 == 0 then Rolls(n) + 1 else Rolls(n))
    ensures Purgings(n + 1) == (if n % 3 == 1 then Purgings(n) + 1 else Purgings(n))
    ensures Rolls(n) == Purgings(n) + (if n % 3 == 1 then 1 else 0)
  {
  }

  lemma WaitingStep(start: Db, before: Db, after: Db, count: nat, p: Plan, m: nat)
    requires StillWaiting(start, before, p, Rolls(m)) && Turn(m, before, after, count, p)
    ensures StillWaiting(start, after, p, Rolls(m + 1))
  {
    RollsAfter(m);
    hide StillWaiting, RollsUp, Purges, Expires, Rolls;
    if m % 3 == 0 {
      RollUpKeepsWaiting(start, before, after, count, p, Rolls(m));
    } else if m % 3 == 1 {
      PurgeKeepsWaiting(start, before, after, count, p, Rolls(m));
    } else {
      ExpireKeepsWaiting(start, before, after, count, p, Rolls(m));
    }
  }

  lemma RollsAtFirst()
    ensures Rolls(0) == 0
  {
  }

  lemma {:induction false} WaitingAfter(trail: seq<Db>, counts: seq<nat>, p: Plan, n: nat)
    requires IsTrail(trail, counts, p) && n <= |counts|
    ensures StillWaiting(trail[0], trail[n], p, Rolls(n))
    decreases n
  {
    hide *;
    TrailLength(trail, counts, p);
    if n == 0 {
      RollsAtFirst();
      NothingTaken(trail[0], p);
    } else {
      TurnAt(trail, counts, p, n - 1);
      WaitingAfter(trail, counts, p, n - 1);
      WaitingStep(trail[0], trail[n - 1], trail[n], counts[n - 1], p, n - 1);
    }
  }

  // ---- marked rows ----

  /** How many of the rows were received before the cutoff, so that they may be deleted once they are marked. */
  function Timely(reports: map<Uuid, ReportRow>, rows: seq<Uuid>, cutoff: Instant): nat {
    if rows == [] then 0
    else
      var r := rows[|rows| - 1];
      Timely(reports, rows[..|rows| - 1], cutoff)
        + (if r in reports && reports[r].sample.received < cutoff then 1 else 0)
  }

  lemma {:induction false} TimelyAdds(reports: map<Uuid, ReportRow>, a: seq<Uuid>, b: seq<Uuid>, cutoff: Instant)
    ensures Timely(reports, a + b, cutoff) == Timely(reports, a, cutoff) + Timely(reports, b, cutoff)
    decreases |b|
  {
    if b == [] {
      assert a + b == a;
    } else {
      TimelyAdds(reports, a, b[..|b| - 1], cutoff);
      assert (a + b)[..|a + b| - 1] == a + b[..|b| - 1];
    }
  }

  /** The rows that `k` batches mark and that may be deleted then. */
  ghost function Marked(db: Db, p: Plan, k: nat): nat {
    Timely(db.reports, Waiting(db, p)[..Taken(db, p, k)], p.RawCutoff())
  }

  /** The marked rows left after `n` transactions: each batch of deletions meets at most a batch of new ones. */
  ghost function MarkedLeft(db: Db, p: Plan, n: nat): int {
    var due := |PurgeCandidates(db, p.RawCutoff()).Keys| + Marked(db, p, Purgings(n)) - Purgings(n) * p.batchSize;
    (if due > 0 then due else 0) + Marked(db, p, Rolls(n)) - Marked(db, p, Purgings(n))
  }

  function TimelyRows(reports: map<Uuid, ReportRow>, rows: seq<Uuid>, cutoff: Instant): set<Uuid> {
    set r | r in rows && r in reports && reports[r].sample.received < cutoff
  }

  lemma TimelySnoc(reports: map<Uuid, ReportRow>, init: seq<Uuid>, last: Uuid, cutoff: Instant)
    requires last !in init
    ensures TimelyRows(reports, init + [last], cutoff) == TimelyRows(reports, init, cutoff)
              + (if last in reports && reports[last].sample.received < cutoff then {last} else {})
    ensures last !in TimelyRows(reports, init, cutoff)
  {
  }

  lemma {:induction false} TimelyIsSize(reports: map<Uuid, ReportRow>, rows: seq<Uuid>, cutoff: Instant)
    requires Distinct(rows)
    ensures |TimelyRows(reports, rows, cutoff)| == Timely(reports, rows, cutoff) <= |rows|
    decreases |rows|
  {
    hide TimelyRows;
    if rows == [] {
      assert TimelyRows(reports, rows, cutoff) == {} by { TimelyOfNone(reports, cutoff); }
    } else {
      var init, last := rows[..|rows| - 1], rows[|rows| - 1];
      assert rows == init + [last];
      assert last !in init;
      TimelyIsSize(reports, init, cutoff);
      TimelySnoc(reports, init, last, cutoff);
    }
  }

  lemma TimelyOfNone(reports: map<Uuid, ReportRow>, cutoff: Instant)
    ensures TimelyRows(reports, [], cutoff) == {}
  {
  }

  lemma {:induction false} TimelyFrame(reports: map<Uuid, ReportRow>, other: map<Uuid, ReportRow>, rows: seq<Uuid>,
                                       cutoff: Instant)
    requires forall r :: r in rows ==> r in reports && r in other && reports[r] == other[r]
    ensures Timely(reports, rows, cutoff) == Timely(other, rows, cutoff)
    decreases |rows|
  {
    if rows != [] { TimelyFrame(reports, other, rows[..|rows| - 1], cutoff); }
  }

  lemma RollUpMarks(db: Db, batch: seq<Uuid>, now: Instant, cutoff: Instant)
    requires Distinct(batch) && forall r :: r in batch ==> r in RollUpCandidates(db, cutoff) && r in db.reports
    ensures PurgeCandidates(RollUp(db, batch, now), cutoff).Keys ==
            PurgeCandidates(db, cutoff).Keys + TimelyRows(db.reports, batch, cutoff)
    ensures PurgeCandidates(db, cutoff).Keys !! TimelyRows(db.reports, batch, cutoff)
  {
    hide Accumulate, Upsert;
  }

  lemma MarksAdd(start: Db, before: Db, after: Db, n: nat, p: Plan, k: nat)
    requires StillWaiting(start, before, p, k) && RollsUp(before, after, n, p)
    ensures |PurgeCandidates(after, p.RawCutoff()).Keys| ==
            |PurgeCandidates(before, p.RawCutoff()).Keys| + Marked(start, p, k + 1) - Marked(start, p, k)
  {
    hide RollsUp, RollUpCandidates, PurgeCandidates, RollUp, TimelyRows, Timely, IsFirst, Waiting, Taken, Batch,
      Distinct, Marked;
    var batch := Batch(start, p, k);
    RollsNextBatch(start, before, after, n, p, k);
    RollUpMarks(before, batch, p.now, p.RawCutoff());
    TimelyIsSize(before.reports, batch, p.RawCutoff());
    RestShrinks(start, p, k);
    TimelyFrame(before.reports, start.reports, batch, p.RawCutoff());
    MarkedByBatch(start, p, k);
  }

  lemma MarkedByBatch(db: Db, p: Plan, k: nat)
    ensures Marked(db, p, k + 1) == Marked(db, p, k) + Timely(db.reports, Batch(db, p, k), p.RawCutoff())
  {
    hide Waiting, Taken, Timely;
    NextBatch(db, p, k);
    var all := Waiting(db, p);
    assert all[..Taken(db, p, k + 1)] == all[..Taken(db, p, k)] + Batch(db, p, k);
    TimelyAdds(db.reports, all[..Taken(db, p, k)], Batch(db, p, k), p.RawCutoff());
  }

  lemma PurgingsTake(before: Db, after: Db, n: nat, p: Plan)
    requires Purges(before, after, n, p)
    ensures var marked := |PurgeCandidates(before, p.RawCutoff()).Keys|;
            |PurgeCandidates(after, p.RawCutoff()).Keys| == marked - Least(p.batchSize, marked)
  {
    var rows :| IsFirst(rows, PurgeCandidates(before, p.RawCutoff()), p.batchSize)
      && |rows| == n && after == Purge(before, rows);
    PurgeTakesRows(before, rows, p.RawCutoff());
    hide PurgeCandidates, Purge;
    TakenOut(PurgeCandidates(before, p.RawCutoff()).Keys, PurgeCandidates(after, p.RawCutoff()).Keys, rows);
  }

  lemma ExpiryKeepsMarked(before: Db, after: Db, n: nat, p: Plan)
    requires Expires(before, after, n, p)
    ensures PurgeCandidates(after, p.RawCutoff()) == PurgeCandidates(before, p.RawCutoff())
  {
    var hours :| IsFirst(hours, ExpiryCandidates(before, p.AggregateCutoff()), p.batchSize)
      && |hours| == n && after == Expire(before, hours);
    ExpireKeepsOthers(before, hours, p.RawCutoff());
  }

  lemma BatchMarks(db: Db, p: Plan, k: nat)
    ensures Marked(db, p, k) <= Marked(db, p, k + 1) <= Marked(db, p, k) + p.batchSize
  {
    hide Waiting, Taken, Marked;
    RestShrinks(db, p, k);
    NextBatch(db, p, k);
    MarkedByBatch(db, p, k);
    DistinctParts(Batch(db, p, k), Waiting(db, p)[Taken(db, p, k + 1)..]);
    TimelyIsSize(db.reports, Batch(db, p, k), p.RawCutoff());
  }

  lemma MarkedAfterRollUp(db: Db, p: Plan, n: nat)
    requires n % 3 == 0
    ensures MarkedLeft(db, p, n + 1) - MarkedLeft(db, p, n) ==
            Marked(db, p, Purgings(n) + 1) - Marked(db, p, Purgings(n))
  {
    hide Marked;
    RollsAfter(n);
  }

  lemma MarkedAfterPurge(db: Db, p: Plan, n: nat)
    requires n % 3 == 1 && MarkedLeft(db, p, n) >= 0
    ensures MarkedLeft(db, p, n + 1) == MarkedLeft(db, p, n) - Least(p.batchSize, MarkedLeft(db, p, n))
  {
    hide Marked, PurgeCandidates;
    RollsAfter(n);
    var j := Purgings(n);
    BatchMarks(db, p, j);
    assert (j + 1) * p.batchSize == j * p.batchSize + p.batchSize;
  }

  lemma MarkedAfterExpiry(db: Db, p: Plan, n: nat)
    requires n % 3 == 2
    ensures MarkedLeft(db, p, n + 1) == MarkedLeft(db, p, n)
  {
    hide Marked;
    RollsAfter(n);
  }

  lemma MarkedStep(start: Db, before: Db, after: Db, count: nat, p: Plan, m: nat)
    requires StillWaiting(start, before, p, Rolls(m)) && Turn(m, before, after, count, p)
    requires |PurgeCandidates(before, p.RawCutoff()).Keys| == MarkedLeft(start, p, m)
    ensures |PurgeCandidates(after, p.RawCutoff()).Keys| == MarkedLeft(start, p, m + 1)
  {
    RollsAfter(m);
    hide StillWaiting, RollsUp, Purges, Expires, PurgeCandidates, MarkedLeft, Marked, Rolls, Purgings;
    if m % 3 == 0 {
      MarksAdd(start, before, after, count, p, Rolls(m));
      MarkedAfterRollUp(start, p, m);
    } else if m % 3 == 1 {
      PurgingsTake(before, after, count, p);
      MarkedAfterPurge(start, p, m);
    } else {
      ExpiryKeepsMarked(before, after, count, p);
      MarkedAfterExpiry(start, p, m);
    }
  }

  lemma {:induction false} MarkedAfter(trail: seq<Db>, counts: seq<nat>, p: Plan, n: nat)
    requires IsTrail(trail, counts, p) && n <= |counts|
    ensures |PurgeCandidates(trail[n], p.RawCutoff()).Keys| == MarkedLeft(trail[0], p, n)
    decreases n
  {
    hide *;
    TrailLength(trail, counts, p);
    if n == 0 {
      NoneMarked(trail[0], p);
    } else {
      TurnAt(trail, counts, p, n - 1);
      MarkedAfter(trail, counts, p, n - 1);
      WaitingAfter(trail, counts, p, n - 1);
      MarkedStep(trail[0], trail[n - 1], trail[n], counts[n - 1], p, n - 1);
    }
  }

  lemma NoneMarked(db: Db, p: Plan)
    ensures MarkedLeft(db, p, 0) == |PurgeCandidates(db, p.RawCutoff()).Keys|
  {
    hide PurgeCandidates, Waiting;
    assert Rolls(0) == Purgings(0) == 0 && 0 * p.batchSize == 0;
    assert Waiting(db, p)[..0] == [];
    hide Taken;
  }

  // ---- expired hours ----

  /** When each hourly row ends: all that expiry looks at. */
  function Ends(hourly: map<BucketKey, HourlyRow>): map<BucketKey, Instant> {
    map k | k in hourly :: hourly[k].intervalEnd
  }

  function Later(ends: map<BucketKey, Instant>, s: Sample): map<BucketKey, Instant> {
    var k := KeyOf(s);
    ends[k := if k in ends && s.collected <= ends[k] then ends[k] else s.collected]
  }

  /** The ends of the hours once the rows are rolled up into them. */
  function Gather(ends: map<BucketKey, Instant>, reports: map<Uuid, ReportRow>, rows: seq<Uuid>)
    : map<BucketKey, Instant>
    requires forall r :: r in rows ==> r in reports
  {
    if rows == [] then ends
    else Later(Gather(ends, reports, rows[..|rows| - 1]), reports[rows[|rows| - 1]].sample)
  }

  function EndRank(ends: map<BucketKey, Instant>, cutoff: Instant, k: BucketKey): Rank
    requires k in ends && ends[k] < cutoff
  {
    (ends[k], k.0, k.1)
  }

  function Expiring(ends: map<BucketKey, Instant>, cutoff: Instant): map<BucketKey, Rank> {
    map k | k in ends && ends[k] < cutoff :: EndRank(ends, cutoff, k)
  }

  /** The rows a limited statement takes when there are no ties. */
  ghost function FirstOf<K(!new)>(rank: map<K, Rank>, n: nat): seq<K> {
    var all := InOrder(rank);
    all[..Least(n, |all|)]
  }

  lemma BatchIsStored(db: Db, p: Plan, k: nat)
    ensures forall r :: r in Batch(db, p, k) ==> r in db.reports
  {
    hide InOrder;
    NextBatch(db, p, k);
    forall r | r in Batch(db, p, k) ensures r in db.reports {
      assert r in Waiting(db, p);
    }
  }

  /**
   * The ends of the hours after `n` transactions, from the ends at the start and the waiting rows
   * alone: no metric and no other row matters.
   */
  ghost function EndsAfter(db: Db, p: Plan, n: nat): map<BucketKey, Instant>
    decreases n
  {
    if n == 0 then Ends(db.hourly)
    else
      var ends := EndsAfter(db, p, n - 1);
      if (n - 1) % 3 == 0 then
        BatchIsStored(db, p, Rolls(n - 1));
        Gather(ends, db.reports, Batch(db, p, Rolls(n - 1)))
      else if (n - 1) % 3 == 1 then ends
      else ends - (set k | k in FirstOf(Expiring(ends, p.AggregateCutoff()), p.batchSize))
  }

  lemma ExpiringIsExpiry(db: Db, cutoff: Instant)
    ensures ExpiryCandidates(db, cutoff) == Expiring(Ends(db.hourly), cutoff)
  {
  }

  lemma HoursHaveNoTies(ends: map<BucketKey, Instant>, cutoff: Instant)
    ensures NoTies(Expiring(ends, cutoff))
  {
  }

  lemma FirstOfIsFirst<K(!new)>(rows: seq<K>, rank: map<K, Rank>, n: nat)
    requires IsFirst(rows, rank, n) && NoTies(rank)
    ensures rows == FirstOf(rank, n)
  {
    FirstIsPrefixOfAll(rows, InOrder(rank), rank, n);
  }

  lemma OneMoreEnds(hourly: map<BucketKey, HourlyRow>, acc: map<BucketKey, HourlyRow>, s: Sample)
    ensures Ends(Upsert(hourly, AddTo(acc, s))) == Later(Ends(Upsert(hourly, acc)), s)
  {
    hide Record, Merge;
    var k := KeyOf(s);
    assert AddTo(acc, s).Keys == acc.Keys + {k};
    assert forall j :: j in acc && j != k ==> AddTo(acc, s)[j] == acc[j];
  }

  lemma {:induction false} RollUpGathers(hourly: map<BucketKey, HourlyRow>, reports: map<Uuid, ReportRow>,
                                         rows: seq<Uuid>)
    requires forall r :: r in rows ==> r in reports
    ensures Ends(Upsert(hourly, Accumulate(reports, rows))) == Gather(Ends(hourly), reports, rows)
    decreases |rows|
  {
    hide Ends, Upsert, AddTo, Later;
    if rows == [] {
      NothingToMerge(hourly);
    } else {
      RollUpGathers(hourly, reports, rows[..|rows| - 1]);
      OneMoreEnds(hourly, Accumulate(reports, rows[..|rows| - 1]), reports[rows[|rows| - 1]].sample);
    }
  }

  lemma NothingToMerge(hourly: map<BucketKey, HourlyRow>)
    ensures Upsert(hourly, map[]) == hourly
  {
  }

  lemma {:induction false} GatherFrame(ends: map<BucketKey, Instant>, reports: map<Uuid, ReportRow>,
                                       other: map<Uuid, ReportRow>, rows: seq<Uuid>)
    requires forall r :: r in rows ==> r in reports && r in other && reports[r] == other[r]
    ensures Gather(ends, reports, rows) == Gather(ends, other, rows)
    decreases |rows|
  {
    hide Later;
    if rows != [] { GatherFrame(ends, reports, other, rows[..|rows| - 1]); }
  }

  lemma RollUpEnds(start: Db, before: Db, after: Db, n: nat, p: Plan, k: nat)
    requires StillWaiting(start, before, p, k) && RollsUp(before, after, n, p)
    ensures forall r :: r in Batch(start, p, k) ==> r in start.reports
    ensures Ends(after.hourly) == Gather(Ends(before.hourly), start.reports, Batch(start, p, k))
  {
    hide RollsUp, RollUpCandidates, Waiting, Taken, Batch, Distinct, Upsert, Accumulate, Gather, Ends;
    RollsNextBatch(start, before, after, n, p, k);
    RestShrinks(start, p, k);
    RollUpGathers(before.hourly, before.reports, Batch(start, p, k));
    GatherFrame(Ends(before.hourly), before.reports, start.reports, Batch(start, p, k));
  }

  lemma ExpiryEnds(before: Db, after: Db, n: nat, p: Plan)
    requires Expires(before, after, n, p)
    ensures var ends := Ends(before.hourly);
            Ends(after.hourly) == ends - (set k | k in FirstOf(Expiring(ends, p.AggregateCutoff()), p.batchSize))
  {
    hide NoTies, ExpiryCandidates, Expiring, IsFirst, Expire, Ends, FirstOf;
    ExpiringIsExpiry(before, p.AggregateCutoff());
    HoursHaveNoTies(Ends(before.hourly), p.AggregateCutoff());
    var hours :| IsFirst(hours, ExpiryCandidates(before, p.AggregateCutoff()), p.batchSize)
      && |hours| == n && after == Expire(before, hours);
    FirstOfIsFirst(hours, Expiring(Ends(before.hourly), p.AggregateCutoff()), p.batchSize);
    EndsExpire(before, hours);
  }

  lemma EndsExpire(db: Db, hours: seq<BucketKey>)
    ensures Ends(Expire(db, hours).hourly) == Ends(db.hourly) - (set k | k in hours)
  {
  }

  lemma EndsStep(start: Db, before: Db, after: Db, count: nat, p: Plan, m: nat)
    requires StillWaiting(start, before, p, Rolls(m)) && Turn(m, before, after, count, p)
    requires Ends(before.hourly) == EndsAfter(start, p, m)
    ensures Ends(after.hourly) == EndsAfter(start, p, m + 1)
  {
    hide StillWaiting, RollsUp, Purges, Expires, Ends, Gather, Rolls, FirstOf, Expiring;
    if m % 3 == 0 {
      RollUpEnds(start, before, after, count, p, Rolls(m));
    } else if m % 3 == 1 {
      PurgeKeepsHours(before, after, count, p);
    } else {
      ExpiryEnds(before, after, count, p);
    }
  }

  lemma PurgeKeepsHours(before: Db, after: Db, n: nat, p: Plan)
    requires Purges(before, after, n, p)
    ensures after.hourly == before.hourly
  {
  }

  lemma EndsAtFirst(db: Db, p: Plan)
    ensures EndsAfter(db, p, 0) == Ends(db.hourly)
  {
  }

  lemma {:induction false} HoursAfter(trail: seq<Db>, counts: seq<nat>, p: Plan, n: nat)
    requires IsTrail(trail, counts, p) && n <= |counts|
    ensures Ends(trail[n].hourly) == EndsAfter(trail[0], p, n)
    decreases n
  {
    hide *;
    TrailLength(trail, counts, p);
    if n == 0 {
      EndsAtFirst(trail[0], p);
    } else {
      TurnAt(trail, counts, p, n - 1);
      HoursAfter(trail, counts, p, n - 1);
      WaitingAfter(trail, counts, p, n - 1);
      EndsStep(trail[0], trail[n - 1], trail[n], counts[n - 1], p, n - 1);
    }
  }

  // ---- what is left ----

  /**
   * Counted on the tables before a run: `n` transactions cannot roll up all that waits, or cannot
   * delete all that is or will be marked, or some hour ends before the cutoff even then.
   */
  ghost predicate WorkLeft(db: Db, p: Plan, n: nat) {
    || |Waiting(db, p)| > Rolls(n) * p.batchSize
    || MarkedLeft(db, p, n) > 0
    || Expiring(EndsAfter(db, p, n), p.AggregateCutoff()) != map[]
  }

  lemma RollUpsLeft(start: Db, db: Db, p: Plan, k: nat)
    requires StillWaiting(start, db, p, k)
    ensures RollUpCandidates(db, p.RawCutoff()) == map[] <==> |Waiting(start, p)| <= k * p.batchSize
  {
    var rest := Waiting(start, p)[Taken(start, p, k)..];
    hide RollUpCandidates, Waiting;
    if rest != [] {
      assert rest[0] in rest;
      assert rest[0] in RollUpCandidates(db, p.RawCutoff()).Keys;
    } else {
      assert RollUpCandidates(db, p.RawCutoff()).Keys == {};
    }
  }

  /** After any number of transactions in turns: exactly what is left of each kind of work. */
  lemma Foretold(trail: seq<Db>, counts: seq<nat>, p: Plan, n: nat)
    requires IsTrail(trail, counts, p) && n <= |counts|
    ensures RollUpCandidates(trail[n], p.RawCutoff()) == map[] <==> |Waiting(trail[0], p)| <= Rolls(n) * p.batchSize
    ensures |PurgeCandidates(trail[n], p.RawCutoff()).Keys| == MarkedLeft(trail[0], p, n)
    ensures ExpiryCandidates(trail[n], p.AggregateCutoff()) == Expiring(EndsAfter(trail[0], p, n), p.AggregateCutoff())
    ensures Quiet(trail[n], p.RawCutoff(), p.AggregateCutoff()) <==> !WorkLeft(trail[0], p, n)
  {
    hide Turn, StillWaiting, RollUpCandidates, PurgeCandidates, ExpiryCandidates, Expiring, Ends, EndsAfter, MarkedLeft,
      Waiting, Rolls;
    WaitingAfter(trail, counts, p, n);
    RollUpsLeft(trail[0], trail[n], p, Rolls(n));
    MarkedAfter(trail, counts, p, n);
    HoursAfter(trail, counts, p, n);
    ExpiringIsExpiry(trail[n], p.AggregateCutoff());
    NoKeys(PurgeCandidates(trail[n], p.RawCutoff()));
  }

  lemma NoKeys<K, V>(m: map<K, V>)
    ensures m == map[] <==> |m.Keys| == 0
  {
  }

  // ---- hours that no waiting report reaches ----

  /** No waiting report is old enough to expire at once, or belongs to an hour that is about to. */
  ghost predicate HoursApart(db: Db, p: Plan) {
    forall r :: r in Waiting(db, p) && r in db.reports ==>
      && db.reports[r].sample.collected >= p.AggregateCutoff()
      && KeyOf(db.reports[r].sample) !in ExpiryCandidates(db, p.AggregateCutoff())
  }

  lemma {:induction false} GatherApart(ends: map<BucketKey, Instant>, reports: map<Uuid, ReportRow>, rows: seq<Uuid>,
                                       cutoff: Instant)
    requires forall r :: r in rows ==> r in reports && reports[r].sample.collected >= cutoff
                                         && KeyOf(reports[r].sample) !in Expiring(ends, cutoff)
    ensures Expiring(Gather(ends, reports, rows), cutoff) == Expiring(ends, cutoff)
    decreases |rows|
  {
    if rows != [] {
      var init, s := rows[..|rows| - 1], reports[rows[|rows| - 1]].sample;
      GatherApart(ends, reports, init, cutoff);
      LaterApart(Gather(ends, reports, init), s, cutoff);
    }
  }

  lemma LaterApart(ends: map<BucketKey, Instant>, s: Sample, cutoff: Instant)
    requires s.collected >= cutoff && KeyOf(s) !in Expiring(ends, cutoff)
    ensures Expiring(Later(ends, s), cutoff) == Expiring(ends, cutoff)
  {
  }

  lemma ExpiringShrinks(ends: map<BucketKey, Instant>, cutoff: Instant, n: nat)
    ensures var after := ends - (set k | k in FirstOf(Expiring(ends, cutoff), n));
            && Expiring(after, cutoff).Keys <= Expiring(ends, cutoff).Keys
            && |Expiring(after, cutoff).Keys| == |Expiring(ends, cutoff).Keys| - Least(n, |Expiring(ends, cutoff).Keys|)
  {
    var rank := Expiring(ends, cutoff);
    var all, rows := InOrder(rank), FirstOf(rank, n);
    assert Distinct(rows) && |rank| == |rank.Keys|;
    var after := ends - (set k | k in rows);
    assert Expiring(after, cutoff).Keys == rank.Keys - (set k | k in rows);
    hide InOrder, Expiring;
    TakenOut(rank.Keys, Expiring(after, cutoff).Keys, rows);
  }

  /** What `n` transactions leave of so many expired hours: every third one takes a batch. */
  function HoursLeft(total: nat, p: Plan, n: nat): nat {
    var left := total - n / 3 * p.batchSize;
    if left > 0 then left else 0
  }

  lemma HoursLeftStep(total: nat, p: Plan, m: nat)
    ensures HoursLeft(total, p, 0) == total
    ensures HoursLeft(total, p, m + 1) ==
            HoursLeft(total, p, m) - (if m % 3 == 2 then Least(p.batchSize, HoursLeft(total, p, m)) else 0)
  {
    assert (m / 3 + 1) * p.batchSize == m / 3 * p.batchSize + p.batchSize;
    assert 0 / 3 * p.batchSize == 0;
  }

  lemma OneTurnApart(db: Db, p: Plan, m: nat)
    requires HoursApart(db, p)
    requires Expiring(EndsAfter(db, p, m), p.AggregateCutoff()).Keys <= ExpiryCandidates(db, p.AggregateCutoff()).Keys
    ensures var before, after := Expiring(EndsAfter(db, p, m), p.AggregateCutoff()).Keys,
                                 Expiring(EndsAfter(db, p, m + 1), p.AggregateCutoff()).Keys;
            && after <= before
            && |after| == |before| - (if m % 3 == 2 then Least(p.batchSize, |before|) else 0)
  {
    hide Expiring, FirstOf, Gather, Ends, ExpiryCandidates, HoursApart, Batch, Rolls;
    var ends := EndsAfter(db, p, m);
    if m % 3 == 0 {
      BatchApart(db, p, Rolls(m), ends);
      GatherApart(ends, db.reports, Batch(db, p, Rolls(m)), p.AggregateCutoff());
    } else if m % 3 == 2 {
      ExpiringShrinks(ends, p.AggregateCutoff(), p.batchSize);
    }
  }

  /** In such a database the hours left are those there were, less a batch for each expiry. */
  lemma {:induction false} HoursLeftExactly(db: Db, p: Plan, n: nat)
    requires HoursApart(db, p)
    ensures |Expiring(EndsAfter(db, p, n), p.AggregateCutoff()).Keys| ==
            HoursLeft(|ExpiryCandidates(db, p.AggregateCutoff()).Keys|, p, n)
    ensures Expiring(EndsAfter(db, p, n), p.AggregateCutoff()).Keys <= ExpiryCandidates(db, p.AggregateCutoff()).Keys
    decreases n
  {
    hide Expiring, EndsAfter, ExpiryCandidates, HoursLeft, HoursApart;
    if n == 0 {
      AtFirst(db, p);
    } else {
      HoursLeftExactly(db, p, n - 1);
      HoursLeftStep(|ExpiryCandidates(db, p.AggregateCutoff()).Keys|, p, n - 1);
      OneTurnApart(db, p, n - 1);
    }
  }

  lemma AtFirst(db: Db, p: Plan)
    ensures Expiring(EndsAfter(db, p, 0), p.AggregateCutoff()) == ExpiryCandidates(db, p.AggregateCutoff())
    ensures HoursLeft(|ExpiryCandidates(db, p.AggregateCutoff()).Keys|, p, 0) ==
            |ExpiryCandidates(db, p.AggregateCutoff()).Keys|
  {
    hide Expiring, ExpiryCandidates;
    HoursLeftStep(|ExpiryCandidates(db, p.AggregateCutoff()).Keys|, p, 0);
    ExpiringIsExpiry(db, p.AggregateCutoff());
  }

  lemma BatchApart(db: Db, p: Plan, k: nat, ends: map<BucketKey, Instant>)
    requires HoursApart(db, p)
    requires Expiring(ends, p.AggregateCutoff()).Keys <= ExpiryCandidates(db, p.AggregateCutoff()).Keys
    ensures forall r :: r in Batch(db, p, k) ==>
              && r in db.reports && db.reports[r].sample.collected >= p.AggregateCutoff()
              && KeyOf(db.reports[r].sample) !in Expiring(ends, p.AggregateCutoff())
  {
    hide Waiting, Expiring, ExpiryCandidates;
    BatchIsStored(db, p, k);
    NextBatch(db, p, k);
    forall r | r in Batch(db, p, k) ensures r in Waiting(db, p) {
    }
  }
}
