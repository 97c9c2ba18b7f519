/** One retention run: rounds of the three bounded transactions under a transaction budget. */
module Maintenance {
  import opened Common
  import opened Schema
  import opened Retention
  import opened Selection
  import opened Ledger
  import opened Database
  import opened Schedule
  import opened Forecast

  // ---- the three transactions ----

  /** What one transaction did, in the terms of its turn. */
  ghost predicate Progressed(n: nat, before: Db, after: Db, count: nat, p: Plan) {
    && count <= p.batchSize && Turn(n, before, after, count, p)
    && (n % 3 == 0 ==> RolledUp(before, after, count, p.RawCutoff(), p.AggregateCutoff()))
    && (n % 3 == 1 ==> Purged(before, after, count, p.RawCutoff(), p.AggregateCutoff()))
    && (n % 3 == 2 ==> Lapsing(before, after, count, p.RawCutoff(), p.AggregateCutoff()))
  }

  method RollUpOnce(store: Store, p: Plan, ghost n: nat) returns (rolled: nat)
    requires n % 3 == 0 && store.Valid() && p.Proper()
    modifies store
    ensures store.Valid() && Progressed(n, old(store.View()), store.View(), rolled, p)
  {
    ghost var batch;
    rolled, batch := store.AggregateRawBatch(p.RawCutoff(), p.now, p.batchSize);
    RollUpProgress(old(store.View()), batch, p.now, p.batchSize, p.RawCutoff(), p.AggregateCutoff());
  }

  method PurgeOnce(store: Store, p: Plan, ghost n: nat) returns (deleted: nat)
    requires n % 3 == 1 && store.Valid() && p.Proper()
    modifies store
    ensures store.Valid() && Progressed(n, old(store.View()), store.View(), deleted, p)
  {
    ghost var rows;
    deleted, rows := store.DeleteAggregatedRawBatch(p.RawCutoff(), p.batchSize);
    PurgeProgress(old(store.View()), rows, p.batchSize, p.RawCutoff(), p.AggregateCutoff());
  }

  method ExpireOnce(store: Store, p: Plan, ghost n: nat) returns (deleted: nat)
    requires n % 3 == 2 && store.Valid() && p.Proper()
    modifies store
    ensures store.Valid() && Progressed(n, old(store.View()), store.View(), deleted, p)
  {
    ghost var hours;
    deleted, hours := store.DeleteExpiredAggregateBatch(p.AggregateCutoff(), p.batchSize);
    ExpireProgress(old(store.View()), hours, p.batchSize, p.RawCutoff(), p.AggregateCutoff());
  }

  // ---- what a run amounts to ----

  /**
   * What a run reports about the tables it started from and the tables it leaves: every counter is
   * the change of a table, except that rolled-up rows may add hours while others are deleted.
   */
  ghost predicate Accounts(before: Db, after: Db, run: RunOutcome, p: Plan) {
    && run.Rows() <= run.transactions * p.batchSize
    && |RollUpCandidates(after, p.RawCutoff()).Keys| + run.aggregatedReports ==
        |RollUpCandidates(before, p.RawCutoff()).Keys|
    && |after.reports.Keys| + run.deletedRawReports == |before.reports.Keys|
    && |before.hourly.Keys| <= |after.hourly.Keys| + run.deletedHours <= |before.hourly.Keys| + run.aggregatedReports
    && Advanced(before, after, run.Rows(), p.RawCutoff(), p.AggregateCutoff())
  }

  /** The counters after one more transaction, whose kind its turn decides. */
  function AddTurn(run: RunOutcome, n: nat): RunOutcome {
    var next := run.(transactions := run.transactions + 1);
    if run.transactions % 3 == 0 then next.(aggregatedReports := run.aggregatedReports + n)
    else if run.transactions % 3 == 1 then next.(deletedRawReports := run.deletedRawReports + n)
    else next.(deletedHours := run.deletedHours + n)
  }

  lemma OneMoreTransaction(transactions: nat, batchSize: nat)
    ensures (transactions + 1) * batchSize == transactions * batchSize + batchSize
  {
  }

  lemma AdvancedAdds(a: Db, b: Db, c: Db, m: nat, n: nat, p: Plan)
    requires Advanced(a, b, m, p.RawCutoff(), p.AggregateCutoff())
             && Advanced(b, c, n, p.RawCutoff(), p.AggregateCutoff())
    ensures Advanced(a, c, m + n, p.RawCutoff(), p.AggregateCutoff())
  {
  }

  lemma AccountsRollUp(start: Db, before: Db, after: Db, run: RunOutcome, n: nat, p: Plan)
    requires Accounts(start, before, run, p) && n <= p.batchSize && run.transactions % 3 == 0
    requires RolledUp(before, after, n, p.RawCutoff(), p.AggregateCutoff())
    ensures Accounts(start, after, AddTurn(run, n), p)
  {
    hide RollUpCandidates, Backlog;
    OneMoreTransaction(run.transactions, p.batchSize);
    AdvancedAdds(start, before, after, run.Rows(), n, p);
  }

  lemma AccountsPurge(start: Db, before: Db, after: Db, run: RunOutcome, n: nat, p: Plan)
    requires Accounts(start, before, run, p) && n <= p.batchSize && run.transactions % 3 == 1
    requires Purged(before, after, n, p.RawCutoff(), p.AggregateCutoff())
    ensures Accounts(start, after, AddTurn(run, n), p)
  {
    hide RollUpCandidates, PurgeCandidates, Backlog;
    OneMoreTransaction(run.transactions, p.batchSize);
    AdvancedAdds(start, before, after, run.Rows(), n, p);
  }

  lemma AccountsExpiry(start: Db, before: Db, after: Db, run: RunOutcome, n: nat, p: Plan)
    requires Accounts(start, before, run, p) && n <= p.batchSize && run.transactions % 3 == 2
    requires Lapsing(before, after, n, p.RawCutoff(), p.AggregateCutoff())
    ensures Accounts(start, after, AddTurn(run, n), p)
  {
    SameReportsWait(before, after, p.RawCutoff());
    hide RollUpCandidates, PurgeCandidates, ExpiryCandidates, Backlog;
    OneMoreTransaction(run.transactions, p.batchSize);
    AdvancedAdds(start, before, after, run.Rows(), n, p);
  }

  lemma SameReportsWait(before: Db, after: Db, cutoff: Instant)
    requires after.reports == before.reports && after.hosts == before.hosts
    ensures RollUpCandidates(after, cutoff) == RollUpCandidates(before, cutoff)
  {
  }

  lemma AccountsNext(start: Db, before: Db, after: Db, run: RunOutcome, n: nat, p: Plan)
    requires Accounts(start, before, run, p) && Progressed(run.transactions, before, after, n, p)
    ensures Accounts(start, after, AddTurn(run, n), p)
  {
    hide Turn, RolledUp, Purged, Lapsing, Accounts;
    if run.transactions % 3 == 0 {
      AccountsRollUp(start, before, after, run, n, p);
    } else if run.transactions % 3 == 1 {
      AccountsPurge(start, before, after, run, n, p);
    } else {
      AccountsExpiry(start, before, after, run, n, p);
    }
  }

  // ---- a run so far ----

  /** The transactions of a run so far and its counters, whatever else was written in between. */
  ghost predicate Turned(found: seq<Db>, left: seq<Db>, run: RunOutcome, counts: seq<nat>, p: Plan) {
    IsTurns(found, left, counts, p) && Adds(counts, run) && run.Rows() <= run.transactions * p.batchSize
  }

  lemma TurnedNext(found: seq<Db>, left: seq<Db>, run: RunOutcome, counts: seq<nat>, before: Db, after: Db, n: nat,
                   p: Plan)
    requires Turned(found, left, run, counts, p) && Progressed(run.transactions, before, after, n, p)
    ensures Turned(found + [before], left + [after], AddTurn(run, n), counts + [n], p)
  {
    hide Turn, RolledUp, Purged, Lapsing, SumOf;
    SumsAdd(counts, n);
    OneMoreTransaction(run.transactions, p.batchSize);
    var found', left', counts' := found + [before], left + [after], counts + [n];
    forall i | 0 <= i < |counts'| ensures Turn(i, found'[i], left'[i], counts'[i], p) {
      if i < |counts| { assert Turn(i, found[i], left[i], counts[i], p); }
    }
  }

  /** A run so far to which nothing else was written: its trail, its counters, and what they say about the tables. */
  ghost predicate Ran(start: Db, db: Db, run: RunOutcome, trail: seq<Db>, counts: seq<nat>, p: Plan) {
    && IsTrail(trail, counts, p) && trail[0] == start && trail[|counts|] == db
    && Adds(counts, run) && Accounts(start, db, run, p)
  }

  lemma RanNext(start: Db, before: Db, db: Db, run: RunOutcome, n: nat, trail: seq<Db>, counts: seq<nat>, p: Plan)
    requires Ran(start, before, run, trail, counts, p) && Progressed(run.transactions, before, db, n, p)
    ensures Ran(start, db, AddTurn(run, n), trail + [db], counts + [n], p)
  {
    hide RolledUp, Purged, Lapsing, Accounts, SumOf, Turn;
    AccountsNext(start, before, db, run, n, p);
    SumsAdd(counts, n);
    OneMoreTurn(trail, counts, db, n, p);
  }

  /** The history of a run: the tables it started from, and before and after each transaction the rows it touched. */
  datatype History = History(start: Db, found: seq<Db>, left: seq<Db>, counts: seq<nat>)

  ghost function Then(t: History, before: Db, after: Db, n: nat): History {
    t.(found := t.found + [before], left := t.left + [after], counts := t.counts + [n])
  }

  /** A run so far: `alone` if nothing else has been written since it started. */
  ghost predicate SoFar(alone: bool, t: History, db: Db, run: RunOutcome, p: Plan) {
    && Turned(t.found, t.left, run, t.counts, p)
    && (alone ==> Ran(t.start, db, run, t.found + [db], t.counts, p))
  }

  lemma NothingAccounts(db: Db, p: Plan)
    ensures Accounts(db, db, NO_RUN, p)
  {
    hide RollUpCandidates, Advanced;
    NoBatches(p.batchSize);
    assert Advanced(db, db, 0, p.RawCutoff(), p.AggregateCutoff()) by { Unmoved(db, p); }
  }

  lemma NoBatches(n: nat)
    ensures 0 * n == 0
  {
  }

  lemma Unmoved(db: Db, p: Plan)
    ensures Advanced(db, db, 0, p.RawCutoff(), p.AggregateCutoff())
  {
    hide Backlog;
  }

  lemma NothingTurned(p: Plan)
    ensures Turned([], [], NO_RUN, [], p)
  {
    assert 0 * p.batchSize == 0;
  }

  lemma SoFarNothing(alone: bool, db: Db, p: Plan)
    ensures SoFar(alone, History(db, [], [], []), db, NO_RUN, p)
  {
    NothingTurned(p);
    NothingAccounts(db, p);
    hide Accounts, Turn, Turned, SumOf;
    assert Adds([], NO_RUN) by { NoSums(); }
    assert [] + [db] == [db];
  }

  lemma NothingBusy()
    ensures Busy([]) && NO_RUN.transactions == 0
  {
  }

  lemma NoSums()
    ensures Adds([], NO_RUN)
  {
  }

  lemma SoFarPaused(alone: bool, t: History, before: Db, after: Db, run: RunOutcome, p: Plan)
    requires SoFar(alone, t, before, run, p) && (alone ==> after == before)
    ensures SoFar(alone, t, after, run, p) && IsTurns(t.found, t.left, t.counts, p)
    ensures alone ==> IsTrail(t.found + [after], t.counts, p)
  {
    hide IsTrail, Accounts, IsTurns, Adds;
  }

  lemma SoFarNext(alone: bool, t: History, before: Db, after: Db, run: RunOutcome, n: nat, p: Plan)
    requires SoFar(alone, t, before, run, p) && Progressed(run.transactions, before, after, n, p)
    ensures SoFar(alone, Then(t, before, after, n), after, AddTurn(run, n), p)
  {
    hide Turned, Ran, Progressed;
    TurnedNext(t.found, t.left, run, t.counts, before, after, n, p);
    if alone { RanNext(t.start, before, after, run, n, t.found + [before], t.counts, p); }
  }

  /** What a run that was not cut off reports in the end. */
  lemma SoFarEnds(alone: bool, t: History, db: Db, run: RunOutcome, p: Plan)
    requires SoFar(alone, t, db, run, p) && EndsOnTime(t.counts, p) && p.Proper()
    requires run.transactions >= p.maxTransactions ==> EndsIdle(t.counts) || run.Rows() > 0
    ensures Reports(t.found, t.left, run.(backlogRemaining := Flagged(run, p)), t.counts, p)
    ensures IsTurns(t.found, t.left, t.counts, p)
    ensures alone ==> Foreseen(t.start, db, run.(backlogRemaining := Flagged(run, p)), t.found + [db], t.counts, p)
  {
    hide EndsOnTime, EndsIdle, SumOf, IsTrail, IsTurns, WorkLeft, Quiet, Accounts, NothingDue;
    assert EndsIdle(t.counts) || |t.counts| == p.maxTransactions by { BudgetOrIdle(t.counts, p); }
    if alone {
      RunIsForetold(t.found + [db], t.counts, p);
      if EndsIdle(t.counts) { IdleRoundIsQuiet(t.found + [db], t.counts, p); }
      QuietMeansNothingDue(db, p.now, p.rawRetention, p.aggregateRetention);
      AccountsFlag(t.start, db, run, Flagged(run, p), p);
    }
  }

  lemma AccountsFlag(start: Db, db: Db, run: RunOutcome, flag: bool, p: Plan)
    requires Accounts(start, db, run, p)
    ensures Accounts(start, db, run.(backlogRemaining := flag), p)
  {
    hide RollUpCandidates, Advanced;
  }

  lemma BudgetOrIdle(counts: seq<nat>, p: Plan)
    requires EndsOnTime(counts, p)
    ensures EndsIdle(counts) || |counts| == p.maxTransactions
  {
  }

  // ---- the run ----

  const NO_RUN: RunOutcome := RunOutcome(0, 0, 0, 0, false)

  /** The flag: the budget is used up, and the run touched something. */
  predicate Flagged(run: RunOutcome, p: Plan) { run.transactions >= p.maxTransactions && run.Rows() > 0 }

  /** What a run leaves to do can be counted before it. */
  lemma RunIsForetold(trail: seq<Db>, counts: seq<nat>, p: Plan)
    requires IsTrail(trail, counts, p) && EndsOnTime(counts, p) && p.Proper()
    ensures Quiet(trail[|counts|], p.RawCutoff(), p.AggregateCutoff()) <==> !WorkLeft(trail[0], p, p.maxTransactions)
  {
    hide Turn, Quiet, WorkLeft, Busy, EndsIdle;
    if |counts| == p.maxTransactions {
      Foretold(trail, counts, p, |counts|);
    } else {
      IdleRoundIsQuiet(trail, counts, p);
      var longer, more := QuietGoesOn(trail, counts, p, p.maxTransactions);
      Foretold(longer, more, p, p.maxTransactions);
    }
  }

  /** Between two transactions the rest of the server goes on. */
  method Pause(store: Store, alone: bool)
    requires store.Valid()
    modifies store
    ensures store.Valid() && (alone ==> store.View() == old(store.View()))
  {
    hide Reachable, Next, Enabled;
    if alone { return; }
    var others: nat :| others >= 0;
    for i := 0 to others
      invariant store.Valid()
    {
      var t: Event := *;
      if store.MayPerform(t) { ghost var _ := store.Perform(t); }
    }
  }

  method AddAndPause(store: Store, p: Plan, alone: bool, run: RunOutcome, n: nat, ghost t: History, ghost before: Db)
    returns (added: RunOutcome, ghost more: History)
    requires store.Valid() && SoFar(alone, t, before, run, p)
    requires Progressed(run.transactions, before, store.View(), n, p)
    modifies store
    ensures store.Valid() && SoFar(alone, more, store.View(), added, p)
    ensures added == AddTurn(run, n) && added.transactions == run.transactions + 1 && added.Rows() == run.Rows() + n
    ensures more.start == t.start && more.counts == t.counts + [n]
    ensures IsTurns(more.found, more.left, more.counts, p)
    ensures alone ==> IsTrail(more.found + [store.View()], more.counts, p)
  {
    hide SoFar, Progressed, Reachable, IsTurns, IsTrail;
    ghost var after := store.View();
    SoFarNext(alone, t, before, after, run, n, p);
    added, more := AddTurn(run, n), Then(t, before, after, n);
    Pause(store, alone);
    SoFarPaused(alone, more, after, store.View(), added, p);
  }

  lemma OneRoundFits(p: Plan)
    requires p.Proper()
    ensures p.maxTransactions >= 3
  {
  }

  lemma OnTime(counts: seq<nat>, p: Plan)
    requires |counts| <= p.maxTransactions && (EndsIdle(counts) || (Busy(counts) && |counts| == p.maxTransactions))
    ensures EndsOnTime(counts, p)
  {
    hide Busy, EndsIdle;
  }

  /** The outcome of a run that was not cut off; without its flag, its last round found nothing to do. */
  ghost predicate Reports(found: seq<Db>, left: seq<Db>, run: RunOutcome, counts: seq<nat>, p: Plan) {
    && Turned(found, left, run, counts, p) && EndsOnTime(counts, p)
    && (run.backlogRemaining <==> Flagged(run, p))
    && (!run.backlogRemaining ==> EndsIdle(counts))
  }

  /**
   * A run that was alone: what it did to the tables, and that it leaves work exactly when that could
   * be counted before it.
   */
  ghost predicate Foreseen(start: Db, db: Db, run: RunOutcome, trail: seq<Db>, counts: seq<nat>, p: Plan) {
    && Ran(start, db, run, trail, counts, p)
    && (NothingDue(db, p.now, p.rawRetention, p.aggregateRetention) <==> !WorkLeft(start, p, p.maxTransactions))
    && (!run.backlogRemaining ==> NothingDue(db, p.now, p.rawRetention, p.aggregateRetention))
  }

  /**
   * A run takes its transactions in turns, ended by its first idle round, its budget, or the time
   * limit, which strikes after `cut` transactions if at all, and reports what they touched. Unless
   * it is alone, any other transactions may come in between.
   */
  method RunCycle(store: Store, p: Plan, alone: bool, cut: Option<nat>)
    returns (result: Option<RunOutcome>, ghost t: History)
    requires store.Valid() && p.Proper()
    modifies store
    ensures store.Valid() && t.start == old(store.View())
    ensures IsTurns(t.found, t.left, t.counts, p) && |t.counts| <= p.maxTransactions
    ensures Busy(t.counts) || EndsIdle(t.counts)
    ensures cut.Some? ==> if result.None? then |t.counts| == cut.value else |t.counts| < cut.value
    ensures cut.None? ==> result.Some?
    ensures result.Some? ==> Reports(t.found, t.left, result.value, t.counts, p)
    ensures alone ==> IsTrail(t.found + [store.View()], t.counts, p)
    ensures alone && result.Some? ==>
              Foreseen(t.start, store.View(), result.value, t.found + [store.View()], t.counts, p)
  {
    hide *;
    OneRoundFits(p);
    var run := NO_RUN;
    t := History(store.View(), [], [], []);
    NothingBusy();
    SoFarNothing(alone, store.View(), p);
    SoFarPaused(alone, t, store.View(), store.View(), run, p);
    if cut == Some(0) { return None, t; }
    while run.transactions < p.maxTransactions
      invariant store.Valid() && SoFar(alone, t, store.View(), run, p) && t.start == old(store.View())
      invariant run.transactions == |t.counts| <= p.maxTransactions && |t.counts| % 3 == 0 && Busy(t.counts)
      invariant |t.counts| == 0 || run.Rows() > 0
      invariant cut.Some? ==> run.transactions < cut.value
      decreases p.maxTransactions - run.transactions
    {
      ghost var sofar := t.counts;
      ghost var s0 := store.View();
      var rolled := RollUpOnce(store, p, run.transactions);
      run, t := AddAndPause(store, p, alone, run, rolled, t, s0);
      BusyGrows(sofar, rolled, 0, 0);
      if cut == Some(run.transactions) { return None, t; }
      if run.transactions >= p.maxTransactions { break; }

      ghost var s1 := store.View();
      var deleted := PurgeOnce(store, p, run.transactions);
      run, t := AddAndPause(store, p, alone, run, deleted, t, s1);
      BusyGrows(sofar, rolled, deleted, 0);
      if cut == Some(run.transactions) { return None, t; }
      if run.transactions >= p.maxTransactions { break; }

      ghost var s2 := store.View();
      var expired := ExpireOnce(store, p, run.transactions);
      run, t := AddAndPause(store, p, alone, run, expired, t, s2);
      BusyGrows(sofar, rolled, deleted, expired);
      if cut == Some(run.transactions) { return None, t; }
      if rolled == 0 && deleted == 0 && expired == 0 { break; }
    }
    OnTime(t.counts, p);
    SoFarEnds(alone, t, store.View(), run, p);
    SoFarPaused(alone, t, store.View(), store.View(), run, p);
    result := Some(run.(backlogRemaining := Flagged(run, p)));
  }

  lemma RunAdvances(start: Db, after: Db, run: RunOutcome, trail: seq<Db>, counts: seq<nat>, p: Plan)
    requires Ran(start, after, run, trail, counts, p) && run.Rows() > 0
    ensures Less(Backlog(after, p.RawCutoff(), p.AggregateCutoff()), Backlog(start, p.RawCutoff(), p.AggregateCutoff()))
  {
    hide IsTrail, Adds, Backlog;
  }

  /** Runs repeated at one time end with a quiet database. */
  method RunUntilQuiet(store: Store, p: Plan)
    requires store.Valid() && p.Proper()
    modifies store
    ensures store.Valid() && NothingDue(store.View(), p.now, p.rawRetention, p.aggregateRetention)
  {
    hide Ran, NothingDue, WorkLeft, Backlog, Reachable, Reports, IsTurns;
    ghost var t;
    var result;
    result, t := RunCycle(store, p, true, None);
    while result.value.backlogRemaining
      invariant store.Valid() && result.Some?
      invariant !result.value.backlogRemaining ==> NothingDue(store.View(), p.now, p.rawRetention, p.aggregateRetention)
      decreases Backlog(store.View(), p.RawCutoff(), p.AggregateCutoff()).0,
                Backlog(store.View(), p.RawCutoff(), p.AggregateCutoff()).1,
                Backlog(store.View(), p.RawCutoff(), p.AggregateCutoff()).2
    {
      result, t := RunCycle(store, p, true, None);
      if !result.value.backlogRemaining { break; }
      FlaggedHasRows(t.found, t.left, result.value, t.counts, p);
      RunAdvances(t.start, store.View(), result.value, t.found + [store.View()], t.counts, p);
    }
  }

  lemma FlaggedHasRows(found: seq<Db>, left: seq<Db>, run: RunOutcome, counts: seq<nat>, p: Plan)
    requires Reports(found, left, run, counts, p) && run.backlogRemaining
    ensures run.Rows() > 0
  {
  }
}
