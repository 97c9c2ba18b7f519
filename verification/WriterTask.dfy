/** The writer task after shutdown closed its queue: it drains what is left, batch by batch. */
module WriterTask {
  import opened Common
  import opened Reports
  import opened Ledger
  import opened Promises
  import opened Database
  import opened TelemetryWriter
  import opened WriterSafety

  // ---- a batch as the store sees it ----

  lemma {:induction false} AcceptAllIsStoreBatch(system: System, writes: seq<Write>)
    ensures AcceptAll(system, writes).db == StoreBatch(system.db, writes).0
    ensures |StoreBatch(system.db, writes).1| == |writes|
    decreases |writes|
  {
    hide StoreReport;
    if writes != [] {
      AcceptAllIsStoreBatch(system, writes[..|writes| - 1]);
      AcceptDb(AcceptAll(system, writes[..|writes| - 1]), writes[|writes| - 1]);
    }
  }

  /** The answers of a committed batch are the outcomes of the store, one for one. */
  lemma {:induction false} ResultsAreOutcomes(system: System, batch: seq<Message>)
    ensures |StoreBatch(system.db, Writes(batch)).1| == |batch| == |Results(system, batch)|
    ensures forall i :: 0 <= i < |batch| ==>
              Results(system, batch)[i].message == batch[i]
              && Results(system, batch)[i].answer == Persisted(StoreBatch(system.db, Writes(batch)).1[i])
    decreases |batch|
  {
    hide StoreReport, Accept;
    if batch != [] {
      var init := batch[..|batch| - 1];
      ResultsAreOutcomes(system, init);
      AcceptAllIsStoreBatch(system, Writes(init));
      assert Writes(batch)[..|Writes(batch)| - 1] == Writes(init);
    }
  }

  lemma {:induction false} FailuresAre(batch: seq<Message>)
    ensures |Failures(batch)| == |batch|
    ensures forall i :: 0 <= i < |batch| ==> Failures(batch)[i] == Settled(batch[i], NotCommitted, None)
    decreases |batch|
  {
    if batch != [] { FailuresAre(batch[..|batch| - 1]); }
  }

  /** What became of the transaction of a batch. */
  datatype Fate = Committed | RolledBack | AnswerLost

  /** The writer's own variables, kept in step with a state that some interleaving reaches. */
  class Task {
    const batchSize: nat
    const store: Store
    var queue: seq<Message>
    var calls: map<CallId, Call>
    var waiting: set<CallId>
    var counters: Counters
    ghost var state: State

    ghost predicate Synced()
      reads this, store
    {
      && store.Valid() && state.system == store.system
      && state.queue == queue && state.calls == calls && state.waiting == waiting && state.counters == counters
      && state.config.batchSize == batchSize >= 1
      && ReachableState(state)
    }

    /** The writer at any moment of any interleaving. */
    constructor (batchSize: nat, store: Store, queue: seq<Message>, calls: map<CallId, Call>, waiting: set<CallId>,
                 counters: Counters, ghost s: State)
      requires store.Valid() && s.system == store.system && ReachableState(s)
      requires s.queue == queue && s.calls == calls && s.waiting == waiting && s.counters == counters
      requires s.config.batchSize == batchSize >= 1
      ensures Synced() && state == s && this.store == store
    {
      this.batchSize, this.store := batchSize, store;
      this.queue, this.calls, this.waiting, this.counters, this.state := queue, calls, waiting, counters, s;
    }

    /** A new writer on a database as some run has left it. */
    constructor Start(config: Config, store: Store)
      requires store.Valid() && config.batchSize >= 1
      ensures Synced() && state == Initial(config).(system := store.system) && this.store == store
    {
      this.batchSize, this.store := config.batchSize, store;
      queue, calls, waiting, counters := [], map[], {}, Counters(0, 0, 0);
      state := Initial(config).(system := store.system);
      StartsReachable(config, store.system);
    }

    /** Records that what was just done is the step. */
    ghost method Take(step: Step)
      requires ReachableState(state) && Possible(state, step)
      modifies this`state
      ensures state == old(After(state, step)) && ReachableState(state)
    {
      AfterIsReachable(state, step);
      state := After(state, step);
    }

    /** A handler that holds a queue slot sends its report, or has been dropped. */
    method HandlerMoves(call: CallId, sends: bool)
      requires Synced() && call in calls && calls[call].stage == Reserved
      modifies this`queue, this`calls, this`waiting, this`state
      ensures Synced() && state == old(After(state, if sends then Send(call) else GiveUp(call)))
      ensures calls == old(calls) - {call} && |queue| <= |old(queue)| + 1
      ensures state.phase == old(state.phase) && state.open == old(state.open) && old(state.sent) <= state.sent
    {
      hide ReachableState, Reachable;
      if sends {
        queue := queue + [Message(calls[call].write, calls[call].owner, call)];
        waiting := waiting + {call};
      } else {
        waiting := waiting - {call};
      }
      calls := calls - {call};
      Take(if sends then Send(call) else GiveUp(call));
    }

    /** Receive a first report, then what is there up to the batch size. */
    method TakeBatch() returns (batch: seq<Message>)
      requires Synced() && state.phase.Idle? && queue != []
      modifies this`queue, this`state
      ensures Synced() && state == old(state).(phase := Collecting(batch), queue := queue)
      ensures batch + queue == old(queue) && 1 <= |batch| <= batchSize
      ensures |batch| < batchSize ==> queue == []
    {
      hide ReachableState, Reachable;
      batch := [queue[0]];
      queue := queue[1..];
      Take(ReceiveFirst);
      while |batch| < batchSize && queue != []
        invariant Synced() && state == old(state).(phase := Collecting(batch), queue := queue)
        invariant batch + queue == old(queue) && 1 <= |batch| <= batchSize
        decreases |queue|
      {
        batch := batch + [queue[0]];
        queue := queue[1..];
        Take(ReceiveMore);
      }
    }

    /** Any transactions that the rest of the server commits meanwhile. */
    method OthersCommit()
      requires Synced()
      modifies this`state, store
      ensures Synced() && state == old(state).(system := store.system)
    {
      hide ReachableState, Reachable, Next, Enabled;
      var others: nat :| others >= 0;
      for i := 0 to others
        invariant Synced() && state == old(state).(system := store.system)
      {
        var t: Event := *;
        if store.MayPerform(t) {
          ghost var e := store.Perform(t);
          ReachableIsAligned(state.system);
          Take(Other(e));
        }
      }
    }

    method CollectWrites(batch: seq<Message>) returns (writes: seq<Write>)
      ensures writes == Writes(batch)
    {
      writes := [];
      assert batch[..0] == [];
      for i := 0 to |batch|
        invariant writes == Writes(batch[..i])
      {
        assert batch[..i + 1][..i] == batch[..i];
        writes := writes + [batch[i].write];
      }
      assert batch[..|batch|] == batch;
    }

    /** Drop one answer into its channel: a handler that has gone away only counts. */
    method Answer(m: Message, answer: TelemetryWriter.Answer)
      requires Synced() && state.phase.Answering? && state.phase.left != []
      requires state.phase.left[0].message == m && state.phase.left[0].answer == answer
      modifies this`counters, this`waiting, this`state
      ensures Synced() && state == old(Replied(state))
      ensures m.caller in old(waiting) ==> m.caller in state.delivered && state.delivered[m.caller] == answer
    {
      hide ReachableState, Reachable;
      counters := Counted(counters, answer, m.caller in waiting);
      waiting := waiting - {m.caller};
      Take(Reply);
    }

    /** Every answer of a batch, in order. */
    method AnswerAll(batch: seq<Message>, answers: seq<TelemetryWriter.Answer>, ghost left: seq<Settled>)
      requires Synced() && state.phase == Answering(left) && |left| == |batch| == |answers| > 0
      requires forall i :: 0 <= i < |batch| ==> left[i].message == batch[i] && left[i].answer == answers[i]
      modifies this`counters, this`waiting, this`state
      ensures Synced() && state.phase.Idle? && state.finished == old(state.finished) + left
      ensures state.open == old(state.open) && state.sent == old(state.sent) && state.gone == old(state.gone)
      ensures forall i :: 0 <= i < |batch| && batch[i].caller !in state.gone ==>
                batch[i].caller in state.delivered && state.delivered[batch[i].caller] == answers[i]
    {
      hide ReachableState, Reachable, Counted;
      for i := 0 to |batch|
        invariant Synced() && state.finished == old(state.finished) + left[..i]
        invariant state.phase == if i < |batch| then Answering(left[i..]) else Idle
        invariant state.open == old(state.open) && state.sent == old(state.sent) && state.gone == old(state.gone)
      {
        assert left[i..][0] == left[i] && left[i..][1..] == left[i + 1..];
        assert left[..i + 1] == left[..i] + [left[i]];
        Answer(batch[i], answers[i]);
      }
      assert left[..|batch|] == left;
      LastAreHeard(state, |old(state.finished)|);
      assert forall i :: 0 <= i < |left| ==> state.finished[|old(state.finished)| + i] == left[i];
    }

    /** One transaction for the whole batch, then one answer per report in batch order. */
    method PersistBatch(batch: seq<Message>, fate: Fate)
      requires Synced() && state.phase == Collecting(batch) && batch != []
      modifies this`counters, this`waiting, this`state, store
      ensures Synced() && state.phase.Idle?
      ensures state.open == old(state.open) && state.sent == old(state.sent) && state.gone == old(state.gone)
      ensures store.system ==
              if fate == RolledBack then old(store.system) else AcceptAll(old(store.system), Writes(batch))
      ensures var answers := if fate == Committed then Results(old(store.system), batch) else Failures(batch);
              && state.finished == old(state.finished) + answers && |answers| == |batch|
              && forall i :: 0 <= i < |batch| && batch[i].caller !in state.gone ==>
                   batch[i].caller in state.delivered && state.delivered[batch[i].caller] == answers[i].answer
    {
      hide ReachableState, Reachable, Results, Failures, AcceptAll, Writes;
      var answers := CommitBatch(batch, fate);
      AnswerAll(batch, answers, state.phase.left);
    }

    /** The transaction of a batch, and the answers to hand out. */
    method CommitBatch(batch: seq<Message>, fate: Fate) returns (answers: seq<TelemetryWriter.Answer>)
      requires Synced() && state.phase == Collecting(batch) && batch != []
      modifies this`counters, this`state, store
      ensures Synced() && state.open == old(state.open) && state.sent == old(state.sent)
      ensures state.gone == old(state.gone)
      ensures store.system ==
              if fate == RolledBack then old(store.system) else AcceptAll(old(store.system), Writes(batch))
      ensures state.phase ==
              Answering(if fate == Committed then Results(old(store.system), batch) else Failures(batch))
      ensures state.finished == old(state.finished) && |answers| == |batch| == |state.phase.left|
      ensures forall i :: 0 <= i < |batch| ==>
                state.phase.left[i].message == batch[i] && state.phase.left[i].answer == answers[i]
    {
      hide Results, Failures, AcceptAll, StoreReport, StoreBatch, ReachableState, Reachable, Writes, LookedUp, Permits,
        ReservedCalls, Enabled, Next, Advance, After, Possible;
      ReachableIsAligned(store.system);
      CommitSteps(state);
      var writes := CollectWrites(batch);
      FailuresAre(batch);
      answers := seq(|batch|, _ => NotCommitted);
      if fate == RolledBack {
        counters := counters.(failed := counters.failed + |batch|);
        Take(RollBack);
      } else {
        var outcomes := store.StoreReportBatch(writes);
        ResultsAreOutcomes(old(store.system), batch);
        if fate == Committed {
          answers := seq(|batch|, i requires 0 <= i < |batch| => Persisted(outcomes[i]));
          Take(Commit);
        } else {
          counters := counters.(failed := counters.failed + |batch|);
          Take(LoseCommit);
        }
      }
    }

    /**
     * Draining after the queue was closed: wait while a handler still holds a slot, take a batch,
     * persist it, until nothing is queued and no slot is held; then end. Any transaction may fail,
     * and the rest of the server goes on committing its own.
     */
    method Drain()
      requires Synced() && !state.open && state.phase.Idle?
      modifies this, store
      ensures Synced() && state.phase.Stopped? && queue == [] && ReservedCalls(calls) == {}
      ensures state.sent == Messages(state.finished) && old(state.sent) <= state.sent
      ensures counters.completed + counters.failed == |state.sent| == |state.finished| && waiting == {}
      ensures forall i :: 0 <= i < |state.sent| && state.sent[i].caller !in state.gone ==>
                && state.finished[i].message == state.sent[i] && state.sent[i].caller in state.delivered
                && state.delivered[state.sent[i].caller] == state.finished[i].answer
    {
      hide ReachableState, Reachable, Results, Failures, ReservedCalls, Messages, After, Possible, WriterInv;
      var held := ReservedCalls(calls);
      while queue != [] || held != {}
        invariant Synced() && !state.open && state.phase.Idle? && held == ReservedCalls(calls)
        invariant old(state.sent) <= state.sent
        decreases 2 * |held| + |queue|
      {
        OthersCommit();
        var wait: bool := *;
        if queue == [] || (wait && held != {}) {
          var call :| call in held;
          var sends: bool := *;
          HeldCalls(calls, call);
          HandlerMoves(call, sends);
          held := held - {call};
        } else {
          var batch := TakeBatch();
          var fate: Fate := *;
          PersistBatch(batch, fate);
        }
      }
      StopIsPossible(state);
      Take(Stop);
      ReachableStateIsSafe(state);
      ShutdownLosesNothing(state);
    }
  }

  lemma StartsReachable(config: Config, system: System)
    requires config.batchSize >= 1 && Reachable(system)
    ensures ReachableState(Initial(config).(system := system))
  {
    hide ReachableState;
    var run, events :| EndsIn(run, events, system);
    StartIsReachableState(config, run, events, |events|);
  }

  /** Whoever did not give up has heard each of the last answers. */
  lemma LastAreHeard(s: State, n: nat)
    requires ReachableState(s) && n <= |s.finished|
    ensures forall i :: n <= i < |s.finished| && s.finished[i].message.caller !in s.gone ==>
              && s.finished[i].message.caller in s.delivered
              && s.delivered[s.finished[i].message.caller] == s.finished[i].answer
  {
    hide ReachableState, WriterInv;
    ReachableStateIsSafe(s);
    FinishedWereSent(s);
    forall i | n <= i < |s.finished| && s.finished[i].message.caller !in s.gone
      ensures s.finished[i].message.caller in s.delivered
      ensures s.delivered[s.finished[i].message.caller] == s.finished[i].answer
    {
      EveryoneHears(s, i);
    }
  }

  lemma FinishedWereSent(s: State)
    requires WriterInv(s)
    ensures |s.finished| <= |s.sent|
  {
    hide Inv, Conserved;
    FinishedAreSent(s);
  }

  /** The three ends of a transaction. */
  lemma CommitSteps(s: State)
    requires s.phase.Collecting? && |s.system.place| == |s.system.log|
    ensures var batch := s.phase.batch;
            var failed := s.(phase := Answering(Failures(batch)),
                             counters := s.counters.(failed := s.counters.failed + |batch|));
            var stored := AcceptAll(s.system, Writes(batch));
            && Possible(s, Commit) && Possible(s, RollBack) && Possible(s, LoseCommit)
            && After(s, Commit) == s.(phase := Answering(Results(s.system, batch)), system := stored)
            && After(s, RollBack) == failed && After(s, LoseCommit) == failed.(system := stored)
  {
    hide Results, Failures, AcceptAll, Writes;
  }

  lemma StopIsPossible(s: State)
    requires s.phase.Idle? && !s.open && s.queue == [] && ReservedCalls(s.calls) == {}
    ensures Possible(s, Stop) && After(s, Stop) == s.(phase := Stopped)
  {
    hide ReservedCalls;
  }

  lemma ReachableIsAligned(s: System)
    requires Reachable(s)
    ensures |s.place| == |s.log|
  {
  }

  lemma HeldCalls(calls: map<CallId, Call>, call: CallId)
    requires call in ReservedCalls(calls)
    ensures call in calls && calls[call].stage == Reserved
    ensures ReservedCalls(calls - {call}) == ReservedCalls(calls) - {call}
  {
  }
}
