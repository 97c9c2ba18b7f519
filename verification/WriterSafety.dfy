/** What holds in every interleaving of the telemetry writer. */
module WriterSafety {
  import opened Common
  import opened Schema
  import opened Reports
  import opened Ledger
  import opened Promises
  import opened TelemetryWriter

  // ---- invariants ----

  ghost function Batch(phase: Phase): seq<Message> { if phase.Collecting? then phase.batch else [] }
  ghost function Left(phase: Phase): seq<Settled> { if phase.Answering? then phase.left else [] }

  /** Each sent report is in exactly one place, and the places keep the order of sending. */
  ghost predicate Conserved(sent: seq<Message>, finished: seq<Settled>, phase: Phase, queue: seq<Message>) {
    sent == Messages(finished) + Messages(Left(phase)) + Batch(phase) + queue
  }

  ghost predicate QueueFits(config: Config, calls: map<CallId, Call>, queue: seq<Message>) {
    |queue| + |ReservedCalls(calls)| <= config.queueCapacity
  }

  ghost predicate BatchFits(config: Config, phase: Phase) {
    && |Batch(phase)| <= config.batchSize
    && (phase.Collecting? ==> phase.batch != [])
    && (phase.Answering? ==> phase.left != [])
  }

  ghost predicate StoppedIsFinal(open: bool, calls: map<CallId, Call>, phase: Phase, queue: seq<Message>) {
    phase.Stopped? ==> !open && queue == [] && ReservedCalls(calls) == {}
  }

  /** Whoever refers to a semaphore of a host refers to the one in the map. */
  ghost predicate OneOwnerPerHost(owners: map<Uuid, SemaphoreId>, next: SemaphoreId, calls: map<CallId, Call>,
                                  sent: seq<Message>, done: nat)
  {
    && (forall c :: c in calls ==>
          calls[c].write.sample.host in owners && owners[calls[c].write.sample.host] == calls[c].owner)
    && (forall i :: done <= i < |sent| ==>
          sent[i].write.sample.host in owners && owners[sent[i].write.sample.host] == sent[i].owner)
    && (forall h :: h in owners ==> owners[h] < next)
    && (forall g, h :: g in owners && h in owners && g != h ==> owners[g] != owners[h])
  }

  ghost predicate PermitsBounded(calls: map<CallId, Call>, sent: seq<Message>, done: nat) {
    forall o :: Permits(calls, sent, done, o) <= MAX_PENDING_PER_HOST
  }

  /** A success answer names a committed acceptance. */
  ghost predicate Backed(r: Settled, log: seq<Sample>) {
    && (r.position.Some? ==> r.position.value < |log| && log[r.position.value] == r.message.write.sample)
    && (r.answer.Persisted? && r.answer.outcome.Stored? ==>
          if r.answer.outcome.accepted then r.position.Some?
          else exists i :: 0 <= i < |log| && SameReport(log[i], r.message.write.sample, r.answer.outcome.received))
  }

  predicate SameReport(x: Sample, y: Sample, received: Instant) {
    x.id == y.id && x.host == y.host && x.received == received
  }

  ghost predicate AllBacked(settled: seq<Settled>, log: seq<Sample>) {
    forall i :: 0 <= i < |settled| ==> Backed(settled[i], log)
  }

  /** Newly accepted reports entered the log in the order they were sent. */
  ghost predicate Ordered(settled: seq<Settled>) {
    forall i, j :: 0 <= i < j < |settled| && settled[i].position.Some? && settled[j].position.Some? ==>
      settled[i].position.value < settled[j].position.value
  }

  ghost predicate Answered(finished: seq<Settled>, delivered: map<CallId, Answer>) {
    forall c :: c in delivered ==>
      exists i :: 0 <= i < |finished| && finished[i].message.caller == c && finished[i].answer == delivered[c]
  }

  /**
   * Every handler that has sent a report waits while it is unanswered, and hears its answer once it
   * is answered, unless it gave up before; and nobody else waits or hears anything.
   */
  ghost predicate Heard(sent: seq<Message>, finished: seq<Settled>, waiting: set<CallId>,
                        delivered: map<CallId, Answer>, gone: set<CallId>)
  {
    && (forall i :: 0 <= i < |sent| && i < |finished| ==>
          && sent[i].caller !in waiting
          && (sent[i].caller in gone <==> sent[i].caller !in delivered)
          && (sent[i].caller in delivered ==> delivered[sent[i].caller] == finished[i].answer))
    && (forall i :: |finished| <= i < |sent| ==>
          && sent[i].caller !in delivered
          && (sent[i].caller in gone <==> sent[i].caller !in waiting))
    && (forall c :: c in waiting || c in gone || c in delivered ==> exists i :: 0 <= i < |sent| && sent[i].caller == c)
  }

  /** A handler sends at most one report, so an answer for it is the answer to that report. */
  ghost predicate OneReportPerCall(calls: map<CallId, Call>, sent: seq<Message>) {
    && (forall i :: 0 <= i < |sent| ==> sent[i].caller !in calls)
    && (forall i, j :: 0 <= i < j < |sent| ==> sent[i].caller != sent[j].caller)
  }

  function LostIn(left: seq<Settled>): nat {
    if left == [] then 0 else LostIn(left[..|left| - 1]) + (if left[|left| - 1].answer.NotCommitted? then 1 else 0)
  }

  ghost predicate Tallied(counters: Counters, finished: seq<Settled>, phase: Phase) {
    counters.completed + counters.failed == |finished| + LostIn(Left(phase))
  }

  function StoredIn(settled: seq<Settled>): nat {
    if settled == [] then 0
    else
      var a := settled[|settled| - 1].answer;
      StoredIn(settled[..|settled| - 1]) + (if a.Persisted? && a.outcome.Stored? then 1 else 0)
  }

  /** Answered reports whose handler had gone. */
  function Unheard(finished: seq<Settled>, gone: set<CallId>): set<nat> {
    set i | 0 <= i < |finished| && finished[i].message.caller in gone
  }

  ghost predicate CountsAnswers(counters: Counters, finished: seq<Settled>, gone: set<CallId>) {
    counters.completed == StoredIn(finished) && counters.abandoned == |Unheard(finished, gone)|
  }

  ghost predicate WriterInv(s: State) {
    && Inv(s.system)
    && Conserved(s.sent, s.finished, s.phase, s.queue)
    && QueueFits(s.config, s.calls, s.queue) && BatchFits(s.config, s.phase)
    && StoppedIsFinal(s.open, s.calls, s.phase, s.queue)
    && OneOwnerPerHost(s.owners, s.nextOwner, s.calls, s.sent, |s.finished|)
    && PermitsBounded(s.calls, s.sent, |s.finished|)
    && AllBacked(s.finished + Left(s.phase), s.system.log)
    && Ordered(s.finished + Left(s.phase))
    && Answered(s.finished, s.delivered)
    && OneReportPerCall(s.calls, s.sent)
    && Tallied(s.counters, s.finished, s.phase)
    && Heard(s.sent, s.finished, s.waiting, s.delivered, s.gone)
    && CountsAnswers(s.counters, s.finished, s.gone)
  }

  // ---- sequences ----

  lemma {:induction false} MessagesAdd(a: seq<Settled>, b: seq<Settled>)
    ensures Messages(a + b) == Messages(a) + Messages(b)
    decreases |b|
  {
    if b == [] {
      assert a + b == a;
    } else {
      MessagesAdd(a, b[..|b| - 1]);
      assert (a + b)[..|a + b| - 1] == a + b[..|b| - 1];
    }
  }

  lemma {:induction false} LostAdds(a: seq<Settled>, b: seq<Settled>)
    ensures LostIn(a + b) == LostIn(a) + LostIn(b)
    decreases |b|
  {
    if b == [] {
      assert a + b == a;
    } else {
      LostAdds(a, b[..|b| - 1]);
      assert (a + b)[..|a + b| - 1] == a + b[..|b| - 1];
    }
  }

  lemma TakeFirst(left: seq<Settled>)
    requires left != []
    ensures Messages(left) == [left[0].message] + Messages(left[1..])
    ensures LostIn(left) == (if left[0].answer.NotCommitted? then 1 else 0) + LostIn(left[1..])
  {
    MessagesAdd([left[0]], left[1..]);
    LostAdds([left[0]], left[1..]);
    assert left == [left[0]] + left[1..];
    assert Messages([]) == [] && LostIn([]) == 0;
    assert Messages([left[0]]) == Messages([]) + [left[0].message];
  }

  lemma {:induction false} FailuresOf(batch: seq<Message>)
    ensures Messages(Failures(batch)) == batch
    ensures LostIn(Failures(batch)) == |batch| == |Failures(batch)|
    ensures forall i :: 0 <= i < |batch| ==>
              Failures(batch)[i].answer.NotCommitted? && Failures(batch)[i].position.None?
    decreases |batch|
  {
    if batch != [] {
      var init := batch[..|batch| - 1];
      FailuresOf(init);
      assert Failures(batch)[..|Failures(batch)| - 1] == Failures(init);
    }
  }

  lemma {:induction false} ResultsOf(system: System, batch: seq<Message>)
    ensures Messages(Results(system, batch)) == batch
    ensures LostIn(Results(system, batch)) == 0 && |Results(system, batch)| == |batch|
    decreases |batch|
  {
    hide StoreReport, AcceptAll;
    if batch != [] {
      var init := batch[..|batch| - 1];
      ResultsOf(system, init);
      assert Results(system, batch)[..|Results(system, batch)| - 1] == Results(system, init);
    }
  }

  // ---- one commit ----

  lemma {:induction false} AcceptAllKeeps(system: System, writes: seq<Write>)
    requires Inv(system)
    ensures Inv(AcceptAll(system, writes)) && system.log <= AcceptAll(system, writes).log
    decreases |writes|
  {
    if writes != [] {
      AcceptAllKeeps(system, writes[..|writes| - 1]);
      AcceptKeeps(AcceptAll(system, writes[..|writes| - 1]), writes[|writes| - 1]);
    }
  }

  lemma BackedStays(r: Settled, log: seq<Sample>, more: seq<Sample>)
    requires Backed(r, log) && log <= more
    ensures Backed(r, more)
  {
    if r.answer.Persisted? && r.answer.outcome.Stored? && !r.answer.outcome.accepted {
      var i :| 0 <= i < |log| && SameReport(log[i], r.message.write.sample, r.answer.outcome.received);
      assert more[i] == log[i];
    }
  }

  lemma AllBackedStay(settled: seq<Settled>, log: seq<Sample>, more: seq<Sample>)
    requires AllBacked(settled, log) && log <= more
    ensures AllBacked(settled, more)
  {
    forall i | 0 <= i < |settled| ensures Backed(settled[i], more) { BackedStays(settled[i], log, more); }
  }

  /** The answer of one report of a batch is backed by the database right after it. */
  lemma SettleIsBacked(system: System, m: Message)
    requires Rows(system)
    ensures Backed(Settle(system, m), Accept(system, m.write).log)
    ensures Settle(system, m).position.Some? ==>
            Settle(system, m).position.value == |system.log| < |Accept(system, m.write).log|
    ensures system.log <= Accept(system, m.write).log
  {
    var (db, outcome) := StoreReport(system.db, m.write);
    if outcome.Stored? && !outcome.accepted {
      var x := m.write.sample;
      assert SameReport(system.log[system.at[x.id]], x, outcome.received);
    }
  }

  ghost predicate From(settled: seq<Settled>, start: nat) {
    forall i :: 0 <= i < |settled| && settled[i].position.Some? ==> start <= settled[i].position.value
  }

  lemma {:induction false} ResultsAreBacked(system: System, batch: seq<Message>)
    requires Inv(system)
    ensures AllBacked(Results(system, batch), AcceptAll(system, Writes(batch)).log)
    ensures Ordered(Results(system, batch)) && From(Results(system, batch), |system.log|)
    decreases |batch|
  {
    if batch != [] {
      var init, last := batch[..|batch| - 1], batch[|batch| - 1];
      ResultsAreBacked(system, init);
      AcceptAllKeeps(system, Writes(init));
      var before := AcceptAll(system, Writes(init));
      SettleIsBacked(before, last);
      assert Writes(batch)[..|Writes(batch)| - 1] == Writes(init);
      assert AcceptAll(system, Writes(batch)) == Accept(before, last.write);
      OneMoreSettled(Results(system, init), Settle(before, last), |system.log|, before.log,
                     Accept(before, last.write).log);
    }
  }

  lemma OneMoreSettled(settled: seq<Settled>, r: Settled, start: nat, log: seq<Sample>, more: seq<Sample>)
    requires AllBacked(settled, log) && Ordered(settled) && From(settled, start) && start <= |log| && log <= more
    requires Backed(r, more) && (r.position.Some? ==> r.position.value == |log|)
    ensures AllBacked(settled + [r], more) && Ordered(settled + [r]) && From(settled + [r], start)
  {
    AllBackedStay(settled, log, more);
    forall i | 0 <= i < |settled| && settled[i].position.Some? ensures settled[i].position.value < |log| {
      assert Backed(settled[i], log);
    }
  }

  /** Answers of a later commit come after all earlier ones. */
  lemma OrderedJoin(a: seq<Settled>, b: seq<Settled>, log: seq<Sample>)
    requires Ordered(a) && Ordered(b) && AllBacked(a, log) && From(b, |log|)
    ensures Ordered(a + b)
  {
    forall i | 0 <= i < |a| && a[i].position.Some? ensures a[i].position.value < |log| {
      assert Backed(a[i], log);
    }
  }

  // ---- every step ----

  lemma StepKeepsSystem(s: State, step: Step)
    requires Inv(s.system) && Possible(s, step)
    ensures Inv(After(s, step).system) && s.system.log <= After(s, step).system.log
  {
    hide Inv, Next, StoreReport;
    match step
    case Commit => AcceptAllKeeps(s.system, Writes(s.phase.batch));
    case LoseCommit => AcceptAllKeeps(s.system, Writes(s.phase.batch));
    case Other(e) => { NextKeepsInv(s.system, e); EveryStepMovesOn(s.system, e); }
    case _ =>
  }

  lemma CommitConserves(sent: seq<Message>, finished: seq<Settled>, batch: seq<Message>, results: seq<Settled>,
                        queue: seq<Message>)
    requires Conserved(sent, finished, Collecting(batch), queue) && Messages(results) == batch
    ensures Conserved(sent, finished, Answering(results), queue)
  {
    assert Messages([]) == [];
  }

  lemma ReceiveConserves(sent: seq<Message>, finished: seq<Settled>, phase: Phase, queue: seq<Message>)
    requires Conserved(sent, finished, phase, queue) && (phase.Idle? || phase.Collecting?) && queue != []
    ensures Conserved(sent, finished, Collecting(Batch(phase) + [queue[0]]), queue[1..])
  {
    hide Messages;
    assert Messages([]) == [] by { MessagesLength([]); }
    ShiftOne(Messages(finished) + Messages([]), Batch(phase), queue);
  }

  lemma ShiftOne(a: seq<Message>, b: seq<Message>, queue: seq<Message>)
    requires queue != []
    ensures a + b + queue == a + (b + [queue[0]]) + queue[1..]
  {
    assert queue == [queue[0]] + queue[1..];
  }

  lemma ReplyConserves(sent: seq<Message>, finished: seq<Settled>, left: seq<Settled>, queue: seq<Message>,
                       phase: Phase)
    requires Conserved(sent, finished, Answering(left), queue) && left != []
    requires phase == if left[1..] == [] then Idle else Answering(left[1..])
    ensures Conserved(sent, finished + [left[0]], phase, queue)
  {
    assert Messages([]) == [];
    TakeFirst(left);
    TakeFirst([left[0]]);
    hide Messages;
    MessagesAdd(finished, [left[0]]);
  }

  lemma StepConserves(s: State, step: Step)
    requires Possible(s, step) && Conserved(s.sent, s.finished, s.phase, s.queue)
    ensures Conserved(After(s, step).sent, After(s, step).finished, After(s, step).phase, After(s, step).queue)
  {
    hide Enabled, Next, Messages, Results, Failures, AcceptAll, LookedUp, Permits, ReservedCalls;
    match step
    case ReceiveFirst => {
      ReceiveConserves(s.sent, s.finished, s.phase, s.queue);
      assert [] + [s.queue[0]] == [s.queue[0]];
    }
    case ReceiveMore => ReceiveConserves(s.sent, s.finished, s.phase, s.queue);
    case Commit => {
      ResultsOf(s.system, s.phase.batch);
      CommitConserves(s.sent, s.finished, s.phase.batch, Results(s.system, s.phase.batch), s.queue);
    }
    case RollBack => {
      FailuresOf(s.phase.batch);
      CommitConserves(s.sent, s.finished, s.phase.batch, Failures(s.phase.batch), s.queue);
    }
    case LoseCommit => {
      FailuresOf(s.phase.batch);
      CommitConserves(s.sent, s.finished, s.phase.batch, Failures(s.phase.batch), s.queue);
    }
    case Reply => ReplyConserves(s.sent, s.finished, s.phase.left, s.queue, Replied(s).phase);
    case Lookup(call, write) => LookupFrame(s, call, write);
    case _ =>
  }

  /** A lookup touches nothing but the owners and the calls. */
  lemma LookupFrame(s: State, call: CallId, write: Write)
    ensures var t := LookedUp(s, call, write);
            t == s.(owners := t.owners, nextOwner := t.nextOwner, calls := t.calls)
    ensures var t := LookedUp(s, call, write);
            call in t.calls && t.calls == s.calls[call := Call(write, t.calls[call].owner, Looked)]
  {
  }

  // ---- limits ----

  lemma ReservedAfter(calls: map<CallId, Call>, call: CallId, after: Call)
    requires call in calls ==> calls[call].stage != Reserved
    ensures ReservedCalls(calls[call := after]) ==
            if after.stage == Reserved then ReservedCalls(calls) + {call} else ReservedCalls(calls)
    ensures |ReservedCalls(calls[call := after])| <= |ReservedCalls(calls)| + (if after.stage == Reserved then 1 else 0)
  {
    assert ReservedCalls(calls[call := after]) ==
           if after.stage == Reserved then ReservedCalls(calls) + {call} else ReservedCalls(calls);
  }

  lemma ReservedWithout(calls: map<CallId, Call>, call: CallId)
    ensures ReservedCalls(calls - {call}) == ReservedCalls(calls) - {call}
    ensures |ReservedCalls(calls - {call})| <= |ReservedCalls(calls)|
    ensures call in calls && calls[call].stage == Reserved ==>
            |ReservedCalls(calls - {call})| == |ReservedCalls(calls)| - 1
  {
    assert ReservedCalls(calls - {call}) == ReservedCalls(calls) - {call};
    SubsetSize(ReservedCalls(calls - {call}), ReservedCalls(calls));
  }

  lemma LookupKeepsQueueFits(s: State, call: CallId, write: Write)
    requires call !in s.calls && QueueFits(s.config, s.calls, s.queue)
    ensures QueueFits(LookedUp(s, call, write).config, LookedUp(s, call, write).calls, LookedUp(s, call, write).queue)
  {
    hide LookedUp, ReservedCalls;
    LookupFrame(s, call, write);
    ReservedAfter(s.calls, call, LookedUp(s, call, write).calls[call]);
  }

  lemma HandlerKeepsQueueFits(s: State, step: Step)
    requires step.Acquire? || step.Reserve? || step.Send? || step.GiveUp?
    requires Possible(s, step) && QueueFits(s.config, s.calls, s.queue)
    ensures QueueFits(After(s, step).config, After(s, step).calls, After(s, step).queue)
  {
    hide Permits, ReservedCalls;
    ReservedWithout(s.calls, step.call);
    match step
    case Acquire(call) => ReservedAfter(s.calls, call, s.calls[call].(stage := Holding));
    case Reserve(call) => ReservedAfter(s.calls, call, s.calls[call].(stage := Reserved));
    case _ =>
  }

  lemma StepKeepsQueueFits(s: State, step: Step)
    requires Possible(s, step) && QueueFits(s.config, s.calls, s.queue)
    ensures QueueFits(After(s, step).config, After(s, step).calls, After(s, step).queue)
  {
    if step.Acquire? || step.Reserve? || step.Send? || step.GiveUp? {
      hide After, Possible;
      HandlerKeepsQueueFits(s, step);
    } else {
      hide Enabled, Next, Results, Failures, AcceptAll, LookedUp, ReservedCalls, Replied, Writes;
      match step
      case Lookup(call, write) => LookupKeepsQueueFits(s, call, write);
      case Reply => ReplyFrame(s);
      case _ =>
    }
  }

  lemma ReplyFrame(s: State)
    requires s.phase.Answering? && s.phase.left != []
    ensures Replied(s).config == s.config && Replied(s).calls == s.calls && Replied(s).queue == s.queue
            && Replied(s).open == s.open
  {
  }

  lemma StepKeepsBatchFits(s: State, step: Step)
    requires Possible(s, step) && BatchFits(s.config, s.phase) && s.config.batchSize >= 1
    ensures BatchFits(After(s, step).config, After(s, step).phase)
  {
    hide Enabled, Next, Messages, Results, Failures, AcceptAll, LookedUp, Permits, ReservedCalls;
    match step
    case Lookup(call, write) => LookupFrame(s, call, write);
    case Commit => ResultsOf(s.system, s.phase.batch);
    case RollBack => FailuresOf(s.phase.batch);
    case LoseCommit => FailuresOf(s.phase.batch);
    case _ =>
  }

  lemma StepKeepsStopped(s: State, step: Step)
    requires Possible(s, step) && StoppedIsFinal(s.open, s.calls, s.phase, s.queue)
    ensures StoppedIsFinal(After(s, step).open, After(s, step).calls, After(s, step).phase, After(s, step).queue)
  {
    hide Possible, After;
    if s.phase.Stopped? {
      StoppedStays(s, step);
    } else if After(s, step).phase.Stopped? {
      OnlyStopStops(s, step);
    }
  }

  lemma OnlyStopStops(s: State, step: Step)
    requires Possible(s, step) && !s.phase.Stopped? && After(s, step).phase.Stopped?
    ensures !After(s, step).open && After(s, step).queue == [] && ReservedCalls(After(s, step).calls) == {}
  {
    hide Enabled, Next, Messages, Results, Failures, AcceptAll, LookedUp, Permits, ReservedCalls;
    if step.Lookup? { LookupFrame(s, step.call, step.write); }
  }

  lemma StoppedStays(s: State, step: Step)
    requires Possible(s, step) && s.phase.Stopped? && StoppedIsFinal(s.open, s.calls, s.phase, s.queue)
    ensures !After(s, step).open && After(s, step).queue == [] && ReservedCalls(After(s, step).calls) == {}
  {
    hide Enabled, Next, Messages, Results, Failures, AcceptAll, LookedUp, Permits, ReservedCalls;
    match step
    case Lookup(call, write) => {
      LookupFrame(s, call, write);
      ReservedAfter(s.calls, call, LookedUp(s, call, write).calls[call]);
    }
    case Acquire(call) => {
      ReservedAfter(s.calls, call, s.calls[call].(stage := Holding));
      ReservedWithout(s.calls, call);
    }
    case Reserve(call) => ReservedWithout(s.calls, call);
    case Send(call) => NoneReserved(s.calls, call);
    case GiveUp(call) => ReservedWithout(s.calls, call);
    case _ =>
  }

  lemma NoneReserved(calls: map<CallId, Call>, call: CallId)
    requires call in calls && calls[call].stage == Reserved
    ensures ReservedCalls(calls) != {}
  {
    assert call in ReservedCalls(calls);
  }

  // ---- permits ----

  ghost predicate Refers(owners: map<Uuid, SemaphoreId>, h: Uuid, o: SemaphoreId) {
    h in owners && owners[h] == o
  }

  lemma ReferenceIsLive(s: State, h: Uuid, o: SemaphoreId)
    requires Refers(s.owners, h, o) && Alive(s.calls, s.sent, |s.finished|, o)
    ensures Refers(LiveOwners(s), h, o)
  {
  }

  /** What a lookup forgets, nobody refers to. */
  lemma ForgettingIsSafe(s: State)
    requires OneOwnerPerHost(s.owners, s.nextOwner, s.calls, s.sent, |s.finished|)
    ensures OneOwnerPerHost(LiveOwners(s), s.nextOwner, s.calls, s.sent, |s.finished|)
  {
    hide LiveOwners, Alive;
    forall c | c in s.calls ensures Refers(LiveOwners(s), s.calls[c].write.sample.host, s.calls[c].owner) {
      CallIsAlive(s.calls, s.sent, |s.finished|, c);
      ReferenceIsLive(s, s.calls[c].write.sample.host, s.calls[c].owner);
    }
    forall i: nat | |s.finished| <= i < |s.sent|
      ensures Refers(LiveOwners(s), s.sent[i].write.sample.host, s.sent[i].owner)
    {
      MessageIsAlive(s.calls, s.sent, |s.finished|, i);
      ReferenceIsLive(s, s.sent[i].write.sample.host, s.sent[i].owner);
    }
    LiveOwnersAreOwners(s);
  }

  lemma LiveOwnersAreOwners(s: State)
    ensures forall h :: h in LiveOwners(s) ==> h in s.owners && LiveOwners(s)[h] == s.owners[h]
  {
  }

  lemma CallIsAlive(calls: map<CallId, Call>, sent: seq<Message>, done: nat, c: CallId)
    requires c in calls
    ensures Alive(calls, sent, done, calls[c].owner)
  {
  }

  lemma MessageIsAlive(calls: map<CallId, Call>, sent: seq<Message>, done: nat, i: nat)
    requires done <= i < |sent|
    ensures Alive(calls, sent, done, sent[i].owner)
  {
  }

  lemma LookupKeepsOwner(s: State, call: CallId, write: Write)
    requires OneOwnerPerHost(s.owners, s.nextOwner, s.calls, s.sent, |s.finished|)
    ensures var t := LookedUp(s, call, write);
            OneOwnerPerHost(t.owners, t.nextOwner, t.calls, t.sent, |t.finished|)
  {
    hide LiveOwners, OneOwnerPerHost;
    ForgettingIsSafe(s);
    LookupAdds(LiveOwners(s), s.nextOwner, s.calls, s.sent, |s.finished|, call, write);
  }

  lemma LookupAdds(owners: map<Uuid, SemaphoreId>, next: SemaphoreId, calls: map<CallId, Call>, sent: seq<Message>,
                   done: nat, call: CallId, write: Write)
    requires OneOwnerPerHost(owners, next, calls, sent, done)
    ensures var h := write.sample.host;
            if h in owners then OneOwnerPerHost(owners, next, calls[call := Call(write, owners[h], Looked)], sent, done)
            else OneOwnerPerHost(owners[h := next], next + 1, calls[call := Call(write, next, Looked)], sent, done)
  {
  }

  lemma FewerHolders(calls: map<CallId, Call>, sent: seq<Message>, done: nat, calls': map<CallId, Call>, done': nat)
    requires PermitsBounded(calls, sent, done) && done <= done'
    requires forall o :: CallHolders(calls', o) <= CallHolders(calls, o)
    ensures PermitsBounded(calls', sent, done')
  {
    forall o ensures Permits(calls', sent, done', o) <= MAX_PENDING_PER_HOST {
      SubsetSize(CallHolders(calls', o), CallHolders(calls, o));
      SubsetSize(SentHolders(sent, done', o), SentHolders(sent, done, o));
      assert Permits(calls, sent, done, o) <= MAX_PENDING_PER_HOST;
    }
  }

  lemma AcquireBounded(calls: map<CallId, Call>, sent: seq<Message>, done: nat, call: CallId)
    requires PermitsBounded(calls, sent, done) && call in calls && calls[call].stage == Looked
    requires Permits(calls, sent, done, calls[call].owner) < MAX_PENDING_PER_HOST
    ensures PermitsBounded(calls[call := calls[call].(stage := Holding)], sent, done)
  {
    var after := calls[call := calls[call].(stage := Holding)];
    forall o ensures Permits(after, sent, done, o) <= MAX_PENDING_PER_HOST {
      assert CallHolders(after, o) ==
             if o == calls[call].owner then CallHolders(calls, o) + {call} else CallHolders(calls, o);
      assert Permits(calls, sent, done, o) <= MAX_PENDING_PER_HOST;
    }
  }

  /** Sending hands the permit from the handler to the report. */
  lemma SendBounded(calls: map<CallId, Call>, sent: seq<Message>, done: nat, call: CallId, m: Message)
    requires PermitsBounded(calls, sent, done) && done <= |sent|
    requires call in calls && calls[call].stage == Reserved && m.owner == calls[call].owner
    ensures PermitsBounded(calls - {call}, sent + [m], done)
  {
    forall o ensures Permits(calls - {call}, sent + [m], done, o) <= MAX_PENDING_PER_HOST {
      assert CallHolders(calls - {call}, o) == CallHolders(calls, o) - {call};
      assert SentHolders(sent + [m], done, o) ==
             if o == m.owner then SentHolders(sent, done, o) + {|sent|} else SentHolders(sent, done, o);
      assert Permits(calls, sent, done, o) <= MAX_PENDING_PER_HOST;
    }
  }

  /** Handlers may leave or move on, and reports be answered, without changing who refers to what. */
  lemma FewerReferences(owners: map<Uuid, SemaphoreId>, next: SemaphoreId, calls: map<CallId, Call>,
                        sent: seq<Message>, done: nat,
                        calls': map<CallId, Call>, done': nat)
    requires OneOwnerPerHost(owners, next, calls, sent, done) && done <= done'
    requires forall c :: c in calls' ==>
               c in calls && calls'[c].write == calls[c].write && calls'[c].owner == calls[c].owner
    ensures OneOwnerPerHost(owners, next, calls', sent, done')
  {
  }

  lemma SendKeepsOwner(owners: map<Uuid, SemaphoreId>, next: SemaphoreId, calls: map<CallId, Call>,
                       sent: seq<Message>, done: nat, call: CallId)
    requires OneOwnerPerHost(owners, next, calls, sent, done) && done <= |sent| && call in calls
    ensures OneOwnerPerHost(owners, next, calls - {call},
                            sent + [Message(calls[call].write, calls[call].owner, call)], done)
  {
  }

  lemma StepKeepsOwner(s: State, step: Step)
    requires Possible(s, step) && OneOwnerPerHost(s.owners, s.nextOwner, s.calls, s.sent, |s.finished|)
             && |s.finished| <= |s.sent|
    ensures var t := After(s, step); OneOwnerPerHost(t.owners, t.nextOwner, t.calls, t.sent, |t.finished|)
  {
    hide Enabled, Next, Messages, Results, Failures, AcceptAll, LookedUp, Permits, ReservedCalls, OneOwnerPerHost;
    match step
    case Lookup(call, write) => LookupKeepsOwner(s, call, write);
    case Send(call) => SendKeepsOwner(s.owners, s.nextOwner, s.calls, s.sent, |s.finished|, call);
    case Reply => FewerReferences(s.owners, s.nextOwner, s.calls, s.sent, |s.finished|, s.calls, |s.finished| + 1);
    case _ => FewerReferences(s.owners, s.nextOwner, s.calls, s.sent, |s.finished|, After(s, step).calls, |s.finished|);
  }

  lemma StepKeepsPermits(s: State, step: Step)
    requires Possible(s, step) && PermitsBounded(s.calls, s.sent, |s.finished|) && |s.finished| <= |s.sent|
    ensures PermitsBounded(After(s, step).calls, After(s, step).sent, |After(s, step).finished|)
  {
    hide Enabled, Next, Messages, Results, Failures, AcceptAll, LookedUp, ReservedCalls, Permits, PermitsBounded;
    match step
    case Lookup(call, write) => {
      LookupFrame(s, call, write);
      FewerHolders(s.calls, s.sent, |s.finished|, LookedUp(s, call, write).calls, |s.finished|);
    }
    case Acquire(call) =>
      if Permits(s.calls, s.sent, |s.finished|, s.calls[call].owner) < MAX_PENDING_PER_HOST {
        AcquireBounded(s.calls, s.sent, |s.finished|, call);
      } else {
        FewerHolders(s.calls, s.sent, |s.finished|, s.calls - {call}, |s.finished|);
      }
    case Reserve(call) => FewerHolders(s.calls, s.sent, |s.finished|, After(s, step).calls, |s.finished|);
    case Send(call) =>
      SendBounded(s.calls, s.sent, |s.finished|, call, Message(s.calls[call].write, s.calls[call].owner, call));
    case GiveUp(call) => FewerHolders(s.calls, s.sent, |s.finished|, s.calls - {call}, |s.finished|);
    case Reply => FewerHolders(s.calls, s.sent, |s.finished|, s.calls, |s.finished| + 1);
    case _ =>
  }

  // ---- answers ----

  lemma StepKeepsAnswersBacked(s: State, step: Step)
    requires Possible(s, step) && Inv(s.system)
    requires AllBacked(s.finished + Left(s.phase), s.system.log) && Ordered(s.finished + Left(s.phase))
    ensures var t := After(s, step);
            AllBacked(t.finished + Left(t.phase), t.system.log) && Ordered(t.finished + Left(t.phase))
  {
    hide Inv, Enabled, Next, Messages, Results, Failures, AcceptAll, LookedUp, ReservedCalls, Permits, AllBacked,
      Ordered;
    var t := After(s, step);
    StepKeepsSystem(s, step);
    AllBackedStay(s.finished + Left(s.phase), s.system.log, t.system.log);
    match step
    case Lookup(call, write) => LookupFrame(s, call, write);
    case Commit => {
      ResultsAreBacked(s.system, s.phase.batch);
      JoinResults(s.finished, Results(s.system, s.phase.batch), s.system.log, t.system.log);
    }
    case RollBack => JoinFailures(s.finished, s.phase.batch, s.system.log);
    case LoseCommit => JoinFailures(s.finished, s.phase.batch, t.system.log);
    case Reply => assert t.finished + Left(t.phase) == s.finished + s.phase.left;
    case _ =>
  }

  lemma JoinResults(finished: seq<Settled>, results: seq<Settled>, log: seq<Sample>, more: seq<Sample>)
    requires AllBacked(finished + [], log) && Ordered(finished + []) && log <= more
    requires AllBacked(results, more) && Ordered(results) && From(results, |log|)
    ensures AllBacked(finished + results, more) && Ordered(finished + results)
  {
    assert finished + [] == finished;
    AllBackedStay(finished, log, more);
    OrderedJoin(finished, results, log);
  }

  lemma JoinFailures(finished: seq<Settled>, batch: seq<Message>, log: seq<Sample>)
    requires AllBacked(finished + [], log) && Ordered(finished + [])
    ensures AllBacked(finished + Failures(batch), log) && Ordered(finished + Failures(batch))
  {
    assert finished + [] == finished;
    FailuresOf(batch);
    assert AllBacked(Failures(batch), log) && From(Failures(batch), |log|) && Ordered(Failures(batch));
    OrderedJoin(finished, Failures(batch), log);
  }

  lemma ReplyAnswers(finished: seq<Settled>, delivered: map<CallId, Answer>, r: Settled, heard: bool)
    requires Answered(finished, delivered)
    ensures Answered(finished + [r], if heard then delivered[r.message.caller := r.answer] else delivered)
  {
    var after := if heard then delivered[r.message.caller := r.answer] else delivered;
    var all := finished + [r];
    forall c | c in after
      ensures exists i :: 0 <= i < |all| && all[i].message.caller == c && all[i].answer == after[c]
    {
      if heard && c == r.message.caller {
        assert all[|finished|] == r;
      } else {
        var i :| 0 <= i < |finished| && finished[i].message.caller == c && finished[i].answer == delivered[c];
        assert all[i] == finished[i];
      }
    }
  }

  lemma StepKeepsAnswered(s: State, step: Step)
    requires Possible(s, step) && Answered(s.finished, s.delivered)
    ensures Answered(After(s, step).finished, After(s, step).delivered)
  {
    hide Enabled, Next, Messages, Results, Failures, AcceptAll, LookedUp, ReservedCalls, Permits, Answered;
    match step
    case Lookup(call, write) => LookupFrame(s, call, write);
    case Reply => ReplyAnswers(s.finished, s.delivered, s.phase.left[0], s.phase.left[0].message.caller in s.waiting);
    case _ =>
  }

  lemma StepKeepsOneReportPerCall(s: State, step: Step)
    requires Possible(s, step) && OneReportPerCall(s.calls, s.sent)
    ensures OneReportPerCall(After(s, step).calls, After(s, step).sent)
  {
    hide Enabled, Next, Messages, Results, Failures, AcceptAll, LookedUp, ReservedCalls, Permits;
    match step
    case Lookup(call, write) => LookupFrame(s, call, write);
    case _ =>
  }

  lemma StepTallies(s: State, step: Step)
    requires Possible(s, step) && Tallied(s.counters, s.finished, s.phase)
    ensures Tallied(After(s, step).counters, After(s, step).finished, After(s, step).phase)
  {
    hide Enabled, Next, Messages, Results, Failures, AcceptAll, LookedUp, ReservedCalls, Permits, LostIn;
    assert LostIn([]) == 0 by { ResultsOf(s.system, []); assert Results(s.system, []) == []; }
    match step
    case Lookup(call, write) => LookupFrame(s, call, write);
    case Commit => ResultsOf(s.system, s.phase.batch);
    case RollBack => FailuresOf(s.phase.batch);
    case LoseCommit => FailuresOf(s.phase.batch);
    case Reply => TakeFirst(s.phase.left);
    case _ =>
  }

  // ---- who hears ----

  /** The report that is answered next is the first unanswered one. */
  lemma NextAnswered(s: State)
    requires Conserved(s.sent, s.finished, s.phase, s.queue) && s.phase.Answering? && s.phase.left != []
    ensures |s.finished| < |s.sent| && s.sent[|s.finished|] == s.phase.left[0].message
  {
    MessagesLength(s.finished);
    MessagesLength(s.phase.left);
    hide Messages;
    assert (Messages(s.finished) + Messages(s.phase.left))[|s.finished|] == Messages(s.phase.left)[0];
  }

  lemma ReplyHeard(sent: seq<Message>, finished: seq<Settled>, waiting: set<CallId>, delivered: map<CallId, Answer>,
                   gone: set<CallId>, calls: map<CallId, Call>, r: Settled)
    requires Heard(sent, finished, waiting, delivered, gone) && OneReportPerCall(calls, sent)
    requires |finished| < |sent| && sent[|finished|] == r.message
    ensures Heard(sent, finished + [r], waiting - {r.message.caller},
                  if r.message.caller in waiting then delivered[r.message.caller := r.answer] else delivered, gone)
  {
    var c, all := r.message.caller, finished + [r];
    assert all[..|finished|] == finished;
    forall i | 0 <= i < |sent| && i < |all| ensures i < |finished| ==> sent[i].caller != c && all[i] == finished[i] {
      if i < |finished| { assert sent[i].caller != sent[|finished|].caller; }
    }
    forall i | |all| <= i < |sent| ensures sent[i].caller != c {
      assert sent[|finished|].caller != sent[i].caller;
    }
  }

  lemma SendHeard(sent: seq<Message>, finished: seq<Settled>, waiting: set<CallId>, delivered: map<CallId, Answer>,
                  gone: set<CallId>, calls: map<CallId, Call>, m: Message)
    requires Heard(sent, finished, waiting, delivered, gone) && OneReportPerCall(calls, sent)
    requires m.caller in calls && |finished| <= |sent|
    ensures Heard(sent + [m], finished, waiting + {m.caller}, delivered, gone)
  {
    var all := sent + [m];
    assert forall i :: 0 <= i < |sent| ==> all[i] == sent[i] && sent[i].caller != m.caller;
    forall c | c in waiting + {m.caller} || c in gone || c in delivered
      ensures exists i :: 0 <= i < |all| && all[i].caller == c
    {
      if c == m.caller { assert all[|sent|].caller == c; }
      else {
        var i :| 0 <= i < |sent| && sent[i].caller == c;
        assert all[i].caller == c;
      }
    }
  }

  lemma GiveUpHeard(sent: seq<Message>, finished: seq<Settled>, waiting: set<CallId>, delivered: map<CallId, Answer>,
                    gone: set<CallId>, calls: map<CallId, Call>, c: CallId)
    requires Heard(sent, finished, waiting, delivered, gone) && OneReportPerCall(calls, sent)
    ensures Heard(sent, finished, waiting - {c}, delivered, if c in waiting then gone + {c} else gone)
  {
  }

  lemma StepKeepsHeard(s: State, step: Step)
    requires Possible(s, step) && Heard(s.sent, s.finished, s.waiting, s.delivered, s.gone)
    requires Conserved(s.sent, s.finished, s.phase, s.queue) && OneReportPerCall(s.calls, s.sent)
    requires |s.finished| <= |s.sent|
    ensures Heard(After(s, step).sent, After(s, step).finished, After(s, step).waiting, After(s, step).delivered,
                  After(s, step).gone)
  {
    hide Enabled, Next, Messages, Results, Failures, AcceptAll, LookedUp, ReservedCalls, Permits, Heard,
      OneReportPerCall, Conserved;
    match step
    case Lookup(call, write) => LookupFrame(s, call, write);
    case Send(call) =>
      SendHeard(s.sent, s.finished, s.waiting, s.delivered, s.gone, s.calls,
                Message(s.calls[call].write, s.calls[call].owner, call));
    case GiveUp(call) => GiveUpHeard(s.sent, s.finished, s.waiting, s.delivered, s.gone, s.calls, call);
    case Reply => {
      NextAnswered(s);
      ReplyHeard(s.sent, s.finished, s.waiting, s.delivered, s.gone, s.calls, s.phase.left[0]);
    }
    case _ =>
  }

  lemma OneMoreStored(finished: seq<Settled>, r: Settled)
    ensures StoredIn(finished + [r]) ==
            StoredIn(finished) + (if r.answer.Persisted? && r.answer.outcome.Stored? then 1 else 0)
  {
    assert (finished + [r])[..|finished|] == finished;
  }

  lemma OneMoreUnheard(finished: seq<Settled>, r: Settled, gone: set<CallId>)
    ensures |Unheard(finished + [r], gone)| == |Unheard(finished, gone)| + (if r.message.caller in gone then 1 else 0)
  {
    assert Unheard(finished + [r], gone) ==
           Unheard(finished, gone) + (if r.message.caller in gone then {|finished|} else {});
  }

  lemma ReplyCounts(s: State)
    requires CountsAnswers(s.counters, s.finished, s.gone) && Heard(s.sent, s.finished, s.waiting, s.delivered, s.gone)
    requires s.phase.Answering? && s.phase.left != [] && |s.finished| < |s.sent|
    requires s.sent[|s.finished|] == s.phase.left[0].message
    ensures CountsAnswers(Replied(s).counters, Replied(s).finished, Replied(s).gone)
  {
    hide StoredIn, Unheard;
    OneMoreStored(s.finished, s.phase.left[0]);
    OneMoreUnheard(s.finished, s.phase.left[0], s.gone);
  }

  lemma GiveUpCounts(sent: seq<Message>, finished: seq<Settled>, waiting: set<CallId>, delivered: map<CallId, Answer>,
                     gone: set<CallId>, c: CallId)
    requires Heard(sent, finished, waiting, delivered, gone) && c in waiting
    requires |finished| <= |sent| && forall i :: 0 <= i < |finished| ==> finished[i].message == sent[i]
    ensures Unheard(finished, gone + {c}) == Unheard(finished, gone)
  {
  }

  lemma StepCounts(s: State, step: Step)
    requires Possible(s, step) && Heard(s.sent, s.finished, s.waiting, s.delivered, s.gone)
    requires Conserved(s.sent, s.finished, s.phase, s.queue) && CountsAnswers(s.counters, s.finished, s.gone)
    ensures CountsAnswers(After(s, step).counters, After(s, step).finished, After(s, step).gone)
  {
    hide Enabled, Next, Messages, Results, Failures, AcceptAll, LookedUp, ReservedCalls, Permits, Heard, Conserved,
      StoredIn, Unheard, Replied;
    match step
    case Lookup(call, write) => LookupFrame(s, call, write);
    case GiveUp(call) => {
      FinishedAreSent(s);
      MessagesLength(s.finished);
      if call in s.waiting { GiveUpCounts(s.sent, s.finished, s.waiting, s.delivered, s.gone, call); }
    }
    case Reply => {
      NextAnswered(s);
      ReplyCounts(s);
    }
    case _ =>
  }

  // ---- every interleaving ----

  lemma FinishedAreSent(s: State)
    requires Conserved(s.sent, s.finished, s.phase, s.queue)
    ensures |s.finished| <= |s.sent| && Messages(s.finished) == s.sent[..|s.finished|]
  {
    MessagesLength(s.finished);
  }

  lemma {:induction false} MessagesLength(settled: seq<Settled>)
    ensures |Messages(settled)| == |settled|
    ensures forall i :: 0 <= i < |settled| ==> Messages(settled)[i] == settled[i].message
    decreases |settled|
  {
    if settled != [] { MessagesLength(settled[..|settled| - 1]); }
  }

  lemma StepKeepsInv(s: State, step: Step)
    requires WriterInv(s) && Possible(s, step) && s.config.batchSize >= 1
    ensures WriterInv(After(s, step)) && After(s, step).config == s.config
  {
    hide Inv, Possible, After, Conserved, QueueFits, BatchFits, StoppedIsFinal, OneOwnerPerHost, PermitsBounded,
      AllBacked, Ordered,
      Answered, OneReportPerCall, Tallied, Heard, CountsAnswers;
    FinishedAreSent(s);
    StepKeepsSystem(s, step);
    StepConserves(s, step);
    StepKeepsQueueFits(s, step);
    StepKeepsBatchFits(s, step);
    StepKeepsStopped(s, step);
    StepKeepsOwner(s, step);
    StepKeepsPermits(s, step);
    StepKeepsAnswersBacked(s, step);
    StepKeepsAnswered(s, step);
    StepKeepsOneReportPerCall(s, step);
    StepTallies(s, step);
    StepKeepsHeard(s, step);
    StepCounts(s, step);
    SameConfig(s, step);
  }

  lemma SameConfig(s: State, step: Step)
    requires Possible(s, step)
    ensures After(s, step).config == s.config
  {
    hide Enabled, Next, Messages, Results, Failures, AcceptAll, ReservedCalls, Permits;
  }

  ghost predicate IsWriterStep(s: State, step: Step, t: State) {
    Possible(s, step) && t == After(s, step)
  }

  ghost predicate WriterStepAt(run: seq<State>, steps: seq<Step>, n: nat) {
    n < |steps| && n + 1 < |run| && IsWriterStep(run[n], steps[n], run[n + 1])
  }

  /** Any interleaving of handlers, the writer task and other transactions. */
  ghost predicate IsWriterRun(config: Config, run: seq<State>, steps: seq<Step>) {
    && config.batchSize >= 1
    && |run| == |steps| + 1 && run[0] == Initial(config)
    && forall n :: 0 <= n < |steps| ==> WriterStepAt(run, steps, n)
  }

  lemma InitialHolds(config: Config)
    ensures WriterInv(Initial(config))
  {
    hide Inv;
    StartHolds();
    assert ReservedCalls(map[]) == {};
    forall o ensures Permits(map[], [], 0, o) == 0 {
      assert CallHolders(map[], o) == {} && SentHolders([], 0, o) == {};
    }
  }

  lemma {:induction false} EveryInterleavingIsSafe(config: Config, run: seq<State>, steps: seq<Step>, n: nat)
    requires IsWriterRun(config, run, steps) && n < |run|
    ensures WriterInv(run[n]) && run[n].config == config
    decreases n
  {
    hide WriterInv, After, Possible;
    if n == 0 {
      InitialHolds(config);
    } else {
      EveryInterleavingIsSafe(config, run, steps, n - 1);
      assert WriterStepAt(run, steps, n - 1);
      StepKeepsInv(run[n - 1], steps[n - 1]);
    }
  }

  ghost predicate WriterEndsIn(config: Config, run: seq<State>, steps: seq<Step>, s: State) {
    IsWriterRun(config, run, steps) && run[|steps|] == s
  }

  /** Some interleaving leads to `s`. */
  ghost predicate ReachableState(s: State) {
    exists run, steps :: WriterEndsIn(s.config, run, steps, s)
  }

  lemma ReachableStateIsSafe(s: State)
    requires ReachableState(s)
    ensures WriterInv(s)
  {
    hide WriterInv;
    var run, steps :| WriterEndsIn(s.config, run, steps, s);
    EveryInterleavingIsSafe(s.config, run, steps, |steps|);
  }

  lemma InitialIsReachable(config: Config)
    requires config.batchSize >= 1
    ensures ReachableState(Initial(config))
  {
    assert WriterEndsIn(config, [Initial(config)], [], Initial(config));
  }

  /** A writer may start on any database a run leaves behind: the other transactions come first. */
  lemma {:induction false} StartIsReachableState(config: Config, run: seq<System>, events: seq<Event>, n: nat)
    requires config.batchSize >= 1 && IsRun(run, events) && n < |run|
    ensures ReachableState(Initial(config).(system := run[n]))
    decreases n
  {
    hide ReachableState, Next, Enabled;
    if n == 0 {
      InitialIsReachable(config);
    } else {
      StartIsReachableState(config, run, events, n - 1);
      assert StepAt(run, events, n - 1);
      AfterIsReachable(Initial(config).(system := run[n - 1]), Other(events[n - 1]));
    }
  }

  lemma AfterIsReachable(s: State, step: Step)
    requires ReachableState(s) && Possible(s, step)
    ensures ReachableState(After(s, step)) && After(s, step).config == s.config
  {
    hide Possible, After;
    var run, steps :| WriterEndsIn(s.config, run, steps, s);
    SameConfig(s, step);
    WriterRunExtends(s.config, run, steps, step, After(s, step));
  }

  lemma WriterRunExtends(config: Config, run: seq<State>, steps: seq<Step>, step: Step, t: State)
    requires IsWriterRun(config, run, steps) && IsWriterStep(run[|steps|], step, t)
    ensures WriterEndsIn(config, run + [t], steps + [step], t)
  {
    hide IsWriterStep;
    var run', steps' := run + [t], steps + [step];
    forall n | 0 <= n < |steps'| ensures WriterStepAt(run', steps', n) {
      if n < |steps| {
        assert WriterStepAt(run, steps, n);
        assert run'[n] == run[n] && run'[n + 1] == run[n + 1] && steps'[n] == steps[n];
      }
    }
  }

  // ---- what an interleaving promises ----

  /** A handler that hears success hears about its own report, and that report is committed. */
  lemma SuccessIsCommitted(s: State, c: CallId)
    requires WriterInv(s) && c in s.delivered && s.delivered[c].Persisted? && s.delivered[c].outcome.Stored?
    ensures exists i, p :: 0 <= i < |s.sent| && s.sent[i].caller == c
              && CommittedAs(s.sent[i].write.sample, s.delivered[c].outcome, s.system.log, p)
  {
    hide Inv, Conserved, PermitsBounded, OneOwnerPerHost;
    var i :| 0 <= i < |s.finished| && s.finished[i].message.caller == c && s.finished[i].answer == s.delivered[c];
    MessagesLength(s.finished);
    FinishedAreSent(s);
    var r := s.finished[i];
    assert (s.finished + Left(s.phase))[i] == r && Backed(r, s.system.log);
    assert s.sent[i] == r.message;
    if r.answer.outcome.accepted {
      assert CommittedAs(r.message.write.sample, r.answer.outcome, s.system.log, r.position.value);
    } else {
      var p :| 0 <= p < |s.system.log|
        && SameReport(s.system.log[p], r.message.write.sample, r.answer.outcome.received);
      assert CommittedAs(r.message.write.sample, r.answer.outcome, s.system.log, p);
    }
  }

  /** The log holds this very report, or for a repeat the first one with its identifier and host. */
  predicate CommittedAs(x: Sample, outcome: ReportOutcome, log: seq<Sample>, p: nat)
    requires outcome.Stored?
  {
    p < |log| && if outcome.accepted then log[p] == x else SameReport(log[p], x, outcome.received)
  }

  /** Two newly accepted reports stand in the log in the order in which they were sent. */
  lemma PersistedInSendOrder(s: State, i: nat, j: nat)
    requires WriterInv(s) && i < j < |s.finished| && s.finished[i].position.Some? && s.finished[j].position.Some?
    ensures j < |s.sent| && s.sent[i] == s.finished[i].message && s.sent[j] == s.finished[j].message
    ensures s.finished[i].position.value < s.finished[j].position.value < |s.system.log|
    ensures s.system.log[s.finished[i].position.value] == s.sent[i].write.sample
    ensures s.system.log[s.finished[j].position.value] == s.sent[j].write.sample
  {
    hide Inv, Conserved, PermitsBounded, OneOwnerPerHost, Answered, OneReportPerCall;
    FinishedAreSent(s);
    MessagesLength(s.finished);
    var all := s.finished + Left(s.phase);
    assert all[i] == s.finished[i] && all[j] == s.finished[j];
    assert Backed(all[i], s.system.log) && Backed(all[j], s.system.log);
  }

  /** A handler that has sent its one report waits for the answer, hears it, or has given up before. */
  lemma EveryoneHears(s: State, i: nat)
    requires WriterInv(s) && i < |s.sent|
    ensures var c := s.sent[i].caller;
            if i < |s.finished| then
              && s.finished[i].message == s.sent[i] && c !in s.waiting
              && (c in s.gone || (c in s.delivered && s.delivered[c] == s.finished[i].answer))
            else c !in s.delivered && (c in s.gone || c in s.waiting)
    ensures forall j :: 0 <= j < |s.sent| && s.sent[j].caller == s.sent[i].caller ==> j == i
  {
    hide Inv, Conserved, PermitsBounded, OneOwnerPerHost, AllBacked, Ordered;
    FinishedAreSent(s);
    MessagesLength(s.finished);
  }

  /** The counters are what they say: stored reports, the others, and answers that nobody waited for. */
  lemma CountersAreExact(s: State)
    requires WriterInv(s)
    ensures s.counters.completed == StoredIn(s.finished)
    ensures s.counters.failed == |s.finished| - StoredIn(s.finished) + LostIn(Left(s.phase))
    ensures s.counters.abandoned == |Unheard(s.finished, s.gone)|
  {
    hide Inv;
  }

  /**
   * Once the writer has ended, every report ever sent has been answered, whoever did not give up
   * has heard the answer to its own, and none can be sent any more.
   */
  lemma ShutdownLosesNothing(s: State)
    requires WriterInv(s) && s.phase.Stopped?
    ensures s.queue == [] && s.sent == Messages(s.finished) && |s.sent| == |s.finished| && s.waiting == {}
    ensures forall i :: 0 <= i < |s.sent| && s.sent[i].caller !in s.gone ==>
              && s.finished[i].message == s.sent[i] && s.sent[i].caller in s.delivered
              && s.delivered[s.sent[i].caller] == s.finished[i].answer
    ensures s.counters.completed + s.counters.failed == |s.sent|
    ensures forall c :: !Possible(s, Send(c))
    ensures forall c :: Possible(s, Reserve(c)) ==> c !in After(s, Reserve(c)).calls
  {
    hide Inv, PermitsBounded, OneOwnerPerHost, Answered, OneReportPerCall, AllBacked, Ordered;
    MessagesLength(s.finished);
    MessagesLength([]);
    FinishedAreSent(s);
    forall c | Possible(s, Send(c)) ensures false { NoneReserved(s.calls, c); }
  }

  /** Permits out for one host: handlers that hold one for it and its unanswered reports. */
  function HostCalls(calls: map<CallId, Call>, h: Uuid): set<CallId> {
    set c | c in calls && calls[c].stage != Looked && calls[c].write.sample.host == h
  }

  function HostReports(sent: seq<Message>, done: nat, h: Uuid): set<nat> {
    set i | done <= i < |sent| && sent[i].write.sample.host == h
  }

  /** At most 16, although the map of semaphores keeps forgetting and recreating them. */
  lemma AtMostSixteenPerHost(s: State, h: Uuid)
    requires WriterInv(s)
    ensures |HostCalls(s.calls, h)| + |HostReports(s.sent, |s.finished|, h)| <= MAX_PENDING_PER_HOST
  {
    hide Inv, Conserved, Answered, OneReportPerCall, AllBacked, Ordered, Tallied;
    var done := |s.finished|;
    if h in s.owners {
      var o := s.owners[h];
      assert Permits(s.calls, s.sent, done, o) <= MAX_PENDING_PER_HOST;
      SubsetSize(HostCalls(s.calls, h), CallHolders(s.calls, o));
      SubsetSize(HostReports(s.sent, done, h), SentHolders(s.sent, done, o));
    } else {
      assert HostCalls(s.calls, h) == {} && HostReports(s.sent, done, h) == {};
    }
  }

  /** The permits of a host's semaphore are those of its handlers and its unanswered reports, and no others. */
  lemma PermitsOfHost(s: State, h: Uuid)
    requires WriterInv(s) && h in s.owners
    ensures Permits(s.calls, s.sent, |s.finished|, s.owners[h]) ==
            |HostCalls(s.calls, h)| + |HostReports(s.sent, |s.finished|, h)|
  {
    hide Inv, Conserved, Answered, OneReportPerCall, AllBacked, Ordered, Tallied, Heard, CountsAnswers, PermitsBounded;
    var o := s.owners[h];
    assert CallHolders(s.calls, o) == HostCalls(s.calls, h);
    assert SentHolders(s.sent, |s.finished|, o) == HostReports(s.sent, |s.finished|, h);
  }

  /** A handler is turned away exactly if sixteen permits of its host are out. */
  lemma AcquireExactly(s: State, call: CallId)
    requires WriterInv(s) && Possible(s, Acquire(call))
    ensures var h := s.calls[call].write.sample.host;
            After(s, Acquire(call)) == s.(calls :=
              if |HostCalls(s.calls, h)| + |HostReports(s.sent, |s.finished|, h)| < 16
              then s.calls[call := s.calls[call].(stage := Holding)] else s.calls - {call})
  {
    OwnerOf(s, call);
    PermitsOfHost(s, s.calls[call].write.sample.host);
    hide WriterInv, Permits, HostCalls, HostReports;
  }

  /** With a permit it waits for a slot and is turned away only by shutdown; with a slot it sends and then waits. */
  lemma HandlersProceed(s: State, call: CallId)
    requires call in s.calls
    ensures s.calls[call].stage == Holding && s.open ==>
              (Possible(s, Reserve(call)) <==> |s.queue| + |ReservedCalls(s.calls)| < s.config.queueCapacity)
    ensures Possible(s, Reserve(call)) ==>
              After(s, Reserve(call)) == s.(calls :=
                if s.open then s.calls[call := s.calls[call].(stage := Reserved)] else s.calls - {call})
    ensures s.calls[call].stage == Reserved ==> Possible(s, Send(call)) && Sends(s, After(s, Send(call)), call)
  {
    hide ReservedCalls;
  }

  /** Shutdown goes its way: once asked for the queue closes, and once all is answered the writer ends. */
  lemma ShutdownProceeds(s: State)
    ensures Possible(s, Request) && After(s, Request) == s.(requested := true)
    ensures s.requested && s.open && (s.phase.Idle? || s.phase.Collecting?) ==>
              Possible(s, Close) && After(s, Close) == s.(open := false)
    ensures s.phase.Idle? && s.queue != [] ==>
              && Possible(s, ReceiveFirst)
              && After(s, ReceiveFirst) == s.(phase := Collecting([s.queue[0]]), queue := s.queue[1..])
    ensures s.phase.Idle? && s.queue == [] && !s.open && ReservedCalls(s.calls) == {} ==>
              Possible(s, Stop) && After(s, Stop) == s.(phase := Stopped)
  {
    hide ReservedCalls;
  }

  predicate Sends(s: State, t: State, call: CallId)
    requires call in s.calls
  {
    var m := Message(s.calls[call].write, s.calls[call].owner, call);
    t == s.(calls := s.calls - {call}, waiting := s.waiting + {call}, queue := s.queue + [m], sent := s.sent + [m])
  }

  lemma OwnerOf(s: State, call: CallId)
    requires WriterInv(s) && call in s.calls
    ensures s.calls[call].write.sample.host in s.owners
    ensures s.owners[s.calls[call].write.sample.host] == s.calls[call].owner
  {
    hide Inv;
  }
}
