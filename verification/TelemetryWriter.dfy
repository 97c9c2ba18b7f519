/**
 * The telemetry writer: request handlers put reports into a bounded queue, one writer takes them out
 * in batches and commits each batch in one transaction. Every handler and the writer move in steps
 * that interleave freely with each other and with every other transaction of the server.
 */
module TelemetryWriter {
  import opened Common
  import opened Schema
  import opened Reports
  import opened Ledger

  const MAX_PENDING_PER_HOST: nat := 16

  type CallId = nat
  type SemaphoreId = nat

  datatype Config = Config(queueCapacity: nat, batchSize: nat)

  /**
   * How far a handler has come before it sends: it knows its host's semaphore, holds a permit of it, or
   * holds a queue slot too.
   */
  datatype Stage = Looked | Holding | Reserved

  datatype Call = Call(write: Write, owner: SemaphoreId, stage: Stage)

  /** A queued report; it keeps its host permit until it is answered. */
  datatype Message = Message(write: Write, owner: SemaphoreId, caller: CallId)

  datatype Answer = Persisted(outcome: ReportOutcome) | NotCommitted

  /** An answered report and, if it was newly accepted, its position in the log of acceptances. */
  datatype Settled = Settled(message: Message, answer: Answer, position: Option<nat>)

  /** The writer waits for a first report, collects a batch, hands out the answers of one, or has ended. */
  datatype Phase = Idle | Collecting(batch: seq<Message>) | Answering(left: seq<Settled>) | Stopped

  datatype Counters = Counters(completed: nat, failed: nat, abandoned: nat)

  /**
   * `owners` is the map of weak references: its entries do not keep a semaphore alive. `sent`,
   * `finished`, `delivered` and `gone` are history: what was sent, in order, what was answered, in
   * order, the answer each handler got, and the handlers that did not wait for theirs.
   */
  datatype State = State(
    config: Config,
    requested: bool, open: bool, phase: Phase,
    owners: map<Uuid, SemaphoreId>, nextOwner: SemaphoreId,
    calls: map<CallId, Call>, waiting: set<CallId>,
    queue: seq<Message>, counters: Counters,
    sent: seq<Message>, finished: seq<Settled>, delivered: map<CallId, Answer>, gone: set<CallId>,
    system: System)

  function Initial(config: Config): State {
    State(config, false, true, Idle, map[], 0, map[], {}, [], Counters(0, 0, 0), [], [], map[], {}, START)
  }

  // ---- semaphores ----

  function CallHolders(calls: map<CallId, Call>, o: SemaphoreId): set<CallId> {
    set c | c in calls && calls[c].stage != Looked && calls[c].owner == o
  }

  function SentHolders(sent: seq<Message>, done: nat, o: SemaphoreId): set<nat> {
    set i | done <= i < |sent| && sent[i].owner == o
  }

  /** Permits out of one semaphore: handlers that hold one and sent reports not answered yet. */
  function Permits(calls: map<CallId, Call>, sent: seq<Message>, done: nat, o: SemaphoreId): nat {
    |CallHolders(calls, o)| + |SentHolders(sent, done, o)|
  }

  /** Some handler or unanswered report still refers to the semaphore: its weak reference can be upgraded. */
  predicate Alive(calls: map<CallId, Call>, sent: seq<Message>, done: nat, o: SemaphoreId) {
    (exists c :: c in calls && calls[c].owner == o) || (exists i :: done <= i < |sent| && sent[i].owner == o)
  }

  function LiveOwners(s: State): map<Uuid, SemaphoreId> {
    map h | h in s.owners && Alive(s.calls, s.sent, |s.finished|, s.owners[h]) :: s.owners[h]
  }

  // ---- batches ----

  function Writes(batch: seq<Message>): seq<Write> {
    if batch == [] then [] else Writes(batch[..|batch| - 1]) + [batch[|batch| - 1].write]
  }

  ghost function Settle(system: System, m: Message): Settled {
    var outcome := StoreReport(system.db, m.write).1;
    Settled(m, Persisted(outcome), if outcome.Stored? && outcome.accepted then Some(|system.log|) else None)
  }

  /** The answers of a batch whose transaction commits: each report sees the ones before it. */
  ghost function Results(system: System, batch: seq<Message>): seq<Settled> {
    if batch == [] then []
    else
      var init := batch[..|batch| - 1];
      Results(system, init) + [Settle(AcceptAll(system, Writes(init)), batch[|batch| - 1])]
  }

  function Failures(batch: seq<Message>): seq<Settled> {
    if batch == [] then [] else Failures(batch[..|batch| - 1]) + [Settled(batch[|batch| - 1], NotCommitted, None)]
  }

  function Messages(settled: seq<Settled>): seq<Message> {
    if settled == [] then [] else Messages(settled[..|settled| - 1]) + [settled[|settled| - 1].message]
  }

  // ---- steps ----

  /**
   * What handlers, the writer and others may do. A commit that is reported to fail may have taken
   * effect all the same: `RollBack` left the tables alone, `LoseCommit` only lost the answer.
   */
  datatype Step =
    | Lookup(call: CallId, write: Write)
    | Acquire(call: CallId)
    | Reserve(call: CallId)
    | Send(call: CallId)
    | GiveUp(call: CallId)
    | Request
    | Close
    | ReceiveFirst
    | ReceiveMore
    | Commit
    | RollBack
    | LoseCommit
    | Reply
    | Stop
    | Other(event: Event)

  function ReservedCalls(calls: map<CallId, Call>): set<CallId> {
    set c | c in calls && calls[c].stage == Reserved
  }

  ghost predicate Possible(s: State, step: Step) {
    match step
    case Lookup(call, _) => call !in s.calls && forall i :: 0 <= i < |s.sent| ==> s.sent[i].caller != call
    case Acquire(call) => call in s.calls && s.calls[call].stage == Looked
    case Reserve(call) =>
      && call in s.calls && s.calls[call].stage == Holding
      && (s.open ==> |s.queue| + |ReservedCalls(s.calls)| < s.config.queueCapacity)
    case Send(call) => call in s.calls && s.calls[call].stage == Reserved
    case GiveUp(call) => call in s.calls || call in s.waiting
    case Request => true
    case Close => s.requested && s.open && (s.phase.Idle? || s.phase.Collecting?)
    case ReceiveFirst => s.phase.Idle? && s.queue != []
    case ReceiveMore => s.phase.Collecting? && |s.phase.batch| < s.config.batchSize && s.queue != []
    case Commit => s.phase.Collecting? && |s.system.place| == |s.system.log|
    case RollBack => s.phase.Collecting?
    case LoseCommit => s.phase.Collecting? && |s.system.place| == |s.system.log|
    case Reply => s.phase.Answering? && s.phase.left != []
    case Stop => s.phase.Idle? && !s.open && s.queue == [] && ReservedCalls(s.calls) == {}
    case Other(e) => |s.system.place| == |s.system.log| && Enabled(s.system, e)
  }

  /** Forget dead semaphores, then take the host's live one or make a new one; all under one lock. */
  function LookedUp(s: State, call: CallId, write: Write): State {
    var owners, h := LiveOwners(s), write.sample.host;
    if h in owners then s.(owners := owners, calls := s.calls[call := Call(write, owners[h], Looked)])
    else
      s.(owners := owners[h := s.nextOwner], nextOwner := s.nextOwner + 1,
         calls := s.calls[call := Call(write, s.nextOwner, Looked)])
  }

  function Advance(s: State, call: CallId, stage: Stage): State
    requires call in s.calls
  {
    s.(calls := s.calls[call := s.calls[call].(stage := stage)])
  }

  function Counted(c: Counters, answer: Answer, heard: bool): Counters {
    var abandoned := if heard then c.abandoned else c.abandoned + 1;
    match answer
    case Persisted(outcome) =>
      if outcome.Stored? then Counters(c.completed + 1, c.failed, abandoned)
        else Counters(c.completed, c.failed + 1, abandoned)
    case NotCommitted => Counters(c.completed, c.failed, abandoned)
  }

  /** One answer: the permit is released, and the handler hears it if it still waits. */
  function Replied(s: State): State
    requires s.phase.Answering? && s.phase.left != []
  {
    var r, rest := s.phase.left[0], s.phase.left[1..];
    var heard := r.message.caller in s.waiting;
    s.(phase := if rest == [] then Idle else Answering(rest),
       finished := s.finished + [r],
       counters := Counted(s.counters, r.answer, heard),
       waiting := s.waiting - {r.message.caller},
       delivered := if heard then s.delivered[r.message.caller := r.answer] else s.delivered)
  }

  ghost function After(s: State, step: Step): State
    requires Possible(s, step)
  {
    match step
    case Lookup(call, write) => LookedUp(s, call, write)
    case Acquire(call) =>
      if Permits(s.calls, s.sent, |s.finished|, s.calls[call].owner) < MAX_PENDING_PER_HOST
        then Advance(s, call, Holding)
      else s.(calls := s.calls - {call})
    case Reserve(call) => if s.open then Advance(s, call, Reserved) else s.(calls := s.calls - {call})
    case Send(call) =>
      var m := Message(s.calls[call].write, s.calls[call].owner, call);
      s.(calls := s.calls - {call}, waiting := s.waiting + {call}, queue := s.queue + [m], sent := s.sent + [m])
    case GiveUp(call) =>
      s.(calls := s.calls - {call}, waiting := s.waiting - {call},
         gone := if call in s.waiting then s.gone + {call} else s.gone)
    case Request => s.(requested := true)
    case Close => s.(open := false)
    case ReceiveFirst => s.(phase := Collecting([s.queue[0]]), queue := s.queue[1..])
    case ReceiveMore => s.(phase := Collecting(s.phase.batch + [s.queue[0]]), queue := s.queue[1..])
    case Commit =>
      s.(phase := Answering(Results(s.system, s.phase.batch)), system := AcceptAll(s.system, Writes(s.phase.batch)))
    case RollBack =>
      s.(phase := Answering(Failures(s.phase.batch)),
         counters := s.counters.(failed := s.counters.failed + |s.phase.batch|))
    case LoseCommit =>
      s.(phase := Answering(Failures(s.phase.batch)), system := AcceptAll(s.system, Writes(s.phase.batch)),
         counters := s.counters.(failed := s.counters.failed + |s.phase.batch|))
    case Reply => Replied(s)
    case Stop => s.(phase := Stopped)
    case Other(e) => s.(system := Next(s.system, e))
  }
}
