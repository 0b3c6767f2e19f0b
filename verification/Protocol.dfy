/**
 The privacy workflow as a distributed state machine: intake calls, outbox relays, an at-least-once
 queue, message handlers, polling workers, heartbeats and crashes, interleaved one committed
 transaction at a time.  A step whose guard fails changes nothing, so every sequence of steps is a run.
 */
module Protocol {
  import opened Tables
  import opened Transactions
  import opened Intake

  /** A queue message: it names its outbox event and persists until acknowledged (dead-letter included). */
  datatype Message = Message(event: EventId, acked: bool)

  /** Where one handling of a task stands. `claim` is the attempt number its own claim produced. */
  datatype Phase =
    | Received
    | Claimed(task: TaskId, claim: nat)
    | Executing(task: TaskId, claim: nat, loaded: nat)
    | Finished(task: TaskId, succeeded: bool)
    | Duplicate(task: TaskId)
    | AckDue
    | Done

  /** A polling worker (`process_once`) handles tasks without a message. */
  datatype Handler = Handler(worker: WorkerId, message: Option<nat>, phase: Phase)

  datatype Answer = Created(request: RequestId) | Existing(request: RequestId) | Conflict | Rejected

  datatype CallPhase = Looking | Inserting | Answered(answer: Answer)

  datatype Call = Call(tenant: string, key: string, command: Command, phase: CallPhase)

  /**
   `settled`, `finishes` and `reclaims` are history: no guard reads them.  A task is settled once its
   parent was refreshed after the task became terminal.
   */
  datatype State = State(
    db: Db, now: int, queue: seq<Message>, relays: map<nat, set<EventId>>,
    artifacts: map<ArtifactUri, map<string, Receipt>>, handlers: seq<Handler>, calls: seq<Call>,
    settled: set<TaskId>, finishes: seq<nat>, reclaims: seq<nat>)

  datatype Step =
    | Tick(seconds: nat)
    | AddRecord(tenant: string, subject: string, source: string)
    | Submit(tenant: string, key: string, command: Command)
    | Lookup(call: nat)
    | Insert(call: nat)
    | Send(relay: nat, event: EventId)
    | CommitRelay(relay: nat)
    | CrashRelay(relay: nat)
    | Receive(message: nat, worker: WorkerId)
    | ClaimMessage(handler: nat)
    | Poll(worker: WorkerId, task: TaskId)
    | Begin(handler: nat)
    | Finish(handler: nat, outcome: Outcome)
    | Refresh(handler: nat)
    | CrashInRefresh(handler: nat)
    | Ack(handler: nat)
    | Heartbeat(worker: WorkerId, task: TaskId)
    | Crash(handler: nat)

  function Initial(now: int): State {
    State(Db([], [], [], [], []), now, [], map[], map[], [], [], {}, [], [])
  }

  // ---------------------------------------------------------------- intake

  function AnswerFrom(requests: seq<Request>, r: RequestId, command: Command): Answer
    requires r < |requests|
  {
    if SameCommand(requests[r], command) then Existing(r) else Conflict
  }

  /** Validation happens before the service is called; an unknown source is refused outright. */
  function SubmitCall(s: State, tenant: string, key: string, command: Command): State {
    s.(calls := s.calls + [
      match ValidateSources(command.sources)
      case None => Call(tenant, key, command, Answered(Rejected))
      case Some(sources) => Call(tenant, key, command.(sources := sources), Looking)])
  }

  function LookupCall(s: State, c: nat): State {
    if c < |s.calls| && s.calls[c].phase.Looking? then
      var call := s.calls[c];
      var phase := match FindKey(s.db.requests, call.tenant, call.key)
        case Some(r) => if r < |s.db.requests| then Answered(AnswerFrom(s.db.requests, r, call.command)) else Inserting
        case None => Inserting;
      s.(calls := s.calls[c := call.(phase := phase)])
    else s
  }

  /** The unique constraint on (tenant, key) decides the race: the loser rolls back and looks again. */
  function InsertCall(s: State, c: nat): State {
    if c < |s.calls| && s.calls[c].phase.Inserting? then
      var call := s.calls[c];
      match FindKey(s.db.requests, call.tenant, call.key)
      case Some(r) =>
        if r < |s.db.requests|
        then s.(calls := s.calls[c := call.(phase := Answered(AnswerFrom(s.db.requests, r, call.command)))])
        else s
      case None =>
        var n := |call.command.sources|;
        s.(db := CreateTx(s.db, call.tenant, call.key, call.command.subject, call.command.kind, call.command.sources),
           calls := s.calls[c := call.(phase := Answered(Created(|s.db.requests|)))],
           finishes := s.finishes + seq(n, i => 0),
           reclaims := s.reclaims + seq(n, i => 0))
    else s
  }

  // ---------------------------------------------------------------- relay

  function Sent(s: State, k: nat): set<EventId> {
    if k in s.relays then s.relays[k] else {}
  }

  function SendEvent(s: State, k: nat, e: EventId): State {
    if e < |s.db.outbox| && !s.db.outbox[e].published
    then s.(queue := s.queue + [Message(e, false)], relays := s.relays[k := Sent(s, k) + {e}])
    else s
  }

  // ---------------------------------------------------------------- handling one task

  predicate ValidTask(db: Db, t: TaskId) {
    t < |db.tasks| && db.tasks[t].request < |db.requests|
  }

  function ClaimBy(config: Config, s: State, t: TaskId, worker: WorkerId): State
    requires ValidTask(s.db, t)
  {
    s.(db := ClaimTx(s.db, t, worker, s.now, config.lease),
       reclaims := if s.db.tasks[t].status.Running? && t < |s.reclaims|
                   then s.reclaims[t := s.reclaims[t] + 1] else s.reclaims)
  }

  function SetPhase(s: State, h: nat, phase: Phase): State
    requires h < |s.handlers|
  {
    s.(handlers := s.handlers[h := s.handlers[h].(phase := phase)])
  }

  function ReceiveMessage(s: State, m: nat, worker: WorkerId): State {
    if m < |s.queue| then s.(handlers := s.handlers + [Handler(worker, Some(m), Received)]) else s
  }

  /** `claim_message_task`: a terminal duplicate, a claim, or busy. */
  function ClaimReady(config: Config, s: State, h: nat, t: TaskId): State
    requires h < |s.handlers| && ValidTask(s.db, t)
  {
    var task := s.db.tasks[t];
    if task.status.Terminal() then SetPhase(s, h, Duplicate(t))
    else if Claimable(task, s.now) then
      SetPhase(ClaimBy(config, s, t, s.handlers[h].worker), h, Claimed(t, task.attempt + 1))
    else SetPhase(s, h, Done)
  }

  predicate HasMessage(s: State, h: nat) {
    && h < |s.handlers| && s.handlers[h].message.Some? && s.handlers[h].message.value < |s.queue|
    && s.queue[s.handlers[h].message.value].event < |s.db.outbox|
  }

  /** Events that are not task-ready, and missing tasks, are acknowledged at once. */
  function ClaimForMessage(config: Config, s: State, h: nat): State {
    if HasMessage(s, h) && s.handlers[h].phase.Received? then
      var body := s.db.outbox[s.queue[s.handlers[h].message.value].event].body;
      if !body.TaskReady? || !ValidTask(s.db, body.task) then SetPhase(s, h, AckDue)
      else ClaimReady(config, s, h, body.task)
    else s
  }

  function PollTask(config: Config, s: State, worker: WorkerId, t: TaskId): State {
    if ValidTask(s.db, t) && Claimable(s.db.tasks[t], s.now) then
      var s' := ClaimBy(config, s, t, worker);
      s'.(handlers := s.handlers + [Handler(worker, None, Claimed(t, s.db.tasks[t].attempt + 1))])
    else s
  }

  function BeginTask(s: State, h: nat): State {
    if h < |s.handlers| && s.handlers[h].phase.Claimed? && s.handlers[h].phase.task < |s.db.tasks| then
      var Claimed(t, claim) := s.handlers[h].phase;
      if Holds(s.db.tasks[t], s.handlers[h].worker)
      then SetPhase(s, h, Executing(t, claim, s.db.tasks[t].attempt))
      else SetPhase(s, h, Done)
    else s
  }

  /** A message handler has the deployment's source backend; a polling worker is given none and uses the database. */
  function BackendOf(config: Config, handler: Handler): Config {
    if handler.message.None? then config.(regional := false) else config
  }

  predicate CanFinish(s: State, h: nat) {
    h < |s.handlers| && s.handlers[h].phase.Executing? && ValidTask(s.db, s.handlers[h].phase.task)
  }

  function FinishTask(config: Config, s: State, h: nat, outcome: Outcome): State {
    if CanFinish(s, h) then
      var Executing(t, claim, loaded) := s.handlers[h].phase;
      var db' := FinishTx(BackendOf(config, s.handlers[h]), s.db, t, loaded, outcome);
      SetPhase(s.(db := db', finishes := if t < |s.finishes| then s.finishes[t := s.finishes[t] + 1] else s.finishes),
               h, Finished(t, db'.tasks[t].status.Succeeded?))
    else s
  }

  predicate CanRefresh(s: State, h: nat) {
    && h < |s.handlers|
    && (s.handlers[h].phase.Finished? || s.handlers[h].phase.Duplicate?)
    && ValidTask(s.db, s.handlers[h].phase.task)
  }

  function PutArtifact(s: State, r: RequestId): map<ArtifactUri, map<string, Receipt>>
    requires r < |s.db.requests|
  {
    Exported(s.artifacts, s.db, r)
  }

  function TerminalTasksOf(tasks: seq<Task>, r: RequestId): set<TaskId> {
    set t | 0 <= t < |tasks| && tasks[t].request == r && tasks[t].status.Terminal()
  }

  /** The handler returns true, hence acknowledges, only for a success or a terminal duplicate. */
  function RefreshParent(s: State, h: nat): State {
    if CanRefresh(s, h) then
      var handler := s.handlers[h];
      var r := s.db.tasks[handler.phase.task].request;
      var succeeded := handler.phase.Duplicate? || (handler.phase.Finished? && handler.phase.succeeded);
      SetPhase(s.(db := RefreshTx(s.db, r), artifacts := PutArtifact(s, r),
                  settled := s.settled + TerminalTasksOf(s.db.tasks, r)),
               h, if succeeded && handler.message.Some? then AckDue else Done)
    else s
  }

  /** The artifact was stored but the transaction did not commit. */
  function CrashWhileRefreshing(s: State, h: nat): State {
    if CanRefresh(s, h)
    then SetPhase(s.(artifacts := PutArtifact(s, s.db.tasks[s.handlers[h].phase.task].request)), h, Done)
    else s
  }

  function AckMessage(s: State, h: nat): State {
    if HasMessage(s, h) && s.handlers[h].phase.AckDue? then
      var m := s.handlers[h].message.value;
      SetPhase(s.(queue := s.queue[m := s.queue[m].(acked := true)]), h, Done)
    else s
  }

  // ---------------------------------------------------------------- steps and runs

  function Apply(config: Config, s: State, step: Step): State {
    match step
    case Tick(seconds) => s.(now := s.now + seconds)
    case AddRecord(tenant, subject, source) =>
      s.(db := s.db.(records := s.db.records + [Record(tenant, subject, source, false)]))
    case Submit(tenant, key, command) => SubmitCall(s, tenant, key, command)
    case Lookup(c) => LookupCall(s, c)
    case Insert(c) => InsertCall(s, c)
    case Send(k, e) => SendEvent(s, k, e)
    case CommitRelay(k) => s.(db := MarkTx(s.db, Sent(s, k)), relays := s.relays - {k})
    case CrashRelay(k) => s.(relays := s.relays - {k})
    case Receive(m, worker) => ReceiveMessage(s, m, worker)
    case ClaimMessage(h) => ClaimForMessage(config, s, h)
    case Poll(worker, t) => PollTask(config, s, worker, t)
    case Begin(h) => BeginTask(s, h)
    case Finish(h, outcome) => FinishTask(config, s, h, outcome)
    case Refresh(h) => RefreshParent(s, h)
    case CrashInRefresh(h) => CrashWhileRefreshing(s, h)
    case Ack(h) => AckMessage(s, h)
    case Heartbeat(worker, t) => s.(db := HeartbeatTx(s.db, t, worker, s.now, config.lease))
    case Crash(h) => if h < |s.handlers| then SetPhase(s, h, Done) else s
  }

  // Each kind of step as the function that takes it, so that proofs need not unfold the others.

  lemma ClaimMessageApplies(config: Config, s: State, step: Step)
    requires step.ClaimMessage?
    ensures Apply(config, s, step) == ClaimForMessage(config, s, step.handler)
  {
  }

  lemma PollApplies(config: Config, s: State, step: Step)
    requires step.Poll?
    ensures Apply(config, s, step) == PollTask(config, s, step.worker, step.task)
  {
  }

  lemma BeginApplies(config: Config, s: State, step: Step)
    requires step.Begin?
    ensures Apply(config, s, step) == BeginTask(s, step.handler)
  {
  }

  lemma FinishApplies(config: Config, s: State, step: Step)
    requires step.Finish?
    ensures Apply(config, s, step) == FinishTask(config, s, step.handler, step.outcome)
  {
  }

  lemma RefreshApplies(config: Config, s: State, step: Step)
    requires step.Refresh?
    ensures Apply(config, s, step) == RefreshParent(s, step.handler)
  {
  }

  lemma CrashInRefreshApplies(config: Config, s: State, step: Step)
    requires step.CrashInRefresh?
    ensures Apply(config, s, step) == CrashWhileRefreshing(s, step.handler)
  {
  }

  lemma AckApplies(config: Config, s: State, step: Step)
    requires step.Ack?
    ensures Apply(config, s, step) == AckMessage(s, step.handler)
  {
  }

  lemma ReceiveApplies(config: Config, s: State, step: Step)
    requires step.Receive?
    ensures Apply(config, s, step) == ReceiveMessage(s, step.message, step.worker)
  {
  }

  lemma SendApplies(config: Config, s: State, step: Step)
    requires step.Send?
    ensures Apply(config, s, step) == SendEvent(s, step.relay, step.event)
  {
  }

  lemma InsertApplies(config: Config, s: State, step: Step)
    requires step.Insert?
    ensures Apply(config, s, step) == InsertCall(s, step.call)
  {
  }

  lemma AddRecordApplies(config: Config, s: State, step: Step)
    requires step.AddRecord?
    ensures Apply(config, s, step).db
         == s.db.(records := s.db.records + [Record(step.tenant, step.subject, step.source, false)])
  {
  }

  lemma CommitRelayApplies(config: Config, s: State, step: Step)
    requires step.CommitRelay?
    ensures Apply(config, s, step).db == MarkTx(s.db, Sent(s, step.relay))
  {
  }

  lemma HeartbeatApplies(config: Config, s: State, step: Step)
    requires step.Heartbeat?
    ensures Apply(config, s, step) == s.(db := HeartbeatTx(s.db, step.task, step.worker, s.now, config.lease))
  {
  }

  /** Lease discipline for one step: a finish happens only if the task was not claimed again since. */
  predicate DisciplinedStep(s: State, step: Step) {
    step.Finish? && CanFinish(s, step.handler) ==>
      var phase := s.handlers[step.handler].phase;
      s.db.tasks[phase.task].attempt == phase.claim
  }

  function Run(config: Config, s: State, steps: seq<Step>): State
    decreases |steps|
  {
    if steps == [] then s else Run(config, Apply(config, s, steps[0]), steps[1..])
  }

  predicate Disciplined(config: Config, s: State, steps: seq<Step>)
    decreases |steps|
  {
    steps == [] || (DisciplinedStep(s, steps[0]) && Disciplined(config, Apply(config, s, steps[0]), steps[1..]))
  }

  /** A run is its last step after the rest. */
  lemma {:induction false} RunExtends(config: Config, s: State, steps: seq<Step>, step: Step)
    ensures Run(config, s, steps + [step]) == Apply(config, Run(config, s, steps), step)
    ensures Disciplined(config, s, steps) && DisciplinedStep(Run(config, s, steps), step)
            ==> Disciplined(config, s, steps + [step])
    decreases |steps|
  {
    if steps == [] {
      assert [] + [step] == [step] && [step][1..] == [];
      assert Run(config, Apply(config, s, step), []) == Apply(config, s, step);
    } else {
      assert (steps + [step])[0] == steps[0] && (steps + [step])[1..] == steps[1..] + [step];
      RunExtends(config, Apply(config, s, steps[0]), steps[1..], step);
    }
  }
}
