/**
 The invariant of the workflow protocol and its preservation by every lease-disciplined step.
 */
module ProtocolInvariants {
  import opened Tables
  import opened Transactions
  import opened RowInvariants
  import opened Intake
  import opened Evolution
  import opened Protocol

  ghost predicate DbOk(db: Db) {
    RowsOk(db) && CompletionOk(db) && CreationOk(db)
  }

  // ---------------------------------------------------------------- handlers

  function BodyOf(s: State, m: nat): EventBody
    requires m < |s.queue| && s.queue[m].event < |s.db.outbox|
  {
    s.db.outbox[s.queue[m].event].body
  }

  ghost predicate MessageOk(s: State, m: nat) {
    m < |s.queue| && s.queue[m].event < |s.db.outbox|
  }

  /** Acknowledging `m` loses nothing: its task, if any, is settled. */
  ghost predicate SafeToAck(s: State, m: nat) {
    MessageOk(s, m) && (BodyOf(s, m).TaskReady? ==> BodyOf(s, m).task in s.settled)
  }

  /** A handler started by a message works on the task of that message. */
  ghost predicate Serves(s: State, handler: Handler, t: TaskId) {
    && t < |s.db.tasks|
    && (handler.message.Some? ==> MessageOk(s, handler.message.value) && IsReady(BodyOf(s, handler.message.value), t))
  }

  /** A claim that is still the latest one holds the lease. */
  ghost predicate ClaimOk(s: State, handler: Handler, t: TaskId, claim: nat) {
    && Serves(s, handler, t)
    && 1 <= claim <= s.db.tasks[t].attempt
    && (claim == s.db.tasks[t].attempt ==> Holds(s.db.tasks[t], handler.worker))
  }

  ghost predicate HandlerOk(s: State, handler: Handler) {
    match handler.phase
    case Received => handler.message.Some? && MessageOk(s, handler.message.value)
    case Claimed(t, claim) => ClaimOk(s, handler, t, claim)
    case Executing(t, claim, loaded) => ClaimOk(s, handler, t, claim) && claim <= loaded <= s.db.tasks[t].attempt
    case Finished(t, succeeded) => Serves(s, handler, t) && (succeeded ==> s.db.tasks[t].status.Terminal())
    case Duplicate(t) => Serves(s, handler, t) && s.db.tasks[t].status.Terminal()
    case AckDue => handler.message.Some? && SafeToAck(s, handler.message.value)
    case Done => true
  }

  /** The claim a handler is working under, as (task, attempt number). */
  function ClaimOf(handler: Handler): Option<(TaskId, nat)> {
    match handler.phase
    case Claimed(t, claim) => Some((t, claim))
    case Executing(t, claim, _) => Some((t, claim))
    case _ => None
  }

  ghost predicate ClaimsUnique(handlers: seq<Handler>) {
    forall g, h :: 0 <= g < h < |handlers| && ClaimOf(handlers[g]).Some? ==> ClaimOf(handlers[g]) != ClaimOf(handlers[h])
  }

  ghost predicate HandlersOk(s: State) {
    && (forall h :: 0 <= h < |s.handlers| ==> HandlerOk(s, s.handlers[h]))
    && ClaimsUnique(s.handlers)
  }

  // ---------------------------------------------------------------- queue, settlement, artifacts, history

  ghost predicate WasSent(queue: seq<Message>, e: EventId) {
    exists m :: 0 <= m < |queue| && queue[m].event == e
  }

  /** Publication follows a send, and an acknowledged task message belongs to a settled task. */
  ghost predicate QueueOk(s: State) {
    && (forall m :: 0 <= m < |s.queue| ==> MessageOk(s, m))
    && (forall m :: 0 <= m < |s.queue| && s.queue[m].acked ==> SafeToAck(s, m))
    && (forall e :: 0 <= e < |s.db.outbox| && s.db.outbox[e].published ==> WasSent(s.queue, e))
    && (forall k, e :: k in s.relays && e in s.relays[k] ==> WasSent(s.queue, e))
  }

  ghost predicate AllSettled(s: State, r: RequestId) {
    forall t :: 0 <= t < |s.db.tasks| && s.db.tasks[t].request == r ==> t in s.settled
  }

  /** Settled tasks are terminal, and a request all of whose tasks are settled is terminal. */
  ghost predicate SettledOk(s: State) {
    && (forall t :: t in s.settled ==> t < |s.db.tasks| && s.db.tasks[t].status.Terminal())
    && (forall r :: 0 <= r < |s.db.requests| && HasTask(s.db.tasks, r) && AllSettled(s, r)
                    ==> s.db.requests[r].status.Terminal())
  }

  /** A request with an artifact path has, under that path, the receipts its tasks hold now. */
  ghost predicate ArtifactsOk(s: State) {
    forall r :: 0 <= r < |s.db.requests| && s.db.requests[r].artifactPath.Some? ==>
      var uri := ArtifactUri(s.db.requests[r].tenant, r);
      uri in s.artifacts && s.artifacts[uri] == Document(s.db.tasks, r)
  }

  /** The largest attempt a task can reach without a lapsed lease. */
  function Ceiling(config: Config): nat {
    if config.regional && config.maxAttempts >= 1 then config.maxAttempts else 1
  }

  ghost predicate TaskHistoryOk(config: Config, task: Task, finishes: nat, reclaims: nat) {
    && task.attempt == finishes + reclaims + (if task.status.Running? then 1 else 0)
    && (task.status.Pending? ==> task.attempt < Ceiling(config))
    && task.attempt <= Ceiling(config) + reclaims
  }

  ghost predicate HistoryOk(config: Config, s: State) {
    && |s.finishes| == |s.db.tasks| == |s.reclaims|
    && (forall t :: 0 <= t < |s.db.tasks| ==> TaskHistoryOk(config, s.db.tasks[t], s.finishes[t], s.reclaims[t]))
  }

  // ---------------------------------------------------------------- intake calls

  ghost predicate AnswerOk(requests: seq<Request>, call: Call, answer: Answer) {
    match answer
    case Created(r) => r < |requests| && HasKey(requests[r], call.tenant, call.key) && SameCommand(requests[r], call.command)
    case Existing(r) => r < |requests| && HasKey(requests[r], call.tenant, call.key) && SameCommand(requests[r], call.command)
    case Conflict => exists r :: 0 <= r < |requests| && HasKey(requests[r], call.tenant, call.key)
                                 && !SameCommand(requests[r], call.command)
    case Rejected => true
  }

  ghost predicate CallOk(requests: seq<Request>, call: Call) {
    && ((!call.phase.Answered? || !call.phase.answer.Rejected?) ==> Distinct(call.command.sources))
    && (call.phase.Answered? ==> AnswerOk(requests, call, call.phase.answer))
  }

  ghost predicate CreatedBy(calls: seq<Call>, c: nat, r: RequestId) {
    c < |calls| && calls[c].phase == Answered(Created(r))
  }

  ghost predicate HasCreator(calls: seq<Call>, r: RequestId) {
    exists c :: CreatedBy(calls, c, r)
  }

  /** Every answer is right, and every request was created by exactly one call. */
  ghost predicate CallsOk(s: State) {
    && (forall c :: 0 <= c < |s.calls| ==> CallOk(s.db.requests, s.calls[c]))
    && (forall r :: 0 <= r < |s.db.requests| ==> HasCreator(s.calls, r))
    && (forall b, c, r :: CreatedBy(s.calls, b, r) && CreatedBy(s.calls, c, r) ==> b == c)
  }

  ghost predicate Inv(config: Config, s: State) {
    DbOk(s.db) && HandlersOk(s) && QueueOk(s) && SettledOk(s) && ArtifactsOk(s) && HistoryOk(config, s) && CallsOk(s)
  }

  // ---------------------------------------------------------------- the rows

  /** Under lease discipline the finishing handler still holds the lease. */
  lemma FinisherHolds(s: State, h: nat, outcome: Outcome)
    requires HandlersOk(s) && CanFinish(s, h) && DisciplinedStep(s, Finish(h, outcome))
    ensures var Executing(t, claim, loaded) := s.handlers[h].phase;
      Holds(s.db.tasks[t], s.handlers[h].worker) && claim == loaded == s.db.tasks[t].attempt
  {
    assert HandlerOk(s, s.handlers[h]);
  }

  lemma ClaimKeepsDb(db: Db, t: TaskId, worker: WorkerId, now: int, lease: nat)
    requires DbOk(db) && t < |db.tasks| && Claimable(db.tasks[t], now)
    ensures DbOk(ClaimTx(db, t, worker, now, lease)) && Evolves(db, ClaimTx(db, t, worker, now, lease))
  {
    ClaimKeepsRows(db, t, worker, now, lease);
    ClaimKeepsCompletion(db, t, worker, now, lease);
    ClaimEvolves(db, t, worker, now, lease);
    CreationFrame(db, ClaimTx(db, t, worker, now, lease));
  }

  lemma HeartbeatKeepsDb(db: Db, t: TaskId, worker: WorkerId, now: int, lease: nat)
    requires DbOk(db)
    ensures DbOk(HeartbeatTx(db, t, worker, now, lease)) && Evolves(db, HeartbeatTx(db, t, worker, now, lease))
  {
    HeartbeatKeepsRows(db, t, worker, now, lease);
    HeartbeatKeepsCompletion(db, t, worker, now, lease);
    HeartbeatEvolves(db, t, worker, now, lease);
    CreationFrame(db, HeartbeatTx(db, t, worker, now, lease));
  }

  lemma FinishKeepsDb(config: Config, db: Db, t: TaskId, loaded: nat, outcome: Outcome)
    requires DbOk(db) && t < |db.tasks| && db.tasks[t].status.Running?
    ensures DbOk(FinishTx(config, db, t, loaded, outcome)) && Evolves(db, FinishTx(config, db, t, loaded, outcome))
  {
    FinishKeepsRows(config, db, t, loaded, outcome);
    FinishKeepsCompletion(config, db, t, loaded, outcome);
    FinishEvolves(config, db, t, loaded, outcome);
    CreationFrame(db, FinishTx(config, db, t, loaded, outcome));
  }

  lemma RefreshKeepsDb(db: Db, r: RequestId)
    requires DbOk(db) && r < |db.requests|
    ensures DbOk(RefreshTx(db, r)) && Evolves(db, RefreshTx(db, r))
  {
    RefreshKeepsRows(db, r);
    RefreshKeepsCompletion(db, r);
    RefreshEvolves(db, r);
    CreationFrame(db, RefreshTx(db, r));
  }

  lemma MarkKeepsDb(db: Db, sent: set<EventId>)
    requires DbOk(db)
    ensures DbOk(MarkTx(db, sent)) && Evolves(db, MarkTx(db, sent))
  {
    MarkKeepsCompletion(db, sent);
    MarkEvolves(db, sent);
    CreationFrame(db, MarkTx(db, sent));
  }

  lemma CreateKeepsDb(db: Db, tenant: string, key: string, subject: string, kind: Kind, sources: seq<string>)
    requires DbOk(db) && Distinct(sources) && FindKey(db.requests, tenant, key).None?
    ensures DbOk(CreateTx(db, tenant, key, subject, kind, sources))
    ensures Evolves(db, CreateTx(db, tenant, key, subject, kind, sources))
  {
    CreateKeepsRows(db, tenant, key, subject, kind, sources);
    CreateKeepsCompletion(db, tenant, key, subject, kind, sources);
    CreateKeepsCreation(db, tenant, key, subject, kind, sources);
    CreateEvolves(db, tenant, key, subject, kind, sources);
  }

  lemma AddRecordKeepsDb(db: Db, record: Record)
    requires DbOk(db)
    ensures var db' := db.(records := db.records + [record]); DbOk(db') && Evolves(db, db')
  {
    var db' := db.(records := db.records + [record]);
    QuietKeepsCompletion(db, db');
    CreationFrame(db, db');
  }

  lemma InsertKeepsDb(s: State, c: nat)
    requires DbOk(s.db) && CallsOk(s)
    ensures DbOk(InsertCall(s, c).db) && Evolves(s.db, InsertCall(s, c).db)
  {
    if c < |s.calls| && s.calls[c].phase.Inserting? && FindKey(s.db.requests, s.calls[c].tenant, s.calls[c].key).None? {
      var call := s.calls[c];
      assert CallOk(s.db.requests, call);
      CreateKeepsDb(s.db, call.tenant, call.key, call.command.subject, call.command.kind, call.command.sources);
    } else {
      assert InsertCall(s, c).db == s.db;
    }
  }

  lemma ClaimMessageKeepsDb(config: Config, s: State, h: nat)
    requires DbOk(s.db)
    ensures DbOk(ClaimForMessage(config, s, h).db) && Evolves(s.db, ClaimForMessage(config, s, h).db)
  {
    var db' := ClaimForMessage(config, s, h).db;
    if db' != s.db {
      var t := BodyOf(s, s.handlers[h].message.value).task;
      ClaimKeepsDb(s.db, t, s.handlers[h].worker, s.now, config.lease);
    }
  }

  lemma PollKeepsDb(config: Config, s: State, worker: WorkerId, t: TaskId)
    requires DbOk(s.db)
    ensures DbOk(PollTask(config, s, worker, t).db) && Evolves(s.db, PollTask(config, s, worker, t).db)
  {
    if ValidTask(s.db, t) && Claimable(s.db.tasks[t], s.now) {
      ClaimKeepsDb(s.db, t, worker, s.now, config.lease);
    }
  }

  lemma FinishStepKeepsDb(config: Config, s: State, h: nat, outcome: Outcome)
    requires DbOk(s.db) && HandlersOk(s) && DisciplinedStep(s, Finish(h, outcome))
    ensures DbOk(FinishTask(config, s, h, outcome).db) && Evolves(s.db, FinishTask(config, s, h, outcome).db)
  {
    if CanFinish(s, h) {
      FinisherHolds(s, h, outcome);
      FinishKeepsDb(BackendOf(config, s.handlers[h]), s.db, s.handlers[h].phase.task, s.handlers[h].phase.loaded, outcome);
    }
  }

  lemma RefreshStepKeepsDb(s: State, h: nat)
    requires DbOk(s.db)
    ensures DbOk(RefreshParent(s, h).db) && Evolves(s.db, RefreshParent(s, h).db)
  {
    if CanRefresh(s, h) {
      RefreshKeepsDb(s.db, s.db.tasks[s.handlers[h].phase.task].request);
    }
  }

  /** The steps that write no row. */
  predicate LeavesDb(step: Step) {
    || step.Tick? || step.Submit? || step.Lookup? || step.Send? || step.CrashRelay? || step.Receive?
    || step.Begin? || step.CrashInRefresh? || step.Ack? || step.Crash?
  }

  lemma LeavesDbUnchanged(config: Config, s: State, step: Step)
    requires LeavesDb(step)
    ensures Apply(config, s, step).db == s.db
  {
  }

  lemma StepKeepsDb(config: Config, s: State, step: Step)
    requires DbOk(s.db) && HandlersOk(s) && CallsOk(s) && DisciplinedStep(s, step)
    ensures DbOk(Apply(config, s, step).db) && Evolves(s.db, Apply(config, s, step).db)
  {
    if LeavesDb(step) {
      LeavesDbUnchanged(config, s, step);
    } else if step.Insert? {
      InsertApplies(config, s, step);
      InsertKeepsDb(s, step.call);
    } else if step.ClaimMessage? {
      ClaimMessageApplies(config, s, step);
      ClaimMessageKeepsDb(config, s, step.handler);
    } else if step.Poll? {
      PollApplies(config, s, step);
      PollKeepsDb(config, s, step.worker, step.task);
    } else if step.Finish? {
      FinishApplies(config, s, step);
      FinishStepKeepsDb(config, s, step.handler, step.outcome);
    } else if step.Refresh? {
      RefreshApplies(config, s, step);
      RefreshStepKeepsDb(s, step.handler);
    } else {
      SmallStepKeepsDb(config, s, step);
    }
  }

  lemma SmallStepKeepsDb(config: Config, s: State, step: Step)
    requires DbOk(s.db) && (step.AddRecord? || step.CommitRelay? || step.Heartbeat?)
    ensures DbOk(Apply(config, s, step).db) && Evolves(s.db, Apply(config, s, step).db)
  {
    if step.AddRecord? {
      AddRecordApplies(config, s, step);
      AddRecordKeepsDb(s.db, Record(step.tenant, step.subject, step.source, false));
    } else if step.CommitRelay? {
      CommitRelayApplies(config, s, step);
      MarkKeepsDb(s.db, Sent(s, step.relay));
    } else {
      HeartbeatApplies(config, s, step);
      HeartbeatKeepsDb(s.db, step.task, step.worker, s.now, config.lease);
    }
  }
}
