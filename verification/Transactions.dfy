/**
 The database transactions of the workflow, each as a function from committed rows to committed rows.
 The imperative operations in `Store` are proved to compute these functions; the protocol in
 `Protocol` interleaves them.
 */
module Transactions {
  import opened Tables

  /** Deployment settings: source backend, `max_task_attempts`, `lease_seconds`. */
  datatype Config = Config(regional: bool, maxAttempts: int, lease: nat)

  // ---------------------------------------------------------------- claim and heartbeat

  /** A pending task, or a running one whose lease has lapsed. */
  predicate Claimable(task: Task, now: int) {
    || task.status.Pending?
    || (task.status.Running? && task.expires.Some? && task.expires.value < now)
  }

  function ClaimedTask(task: Task, worker: WorkerId, now: int, lease: nat): Task {
    task.(status := Running, attempt := task.attempt + 1, owner := Some(worker), expires := Some(now + lease))
  }

  function StartedRequest(request: Request): Request {
    if request.status.Queued? then request.(status := InProgress) else request
  }

  /** Leases task `t` and moves its parent out of `Queued`. */
  function ClaimTx(db: Db, t: TaskId, worker: WorkerId, now: int, lease: nat): Db
    requires t < |db.tasks| && db.tasks[t].request < |db.requests|
  {
    var r := db.tasks[t].request;
    db.(tasks := db.tasks[t := ClaimedTask(db.tasks[t], worker, now, lease)],
        requests := db.requests[r := StartedRequest(db.requests[r])])
  }

  predicate Holds(task: Task, worker: WorkerId) {
    task.status.Running? && task.owner == Some(worker)
  }

  function HeartbeatTx(db: Db, t: TaskId, worker: WorkerId, now: int, lease: nat): Db {
    if t < |db.tasks| && Holds(db.tasks[t], worker)
    then db.(tasks := db.tasks[t := db.tasks[t].(expires := Some(now + lease))])
    else db
  }

  // ---------------------------------------------------------------- executing a task

  /** What the source did: the database backend ran, the regional source replied, or an exception rose. */
  datatype Outcome =
    | RanLocally
    | Replied(success: bool, payload: Receipt)
    | Raised(message: string)

  datatype Verdict = Ok(receipt: Receipt) | Err(message: string)

  /** A receipt the service accepts: verified, and for a delete with nothing left behind. */
  predicate Evidence(kind: Kind, receipt: Receipt) {
    receipt.Receipt? && receipt.verified && (kind.Delete? ==> receipt.remainingCount == Some(0))
  }

  function ScopeOf(requests: seq<Request>, task: Task): Triple
    requires task.request < |requests|
  {
    Triple(task.tenant, requests[task.request].subject, task.source)
  }

  function Judge(config: Config, db: Db, task: Task, outcome: Outcome): (v: Verdict)
    requires task.request < |db.requests|
    ensures v.Ok? ==> Evidence(db.requests[task.request].kind, v.receipt)
  {
    var kind := db.requests[task.request].kind;
    match outcome
    case Raised(message) => Err(message)
    case Replied(success, payload) =>
      if !config.regional then Err("no regional source")
      else if !success then Err("regional source returned an HTTP error")
      else if !Evidence(kind, payload) then Err("regional source did not verify its result")
      else Ok(payload)
    case RanLocally =>
      if config.regional then Err("no database source")
      else
        var live := ActiveIds(db.records, ScopeOf(db.requests, task));
        if kind.Access? then Ok(Receipt(true, live, None, None))
        else Ok(Receipt(true, [], Some(|live|), Some(0)))
  }

  /** Errors are stored in at most 2000 characters. */
  function Truncate(message: string): string {
    if |message| > 2000 then message[..2000] else message
  }

  /** Only the regional backend retries, and only below the attempt ceiling. */
  function FailureStatus(config: Config, attempt: nat): TaskStatus {
    if config.regional && attempt < config.maxAttempts then Pending else Failed
  }

  /** `loaded` is the attempt number read when execution began. */
  function FinishedTask(config: Config, task: Task, loaded: nat, verdict: Verdict): Task {
    var released := task.(owner := None, expires := None);
    match verdict
    case Ok(receipt) => released.(status := Succeeded, receipt := receipt, error := None)
    case Err(message) => released.(status := FailureStatus(config, loaded), error := Some(Truncate(message)))
  }

  function VerifyingRequest(request: Request): Request {
    if request.kind.Delete? then request.(status := Verifying) else request
  }

  /** The write of `execute_task`. It is not gated on the current owner or attempt of the row. */
  function FinishTx(config: Config, db: Db, t: TaskId, loaded: nat, outcome: Outcome): Db
    requires t < |db.tasks| && db.tasks[t].request < |db.requests|
  {
    var task := db.tasks[t];
    var r := task.request;
    var verdict := Judge(config, db, task, outcome);
    var finished := FinishedTask(config, task, loaded, verdict);
    db.(tasks := db.tasks[t := finished],
        requests := db.requests[r := VerifyingRequest(db.requests[r])],
        records := if db.requests[r].kind.Delete? && outcome.RanLocally? && verdict.Ok?
                   then MarkDeleted(db.records, ScopeOf(db.requests, task)) else db.records,
        audit := db.audit + [AuditEntry(task.tenant, r,
                               TaskFinished(task.source, finished.status, loaded, finished.error))])
  }

  // ---------------------------------------------------------------- refreshing the parent

  /** The parent status as a function of its task statuses. */
  function Derive(statuses: set<TaskStatus>): RequestStatus {
    if statuses <= {Pending} then Queued
    else if Pending in statuses || Running in statuses then InProgress
    else if statuses == {Succeeded} then Completed
    else if statuses == {Failed} then Unsuccessful
    else Partial
  }

  predicate NeedsArtifact(request: Request, status: RequestStatus) {
    request.kind.Access? && (status.Completed? || status.Partial?) && request.artifactPath.None?
  }

  function RefreshedRequest(request: Request, r: RequestId, status: RequestStatus): Request {
    request.(status := status,
             version := if status != request.status then request.version + 1 else request.version,
             artifactPath := if NeedsArtifact(request, status) then Some(ArtifactUri(request.tenant, r))
                             else request.artifactPath)
  }

  function RefreshTx(db: Db, r: RequestId): Db
    requires r < |db.requests|
  {
    var request := db.requests[r];
    var status := Derive(StatusesOf(db.tasks, r));
    var refreshed := db.(requests := db.requests[r := RefreshedRequest(request, r, status)]);
    if status.Terminal() && !request.status.Terminal() then
      var succeeded, failed := Count(db.tasks, r, Succeeded), Count(db.tasks, r, Failed);
      refreshed.(
        outbox := db.outbox + [OutboxEvent(request.tenant, RequestFinished(r, status, succeeded, failed), false)],
        audit := db.audit + [AuditEntry(request.tenant, r, FinishedRequest(status, succeeded, failed))])
    else
      refreshed
  }

  // ---------------------------------------------------------------- access artifact

  /** The exported document: each source of the request with its task's receipt. */
  function Document(tasks: seq<Task>, r: RequestId): map<string, Receipt> {
    if tasks == [] then map[]
    else
      var last := tasks[|tasks| - 1];
      var document := Document(tasks[..|tasks| - 1], r);
      if last.request == r then document[last.source := last.receipt] else document
  }

  /** The artifact store after a refresh of `r` that could reach it. */
  function Exported(artifacts: map<ArtifactUri, map<string, Receipt>>, db: Db, r: RequestId): map<ArtifactUri, map<string, Receipt>>
    requires r < |db.requests|
  {
    if NeedsArtifact(db.requests[r], Derive(StatusesOf(db.tasks, r)))
    then artifacts[ArtifactUri(db.requests[r].tenant, r) := Document(db.tasks, r)]
    else artifacts
  }

  /** The refresh of `r` needs the artifact store and cannot reach it. */
  predicate UploadFails(db: Db, r: RequestId, storeUp: bool)
    requires r < |db.requests|
  {
    !storeUp && NeedsArtifact(db.requests[r], Derive(StatusesOf(db.tasks, r)))
  }

  // ---------------------------------------------------------------- intake and relay

  function NewTasks(r: RequestId, tenant: string, sources: seq<string>): (tasks: seq<Task>)
    ensures |tasks| == |sources|
  {
    seq(|sources|, i requires 0 <= i < |sources| =>
      Task(r, tenant, sources[i], Pending, 0, None, None, NoReceipt, None))
  }

  function ReadyEvents(first: TaskId, r: RequestId, tenant: string, sources: seq<string>): (events: seq<OutboxEvent>)
    ensures |events| == |sources|
  {
    seq(|sources|, i requires 0 <= i < |sources| =>
      OutboxEvent(tenant, TaskReady(first + i, r, sources[i]), false))
  }

  /** One transaction: the request, a task per source, its 1 + n events and the first audit entry. */
  function CreateTx(db: Db, tenant: string, key: string, subject: string, kind: Kind, sources: seq<string>): Db {
    var r := |db.requests|;
    db.(requests := db.requests + [Request(tenant, key, subject, kind, Queued, sources, None, 1)],
        tasks := db.tasks + NewTasks(r, tenant, sources),
        outbox := db.outbox + [OutboxEvent(tenant, RequestCreated(r, kind, sources), false)]
                  + ReadyEvents(|db.tasks|, r, tenant, sources),
        audit := db.audit + [AuditEntry(tenant, r, CreatedRequest(kind, sources))])
  }

  /** The relay's commit: every event in `sent` gets its `published_at`. */
  function MarkTx(db: Db, sent: set<EventId>): Db {
    db.(outbox := seq(|db.outbox|, e requires 0 <= e < |db.outbox| =>
      if e in sent then db.outbox[e].(published := true) else db.outbox[e]))
  }
}
