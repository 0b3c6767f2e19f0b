/**
 The committed rows of the privacy control plane.

 Every table is a sequence and a row's identifier is its index, so identifiers are fresh by
 construction (they are random UUIDs in the service) and `created_at` order is index order.
 */
module Tables {
  datatype Option<+T> = None | Some(value: T)

  type RequestId = nat
  type TaskId = nat
  type EventId = nat
  type WorkerId = string

  datatype Kind = Access | Delete

  datatype TaskStatus = Pending | Running | Succeeded | Failed {
    predicate Terminal() { Succeeded? || Failed? }
  }

  /** `InProgress` and `Unsuccessful` are the request states "running" and "failed". */
  datatype RequestStatus = Queued | InProgress | Verifying | Completed | Partial | Unsuccessful {
    predicate Terminal() { Completed? || Partial? || Unsuccessful? }
  }

  /** `result_summary`: one shape for the receipts of both source backends. */
  datatype Receipt =
    | NoReceipt
    | Receipt(verified: bool, records: seq<nat>, deletedCount: Option<int>, remainingCount: Option<int>)

  datatype Request = Request(
    tenant: string, key: string, subject: string, kind: Kind, status: RequestStatus,
    sources: seq<string>, artifactPath: Option<ArtifactUri>, version: nat)

  datatype ArtifactUri = ArtifactUri(tenant: string, request: RequestId)

  datatype Task = Task(
    request: RequestId, tenant: string, source: string, status: TaskStatus, attempt: nat,
    owner: Option<WorkerId>, expires: Option<int>, receipt: Receipt, error: Option<string>)

  datatype EventBody =
    | RequestCreated(request: RequestId, kind: Kind, sources: seq<string>)
    | TaskReady(task: TaskId, request: RequestId, source: string)
    | RequestFinished(request: RequestId, status: RequestStatus, succeeded: nat, failed: nat)

  datatype OutboxEvent = OutboxEvent(tenant: string, body: EventBody, published: bool)

  /** `TaskFinished` with outcome `Pending` is the action "task.retry_scheduled". */
  datatype AuditAction =
    | CreatedRequest(kind: Kind, sources: seq<string>)
    | TaskFinished(source: string, outcome: TaskStatus, attempt: nat, error: Option<string>)
    | FinishedRequest(status: RequestStatus, succeeded: nat, failed: nat)

  datatype AuditEntry = AuditEntry(tenant: string, request: RequestId, action: AuditAction)

  datatype Record = Record(tenant: string, subject: string, source: string, deleted: bool)

  /** The scope of one source task: every read and delete is filtered by all three fields. */
  datatype Triple = Triple(tenant: string, subject: string, source: string)

  datatype Db = Db(
    requests: seq<Request>, tasks: seq<Task>, outbox: seq<OutboxEvent>,
    audit: seq<AuditEntry>, records: seq<Record>)

  lemma {:induction false} SubsetSize<K>(a: set<K>, b: set<K>)
    requires a <= b
    ensures |a| <= |b|
  {
    if a != {} {
      var x :| x in a;
      SubsetSize(a - {x}, b - {x});
    }
  }

  // ---------------------------------------------------------------- tasks of one request

  /** The set of statuses among the tasks of one request. */
  function StatusesOf(tasks: seq<Task>, r: RequestId): set<TaskStatus> {
    set t | 0 <= t < |tasks| && tasks[t].request == r :: tasks[t].status
  }

  /** How many tasks of request `r` have status `st`. */
  function Count(tasks: seq<Task>, r: RequestId, st: TaskStatus): nat {
    if tasks == [] then 0
    else
      var last := tasks[|tasks| - 1];
      Count(tasks[..|tasks| - 1], r, st) + (if last.request == r && last.status == st then 1 else 0)
  }

  lemma {:induction false} CountIsCardinality(tasks: seq<Task>, r: RequestId, st: TaskStatus)
    ensures Count(tasks, r, st) == |set t | 0 <= t < |tasks| && tasks[t].request == r && tasks[t].status == st|
  {
    var all := set t | 0 <= t < |tasks| && tasks[t].request == r && tasks[t].status == st;
    if tasks == [] {
      assert all == {};
    } else {
      CountIsCardinality(tasks[..|tasks| - 1], r, st);
      LastTaskCounts(tasks, r, st);
    }
  }

  lemma LastTaskCounts(tasks: seq<Task>, r: RequestId, st: TaskStatus)
    requires tasks != []
    ensures var n := |tasks| - 1;
      |set t | 0 <= t < |tasks| && tasks[t].request == r && tasks[t].status == st|
      == |set t | 0 <= t < |tasks[..n]| && tasks[..n][t].request == r && tasks[..n][t].status == st|
         + (if tasks[n].request == r && tasks[n].status == st then 1 else 0)
  {
    var n := |tasks| - 1;
    var all := set t | 0 <= t < |tasks| && tasks[t].request == r && tasks[t].status == st;
    var rest := set t | 0 <= t < |tasks[..n]| && tasks[..n][t].request == r && tasks[..n][t].status == st;
    forall t ensures t in rest <==> t in all && t != n {
    }
    if n in all {
      assert all == rest + {n};
    } else {
      assert all == rest;
    }
  }

  /** How many tasks request `r` has. */
  function CountTasks(tasks: seq<Task>, r: RequestId): nat {
    if tasks == [] then 0
    else CountTasks(tasks[..|tasks| - 1], r) + (if tasks[|tasks| - 1].request == r then 1 else 0)
  }

  /** `b` extends `a`; rows already in `a` keep their request, and rows of `r` keep their status. */
  ghost predicate SameTasksOf(a: seq<Task>, b: seq<Task>, r: RequestId) {
    && |a| <= |b|
    && (forall t :: 0 <= t < |a| ==> a[t].request == b[t].request)
    && (forall t :: 0 <= t < |a| && a[t].request == r ==> a[t].status == b[t].status)
    && (forall t :: |a| <= t < |b| ==> b[t].request != r)
  }

  lemma {:induction false} SameTasksCounts(a: seq<Task>, b: seq<Task>, r: RequestId)
    requires SameTasksOf(a, b, r)
    ensures forall st :: Count(a, r, st) == Count(b, r, st)
    ensures CountTasks(a, r) == CountTasks(b, r)
    decreases |b|
  {
    if |b| > |a| {
      SameTasksCounts(a, b[..|b| - 1], r);
    } else if |a| > 0 {
      SameTasksCounts(a[..|a| - 1], b[..|b| - 1], r);
    }
  }

  lemma SameTasksStatuses(a: seq<Task>, b: seq<Task>, r: RequestId)
    requires SameTasksOf(a, b, r)
    ensures StatusesOf(a, r) == StatusesOf(b, r)
  {
    forall st | st in StatusesOf(a, r) ensures st in StatusesOf(b, r) {
      var t :| 0 <= t < |a| && a[t].request == r && a[t].status == st;
      assert b[t].request == r && b[t].status == st;
    }
    forall st | st in StatusesOf(b, r) ensures st in StatusesOf(a, r) {
      var t :| 0 <= t < |b| && b[t].request == r && b[t].status == st;
      assert a[t].request == r && a[t].status == st;
    }
  }

  /** When every task of `r` is terminal, the succeeded and failed counts partition its tasks. */
  lemma {:induction false} TerminalCounts(tasks: seq<Task>, r: RequestId)
    requires forall t :: 0 <= t < |tasks| && tasks[t].request == r ==> tasks[t].status.Terminal()
    ensures Count(tasks, r, Succeeded) + Count(tasks, r, Failed) == CountTasks(tasks, r)
  {
    if |tasks| > 0 {
      TerminalCounts(tasks[..|tasks| - 1], r);
    }
  }

  // ---------------------------------------------------------------- device-cloud records

  predicate Matches(record: Record, scope: Triple) {
    record.tenant == scope.tenant && record.subject == scope.subject && record.source == scope.source
  }

  /** Row numbers of the live records in `scope`: the select of `_active_records`. */
  function ActiveIds(records: seq<Record>, scope: Triple): seq<nat> {
    if records == [] then []
    else
      var n := |records| - 1;
      ActiveIds(records[..n], scope)
      + (if Matches(records[n], scope) && !records[n].deleted then [n] else [])
  }

  /** `ids` are, in row order, the live records of one tenant, subject and source. */
  ghost predicate ListsLiveRows(records: seq<Record>, tenant: string, subject: string, source: string, ids: seq<nat>) {
    && (forall i: nat :: i in ids <==>
          && i < |records| && !records[i].deleted
          && records[i].tenant == tenant && records[i].subject == subject && records[i].source == source)
    && (forall j, k :: 0 <= j < k < |ids| ==> ids[j] < ids[k])
  }

  /** Soft-deletes every record in `scope`. */
  function MarkDeleted(records: seq<Record>, scope: Triple): (marked: seq<Record>)
    ensures |marked| == |records|
  {
    seq(|records|, i requires 0 <= i < |records| =>
      if Matches(records[i], scope) then records[i].(deleted := true) else records[i])
  }

  /** How many records in `scope` are soft-deleted. */
  function CountDeleted(records: seq<Record>, scope: Triple): nat {
    if records == [] then 0
    else
      var n := |records| - 1;
      CountDeleted(records[..n], scope)
      + (if records[n].tenant == scope.tenant && records[n].subject == scope.subject && records[n].source == scope.source
            && records[n].deleted then 1 else 0)
  }

  lemma {:induction false} ActiveIdsAreTheLiveRows(records: seq<Record>, scope: Triple)
    ensures forall i: nat :: i in ActiveIds(records, scope) <==>
              && i < |records| && !records[i].deleted
              && records[i].tenant == scope.tenant && records[i].subject == scope.subject && records[i].source == scope.source
  {
    if records != [] {
      ActiveIdsAreTheLiveRows(records[..|records| - 1], scope);
    }
  }

  lemma {:induction false} ActiveIdsAreInOrder(records: seq<Record>, scope: Triple)
    ensures forall k :: 0 <= k < |ActiveIds(records, scope)| ==> ActiveIds(records, scope)[k] < |records|
    ensures forall j, k :: 0 <= j < k < |ActiveIds(records, scope)| ==> ActiveIds(records, scope)[j] < ActiveIds(records, scope)[k]
  {
    if records != [] {
      ActiveIdsAreInOrder(records[..|records| - 1], scope);
    }
  }

  lemma ActiveIdsListLiveRows(records: seq<Record>, scope: Triple)
    ensures ListsLiveRows(records, scope.tenant, scope.subject, scope.source, ActiveIds(records, scope))
  {
    ActiveIdsAreTheLiveRows(records, scope);
    ActiveIdsAreInOrder(records, scope);
  }

  lemma {:induction false} MarkDeletedCounts(records: seq<Record>, scope: Triple, other: Triple)
    ensures CountDeleted(MarkDeleted(records, scope), other)
         == CountDeleted(records, other) + (if other == scope then |ActiveIds(records, scope)| else 0)
    ensures ActiveIds(MarkDeleted(records, scope), scope) == []
  {
    if records != [] {
      var n := |records| - 1;
      MarkDeletedCounts(records[..n], scope, other);
      assert MarkDeleted(records, scope)[..n] == MarkDeleted(records[..n], scope);
    }
  }
}
