/**
 What every transaction keeps about the committed rows: lease fields, the parent/child relation,
 the completion record of a finished request and the creation record of every request.
 */
module RowInvariants {
  import opened Tables
  import opened Transactions

  // ---------------------------------------------------------------- meaning of the derived status

  ghost predicate HasTask(tasks: seq<Task>, r: RequestId) {
    exists t :: 0 <= t < |tasks| && tasks[t].request == r
  }

  ghost predicate AllPending(tasks: seq<Task>, r: RequestId) {
    forall t :: 0 <= t < |tasks| && tasks[t].request == r ==> tasks[t].status.Pending?
  }

  ghost predicate AllTerminal(tasks: seq<Task>, r: RequestId) {
    forall t :: 0 <= t < |tasks| && tasks[t].request == r ==> tasks[t].status.Terminal()
  }

  ghost predicate AllHave(tasks: seq<Task>, r: RequestId, st: TaskStatus) {
    forall t :: 0 <= t < |tasks| && tasks[t].request == r ==> tasks[t].status == st
  }

  /** The set arithmetic of the refresh, read as statements about the individual tasks. */
  lemma DeriveMeaning(tasks: seq<Task>, r: RequestId)
    ensures var status := Derive(StatusesOf(tasks, r));
      && (status.Queued? <==> AllPending(tasks, r))
      && (status.Terminal() <==> HasTask(tasks, r) && AllTerminal(tasks, r))
      && (status.Completed? <==> HasTask(tasks, r) && AllHave(tasks, r, Succeeded))
      && (status.Unsuccessful? <==> HasTask(tasks, r) && AllHave(tasks, r, Failed))
      && !status.Verifying?
  {
    var statuses := StatusesOf(tasks, r);
    assert forall t :: 0 <= t < |tasks| && tasks[t].request == r ==> tasks[t].status in statuses;
    if HasTask(tasks, r) {
      var t :| 0 <= t < |tasks| && tasks[t].request == r;
      assert tasks[t].status in statuses;
    }
    if statuses == {Succeeded} {
      assert Succeeded in statuses;
    }
    if statuses == {Failed} {
      assert Failed in statuses;
    }
    if AllHave(tasks, r, Succeeded) && HasTask(tasks, r) {
      assert statuses == {Succeeded};
    }
    if AllHave(tasks, r, Failed) && HasTask(tasks, r) {
      assert statuses == {Failed};
    }
  }

  // ---------------------------------------------------------------- row invariants

  /** A task is running exactly when it carries a lease, and a success carries accepted evidence. */
  ghost predicate TaskOk(requests: seq<Request>, task: Task) {
    && task.request < |requests|
    && task.tenant == requests[task.request].tenant
    && (task.status.Running? <==> task.owner.Some?)
    && (task.status.Running? <==> task.expires.Some?)
    && (task.status.Succeeded? ==> Evidence(requests[task.request].kind, task.receipt))
  }

  /** The parent never contradicts its tasks. */
  ghost predicate RequestOk(request: Request, r: RequestId, tasks: seq<Task>) {
    && (request.status.Queued? ==> AllPending(tasks, r))
    && (!request.status.Queued? ==> HasTask(tasks, r))
    && (request.status.Verifying? ==> request.kind.Delete?)
    && (request.status.Terminal() ==> request.status == Derive(StatusesOf(tasks, r)))
    && (request.artifactPath.Some? <==> request.kind.Access? && (request.status.Completed? || request.status.Partial?))
    && (request.artifactPath.Some? ==> request.artifactPath == Some(ArtifactUri(request.tenant, r)))
  }

  ghost predicate RowsOk(db: Db) {
    && (forall t :: 0 <= t < |db.tasks| ==> TaskOk(db.requests, db.tasks[t]))
    && (forall r :: 0 <= r < |db.requests| ==> RequestOk(db.requests[r], r, db.tasks))
  }

  lemma RequestOkFrame(request: Request, r: RequestId, tasks: seq<Task>, tasks': seq<Task>)
    requires RequestOk(request, r, tasks) && SameTasksOf(tasks, tasks', r)
    ensures RequestOk(request, r, tasks')
  {
    SameTasksStatuses(tasks, tasks', r);
  }

  /** While a request has an open task it is not terminal. */
  lemma OpenTaskOpenRequest(db: Db, t: TaskId)
    requires RowsOk(db) && t < |db.tasks| && !db.tasks[t].status.Terminal()
    ensures !db.requests[db.tasks[t].request].status.Terminal()
  {
    var r := db.tasks[t].request;
    assert RequestOk(db.requests[r], r, db.tasks);
    DeriveMeaning(db.tasks, r);
  }

  lemma ClaimKeepsRows(db: Db, t: TaskId, worker: WorkerId, now: int, lease: nat)
    requires RowsOk(db) && t < |db.tasks| && Claimable(db.tasks[t], now)
    ensures RowsOk(ClaimTx(db, t, worker, now, lease))
  {
    var db' := ClaimTx(db, t, worker, now, lease);
    var r0 := db.tasks[t].request;
    OpenTaskOpenRequest(db, t);
    forall r | 0 <= r < |db'.requests| ensures RequestOk(db'.requests[r], r, db'.tasks) {
      assert RequestOk(db.requests[r], r, db.tasks);
      if r != r0 {
        RequestOkFrame(db.requests[r], r, db.tasks, db'.tasks);
      } else {
        assert db'.tasks[t].request == r;
      }
    }
  }

  lemma HeartbeatKeepsRows(db: Db, t: TaskId, worker: WorkerId, now: int, lease: nat)
    requires RowsOk(db)
    ensures RowsOk(HeartbeatTx(db, t, worker, now, lease))
  {
    var db' := HeartbeatTx(db, t, worker, now, lease);
    forall r | 0 <= r < |db'.requests| ensures RequestOk(db'.requests[r], r, db'.tasks) {
      RequestOkFrame(db.requests[r], r, db.tasks, db'.tasks);
    }
  }

  lemma FinishKeepsRows(config: Config, db: Db, t: TaskId, loaded: nat, outcome: Outcome)
    requires RowsOk(db) && t < |db.tasks| && db.tasks[t].status.Running?
    ensures RowsOk(FinishTx(config, db, t, loaded, outcome))
  {
    var db' := FinishTx(config, db, t, loaded, outcome);
    var r0 := db.tasks[t].request;
    OpenTaskOpenRequest(db, t);
    forall r | 0 <= r < |db'.requests| ensures RequestOk(db'.requests[r], r, db'.tasks) {
      assert RequestOk(db.requests[r], r, db.tasks);
      if r != r0 {
        RequestOkFrame(db.requests[r], r, db.tasks, db'.tasks);
      } else {
        assert db'.tasks[t].request == r;
      }
    }
  }

  lemma RefreshKeepsRows(db: Db, r0: RequestId)
    requires RowsOk(db) && r0 < |db.requests|
    ensures RowsOk(RefreshTx(db, r0))
  {
    var db' := RefreshTx(db, r0);
    DeriveMeaning(db.tasks, r0);
    assert RequestOk(db.requests[r0], r0, db.tasks);
    assert RequestOk(db'.requests[r0], r0, db'.tasks);
    forall r | 0 <= r < |db'.requests| ensures RequestOk(db'.requests[r], r, db'.tasks) {
      assert r != r0 ==> RequestOk(db.requests[r], r, db.tasks);
    }
    forall t | 0 <= t < |db'.tasks| ensures TaskOk(db'.requests, db'.tasks[t]) {
      assert TaskOk(db.requests, db.tasks[t]);
    }
  }

  lemma CreateKeepsRows(db: Db, tenant: string, key: string, subject: string, kind: Kind, sources: seq<string>)
    requires RowsOk(db)
    ensures RowsOk(CreateTx(db, tenant, key, subject, kind, sources))
  {
    var db' := CreateTx(db, tenant, key, subject, kind, sources);
    var n := |db.requests|;
    forall t | 0 <= t < |db'.tasks| ensures TaskOk(db'.requests, db'.tasks[t]) {
      if t < |db.tasks| {
        assert TaskOk(db.requests, db.tasks[t]);
      }
    }
    forall r | 0 <= r < |db'.requests| ensures RequestOk(db'.requests[r], r, db'.tasks) {
      if r < n {
        RequestOkFrame(db.requests[r], r, db.tasks, db'.tasks);
      } else {
        assert forall t :: 0 <= t < |db.tasks| ==> TaskOk(db.requests, db.tasks[t]);
      }
    }
  }

  // ---------------------------------------------------------------- terminal rows are frozen

  /** Refreshing a finished request changes nothing at all, so replays have no side effect. */
  lemma RefreshOfTerminalIsIdentity(db: Db, r: RequestId)
    requires RowsOk(db) && r < |db.requests| && db.requests[r].status.Terminal()
    ensures RefreshTx(db, r) == db
  {
    assert RequestOk(db.requests[r], r, db.tasks);
    assert RefreshedRequest(db.requests[r], r, db.requests[r].status) == db.requests[r];
  }

  // ---------------------------------------------------------------- completion record

  predicate Announces(body: EventBody, r: RequestId) { body.RequestFinished? && body.request == r }

  predicate Attests(entry: AuditEntry, r: RequestId) { entry.action.FinishedRequest? && entry.request == r }

  /** Announcements of `r` exist only once it is terminal, they are unique, and they tell the truth. */
  ghost predicate OutboxCompletion(db: Db, r: RequestId)
    requires r < |db.requests|
  {
    && (db.requests[r].status.Terminal() <==>
        exists e :: 0 <= e < |db.outbox| && Announces(db.outbox[e].body, r))
    && (forall e, f :: 0 <= e < f < |db.outbox| && Announces(db.outbox[e].body, r)
                       ==> !Announces(db.outbox[f].body, r))
    && (forall e :: 0 <= e < |db.outbox| && Announces(db.outbox[e].body, r) ==>
          db.outbox[e].body
          == RequestFinished(r, db.requests[r].status, Count(db.tasks, r, Succeeded), Count(db.tasks, r, Failed)))
  }

  ghost predicate AuditCompletion(db: Db, r: RequestId)
    requires r < |db.requests|
  {
    && (db.requests[r].status.Terminal() <==>
        exists a :: 0 <= a < |db.audit| && Attests(db.audit[a], r))
    && (forall a, b :: 0 <= a < b < |db.audit| && Attests(db.audit[a], r) ==> !Attests(db.audit[b], r))
    && (forall a :: 0 <= a < |db.audit| && Attests(db.audit[a], r) ==>
          db.audit[a] == AuditEntry(db.requests[r].tenant, r,
            FinishedRequest(db.requests[r].status, Count(db.tasks, r, Succeeded), Count(db.tasks, r, Failed))))
  }

  /** Events and audit entries never name a request that does not exist. */
  ghost predicate NamesKnown(db: Db) {
    && (forall e :: 0 <= e < |db.outbox| ==> db.outbox[e].body.request < |db.requests|)
    && (forall a :: 0 <= a < |db.audit| ==> db.audit[a].request < |db.requests|)
  }

  ghost predicate CompletionOk(db: Db) {
    && NamesKnown(db)
    && (forall r :: 0 <= r < |db.requests| ==> OutboxCompletion(db, r))
    && (forall r :: 0 <= r < |db.requests| ==> AuditCompletion(db, r))
    && (forall r :: 0 <= r < |db.requests| ==> CountTasks(db.tasks, r) == |db.requests[r].sources|)
  }

  /** `db'` leaves the completion of `r` alone: same parent status and task statuses, no new announcement. */
  ghost predicate SameCompletion(db: Db, db': Db, r: RequestId) {
    && r < |db.requests| <= |db'.requests|
    && db'.requests[r].tenant == db.requests[r].tenant
    && db'.requests[r].sources == db.requests[r].sources
    && (db'.requests[r].status == db.requests[r].status
        || (!db'.requests[r].status.Terminal() && !db.requests[r].status.Terminal()))
    && (db.requests[r].status.Terminal() ==> SameTasksOf(db.tasks, db'.tasks, r))
    && |db.outbox| <= |db'.outbox| && |db.audit| <= |db'.audit|
    && (forall e :: 0 <= e < |db.outbox| ==> db'.outbox[e].body == db.outbox[e].body)
    && (forall e :: |db.outbox| <= e < |db'.outbox| ==> !Announces(db'.outbox[e].body, r))
    && (forall a :: 0 <= a < |db.audit| ==> db'.audit[a] == db.audit[a])
    && (forall a :: |db.audit| <= a < |db'.audit| ==> !Attests(db'.audit[a], r))
  }

  lemma CompletionFrame(db: Db, db': Db, r: RequestId)
    requires r < |db.requests| && OutboxCompletion(db, r) && AuditCompletion(db, r)
    requires SameCompletion(db, db', r)
    ensures OutboxCompletion(db', r) && AuditCompletion(db', r)
  {
    if db.requests[r].status.Terminal() {
      SameTasksCounts(db.tasks, db'.tasks, r);
      var e :| 0 <= e < |db.outbox| && Announces(db.outbox[e].body, r);
      assert Announces(db'.outbox[e].body, r);
      var a :| 0 <= a < |db.audit| && Attests(db.audit[a], r);
      assert Attests(db'.audit[a], r);
    }
  }

  /** A transaction that finishes no request keeps every completion record. */
  lemma QuietKeepsCompletion(db: Db, db': Db)
    requires CompletionOk(db) && NamesKnown(db')
    requires |db'.requests| == |db.requests|
    requires forall r :: 0 <= r < |db.requests| ==> SameCompletion(db, db', r)
    requires |db'.tasks| == |db.tasks|
    requires forall t :: 0 <= t < |db.tasks| ==> db'.tasks[t].request == db.tasks[t].request
    ensures CompletionOk(db')
  {
    forall r | 0 <= r < |db'.requests|
      ensures OutboxCompletion(db', r) && AuditCompletion(db', r)
      ensures CountTasks(db'.tasks, r) == |db'.requests[r].sources|
    {
      assert OutboxCompletion(db, r) && AuditCompletion(db, r);
      CompletionFrame(db, db', r);
      SameOwnersSameCount(db.tasks, db'.tasks, r);
    }
  }

  lemma {:induction false} SameOwnersSameCount(a: seq<Task>, b: seq<Task>, r: RequestId)
    requires |a| == |b| && forall t :: 0 <= t < |a| ==> a[t].request == b[t].request
    ensures CountTasks(a, r) == CountTasks(b, r)
  {
    if |a| > 0 {
      SameOwnersSameCount(a[..|a| - 1], b[..|b| - 1], r);
    }
  }

  lemma ClaimKeepsCompletion(db: Db, t: TaskId, worker: WorkerId, now: int, lease: nat)
    requires RowsOk(db) && CompletionOk(db) && t < |db.tasks| && Claimable(db.tasks[t], now)
    ensures CompletionOk(ClaimTx(db, t, worker, now, lease))
  {
    OpenTaskOpenRequest(db, t);
    QuietKeepsCompletion(db, ClaimTx(db, t, worker, now, lease));
  }

  lemma HeartbeatKeepsCompletion(db: Db, t: TaskId, worker: WorkerId, now: int, lease: nat)
    requires CompletionOk(db)
    ensures CompletionOk(HeartbeatTx(db, t, worker, now, lease))
  {
    QuietKeepsCompletion(db, HeartbeatTx(db, t, worker, now, lease));
  }

  lemma FinishKeepsCompletion(config: Config, db: Db, t: TaskId, loaded: nat, outcome: Outcome)
    requires RowsOk(db) && CompletionOk(db) && t < |db.tasks| && db.tasks[t].status.Running?
    ensures CompletionOk(FinishTx(config, db, t, loaded, outcome))
  {
    OpenTaskOpenRequest(db, t);
    QuietKeepsCompletion(db, FinishTx(config, db, t, loaded, outcome));
  }

  lemma MarkKeepsCompletion(db: Db, sent: set<EventId>)
    requires CompletionOk(db)
    ensures CompletionOk(MarkTx(db, sent))
  {
    QuietKeepsCompletion(db, MarkTx(db, sent));
  }

  lemma RefreshKeepsCompletion(db: Db, r0: RequestId)
    requires RowsOk(db) && CompletionOk(db) && r0 < |db.requests|
    ensures CompletionOk(RefreshTx(db, r0))
  {
    var db' := RefreshTx(db, r0);
    var status := Derive(StatusesOf(db.tasks, r0));
    assert RequestOk(db.requests[r0], r0, db.tasks);
    if status.Terminal() && !db.requests[r0].status.Terminal() {
      forall r | 0 <= r < |db'.requests| ensures OutboxCompletion(db', r) && AuditCompletion(db', r) {
        assert OutboxCompletion(db, r) && AuditCompletion(db, r);
        if r == r0 {
          FirstAnnouncement(db, r0);
        } else {
          CompletionFrame(db, db', r);
        }
      }
    } else {
      QuietKeepsCompletion(db, db');
    }
  }

  /** The refresh that finishes a request adds its first and only announcement. */
  lemma FirstAnnouncement(db: Db, r: RequestId)
    requires r < |db.requests| && OutboxCompletion(db, r) && AuditCompletion(db, r)
    requires Derive(StatusesOf(db.tasks, r)).Terminal() && !db.requests[r].status.Terminal()
    ensures OutboxCompletion(RefreshTx(db, r), r) && AuditCompletion(RefreshTx(db, r), r)
  {
    var db' := RefreshTx(db, r);
    assert Announces(db'.outbox[|db.outbox|].body, r);
    assert Attests(db'.audit[|db.audit|], r);
  }

  lemma CreateKeepsCompletion(db: Db, tenant: string, key: string, subject: string, kind: Kind, sources: seq<string>)
    requires RowsOk(db) && CompletionOk(db)
    ensures CompletionOk(CreateTx(db, tenant, key, subject, kind, sources))
  {
    var db' := CreateTx(db, tenant, key, subject, kind, sources);
    var n := |db.requests|;
    CreateAnnouncesNothing(db, tenant, key, subject, kind, sources);
    forall r | 0 <= r < |db'.requests|
      ensures OutboxCompletion(db', r) && AuditCompletion(db', r)
      ensures CountTasks(db'.tasks, r) == |db'.requests[r].sources|
    {
      CreatedTaskCount(db.tasks, n, r, tenant, sources, |sources|);
      assert NewTasks(n, tenant, sources)[..|sources|] == NewTasks(n, tenant, sources);
      if r < n {
        assert OutboxCompletion(db, r) && AuditCompletion(db, r);
        CompletionFrame(db, db', r);
      } else {
        NoTaskNoCount(db.tasks, r);
      }
    }
  }

  lemma CreateAnnouncesNothing(db: Db, tenant: string, key: string, subject: string, kind: Kind, sources: seq<string>)
    requires RowsOk(db) && CompletionOk(db)
    ensures var db' := CreateTx(db, tenant, key, subject, kind, sources);
      && NamesKnown(db')
      && (forall r :: 0 <= r < |db.requests| ==> SameCompletion(db, db', r))
      && (forall e :: 0 <= e < |db'.outbox| ==> !Announces(db'.outbox[e].body, |db.requests|))
      && (forall a :: 0 <= a < |db'.audit| ==> !Attests(db'.audit[a], |db.requests|))
  {
    var db' := CreateTx(db, tenant, key, subject, kind, sources);
    assert forall e :: |db.outbox| <= e < |db'.outbox| ==> !db'.outbox[e].body.RequestFinished?;
    assert forall e :: |db.outbox| <= e < |db'.outbox| ==> db'.outbox[e].body.request == |db.requests|;
  }

  lemma {:induction false} CreatedTaskCount(
    tasks: seq<Task>, n: RequestId, r: RequestId, tenant: string, sources: seq<string>, k: nat)
    requires k <= |sources|
    ensures CountTasks(tasks + NewTasks(n, tenant, sources)[..k], r)
         == CountTasks(tasks, r) + (if r == n then k else 0)
  {
    var added := NewTasks(n, tenant, sources);
    if k == 0 {
      assert tasks + added[..0] == tasks;
    } else {
      CreatedTaskCount(tasks, n, r, tenant, sources, k - 1);
      var all := tasks + added[..k];
      assert all[..|all| - 1] == tasks + added[..k - 1];
    }
  }

  lemma {:induction false} NoTaskNoCount(tasks: seq<Task>, r: RequestId)
    requires forall t :: 0 <= t < |tasks| ==> tasks[t].request != r
    ensures CountTasks(tasks, r) == 0
  {
    if |tasks| > 0 {
      NoTaskNoCount(tasks[..|tasks| - 1], r);
    }
  }
}
