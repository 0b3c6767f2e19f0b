/**
 The workflow's database code in its own, mutating form.  Each method is one transaction of the
 service and is proved to compute the transaction function that the protocol interleaves.
 */
module Store {
  import opened Tables
  import opened Transactions
  import opened Intake
  import opened Protocol
  import opened BatchExecution

  datatype ClaimResult = CLAIMED | TERMINAL_DUPLICATE | BUSY | MISSING

  /** A creation by another caller. */
  datatype Rival = Rival(tenant: string, key: string, command: Command)

  /** The rows after other callers created what they could, in order. */
  function WithRivals(db: Db, rivals: seq<Rival>): Db {
    if rivals == [] then db
    else
      var others, rival := WithRivals(db, rivals[..|rivals| - 1]), rivals[|rivals| - 1];
      if FindKey(others.requests, rival.tenant, rival.key).Some? then others
      else CreateTx(others, rival.tenant, rival.key, rival.command.subject, rival.command.kind, rival.command.sources)
  }

  /** The unique constraint on tenant and key would be violated. */
  predicate KeyTaken(requests: seq<Request>, tenant: string, key: string) {
    exists r :: 0 <= r < |requests| && HasKey(requests[r], tenant, key)
  }

  class Database {
    var requests: seq<Request>
    var tasks: seq<Task>
    var outbox: seq<OutboxEvent>
    var audit: seq<AuditEntry>
    var records: seq<Record>
    var artifacts: map<ArtifactUri, map<string, Receipt>>

    function View(): Db
      reads this
    {
      Db(requests, tasks, outbox, audit, records)
    }

    /** Every task has a parent row (the foreign key). */
    ghost predicate Valid()
      reads this
    {
      forall t :: 0 <= t < |tasks| ==> tasks[t].request < |requests|
    }

    constructor ()
      ensures Valid() && View() == Db([], [], [], [], []) && artifacts == map[]
    {
      requests, tasks, outbox, audit, records, artifacts := [], [], [], [], [], map[];
    }

    // ---------------------------------------------------------------- claims

    method ClaimMessageTask(t: TaskId, worker: WorkerId, now: int, lease: nat) returns (result: ClaimResult)
      requires Valid()
      modifies this`tasks, this`requests
      ensures Valid()
      ensures result.MISSING? <==> t >= old(|tasks|)
      ensures result.TERMINAL_DUPLICATE? <==> t < old(|tasks|) && old(tasks)[t].status.Terminal()
      ensures result.CLAIMED? <==>
                && t < old(|tasks|)
                && (old(tasks)[t].status.Pending?
                    || (old(tasks)[t].status.Running? && old(tasks)[t].expires.Some? && old(tasks)[t].expires.value < now))
      ensures result.CLAIMED? ==>
                && tasks == old(tasks)[t := old(tasks)[t].(status := Running, attempt := old(tasks)[t].attempt + 1,
                                                           owner := Some(worker), expires := Some(now + lease))]
                && (var r := old(tasks)[t].request;
                    requests == if old(requests)[r].status.Queued?
                                then old(requests)[r := old(requests)[r].(status := InProgress)] else old(requests))
      ensures View() == if result.CLAIMED? then ClaimTx(old(View()), t, worker, now, lease) else old(View())
    {
      if t >= |tasks| {
        return MISSING;
      }
      var task := tasks[t];
      if task.status.Succeeded? || task.status.Failed? {
        return TERMINAL_DUPLICATE;
      }
      if !(task.status.Pending? || (task.status.Running? && task.expires.Some? && task.expires.value < now)) {
        return BUSY;
      }
      tasks := tasks[t := task.(status := Running, attempt := task.attempt + 1,
                                owner := Some(worker), expires := Some(now + lease))];
      var request := requests[task.request];
      if request.status.Queued? {
        requests := requests[task.request := request.(status := InProgress)];
      }
      return CLAIMED;
    }

    predicate Selected(t: TaskId, tenant: Option<string>, now: int)
      requires t < |tasks|
      reads this
    {
      Claimable(tasks[t], now) && (tenant.None? || tasks[t].tenant == tenant.value)
    }

    /** The locking select: the oldest claimable tasks, at most `limit` of them. */
    method SelectClaimable(tenant: Option<string>, limit: nat, now: int) returns (ids: seq<TaskId>)
      ensures |ids| <= limit
      ensures forall i, j :: 0 <= i < j < |ids| ==> ids[i] < ids[j]
      ensures forall t :: t in ids ==> t < |tasks| && Selected(t, tenant, now)
      ensures forall t :: 0 <= t < |tasks| && Selected(t, tenant, now) && t !in ids
                ==> |ids| == limit && forall u :: u in ids ==> u < t
    {
      ids := [];
      var t := 0;
      while t < |tasks| && |ids| < limit
        invariant 0 <= t <= |tasks| && |ids| <= limit
        invariant forall i, j :: 0 <= i < j < |ids| ==> ids[i] < ids[j]
        invariant forall i :: 0 <= i < |ids| ==> ids[i] < t
        invariant forall u: nat :: u in ids <==> u < t && Selected(u, tenant, now)
      {
        if Selected(t, tenant, now) {
          ids := ids + [t];
        }
        t := t + 1;
      }
    }

    /** Leases a batch in one transaction; the parents of the batch leave the queued state with it. */
    method ClaimTasks(worker: WorkerId, tenant: Option<string>, limit: nat, now: int, lease: nat)
      returns (ids: seq<TaskId>)
      requires Valid()
      modifies this`tasks, this`requests
      ensures Valid() && |ids| <= limit
      ensures forall i, j :: 0 <= i < j < |ids| ==> ids[i] < ids[j]
      ensures forall t :: t in ids ==> t < old(|tasks|)
      ensures forall t :: t in ids ==> Claimable(old(tasks)[t], now)
      ensures forall t :: t in ids ==> (tenant.None? || old(tasks)[t].tenant == tenant.value)
      ensures forall t :: 0 <= t < old(|tasks|) && Claimable(old(tasks)[t], now) && t !in ids
                && (tenant.None? || old(tasks)[t].tenant == tenant.value)
                ==> |ids| == limit && forall u :: u in ids ==> u < t
      ensures View() == ClaimAll(old(View()), ids, worker, now, lease)
    {
      ids := SelectClaimable(tenant, limit, now);
      ghost var before := View();
      assert forall t :: t in ids ==> ValidTask(before, t);
      LeaseRows(ids, worker, now, lease);
      ClaimAllRows(before, ids, worker, now, lease);
      assert tasks == ClaimAll(before, ids, worker, now, lease).tasks;
      StartParents(before, ids, worker, now, lease);
    }

    method LeaseRows(ids: seq<TaskId>, worker: WorkerId, now: int, lease: nat)
      requires forall t :: t in ids ==> t < |tasks|
      requires forall i, j :: 0 <= i < j < |ids| ==> ids[i] < ids[j]
      modifies this`tasks
      ensures |tasks| == old(|tasks|)
      ensures forall t :: 0 <= t < |tasks| ==>
                tasks[t] == if t in ids then ClaimedTask(old(tasks)[t], worker, now, lease) else old(tasks)[t]
    {
      var i := 0;
      while i < |ids|
        invariant 0 <= i <= |ids| && |tasks| == old(|tasks|)
        invariant forall t :: 0 <= t < |tasks| ==>
          tasks[t] == if t in ids[..i] then ClaimedTask(old(tasks)[t], worker, now, lease) else old(tasks)[t]
      {
        assert ids[i] in ids && ids[i] !in ids[..i];
        assert forall t :: t in ids[..i + 1] <==> t in ids[..i] || t == ids[i];
        var task := tasks[ids[i]];
        tasks := tasks[ids[i] := task.(status := Running, attempt := task.attempt + 1,
                                       owner := Some(worker), expires := Some(now + lease))];
        i := i + 1;
      }
      assert ids[..i] == ids;
    }

    /** The bulk update of the parents of a claimed batch. */
    method StartParents(ghost before: Db, ids: seq<TaskId>, ghost worker: WorkerId, ghost now: int, ghost lease: nat)
      requires forall t :: t in ids ==> ValidTask(before, t)
      requires tasks == ClaimAll(before, ids, worker, now, lease).tasks && requests == before.requests
      modifies this`requests
      ensures requests == ClaimAll(before, ids, worker, now, lease).requests
    {
      var i := 0;
      while i < |ids|
        invariant 0 <= i <= |ids|
        invariant forall t :: t in ids[..i] ==> ValidTask(before, t)
        invariant requests == ClaimAll(before, ids[..i], worker, now, lease).requests
      {
        assert ids[i] in ids;
        assert forall t :: t in ids[..i + 1] ==> t in ids;
        assert ids[..i + 1][..i] == ids[..i];
        var r := tasks[ids[i]].request;
        if requests[r].status.Queued? {
          requests := requests[r := requests[r].(status := InProgress)];
        }
        i := i + 1;
      }
      assert ids[..i] == ids;
    }

    method ExtendTaskLease(t: TaskId, worker: WorkerId, now: int, lease: nat) returns (extended: bool)
      modifies this`tasks
      ensures extended <==> t < old(|tasks|) && old(tasks)[t].status.Running? && old(tasks)[t].owner == Some(worker)
      ensures tasks == if extended then old(tasks)[t := old(tasks)[t].(expires := Some(now + lease))] else old(tasks)
      ensures View() == HeartbeatTx(old(View()), t, worker, now, lease)
    {
      extended := t < |tasks| && tasks[t].status.Running? && tasks[t].owner == Some(worker);
      if extended {
        tasks := tasks[t := tasks[t].(expires := Some(now + lease))];
      }
    }

    // ---------------------------------------------------------------- execution

    method AppendAudit(tenant: string, request: RequestId, action: AuditAction)
      modifies this`audit
      ensures audit == old(audit) + [AuditEntry(tenant, request, action)]
    {
      audit := audit + [AuditEntry(tenant, request, action)];
    }

    /** Reads the live records of a scope, in row order. */
    method ActiveRecords(scope: Triple) returns (ids: seq<nat>)
      ensures ids == ActiveIds(records, scope)
    {
      ids := [];
      var i := 0;
      while i < |records|
        invariant 0 <= i <= |records| && ids == ActiveIds(records[..i], scope)
      {
        if Matches(records[i], scope) && !records[i].deleted {
          ids := ids + [i];
        }
        assert records[..i + 1][..i] == records[..i];
        i := i + 1;
      }
      assert records[..i] == records;
    }

    /** Soft-deletes the live records of a scope and reads the scope back. */
    method ExecuteDelete(scope: Triple) returns (receipt: Receipt)
      modifies this`records
      ensures records == MarkDeleted(old(records), scope)
      ensures receipt == Receipt(true, [], Some(|ActiveIds(old(records), scope)|), Some(0))
    {
      var ids := ActiveRecords(scope);
      ghost var before := records;
      ActiveIdsAreTheLiveRows(before, scope);
      var i := 0;
      while i < |ids|
        invariant 0 <= i <= |ids| && |records| == |before|
        invariant forall k :: 0 <= k < |before| ==>
          records[k] == if k in ids[..i] then before[k].(deleted := true) else before[k]
        modifies this`records
      {
        assert ids[i] in ids;
        records := records[ids[i] := records[ids[i]].(deleted := true)];
        assert forall k :: k in ids[..i + 1] <==> k in ids[..i] || k == ids[i];
        i := i + 1;
      }
      assert ids[..i] == ids;
      forall k | 0 <= k < |before| ensures records[k] == MarkDeleted(before, scope)[k] {
        assert k in ids <==> Matches(before[k], scope) && !before[k].deleted;
      }
      assert records == MarkDeleted(before, scope);
      var remaining := ActiveRecords(scope);
      MarkDeletedCounts(before, scope, scope);
      assert remaining == [];
      receipt := Receipt(true, [], Some(|ids|), Some(|remaining|));
    }

    /** Runs the source and judges the result; only a successful database delete writes records. */
    method RunSource(config: Config, t: TaskId, outcome: Outcome) returns (verdict: Verdict)
      requires Valid() && t < |tasks|
      modifies this`records
      ensures verdict == Judge(config, old(View()), tasks[t], outcome)
      ensures var kind := requests[tasks[t].request].kind;
              verdict.Ok? <==>
                if config.regional
                then && outcome.Replied? && outcome.success && outcome.payload.Receipt? && outcome.payload.verified
                     && (kind.Delete? ==> outcome.payload.remainingCount == Some(0))
                else outcome.RanLocally?
      ensures verdict.Ok? && config.regional ==> verdict.receipt == outcome.payload
      ensures verdict.Ok? && !config.regional && requests[tasks[t].request].kind.Access? ==>
                && verdict.receipt.Receipt? && verdict.receipt.verified
                && ListsLiveRows(old(records), tasks[t].tenant, requests[tasks[t].request].subject, tasks[t].source,
                                 verdict.receipt.records)
      ensures records == if requests[tasks[t].request].kind.Delete? && outcome.RanLocally? && verdict.Ok?
                         then MarkDeleted(old(records), ScopeOf(requests, tasks[t])) else old(records)
    {
      var task := tasks[t];
      var kind := requests[task.request].kind;
      match outcome
      case Raised(message) => verdict := Err(message);
      case Replied(success, payload) =>
        if !config.regional {
          verdict := Err("no regional source");
        } else if !success {
          verdict := Err("regional source returned an HTTP error");
        } else if !payload.Receipt? || !payload.verified {
          verdict := Err("regional source did not verify its result");
        } else if kind.Delete? && payload.remainingCount != Some(0) {
          verdict := Err("regional source did not verify its result");
        } else {
          verdict := Ok(payload);
        }
      case RanLocally =>
        var scope := Triple(task.tenant, requests[task.request].subject, task.source);
        if config.regional {
          verdict := Err("no database source");
        } else if kind.Access? {
          var ids := ActiveRecords(scope);
          ActiveIdsListLiveRows(records, scope);
          verdict := Ok(Receipt(true, ids, None, None));
        } else {
          var receipt := ExecuteDelete(scope);
          verdict := Ok(receipt);
        }
    }

    /** The second half of `execute_task`: source result, task row, lease release and audit entry. */
    method FinishTask(config: Config, t: TaskId, loaded: nat, outcome: Outcome)
      requires Valid() && t < |tasks|
      modifies this`tasks, this`requests, this`records, this`audit
      ensures Valid() && View() == FinishTx(config, old(View()), t, loaded, outcome)
      ensures |tasks| == old(|tasks|) && tasks[t].owner.None? && tasks[t].expires.None?
      ensures tasks[t].status.Succeeded? ==> tasks[t].error.None?
      ensures !tasks[t].status.Succeeded? ==>
                && tasks[t].status == (if config.regional && loaded < config.maxAttempts then Pending else Failed)
                && tasks[t].error.Some? && tasks[t].receipt == old(tasks)[t].receipt
      ensures audit == old(audit) + [AuditEntry(tasks[t].tenant, tasks[t].request,
                TaskFinished(tasks[t].source, tasks[t].status, loaded, tasks[t].error))]
    {
      var task := tasks[t];
      var r := task.request;
      var verdict := RunSource(config, t, outcome);
      if requests[r].kind.Delete? {
        requests := requests[r := requests[r].(status := Verifying)];
      }
      match verdict {
        case Ok(receipt) =>
          task := task.(receipt := receipt, status := Succeeded, error := None);
        case Err(message) =>
          var retry := config.regional && loaded < config.maxAttempts;
          task := task.(status := if retry then Pending else Failed, error := Some(Truncate(message)));
      }
      task := task.(owner := None, expires := None);
      tasks := tasks[t := task];
      AppendAudit(task.tenant, r, TaskFinished(task.source, task.status, loaded, task.error));
    }

    // ---------------------------------------------------------------- parent status

    /** `None` is the exception of a failed artifact upload: nothing is written. */
    method RefreshRequestStatus(r: RequestId, storeUp: bool) returns (result: Option<RequestStatus>)
      requires Valid() && r < |requests|
      modifies this`requests, this`outbox, this`audit, this`artifacts
      ensures Valid()
      ensures result.None? <==> !storeUp && NeedsArtifact(old(requests)[r], Derive(StatusesOf(tasks, r)))
      ensures result.None? ==> View() == old(View()) && artifacts == old(artifacts)
      ensures result.Some? ==> result.value == Derive(StatusesOf(tasks, r)) && View() == RefreshTx(old(View()), r)
      ensures result.Some? ==>
                && requests[r].status == result.value
                && requests[r].version == old(requests)[r].version + (if result.value != old(requests)[r].status then 1 else 0)
      ensures result.Some? && !NeedsArtifact(old(requests)[r], result.value) ==> artifacts == old(artifacts)
      ensures result.Some? && NeedsArtifact(old(requests)[r], result.value) ==>
                artifacts == old(artifacts)[ArtifactUri(old(requests)[r].tenant, r) := Document(tasks, r)]
    {
      var request := requests[r];
      var status := Derive(StatusesOf(tasks, r));
      var previous := request.status;
      request := request.(status := status);
      if status != previous {
        request := request.(version := request.version + 1);
      }
      var becameTerminal := status.Terminal() && !previous.Terminal();
      if request.kind.Access? && (status.Completed? || status.Partial?) && request.artifactPath.None? {
        if !storeUp {
          return None;
        }
        var uri := ArtifactUri(request.tenant, r);
        artifacts := artifacts[uri := Document(tasks, r)];
        request := request.(artifactPath := Some(uri));
      }
      requests := requests[r := request];
      if becameTerminal {
        var succeeded, failed := Count(tasks, r, Succeeded), Count(tasks, r, Failed);
        outbox := outbox + [OutboxEvent(request.tenant, RequestFinished(r, status, succeeded, failed), false)];
        AppendAudit(request.tenant, r, FinishedRequest(status, succeeded, failed));
      }
      return Some(status);
    }

    /**
     `execute_task`: runs a task that the worker holds, commits the result and refreshes the parent.
     `None` is the exception of a failed artifact upload, after the result was committed.
     */
    method ExecuteTask(config: Config, t: TaskId, worker: WorkerId, outcome: Outcome, storeUp: bool)
      returns (succeeded: Option<bool>)
      requires Valid() && t < |tasks|
      modifies this
      ensures Valid()
      ensures View() == ExecuteTx(config, old(View()), t, worker, outcome, storeUp)
      ensures artifacts == ExecuteArtifacts(config, old(View()), old(artifacts), t, worker, outcome, storeUp)
      ensures succeeded.None? <==>
                Holds(old(tasks)[t], worker) && UploadFails(ResultTx(config, old(View()), t, outcome), tasks[t].request, storeUp)
      ensures old(tasks)[t].status.Running? && old(tasks)[t].owner == Some(worker) && succeeded.Some? ==>
                succeeded.value == tasks[t].status.Succeeded?
      ensures !(old(tasks)[t].status.Running? && old(tasks)[t].owner == Some(worker)) ==>
                succeeded == Some(false) && View() == old(View()) && artifacts == old(artifacts)
    {
      if !(tasks[t].status.Running? && tasks[t].owner == Some(worker)) {
        return Some(false);
      }
      FinishTask(config, t, tasks[t].attempt, outcome);
      var refreshed := RefreshRequestStatus(tasks[t].request, storeUp);
      if refreshed.None? {
        return None;
      }
      return Some(tasks[t].status.Succeeded?);
    }

    /**
     The handling of one task-ready message, without interference between its transactions.  The
     returned flag is the acknowledgement: for an existing task it means that the task is terminal
     and that its parent has nothing left to derive.
     */
    method HandleTaskReady(config: Config, t: TaskId, worker: WorkerId, now: int, outcome: Outcome, storeUp: bool)
      returns (ack: bool)
      requires Valid()
      modifies this
      ensures Valid() && |tasks| == old(|tasks|)
      ensures t >= old(|tasks|) ==> ack && View() == old(View()) && artifacts == old(artifacts)
      ensures t < old(|tasks|) && old(tasks)[t].status.Terminal() ==>
                var r := old(tasks)[t].request;
                && (ack <==> storeUp || !(var derived := Derive(StatusesOf(old(tasks), r));
                                          && old(requests)[r].kind.Access? && old(requests)[r].artifactPath.None?
                                          && (derived.Completed? || derived.Partial?)))
                && View() == (if ack then RefreshTx(old(View()), r) else old(View()))
                && artifacts == (if ack then Exported(old(artifacts), old(View()), r) else old(artifacts))
      ensures t < old(|tasks|) && !old(tasks)[t].status.Terminal() && !Claimable(old(tasks)[t], now) ==>
                !ack && View() == old(View()) && artifacts == old(artifacts)
      ensures t < old(|tasks|) && Claimable(old(tasks)[t], now) ==>
                var claimed := ClaimTx(old(View()), t, worker, now, config.lease);
                && View() == ExecuteTx(config, claimed, t, worker, outcome, storeUp)
                && artifacts == ExecuteArtifacts(config, claimed, old(artifacts), t, worker, outcome, storeUp)
                && tasks[t].attempt == old(tasks)[t].attempt + 1 && !tasks[t].status.Running?
      ensures t < old(|tasks|) && Claimable(old(tasks)[t], now) ==>
                var r := old(tasks)[t].request; var derived := Derive(StatusesOf(tasks, r));
                && (storeUp ==> (ack <==> tasks[t].status.Succeeded?))
                && (!storeUp ==> (ack <==> tasks[t].status.Succeeded?
                                           && !(old(requests)[r].kind.Access? && old(requests)[r].artifactPath.None?
                                                && (derived.Completed? || derived.Partial?))))
      ensures t < old(|tasks|) && ack ==>
                tasks[t].status.Terminal()
                && requests[tasks[t].request].status == Derive(StatusesOf(tasks, tasks[t].request))
    {
      var result := ClaimMessageTask(t, worker, now, config.lease);
      if result.MISSING? {
        return true;
      }
      if result.TERMINAL_DUPLICATE? {
        var refreshed := RefreshRequestStatus(tasks[t].request, storeUp);
        return refreshed.Some?;
      }
      if result.BUSY? {
        return false;
      }
      ack := HandleClaimed(config, t, worker, outcome, storeUp);
    }

    method HandleClaimed(config: Config, t: TaskId, worker: WorkerId, outcome: Outcome, storeUp: bool) returns (ack: bool)
      requires Valid() && t < |tasks| && Holds(tasks[t], worker)
      modifies this
      ensures Valid() && |tasks| == old(|tasks|)
      ensures View() == ExecuteTx(config, old(View()), t, worker, outcome, storeUp)
      ensures artifacts == ExecuteArtifacts(config, old(View()), old(artifacts), t, worker, outcome, storeUp)
      ensures tasks[t].attempt == old(tasks)[t].attempt && !tasks[t].status.Running?
      ensures ack ==> requests[tasks[t].request].status == Derive(StatusesOf(tasks, tasks[t].request))
      ensures var r := old(tasks)[t].request; var derived := Derive(StatusesOf(tasks, r));
              ack <==> tasks[t].status.Succeeded?
                       && (storeUp || !(old(requests)[r].kind.Access? && old(requests)[r].artifactPath.None?
                                        && (derived.Completed? || derived.Partial?)))
    {
      ghost var before := View();
      var succeeded := ExecuteTask(config, t, worker, outcome, storeUp);
      ExecutionLeaves(config, before, t, worker, outcome, storeUp);
      return succeeded == Some(true);
    }

    /**
     `process_once`: claims a batch and executes it task by task on the database.  An upload that fails
     raises out of the loop: `ran` tasks were run, and the rest of the batch stays leased.
     */
    method ProcessOnce(
      config: Config, worker: WorkerId, tenant: Option<string>, limit: nat, now: int,
      outcomes: TaskId -> Outcome, storeUp: TaskId -> bool)
      returns (ids: seq<TaskId>, ran: nat, succeeded: nat, raised: bool)
      requires Valid()
      modifies this
      ensures Valid() && ran <= |ids| && (!raised ==> ran == |ids|)
      ensures forall t :: t in ids ==> ValidTask(old(View()), t)
      ensures forall t :: t in ids ==>
                t < old(|tasks|) && Claimable(old(tasks)[t], now)
                && (tenant.None? || old(tasks)[t].tenant == tenant.value)
      ensures forall i, j :: 0 <= i < j < |ids| ==> ids[i] < ids[j]
      ensures |ids| <= limit
      ensures forall t :: 0 <= t < old(|tasks|) && Claimable(old(tasks)[t], now) && t !in ids
                && (tenant.None? || old(tasks)[t].tenant == tenant.value)
                ==> |ids| == limit && forall u :: u in ids ==> u < t
      ensures View() == BatchTx(config, old(View()), ids, ran, worker, now, outcomes, storeUp)
      ensures !raised ==> succeeded == |set t | t in ids && 0 <= t < |tasks| && tasks[t].status.Succeeded?|
    {
      ids := ClaimTasks(worker, tenant, limit, now, config.lease);
      assert ids[..0] == [];
      ran, succeeded, raised := ExecuteBatch(config, ids, worker, outcomes, storeUp, old(View()), now);
      SuccessesCount(tasks, ids);
    }

    /** The batch loop. */
    method ExecuteBatch(
      config: Config, ids: seq<TaskId>, worker: WorkerId,
      outcomes: TaskId -> Outcome, storeUp: TaskId -> bool, ghost before: Db, ghost now: int)
      returns (ran: nat, succeeded: nat, raised: bool)
      requires Valid() && forall t :: t in ids ==> ValidTask(before, t)
      requires forall i, j :: 0 <= i < j < |ids| ==> ids[i] < ids[j]
      requires View() == BatchTx(config, before, ids, 0, worker, now, outcomes, storeUp)
      modifies this
      ensures Valid() && ran <= |ids| && (!raised ==> ran == |ids|)
      ensures View() == BatchTx(config, before, ids, ran, worker, now, outcomes, storeUp)
      ensures !raised ==> succeeded == Successes(tasks, ids)
    {
      ran, succeeded, raised := 0, 0, false;
      while ran < |ids| && !raised
        invariant Valid() && ran <= |ids|
        invariant View() == BatchTx(config, before, ids, ran, worker, now, outcomes, storeUp)
        invariant !raised ==> succeeded == Successes(tasks, ids[..ran])
        decreases !raised, |ids| - ran
      {
        var result := ExecuteNext(config, ids, ran, worker, outcomes, storeUp, before, now);
        ran := ran + 1;
        raised := result.None?;
        if result == Some(true) {
          succeeded := succeeded + 1;
        }
      }
      assert !raised ==> ids[..ran] == ids;
    }

    /** One pass of the batch loop. */
    method ExecuteNext(
      config: Config, ids: seq<TaskId>, n: nat, worker: WorkerId,
      outcomes: TaskId -> Outcome, storeUp: TaskId -> bool, ghost before: Db, ghost now: int)
      returns (result: Option<bool>)
      requires Valid() && n < |ids| && forall t :: t in ids ==> ValidTask(before, t)
      requires forall i, j :: 0 <= i < j < |ids| ==> ids[i] < ids[j]
      requires View() == BatchTx(config, before, ids, n, worker, now, outcomes, storeUp)
      modifies this
      ensures Valid() && |tasks| == old(|tasks|)
      ensures View() == BatchTx(config, before, ids, n + 1, worker, now, outcomes, storeUp)
      ensures result.Some? ==>
                Successes(tasks, ids[..n + 1]) == Successes(old(tasks), ids[..n]) + (if result.value then 1 else 0)
    {
      var t := ids[n];
      NextIsHeld(config, before, ids, n, worker, now, outcomes, storeUp);
      ghost var previous := View();
      result := ExecuteTask(config.(regional := false), t, worker, outcomes(t), storeUp(t));
      ExecuteWrites(config.(regional := false), previous, t, worker, outcomes(t), storeUp(t));
      OthersKeepSuccess(previous.tasks, tasks, ids[..n], t);
      SuccessesExtend(tasks, ids, n);
    }

    // ---------------------------------------------------------------- intake

    method FindByIdempotency(tenant: string, key: string) returns (found: Option<RequestId>)
      ensures found == FindKey(requests, tenant, key)
    {
      var r := |requests|;
      assert requests[..r] == requests;
      while r > 0
        invariant 0 <= r <= |requests|
        invariant FindKey(requests, tenant, key) == FindKey(requests[..r], tenant, key)
      {
        r := r - 1;
        if HasKey(requests[r], tenant, key) {
          return Some(r);
        }
        assert requests[..r + 1][..r] == requests[..r];
      }
      return None;
    }

    /** Other callers create their requests. */
    method Interfere(rivals: seq<Rival>)
      requires Valid()
      modifies this`requests, this`tasks, this`outbox, this`audit
      ensures Valid() && View() == WithRivals(old(View()), rivals)
    {
      var i := 0;
      assert rivals[..0] == [];
      while i < |rivals|
        invariant Valid() && 0 <= i <= |rivals| && View() == WithRivals(old(View()), rivals[..i])
      {
        assert rivals[..i + 1][..i] == rivals[..i];
        var found := FindByIdempotency(rivals[i].tenant, rivals[i].key);
        if found.None? {
          InsertRequest(rivals[i].tenant, rivals[i].key, rivals[i].command);
        }
        i := i + 1;
      }
      assert rivals[..i] == rivals;
    }

    /** The insert of the request with its tasks, events and audit entry. */
    method InsertRequest(tenant: string, key: string, command: Command)
      requires Valid()
      modifies this`requests, this`tasks, this`outbox, this`audit
      ensures Valid()
      ensures View() == CreateTx(old(View()), tenant, key, command.subject, command.kind, command.sources)
    {
      ghost var before := View();
      var r, first := |requests|, |tasks|;
      requests := requests + [Request(tenant, key, command.subject, command.kind, Queued, command.sources, None, 1)];
      outbox := outbox + [OutboxEvent(tenant, RequestCreated(r, command.kind, command.sources), false)];
      var i := 0;
      while i < |command.sources|
        invariant 0 <= i <= |command.sources|
        invariant tasks == before.tasks + NewTasks(r, tenant, command.sources)[..i]
        invariant outbox == before.outbox + [OutboxEvent(tenant, RequestCreated(r, command.kind, command.sources), false)]
                            + ReadyEvents(first, r, tenant, command.sources)[..i]
        modifies this`tasks, this`outbox
      {
        tasks := tasks + [Task(r, tenant, command.sources[i], Pending, 0, None, None, NoReceipt, None)];
        outbox := outbox + [OutboxEvent(tenant, TaskReady(first + i, r, command.sources[i]), false)];
        i := i + 1;
      }
      AppendAudit(tenant, r, CreatedRequest(command.kind, command.sources));
    }

    /**
     Looks the key up and, if it is free, inserts; `rivals` commit between the two.  When one of them took
     the key, the unique constraint refuses the insert, which is rolled back, and the rival's request answers.
     */
    method CreatePrivacyRequest(tenant: string, key: string, command: Command, rivals: seq<Rival>) returns (answer: Answer)
      requires Valid()
      modifies this`requests, this`tasks, this`outbox, this`audit
      ensures Valid()
      ensures match FindKey(old(requests), tenant, key)
              case Some(r) => View() == old(View()) && r < |requests| && answer == AnswerFrom(requests, r, command)
              case None =>
                var others := WithRivals(old(View()), rivals);
                match FindKey(others.requests, tenant, key)
                case Some(r) => View() == others && r < |requests| && answer == AnswerFrom(requests, r, command)
                case None =>
                  && answer == Created(|others.requests|)
                  && View() == CreateTx(others, tenant, key, command.subject, command.kind, command.sources)
    {
      var found := FindByIdempotency(tenant, key);
      if found.Some? {
        answer := AnswerExisting(found.value, tenant, key, command);
        return;
      }
      Interfere(rivals);
      if KeyTaken(requests, tenant, key) {
        FindKeyIsTheLookup(requests, tenant, key);
        found := FindByIdempotency(tenant, key);
        answer := AnswerExisting(found.value, tenant, key, command);
        return;
      }
      FindKeyIsTheLookup(requests, tenant, key);
      answer := Created(|requests|);
      InsertRequest(tenant, key, command);
    }

    /** A found request answers a matching command and refuses any other. */
    method AnswerExisting(r: RequestId, ghost tenant: string, ghost key: string, command: Command) returns (answer: Answer)
      requires FindKey(requests, tenant, key) == Some(r)
      ensures r < |requests| && answer == AnswerFrom(requests, r, command)
    {
      FindKeyIsTheLookup(requests, tenant, key);
      if SameCommand(requests[r], command) {
        return Existing(r);
      }
      return Conflict;
    }

    // ---------------------------------------------------------------- relay

    /**
     Publishes the oldest unpublished events and marks the confirmed ones.  `accepts` says which sends
     the queue confirms; a crash before the commit is the protocol's `CrashRelay`.
     */
    method RelayOutboxOnce(queue: Queue, limit: nat, accepts: EventId -> bool)
      returns (claimed: nat, published: nat, ghost batch: seq<EventId>)
      modifies this`outbox, queue
      ensures RelayedBatch(old(outbox), limit, batch) && claimed == |batch|
      ensures queue.messages == old(queue.messages) + Accepted(batch, accepts)
      ensures published == |Accepted(batch, accepts)|
      ensures View() == MarkTx(old(View()), set e | e in Accepted(batch, accepts))
      ensures |outbox| == old(|outbox|)
      ensures forall e :: 0 <= e < |outbox| ==>
                outbox[e] == old(outbox)[e].(published := old(outbox)[e].published || (e in batch && accepts(e)))
    {
      var events := SelectUnpublished(limit);
      batch, claimed := events, |events|;
      published := PublishAll(queue, events, accepts);
      AcceptedAreTheConfirmed(batch, accepts);
    }

    /** The publishing loop: a refused send is skipped, a confirmed one is marked. */
    method PublishAll(queue: Queue, batch: seq<EventId>, accepts: EventId -> bool) returns (published: nat)
      requires forall e :: e in batch ==> e < |outbox|
      modifies this`outbox, queue
      ensures queue.messages == old(queue.messages) + Accepted(batch, accepts)
      ensures published == |Accepted(batch, accepts)|
      ensures View() == MarkTx(old(View()), set e | e in Accepted(batch, accepts))
    {
      ghost var before := View();
      published := 0;
      var i := 0;
      assert batch[..0] == [];
      while i < |batch|
        invariant 0 <= i <= |batch|
        invariant queue.messages == old(queue.messages) + Accepted(batch[..i], accepts)
        invariant published == |Accepted(batch[..i], accepts)|
        invariant Marked(before.outbox, outbox, Accepted(batch[..i], accepts))
        modifies this`outbox, queue
      {
        ghost var sent := Accepted(batch[..i], accepts);
        AcceptedExtends(batch, i, accepts);
        assert batch[i] in batch;
        var confirmed := queue.Publish(batch[i], accepts(batch[i]));
        if confirmed {
          MarkOneMore(before.outbox, outbox, sent, batch[i]);
          outbox := outbox[batch[i] := outbox[batch[i]].(published := true)];
          published := published + 1;
        }
        i := i + 1;
      }
      assert batch[..i] == batch;
      MarkedIsMarkTx(before, outbox, Accepted(batch, accepts));
    }

    method SelectUnpublished(limit: nat) returns (batch: seq<EventId>)
      ensures RelayedBatch(outbox, limit, batch)
    {
      batch := [];
      var e := 0;
      while e < |outbox| && |batch| < limit
        invariant 0 <= e <= |outbox| && |batch| <= limit
        invariant forall i, j :: 0 <= i < j < |batch| ==> batch[i] < batch[j]
        invariant forall i :: 0 <= i < |batch| ==> batch[i] < e
        invariant forall f: nat :: f in batch <==> f < e && !outbox[f].published
      {
        if !outbox[e].published {
          batch := batch + [e];
        }
        e := e + 1;
      }
    }
  }

  /** `after` is `before` with the events in `sent` published. */
  ghost predicate Marked(before: seq<OutboxEvent>, after: seq<OutboxEvent>, sent: seq<EventId>) {
    && |after| == |before|
    && (forall e :: 0 <= e < |after| ==>
          after[e] == if e in sent then before[e].(published := true) else before[e])
  }

  lemma MarkedIsMarkTx(before: Db, after: seq<OutboxEvent>, sent: seq<EventId>)
    requires Marked(before.outbox, after, sent)
    ensures before.(outbox := after) == MarkTx(before, set e | e in sent)
  {
    assert after == MarkTx(before, set e | e in sent).outbox;
  }

  lemma AcceptedExtends(batch: seq<EventId>, i: nat, accepts: EventId -> bool)
    requires i < |batch|
    ensures Accepted(batch[..i + 1], accepts)
         == Accepted(batch[..i], accepts) + (if accepts(batch[i]) then [batch[i]] else [])
  {
    assert batch[..i + 1][..i] == batch[..i];
  }

  lemma MarkOneMore(before: seq<OutboxEvent>, after: seq<OutboxEvent>, sent: seq<EventId>, e: EventId)
    requires Marked(before, after, sent) && e < |after|
    ensures Marked(before, after[e := after[e].(published := true)], sent + [e])
  {
  }

  /** `batch` is the oldest unpublished events in order, `limit` of them unless there are fewer. */
  ghost predicate RelayedBatch(outbox: seq<OutboxEvent>, limit: nat, batch: seq<EventId>) {
    && |batch| <= limit
    && (forall i, j :: 0 <= i < j < |batch| ==> batch[i] < batch[j])
    && (forall e :: e in batch ==> e < |outbox| && !outbox[e].published)
    && (forall e :: 0 <= e < |outbox| && !outbox[e].published && e !in batch
          ==> |batch| == limit && forall f :: f in batch ==> f < e)
  }

  /** The events of a batch whose send the queue confirmed. */
  function Accepted(batch: seq<EventId>, accepts: EventId -> bool): seq<EventId> {
    if batch == [] then []
    else
      var n := |batch| - 1;
      Accepted(batch[..n], accepts) + (if accepts(batch[n]) then [batch[n]] else [])
  }

  /** They are the confirmed members of the batch. */
  lemma {:induction false} AcceptedAreTheConfirmed(batch: seq<EventId>, accepts: EventId -> bool)
    ensures forall e :: e in Accepted(batch, accepts) <==> e in batch && accepts(e)
  {
    if batch != [] {
      var n := |batch| - 1;
      AcceptedAreTheConfirmed(batch[..n], accepts);
      assert batch == batch[..n] + [batch[n]];
      forall e ensures e in Accepted(batch, accepts) <==> e in batch && accepts(e) {
        assert e in batch <==> e in batch[..n] || e == batch[n];
      }
    }
  }

  /** They keep the order of the batch. */
  lemma {:induction false} AcceptedKeepOrder(batch: seq<EventId>, accepts: EventId -> bool)
    requires forall i, j :: 0 <= i < j < |batch| ==> batch[i] < batch[j]
    ensures forall i, j :: 0 <= i < j < |Accepted(batch, accepts)| ==> Accepted(batch, accepts)[i] < Accepted(batch, accepts)[j]
  {
    if batch != [] {
      var n := |batch| - 1;
      AcceptedKeepOrder(batch[..n], accepts);
      AcceptedAreTheConfirmed(batch[..n], accepts);
      var rest := Accepted(batch[..n], accepts);
      assert forall i :: 0 <= i < |rest| ==> rest[i] in batch[..n];
    }
  }

  /** The sending side of the queue: confirmed messages persist. */
  class Queue {
    var messages: seq<EventId>

    constructor ()
      ensures messages == []
    {
      messages := [];
    }

    method Publish(event: EventId, up: bool) returns (confirmed: bool)
      modifies this
      ensures confirmed == up && messages == if up then old(messages) + [event] else old(messages)
    {
      if up {
        messages := messages + [event];
      }
      confirmed := up;
    }
  }
}
