/**
 Deletion conservation for the database backend: what the delete receipts claim is what is soft-deleted.
 */
module DeletionLedger {
  import opened Tables
  import opened Transactions
  import opened RowInvariants
  import opened Evolution
  import opened Protocol
  import opened ProtocolInvariants
  import opened WorkflowTheorems
  import opened IntakeTheorems

  /** The deletions in `scope` that one task's receipt claims. */
  function ReceiptShare(requests: seq<Request>, task: Task, scope: Triple): int {
    if task.request < |requests| && requests[task.request].kind.Delete? && task.status.Succeeded?
       && task.tenant == scope.tenant && requests[task.request].subject == scope.subject && task.source == scope.source
       && task.receipt.Receipt? && task.receipt.deletedCount.Some?
    then task.receipt.deletedCount.value
    else 0
  }

  /** The sum of the deleted counts in the succeeded delete receipts for `scope`. */
  function Receipts(requests: seq<Request>, tasks: seq<Task>, scope: Triple): int {
    if tasks == [] then 0
    else Receipts(requests, tasks[..|tasks| - 1], scope) + ReceiptShare(requests, tasks[|tasks| - 1], scope)
  }

  /** Receipts and records agree for every tenant, subject and source. */
  ghost predicate LedgerOk(db: Db) {
    forall scope :: Receipts(db.requests, db.tasks, scope) == CountDeleted(db.records, scope)
  }

  lemma {:induction false} ReceiptsFrame(
    requests: seq<Request>, a: seq<Task>, requests': seq<Request>, b: seq<Task>, scope: Triple)
    requires |a| <= |b|
    requires forall t :: 0 <= t < |a| ==> ReceiptShare(requests, a[t], scope) == ReceiptShare(requests', b[t], scope)
    requires forall t :: |a| <= t < |b| ==> ReceiptShare(requests', b[t], scope) == 0
    ensures Receipts(requests, a, scope) == Receipts(requests', b, scope)
    decreases |b|
  {
    if |b| > |a| {
      ReceiptsFrame(requests, a, requests', b[..|b| - 1], scope);
    } else if |a| > 0 {
      ReceiptsFrame(requests, a[..|a| - 1], requests', b[..|b| - 1], scope);
    }
  }

  lemma {:induction false} ReceiptsUpdate(
    requests: seq<Request>, a: seq<Task>, requests': seq<Request>, b: seq<Task>, t: TaskId, scope: Triple)
    requires |a| == |b| && t < |a|
    requires forall u :: 0 <= u < |a| && u != t ==> ReceiptShare(requests, a[u], scope) == ReceiptShare(requests', b[u], scope)
    ensures Receipts(requests', b, scope)
         == Receipts(requests, a, scope) - ReceiptShare(requests, a[t], scope) + ReceiptShare(requests', b[t], scope)
  {
    var n := |a| - 1;
    if t < n {
      ReceiptsUpdate(requests, a[..n], requests', b[..n], t, scope);
    } else {
      ReceiptsFrame(requests, a[..n], requests', b[..n], scope);
    }
  }

  lemma {:induction false} LiveRecordsAddNothing(records: seq<Record>, record: Record, scope: Triple)
    requires !record.deleted
    ensures CountDeleted(records + [record], scope) == CountDeleted(records, scope)
  {
    assert (records + [record])[..|records|] == records;
  }

  // ---------------------------------------------------------------- steps

  /** No task became a success, no record was deleted: the books stay balanced. */
  lemma QuietKeepsLedger(db: Db, db': Db)
    requires RowsOk(db) && LedgerOk(db) && Evolves(db, db') && db'.records == db.records
    requires forall t :: 0 <= t < |db.tasks| && !db.tasks[t].status.Terminal() ==> !db'.tasks[t].status.Succeeded?
    requires forall t :: |db.tasks| <= t < |db'.tasks| ==> !db'.tasks[t].status.Succeeded?
    ensures LedgerOk(db')
  {
    forall scope ensures Receipts(db'.requests, db'.tasks, scope) == CountDeleted(db'.records, scope) {
      forall t | 0 <= t < |db.tasks|
        ensures ReceiptShare(db.requests, db.tasks[t], scope) == ReceiptShare(db'.requests, db'.tasks[t], scope)
      {
        assert TaskOk(db.requests, db.tasks[t]);
      }
      ReceiptsFrame(db.requests, db.tasks, db'.requests, db'.tasks, scope);
    }
  }

  /** A finish either deletes exactly what its receipt claims, or neither deletes nor claims. */
  lemma FinishKeepsLedger(config: Config, db: Db, t: TaskId, loaded: nat, outcome: Outcome)
    requires !config.regional && RowsOk(db) && LedgerOk(db) && t < |db.tasks| && db.tasks[t].status.Running?
    ensures LedgerOk(FinishTx(config, db, t, loaded, outcome))
  {
    var db' := FinishTx(config, db, t, loaded, outcome);
    assert TaskOk(db.requests, db.tasks[t]);
    forall scope ensures Receipts(db'.requests, db'.tasks, scope) == CountDeleted(db'.records, scope) {
      forall u | 0 <= u < |db.tasks| && u != t
        ensures ReceiptShare(db.requests, db.tasks[u], scope) == ReceiptShare(db'.requests, db'.tasks[u], scope)
      {
        assert TaskOk(db.requests, db.tasks[u]);
      }
      ReceiptsUpdate(db.requests, db.tasks, db'.requests, db'.tasks, t, scope);
      MarkDeletedCounts(db.records, ScopeOf(db.requests, db.tasks[t]), scope);
    }
  }

  lemma AddRecordKeepsLedger(db: Db, record: Record)
    requires LedgerOk(db) && !record.deleted
    ensures LedgerOk(db.(records := db.records + [record]))
  {
    forall scope ensures CountDeleted(db.records + [record], scope) == CountDeleted(db.records, scope) {
      LiveRecordsAddNothing(db.records, record, scope);
    }
  }

  lemma StepKeepsLedger(config: Config, s: State, step: Step)
    requires !config.regional && Inv(config, s) && LedgerOk(s.db) && DisciplinedStep(s, step)
    ensures LedgerOk(Apply(config, s, step).db)
  {
    if step.Finish? {
      FinishApplies(config, s, step);
      FinishStepKeepsLedger(config, s, step.handler, step.outcome);
    } else if step.AddRecord? {
      AddRecordKeepsLedger(s.db, Record(step.tenant, step.subject, step.source, false));
    } else {
      StepKeepsDb(config, s, step);
      OnlyFinishesSucceed(config, s, step);
      QuietKeepsLedger(s.db, Apply(config, s, step).db);
    }
  }

  lemma FinishStepKeepsLedger(config: Config, s: State, h: nat, outcome: Outcome)
    requires !config.regional && Inv(config, s) && LedgerOk(s.db) && DisciplinedStep(s, Finish(h, outcome))
    ensures LedgerOk(FinishTask(config, s, h, outcome).db)
  {
    if CanFinish(s, h) {
      FinisherHolds(s, h, outcome);
      FinishKeepsLedger(BackendOf(config, s.handlers[h]), s.db, s.handlers[h].phase.task, s.handlers[h].phase.loaded, outcome);
    }
  }

  lemma OnlyFinishesSucceed(config: Config, s: State, step: Step)
    requires !step.Finish? && !step.AddRecord?
    ensures var db' := Apply(config, s, step).db;
      && db'.records == s.db.records && |s.db.tasks| <= |db'.tasks|
      && (forall t :: 0 <= t < |s.db.tasks| && !s.db.tasks[t].status.Terminal() ==> !db'.tasks[t].status.Succeeded?)
      && (forall t :: |s.db.tasks| <= t < |db'.tasks| ==> !db'.tasks[t].status.Succeeded?)
  {
    if step.Insert? {
      InsertApplies(config, s, step);
      InsertStartsPending(s, step.call);
    } else {
      forall t | 0 <= t < |s.db.tasks| && !s.db.tasks[t].status.Terminal()
        ensures t < |Apply(config, s, step).db.tasks| && !Apply(config, s, step).db.tasks[t].status.Succeeded?
      {
        TaskWrites(config, s, step, t);
      }
      OnlyInsertAdds(config, s, step);
    }
  }

  lemma InsertStartsPending(s: State, c: nat)
    ensures var db' := InsertCall(s, c).db;
      && db'.records == s.db.records && |s.db.tasks| <= |db'.tasks|
      && (forall t :: 0 <= t < |s.db.tasks| ==> db'.tasks[t] == s.db.tasks[t])
      && (forall t :: |s.db.tasks| <= t < |db'.tasks| ==> db'.tasks[t].status.Pending?)
  {
  }

  lemma OnlyInsertAdds(config: Config, s: State, step: Step)
    requires !step.Insert? && !step.Finish? && !step.AddRecord?
    ensures |Apply(config, s, step).db.tasks| == |s.db.tasks| && Apply(config, s, step).db.records == s.db.records
  {
  }

  lemma {:induction false} RunKeepsLedger(config: Config, s: State, steps: seq<Step>)
    requires !config.regional && Inv(config, s) && LedgerOk(s.db) && Disciplined(config, s, steps)
    ensures LedgerOk(Run(config, s, steps).db)
    decreases |steps|
  {
    if steps != [] {
      StepKeepsInv(config, s, steps[0]);
      StepKeepsLedger(config, s, steps[0]);
      RunKeepsLedger(config, Apply(config, s, steps[0]), steps[1..]);
    }
  }

  // ---------------------------------------------------------------- theorems

  /** Over any run the delete receipts of a scope add up to its soft-deleted records. */
  lemma DeletionConservation(config: Config, s: State, scope: Triple)
    requires !config.regional && Reachable(config, s)
    ensures Receipts(s.db.requests, s.db.tasks, scope) == CountDeleted(s.db.records, scope)
  {
    var now: int, steps: seq<Step> :|
      Disciplined(config, Initial(now), steps) && s == Run(config, Initial(now), steps);
    InitialInv(config, now);
    assert LedgerOk(Initial(now).db);
    RunKeepsLedger(config, Initial(now), steps);
  }

  /** Only a finish of a delete task writes records, and only those of its tenant, subject and source. */
  lemma OnlyOwnScopeIsDeleted(config: Config, s: State, step: Step, i: nat)
    requires i < |s.db.records|
    ensures i < |Apply(config, s, step).db.records|
    ensures Apply(config, s, step).db.records[i] != s.db.records[i] ==>
              && step.Finish? && CanFinish(s, step.handler)
              && (var task := s.db.tasks[s.handlers[step.handler].phase.task]; var request := s.db.requests[task.request];
                  && request.kind.Delete?
                  && s.db.records[i].tenant == task.tenant
                  && s.db.records[i].subject == request.subject
                  && s.db.records[i].source == task.source
                  && Apply(config, s, step).db.records[i] == s.db.records[i].(deleted := true))
  {
    if step.Insert? {
      InsertStartsPending(s, step.call);
    } else if !step.Finish? && !step.AddRecord? {
      OnlyInsertAdds(config, s, step);
    }
  }

  /** Handler `h` is about to run a delete on the database. */
  ghost predicate RunsDelete(config: Config, s: State, h: nat) {
    && CanFinish(s, h) && !(config.regional && s.handlers[h].message.Some?)
    && s.db.requests[s.db.tasks[s.handlers[h].phase.task].request].kind.Delete?
  }

  /** A delete on the database deletes every record of its tenant, subject and source in its own transaction. */
  lemma DeletedAtSuccess(config: Config, s: State, h: nat, i: nat)
    requires RunsDelete(config, s, h) && i < |s.db.records|
    requires var task := s.db.tasks[s.handlers[h].phase.task];
      && s.db.records[i].tenant == task.tenant && s.db.records[i].subject == s.db.requests[task.request].subject
      && s.db.records[i].source == task.source
    ensures var db' := Apply(config, s, Finish(h, RanLocally)).db;
      i < |db'.records| && db'.records[i] == s.db.records[i].(deleted := true)
  {
  }

  /** Every record of the subject present when its delete task succeeds is deleted then, and stays deleted. */
  lemma DeletedForGood(config: Config, s: State, h: nat, steps: seq<Step>, i: nat)
    requires Reachable(config, s) && RunsDelete(config, s, h) && i < |s.db.records|
    requires var task := s.db.tasks[s.handlers[h].phase.task];
      && s.db.records[i].tenant == task.tenant && s.db.records[i].subject == s.db.requests[task.request].subject
      && s.db.records[i].source == task.source
    requires DisciplinedStep(s, Finish(h, RanLocally)) && Disciplined(config, Apply(config, s, Finish(h, RanLocally)), steps)
    ensures var s' := Run(config, Apply(config, s, Finish(h, RanLocally)), steps);
      i < |s'.db.records| && s'.db.records[i] == s.db.records[i].(deleted := true)
  {
    var mid := Apply(config, s, Finish(h, RanLocally));
    ReachableInv(config, s);
    StepKeepsInv(config, s, Finish(h, RanLocally));
    DeletedAtSuccess(config, s, h, i);
    StaysDeleted(config, mid, steps, i);
  }

  /**
   End to end: whoever was given delete request `r`, newly created or not, every record of the caller's
   tenant, the command's subject and a task's source that is present at that task's delete is deleted for good.
   */
  lemma CommandedRecordsAreDeleted(config: Config, s: State, c: nat, r: RequestId, h: nat, steps: seq<Step>, i: nat)
    requires Reachable(config, s) && Got(s, c, r) && s.calls[c].command.kind.Delete?
    requires CanFinish(s, h) && !(config.regional && s.handlers[h].message.Some?)
    requires var task := s.db.tasks[s.handlers[h].phase.task];
      && task.request == r && i < |s.db.records|
      && s.db.records[i].tenant == s.calls[c].tenant && s.db.records[i].subject == s.calls[c].command.subject
      && s.db.records[i].source == task.source
    requires DisciplinedStep(s, Finish(h, RanLocally)) && Disciplined(config, Apply(config, s, Finish(h, RanLocally)), steps)
    ensures s.db.tasks[s.handlers[h].phase.task].source in s.calls[c].command.sources
    ensures var s' := Run(config, Apply(config, s, Finish(h, RanLocally)), steps);
      i < |s'.db.records| && s'.db.records[i].deleted
  {
    CreatedAsCommanded(config, s, c, r);
    ReachableInv(config, s);
    assert TaskOk(s.db.requests, s.db.tasks[s.handlers[h].phase.task]);
    DeletedForGood(config, s, h, steps, i);
  }

  lemma StaysDeleted(config: Config, s: State, steps: seq<Step>, i: nat)
    requires Inv(config, s) && Disciplined(config, s, steps) && i < |s.db.records| && s.db.records[i].deleted
    ensures i < |Run(config, s, steps).db.records| && Run(config, s, steps).db.records[i] == s.db.records[i]
  {
    RunKeepsInv(config, s, steps);
  }

  /** A succeeded task, in either backend, holds verified evidence; a delete left nothing behind. */
  lemma SuccessHasEvidence(config: Config, s: State, t: TaskId)
    requires Reachable(config, s) && t < |s.db.tasks| && s.db.tasks[t].status.Succeeded?
    ensures s.db.tasks[t].request < |s.db.requests|
    ensures s.db.tasks[t].receipt.Receipt? && s.db.tasks[t].receipt.verified
    ensures s.db.requests[s.db.tasks[t].request].kind.Delete? ==> s.db.tasks[t].receipt.remainingCount == Some(0)
  {
    ReachableInv(config, s);
    assert TaskOk(s.db.requests, s.db.tasks[t]);
  }
}
