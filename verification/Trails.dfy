/** What the outbox and the audit log say about the rows: tenants of events, and one entry for every finish. */
module Trails {
  import opened Tables
  import opened Transactions
  import opened RowInvariants
  import opened Intake
  import opened Protocol
  import opened ProtocolInvariants
  import opened WorkflowTheorems
  import opened FinishLaws

  // ---------------------------------------------------------------- tenants

  /** Every event and every audit entry carries the tenant of its request. */
  ghost predicate TenantsOk(db: Db) {
    && (forall e :: 0 <= e < |db.outbox| ==> EventTenantOk(db, db.outbox[e]))
    && (forall a :: 0 <= a < |db.audit| ==> EntryTenantOk(db, db.audit[a]))
  }

  ghost predicate EventTenantOk(db: Db, event: OutboxEvent) {
    event.body.request < |db.requests| && event.tenant == db.requests[event.body.request].tenant
  }

  ghost predicate EntryTenantOk(db: Db, entry: AuditEntry) {
    entry.request < |db.requests| && entry.tenant == db.requests[entry.request].tenant
  }

  /** `db'` keeps the tenants of requests, and its further events and entries carry their request's tenant. */
  ghost predicate ExtendsTenants(db: Db, db': Db) {
    && |db.requests| <= |db'.requests| && |db.outbox| <= |db'.outbox| && |db.audit| <= |db'.audit|
    && (forall r :: 0 <= r < |db.requests| ==> db'.requests[r].tenant == db.requests[r].tenant)
    && (forall e :: 0 <= e < |db.outbox| ==>
          db'.outbox[e].tenant == db.outbox[e].tenant && db'.outbox[e].body == db.outbox[e].body)
    && (forall e :: |db.outbox| <= e < |db'.outbox| ==> EventTenantOk(db', db'.outbox[e]))
    && (forall a :: 0 <= a < |db.audit| ==> db'.audit[a] == db.audit[a])
    && (forall a :: |db.audit| <= a < |db'.audit| ==> EntryTenantOk(db', db'.audit[a]))
  }

  lemma TenantsExtend(db: Db, db': Db)
    requires TenantsOk(db) && ExtendsTenants(db, db')
    ensures TenantsOk(db')
  {
    forall e | 0 <= e < |db'.outbox| ensures EventTenantOk(db', db'.outbox[e]) {
      assert e < |db.outbox| ==> EventTenantOk(db, db.outbox[e]);
    }
    forall a | 0 <= a < |db'.audit| ensures EntryTenantOk(db', db'.audit[a]) {
      assert a < |db.audit| ==> EntryTenantOk(db, db.audit[a]);
    }
  }

  lemma InsertTenants(s: State, c: nat)
    ensures ExtendsTenants(s.db, InsertCall(s, c).db)
  {
  }

  lemma RefreshTenants(s: State, h: nat)
    ensures ExtendsTenants(s.db, RefreshParent(s, h).db)
  {
  }

  lemma FinishTenants(config: Config, s: State, h: nat, outcome: Outcome)
    requires RowsOk(s.db)
    ensures ExtendsTenants(s.db, FinishTask(config, s, h, outcome).db)
  {
    if CanFinish(s, h) {
      assert TaskOk(s.db.requests, s.db.tasks[s.handlers[h].phase.task]);
    }
  }

  lemma ClaimMessageTenants(config: Config, s: State, h: nat)
    ensures ExtendsTenants(s.db, ClaimForMessage(config, s, h).db)
  {
  }

  lemma PollTenants(config: Config, s: State, worker: WorkerId, t: TaskId)
    ensures ExtendsTenants(s.db, PollTask(config, s, worker, t).db)
  {
  }

  lemma OtherTenants(config: Config, s: State, step: Step)
    requires !step.Insert? && !step.Refresh? && !step.Finish? && !step.ClaimMessage? && !step.Poll?
    ensures ExtendsTenants(s.db, Apply(config, s, step).db)
  {
    if step.CommitRelay? {
      CommitRelayApplies(config, s, step);
    }
  }

  lemma StepKeepsTenants(config: Config, s: State, step: Step)
    requires RowsOk(s.db) && TenantsOk(s.db)
    ensures TenantsOk(Apply(config, s, step).db)
  {
    if step.Insert? {
      InsertApplies(config, s, step);
      InsertTenants(s, step.call);
    } else if step.Refresh? {
      RefreshApplies(config, s, step);
      RefreshTenants(s, step.handler);
    } else if step.Finish? {
      FinishApplies(config, s, step);
      FinishTenants(config, s, step.handler, step.outcome);
    } else if step.ClaimMessage? {
      ClaimMessageApplies(config, s, step);
      ClaimMessageTenants(config, s, step.handler);
    } else if step.Poll? {
      PollApplies(config, s, step);
      PollTenants(config, s, step.worker, step.task);
    } else {
      OtherTenants(config, s, step);
    }
    TenantsExtend(s.db, Apply(config, s, step).db);
  }

  // ---------------------------------------------------------------- one audit entry for every finish

  predicate RecordsFinish(entry: AuditEntry, r: RequestId, source: string) {
    entry.request == r && entry.action.TaskFinished? && entry.action.source == source
  }

  /** How many finishes of a task the log records; a task is named by its request and source. */
  function CountFinishes(audit: seq<AuditEntry>, r: RequestId, source: string): nat {
    if audit == [] then 0
    else CountFinishes(audit[..|audit| - 1], r, source) + (if RecordsFinish(audit[|audit| - 1], r, source) then 1 else 0)
  }

  /** The latest of them. */
  function LastFinish(audit: seq<AuditEntry>, r: RequestId, source: string): Option<AuditEntry> {
    if audit == [] then None
    else if RecordsFinish(audit[|audit| - 1], r, source) then Some(audit[|audit| - 1])
    else LastFinish(audit[..|audit| - 1], r, source)
  }

  /**
   As many entries as finishes.  The last one carries the outcome, the attempt and the error of the task as
   it was left; while the task runs again, that outcome was a retry.
   */
  ghost predicate TrailOk(audit: seq<AuditEntry>, task: Task, finishes: nat) {
    && CountFinishes(audit, task.request, task.source) == finishes
    && (match LastFinish(audit, task.request, task.source)
        case None => finishes == 0 && !task.status.Terminal() && task.error.None?
        case Some(entry) =>
          && finishes > 0 && entry.tenant == task.tenant && entry.action.TaskFinished? && entry.action.error == task.error
          && entry.action.outcome == (if task.status.Running? then Pending else task.status)
          && entry.action.attempt <= task.attempt
          && (!task.status.Running? ==> entry.action.attempt == task.attempt))
  }

  ghost predicate TrailsOk(s: State) {
    |s.finishes| == |s.db.tasks| && forall t :: 0 <= t < |s.db.tasks| ==> TrailOk(s.db.audit, s.db.tasks[t], s.finishes[t])
  }

  lemma UnrelatedEntry(audit: seq<AuditEntry>, entry: AuditEntry, r: RequestId, source: string)
    requires !RecordsFinish(entry, r, source)
    ensures CountFinishes(audit + [entry], r, source) == CountFinishes(audit, r, source)
    ensures LastFinish(audit + [entry], r, source) == LastFinish(audit, r, source)
  {
    assert (audit + [entry])[..|audit|] == audit;
  }

  lemma RelatedEntry(audit: seq<AuditEntry>, entry: AuditEntry, r: RequestId, source: string)
    requires RecordsFinish(entry, r, source)
    ensures CountFinishes(audit + [entry], r, source) == CountFinishes(audit, r, source) + 1
    ensures LastFinish(audit + [entry], r, source) == Some(entry)
  {
    assert (audit + [entry])[..|audit|] == audit;
  }

  lemma {:induction false} NoEntryYet(audit: seq<AuditEntry>, r: RequestId, source: string)
    requires forall a :: 0 <= a < |audit| ==> audit[a].request != r
    ensures CountFinishes(audit, r, source) == 0 && LastFinish(audit, r, source).None?
  {
    if audit != [] {
      NoEntryYet(audit[..|audit| - 1], r, source);
    }
  }

  /** What a step other than a finish may append. */
  ghost predicate AppendsNoFinish(audit: seq<AuditEntry>, audit': seq<AuditEntry>) {
    || audit' == audit
    || (|audit'| == |audit| + 1 && audit'[..|audit|] == audit && !audit'[|audit|].action.TaskFinished?)
  }

  lemma AppendedInsert(s: State, c: nat)
    ensures AppendsNoFinish(s.db.audit, InsertCall(s, c).db.audit)
  {
    if c < |s.calls| && s.calls[c].phase.Inserting? && FindKey(s.db.requests, s.calls[c].tenant, s.calls[c].key).None? {
      assert |InsertCall(s, c).db.audit| == |s.db.audit| + 1;
    }
  }

  lemma AppendedRefresh(s: State, h: nat)
    ensures AppendsNoFinish(s.db.audit, RefreshParent(s, h).db.audit)
  {
  }

  lemma OthersLeaveAudit(config: Config, s: State, step: Step)
    requires !step.Insert? && !step.Refresh? && !step.Finish?
    ensures Apply(config, s, step).db.audit == s.db.audit
  {
  }

  lemma AppendedByStep(config: Config, s: State, step: Step)
    requires !step.Finish?
    ensures AppendsNoFinish(s.db.audit, Apply(config, s, step).db.audit)
  {
    if step.Insert? {
      InsertApplies(config, s, step);
      AppendedInsert(s, step.call);
    } else if step.Refresh? {
      RefreshApplies(config, s, step);
      AppendedRefresh(s, step.handler);
    } else {
      OthersLeaveAudit(config, s, step);
    }
  }

  lemma NoFinishAppended(config: Config, s: State, step: Step)
    requires !(step.Finish? && CanFinish(s, step.handler))
    ensures AppendsNoFinish(s.db.audit, Apply(config, s, step).db.audit)
  {
    if step.Finish? {
      FinishApplies(config, s, step);
    } else {
      AppendedByStep(config, s, step);
    }
  }

  lemma TrailFrame(audit: seq<AuditEntry>, audit': seq<AuditEntry>, task: Task, finishes: nat)
    requires TrailOk(audit, task, finishes) && AppendsNoFinish(audit, audit')
    ensures TrailOk(audit', task, finishes)
  {
    if audit' != audit {
      assert audit' == audit + [audit'[|audit|]];
      UnrelatedEntry(audit, audit'[|audit|], task.request, task.source);
    }
  }

  /** Claims and heartbeats leave the trail of a task as it is. */
  lemma UnfinishedWrite(config: Config, s: State, step: Step, t: TaskId, after: Task)
    requires t < |s.db.tasks| && t < |s.finishes| && TrailOk(s.db.audit, s.db.tasks[t], s.finishes[t])
    requires TaskWrite(config, s, step, t, after)
    requires !(step.Finish? && CanFinish(s, step.handler) && s.handlers[step.handler].phase.task == t)
    ensures TrailOk(s.db.audit, after, s.finishes[t])
  {
  }

  lemma FinishesKept(config: Config, s: State, step: Step, t: TaskId)
    requires t < |s.finishes| && !(step.Finish? && CanFinish(s, step.handler) && s.handlers[step.handler].phase.task == t)
    ensures t < |Apply(config, s, step).finishes| && Apply(config, s, step).finishes[t] == s.finishes[t]
  {
  }

  lemma FinishAppends(config: Config, s: State, h: nat, outcome: Outcome)
    requires CanFinish(s, h) && s.handlers[h].phase.task < |s.finishes|
    ensures var s', t := Apply(config, s, Finish(h, outcome)), s.handlers[h].phase.task;
      && t < |s'.db.tasks| && t < |s'.finishes| && s'.finishes[t] == s.finishes[t] + 1
      && (var after := s'.db.tasks[t];
          s'.db.audit == s.db.audit + [AuditEntry(after.tenant, after.request,
            TaskFinished(after.source, after.status, s.handlers[h].phase.loaded, after.error))])
  {
    FinishApplies(config, s, Finish(h, outcome));
  }

  /** The finish of another task records that other task. */
  lemma OtherFinish(config: Config, s: State, h: nat, outcome: Outcome, t: TaskId)
    requires CreationOk(s.db) && CanFinish(s, h) && s.handlers[h].phase.task < |s.finishes|
    requires t < |s.db.tasks| && t != s.handlers[h].phase.task && t < |s.finishes|
    requires TrailOk(s.db.audit, s.db.tasks[t], s.finishes[t])
    ensures TrailOk(Apply(config, s, Finish(h, outcome)).db.audit, s.db.tasks[t], s.finishes[t])
  {
    FinishAppends(config, s, h, outcome);
    FinishedRow(config, s, h, outcome);
    var u, s' := s.handlers[h].phase.task, Apply(config, s, Finish(h, outcome));
    var entry := s'.db.audit[|s.db.audit|];
    assert s'.db.tasks[u].request == s.db.tasks[u].request && s'.db.tasks[u].source == s.db.tasks[u].source;
    assert !RecordsFinish(entry, s.db.tasks[t].request, s.db.tasks[t].source);
    UnrelatedEntry(s.db.audit, entry, s.db.tasks[t].request, s.db.tasks[t].source);
  }

  lemma OtherRow(config: Config, s: State, h: nat, outcome: Outcome, t: TaskId)
    requires CanFinish(s, h) && t < |s.db.tasks| && t != s.handlers[h].phase.task
    ensures t < |Apply(config, s, Finish(h, outcome)).db.tasks|
    ensures Apply(config, s, Finish(h, outcome)).db.tasks[t] == s.db.tasks[t]
  {
    FinishedRow(config, s, h, outcome);
  }

  lemma OwnFinish(config: Config, s: State, h: nat, outcome: Outcome)
    requires HandlersOk(s) && CanFinish(s, h) && DisciplinedStep(s, Finish(h, outcome)) && s.handlers[h].phase.task < |s.finishes|
    requires var t := s.handlers[h].phase.task; TrailOk(s.db.audit, s.db.tasks[t], s.finishes[t])
    ensures var s', t := Apply(config, s, Finish(h, outcome)), s.handlers[h].phase.task;
      t < |s'.db.tasks| && t < |s'.finishes| && TrailOk(s'.db.audit, s'.db.tasks[t], s'.finishes[t])
  {
    FinisherHolds(s, h, outcome);
    FinishAppends(config, s, h, outcome);
    FinishedRow(config, s, h, outcome);
    FinishReleases(config, s, h, outcome);
    var s', t := Apply(config, s, Finish(h, outcome)), s.handlers[h].phase.task;
    RelatedEntry(s.db.audit, s'.db.audit[|s.db.audit|], s.db.tasks[t].request, s.db.tasks[t].source);
  }

  /** The trail of a task that existed before. */
  lemma OldTrail(config: Config, s: State, step: Step, t: TaskId)
    requires Inv(config, s) && TrailsOk(s) && DisciplinedStep(s, step) && t < |s.db.tasks|
    ensures var s' := Apply(config, s, step);
      t < |s'.db.tasks| && t < |s'.finishes| && TrailOk(s'.db.audit, s'.db.tasks[t], s'.finishes[t])
  {
    var s' := Apply(config, s, step);
    assert TrailOk(s.db.audit, s.db.tasks[t], s.finishes[t]);
    TaskWrites(config, s, step, t);
    if step.Finish? && CanFinish(s, step.handler) {
      if s.handlers[step.handler].phase.task == t {
        OwnFinish(config, s, step.handler, step.outcome);
      } else {
        OtherFinish(config, s, step.handler, step.outcome, t);
        OtherRow(config, s, step.handler, step.outcome, t);
        FinishesKept(config, s, step, t);
      }
    } else {
      UnfinishedWrite(config, s, step, t, s'.db.tasks[t]);
      FinishesKept(config, s, step, t);
      NoFinishAppended(config, s, step);
      TrailFrame(s.db.audit, s'.db.audit, s'.db.tasks[t], s.finishes[t]);
    }
  }

  lemma NewRow(config: Config, s: State, step: Step, t: TaskId)
    requires |s.db.tasks| == |s.finishes| && |s.db.tasks| <= t < |Apply(config, s, step).db.tasks|
    ensures var s' := Apply(config, s, step);
      && s'.db.tasks[t].request == |s.db.requests| && s'.db.tasks[t].status.Pending? && s'.db.tasks[t].error.None?
      && t < |s'.finishes| && s'.finishes[t] == 0
  {
    if step.Insert? {
      InsertApplies(config, s, step);
    }
  }

  /** A task that was just created has no entry. */
  lemma NewTrail(config: Config, s: State, step: Step, t: TaskId)
    requires Inv(config, s) && |s.finishes| == |s.db.tasks| <= t < |Apply(config, s, step).db.tasks|
    ensures var s' := Apply(config, s, step);
      t < |s'.finishes| && TrailOk(s'.db.audit, s'.db.tasks[t], s'.finishes[t])
  {
    var s' := Apply(config, s, step);
    NewRow(config, s, step, t);
    NoEntryYet(s.db.audit, |s.db.requests|, s'.db.tasks[t].source);
    if step.Finish? {
      NewTasksPending(config, s, step, t);
      FinishApplies(config, s, step);
    } else {
      AppendedByStep(config, s, step);
      TrailFrame(s.db.audit, s'.db.audit, s'.db.tasks[t], 0);
    }
  }

  lemma StepKeepsTrails(config: Config, s: State, step: Step)
    requires Inv(config, s) && TrailsOk(s) && DisciplinedStep(s, step)
    ensures TrailsOk(Apply(config, s, step))
  {
    var s' := Apply(config, s, step);
    StepKeepsInv(config, s, step);
    forall t | 0 <= t < |s'.db.tasks| ensures t < |s'.finishes| && TrailOk(s'.db.audit, s'.db.tasks[t], s'.finishes[t]) {
      if t < |s.db.tasks| {
        OldTrail(config, s, step, t);
      } else {
        NewTrail(config, s, step, t);
      }
    }
  }

  // ---------------------------------------------------------------- theorems

  lemma {:induction false} RunKeepsTrails(config: Config, s: State, steps: seq<Step>)
    requires Inv(config, s) && TrailsOk(s) && TenantsOk(s.db) && Disciplined(config, s, steps)
    ensures TrailsOk(Run(config, s, steps)) && TenantsOk(Run(config, s, steps).db)
    decreases |steps|
  {
    if steps != [] {
      StepKeepsInv(config, s, steps[0]);
      StepKeepsTrails(config, s, steps[0]);
      StepKeepsTenants(config, s, steps[0]);
      RunKeepsTrails(config, Apply(config, s, steps[0]), steps[1..]);
    }
  }

  lemma ReachableTrails(config: Config, s: State)
    requires Reachable(config, s)
    ensures TrailsOk(s) && TenantsOk(s.db)
  {
    var now: int, steps: seq<Step> :|
      Disciplined(config, Initial(now), steps) && s == Run(config, Initial(now), steps);
    InitialInv(config, now);
    RunKeepsTrails(config, Initial(now), steps);
  }

  /** The audit log has exactly one entry for each finish of a task, and the last one tells how the task was left. */
  lemma EveryFinishIsAudited(config: Config, s: State, t: TaskId)
    requires Reachable(config, s) && t < |s.db.tasks|
    ensures t < |s.finishes| && CountFinishes(s.db.audit, s.db.tasks[t].request, s.db.tasks[t].source) == s.finishes[t]
    ensures var task := s.db.tasks[t]; var last := LastFinish(s.db.audit, task.request, task.source);
      && (task.status.Terminal() ==> last.Some?)
      && (last.Some? ==>
            && last.value.tenant == task.tenant && last.value.action.TaskFinished? && last.value.action.error == task.error
            && last.value.action.outcome == (if task.status.Running? then Pending else task.status)
            && last.value.action.attempt <= task.attempt
            && (!task.status.Running? ==> last.value.action.attempt == task.attempt))
  {
    ReachableTrails(config, s);
    assert TrailOk(s.db.audit, s.db.tasks[t], s.finishes[t]);
  }

  /** Every outbox event and every audit entry carries the tenant of its request. */
  lemma EventsCarryTheirTenant(config: Config, s: State)
    requires Reachable(config, s)
    ensures forall e :: 0 <= e < |s.db.outbox| ==>
              && s.db.outbox[e].body.request < |s.db.requests|
              && s.db.outbox[e].tenant == s.db.requests[s.db.outbox[e].body.request].tenant
    ensures forall a :: 0 <= a < |s.db.audit| ==>
              && s.db.audit[a].request < |s.db.requests| && s.db.audit[a].tenant == s.db.requests[s.db.audit[a].request].tenant
  {
    ReachableTrails(config, s);
    assert forall e :: 0 <= e < |s.db.outbox| ==> EventTenantOk(s.db, s.db.outbox[e]);
    assert forall a :: 0 <= a < |s.db.audit| ==> EntryTenantOk(s.db, s.db.audit[a]);
  }
}
