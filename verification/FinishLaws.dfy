/**
 What a finish does to its task, in terms of the outcome, the rows and the configuration alone: which
 outcomes succeed, what the receipts say, when a failure is retried, and where a success comes from.
 */
module FinishLaws {
  import opened Tables
  import opened Transactions
  import opened RowInvariants
  import opened Protocol
  import opened ProtocolInvariants
  import opened WorkflowTheorems

  /** The task that handler `h` executes. */
  function TaskOf(s: State, h: nat): Task
    requires CanFinish(s, h)
  {
    s.db.tasks[s.handlers[h].phase.task]
  }

  /** Handler `h` runs its task against a regional source; polling workers never do. */
  predicate OnRegion(config: Config, s: State, h: nat)
    requires CanFinish(s, h)
  {
    config.regional && s.handlers[h].message.Some?
  }

  /** The row of that task after its finish. */
  function RowAfter(config: Config, s: State, h: nat, outcome: Outcome): Task
    requires CanFinish(s, h)
  {
    var db' := Apply(config, s, Finish(h, outcome)).db;
    var t := s.handlers[h].phase.task;
    if t < |db'.tasks| then db'.tasks[t] else TaskOf(s, h)
  }

  lemma FinishedRow(config: Config, s: State, h: nat, outcome: Outcome)
    requires CanFinish(s, h)
    ensures var t, db' := s.handlers[h].phase.task, Apply(config, s, Finish(h, outcome)).db;
      && t < |db'.tasks| == |s.db.tasks|
      && db' == FinishTx(BackendOf(config, s.handlers[h]), s.db, t, s.handlers[h].phase.loaded, outcome)
  {
    FinishApplies(config, s, Finish(h, outcome));
  }

  // ---------------------------------------------------------------- success and failure

  /**
   On a region a finish succeeds exactly on a successful reply whose payload is verified and, for a delete,
   reports nothing remaining; on the database exactly when the run raised nothing.
   */
  lemma FinishSucceeds(config: Config, s: State, h: nat, outcome: Outcome)
    requires CanFinish(s, h)
    ensures var kind, after := s.db.requests[TaskOf(s, h).request].kind, RowAfter(config, s, h, outcome);
      && (OnRegion(config, s, h) ==>
            (after.status.Succeeded? <==>
              && outcome.Replied? && outcome.success && outcome.payload.Receipt? && outcome.payload.verified
              && (kind.Delete? ==> outcome.payload.remainingCount == Some(0))))
      && (!OnRegion(config, s, h) ==> (after.status.Succeeded? <==> outcome.RanLocally?))
      && (OnRegion(config, s, h) && after.status.Succeeded? ==> after.receipt == outcome.payload)
  {
    FinishedRow(config, s, h, outcome);
  }

  /** An error is retried exactly on a region and below the configured number of attempts; otherwise it is final. */
  lemma FailedFinish(config: Config, s: State, h: nat, outcome: Outcome)
    requires Reachable(config, s) && CanFinish(s, h) && DisciplinedStep(s, Finish(h, outcome))
    requires !RowAfter(config, s, h, outcome).status.Succeeded?
    ensures var before, after := TaskOf(s, h), RowAfter(config, s, h, outcome);
      && (OnRegion(config, s, h) && before.attempt < config.maxAttempts ==>
            after.status.Pending? && after.owner.None? && after.expires.None? && Claimable(after, s.now))
      && (!OnRegion(config, s, h) || config.maxAttempts <= before.attempt ==> after.status.Failed?)
      && after.attempt == before.attempt && after.receipt == before.receipt
  {
    ReachableInv(config, s);
    FinishedRow(config, s, h, outcome);
    FinisherHolds(s, h, outcome);
  }

  /** A success carries no error; a failure carries its message, cut at 2000 characters. */
  lemma FinishError(config: Config, s: State, h: nat, outcome: Outcome)
    requires CanFinish(s, h)
    ensures var after := RowAfter(config, s, h, outcome);
      && (after.status.Succeeded? <==> after.error.None?)
      && (outcome.Raised? ==>
            && after.error.Some? && after.error.value <= outcome.message
            && (|outcome.message| <= 2000 ==> after.error.value == outcome.message)
            && (|outcome.message| > 2000 ==> |after.error.value| == 2000))
  {
    FinishedRow(config, s, h, outcome);
  }

  /** Every finish gives the lease up without using an attempt, and marks the parent of a delete as verifying. */
  lemma FinishReleases(config: Config, s: State, h: nat, outcome: Outcome)
    requires CanFinish(s, h)
    ensures var before, after := TaskOf(s, h), RowAfter(config, s, h, outcome); var r := before.request;
      && !after.status.Running? && after.owner.None? && after.expires.None? && after.attempt == before.attempt
      && r < |Apply(config, s, Finish(h, outcome)).db.requests|
      && (var parent := Apply(config, s, Finish(h, outcome)).db.requests[r];
          if s.db.requests[r].kind.Delete? then parent == s.db.requests[r].(status := Verifying)
          else parent == s.db.requests[r])
  {
    FinishedRow(config, s, h, outcome);
  }

  // ---------------------------------------------------------------- receipts of the database backend

  /** An access on the database returns exactly the subject's live records at its source. */
  lemma AccessReceipt(config: Config, s: State, h: nat)
    requires CanFinish(s, h) && !OnRegion(config, s, h) && s.db.requests[TaskOf(s, h).request].kind.Access?
    ensures var task, after := TaskOf(s, h), RowAfter(config, s, h, RanLocally);
      && after.receipt.Receipt? && after.receipt.verified
      && ListsLiveRows(s.db.records, task.tenant, s.db.requests[task.request].subject, task.source, after.receipt.records)
  {
    FinishedRow(config, s, h, RanLocally);
    var task := TaskOf(s, h);
    ActiveIdsListLiveRows(s.db.records, Triple(task.tenant, s.db.requests[task.request].subject, task.source));
  }

  /** A delete on the database counts exactly the subject's live records at its source, and reports none remaining. */
  lemma DeleteReceipt(config: Config, s: State, h: nat)
    requires CanFinish(s, h) && !OnRegion(config, s, h) && s.db.requests[TaskOf(s, h).request].kind.Delete?
    ensures var task, after := TaskOf(s, h), RowAfter(config, s, h, RanLocally);
      && after.receipt.Receipt? && after.receipt.verified && after.receipt.remainingCount == Some(0)
      && (exists ids ::
            && ListsLiveRows(s.db.records, task.tenant, s.db.requests[task.request].subject, task.source, ids)
            && after.receipt.deletedCount == Some(|ids|))
  {
    FinishedRow(config, s, h, RanLocally);
    var task := TaskOf(s, h);
    var scope := Triple(task.tenant, s.db.requests[task.request].subject, task.source);
    ActiveIdsListLiveRows(s.db.records, scope);
    assert ListsLiveRows(s.db.records, task.tenant, scope.subject, task.source, ActiveIds(s.db.records, scope));
  }

  // ---------------------------------------------------------------- where successes come from

  lemma {:induction false} LastStep(config: Config, s: State, steps: seq<Step>)
    requires steps != [] && Disciplined(config, s, steps)
    ensures var n := |steps| - 1;
      && Disciplined(config, s, steps[..n]) && DisciplinedStep(Run(config, s, steps[..n]), steps[n])
      && Run(config, s, steps) == Apply(config, Run(config, s, steps[..n]), steps[n])
    decreases |steps|
  {
    var n := |steps| - 1;
    if n == 0 {
      assert steps[..0] == [] && steps[1..] == [];
      assert Run(config, Apply(config, s, steps[0]), []) == Apply(config, s, steps[0]);
    } else {
      assert steps[1..][..n - 1] == steps[..n][1..] && steps[1..][n - 1] == steps[n];
      LastStep(config, Apply(config, s, steps[0]), steps[1..]);
    }
  }

  /** Step `k` of the run is the finish to which task `t` owes its final row. */
  ghost predicate FinishedAt(config: Config, start: State, steps: seq<Step>, k: nat, t: TaskId) {
    && k < |steps| && steps[k].Finish? && Disciplined(config, start, steps[..k])
    && (var s := Run(config, start, steps[..k]);
        && DisciplinedStep(s, steps[k]) && CanFinish(s, steps[k].handler) && s.handlers[steps[k].handler].phase.task == t
        && t < |Run(config, start, steps).db.tasks|
        && Run(config, start, steps).db.tasks[t] == RowAfter(config, s, steps[k].handler, steps[k].outcome))
  }

  /** Every succeeded task owes its row to one finish in the run, and has kept it since. */
  lemma {:induction false} SuccessHasFinish(config: Config, now: int, steps: seq<Step>, t: TaskId) returns (k: nat)
    requires Disciplined(config, Initial(now), steps)
    requires var s := Run(config, Initial(now), steps); t < |s.db.tasks| && s.db.tasks[t].status.Succeeded?
    ensures FinishedAt(config, Initial(now), steps, k, t)
    decreases |steps|
  {
    assert steps != [];
    var n := |steps| - 1;
    var start := Initial(now);
    LastStep(config, start, steps);
    var before := Run(config, start, steps[..n]);
    InitialInv(config, now);
    RunKeepsInv(config, start, steps[..n]);
    if t < |before.db.tasks| && before.db.tasks[t].status.Terminal() {
      StepKeepsInv(config, before, steps[n]);
      k := SuccessHasFinish(config, now, steps[..n], t);
      FinishedEarlier(config, start, steps, k, t);
    } else {
      OnlyFinishSucceeds(config, before, steps[n], t);
      FinishedLast(config, start, steps, t);
      k := n;
    }
  }

  lemma FinishedEarlier(config: Config, start: State, steps: seq<Step>, k: nat, t: TaskId)
    requires steps != [] && FinishedAt(config, start, steps[..|steps| - 1], k, t)
    requires var before, after := Run(config, start, steps[..|steps| - 1]), Run(config, start, steps);
      t < |after.db.tasks| && after.db.tasks[t] == before.db.tasks[t]
    ensures FinishedAt(config, start, steps, k, t)
  {
    assert steps[..|steps| - 1][..k] == steps[..k];
  }

  lemma FinishedLast(config: Config, start: State, steps: seq<Step>, t: TaskId)
    requires steps != [] && Disciplined(config, start, steps[..|steps| - 1])
    requires var n := |steps| - 1; var before := Run(config, start, steps[..n]);
      && DisciplinedStep(before, steps[n]) && Run(config, start, steps) == Apply(config, before, steps[n])
      && steps[n].Finish? && CanFinish(before, steps[n].handler) && before.handlers[steps[n].handler].phase.task == t
    ensures FinishedAt(config, start, steps, |steps| - 1, t)
  {
    var n := |steps| - 1;
    FinishedRow(config, Run(config, start, steps[..n]), steps[n].handler, steps[n].outcome);
  }

  lemma OnlyFinishSucceeds(config: Config, s: State, step: Step, t: TaskId)
    requires var s' := Apply(config, s, step); t < |s'.db.tasks| && s'.db.tasks[t].status.Succeeded?
    requires t < |s.db.tasks| ==> !s.db.tasks[t].status.Terminal()
    ensures step.Finish? && CanFinish(s, step.handler) && s.handlers[step.handler].phase.task == t
  {
    if t < |s.db.tasks| {
      TaskWrites(config, s, step, t);
    } else {
      NewTasksPending(config, s, step, t);
    }
  }

  lemma NewTasksPending(config: Config, s: State, step: Step, t: TaskId)
    requires |s.db.tasks| <= t < |Apply(config, s, step).db.tasks|
    ensures Apply(config, s, step).db.tasks[t].status.Pending?
  {
    if step.Insert? {
      InsertApplies(config, s, step);
    }
  }

  /**
   The export of a finished access request, source by source: the entry of a task that ran on the database
   lists exactly the rows of its tenant, subject and source that were live when the task succeeded.
   */
  lemma ExportListsLiveRows(config: Config, now: int, steps: seq<Step>, r: RequestId, t: TaskId) returns (k: nat)
    requires Disciplined(config, Initial(now), steps)
    requires var s := Run(config, Initial(now), steps);
      && r < |s.db.requests| && s.db.requests[r].kind.Access? && (s.db.requests[r].status.Completed? || s.db.requests[r].status.Partial?)
      && t < |s.db.tasks| && s.db.tasks[t].request == r && s.db.tasks[t].status.Succeeded?
    ensures FinishedAt(config, Initial(now), steps, k, t)
    ensures var s, was := Run(config, Initial(now), steps), Run(config, Initial(now), steps[..k]);
      && s.db.requests[r].artifactPath.Some? && s.db.requests[r].artifactPath.value in s.artifacts
      && (var document, task := s.artifacts[s.db.requests[r].artifactPath.value], s.db.tasks[t];
          && task.source in document
          && (!OnRegion(config, was, steps[k].handler) ==>
                && document[task.source].Receipt?
                && ListsLiveRows(was.db.records, task.tenant, s.db.requests[r].subject, task.source, document[task.source].records))
          && (OnRegion(config, was, steps[k].handler) ==>
                steps[k].outcome.Replied? && document[task.source] == steps[k].outcome.payload))
  {
    k := SuccessHasFinish(config, now, steps, t);
    var s := Run(config, Initial(now), steps);
    assert Reachable(config, s);
    ArtifactIsTheReceipts(config, s, r);
    SuccessReceipt(config, now, steps, k, t);
  }

  /** Identity fields of the rows at step `k` are those at the end. */
  lemma RowsSince(config: Config, now: int, steps: seq<Step>, k: nat, t: TaskId)
    requires Disciplined(config, Initial(now), steps) && k <= |steps|
    requires t < |Run(config, Initial(now), steps[..k]).db.tasks|
    ensures var a, b := Run(config, Initial(now), steps[..k]), Run(config, Initial(now), steps);
      && t < |b.db.tasks| && a.db.tasks[t].request == b.db.tasks[t].request
      && a.db.tasks[t].request < |a.db.requests| <= |b.db.requests|
      && a.db.tasks[t].tenant == b.db.tasks[t].tenant && a.db.tasks[t].source == b.db.tasks[t].source
      && (var r := a.db.tasks[t].request;
          a.db.requests[r].kind == b.db.requests[r].kind && a.db.requests[r].subject == b.db.requests[r].subject)
  {
    SplitRun(config, Initial(now), steps, k);
    InitialInv(config, now);
    RunKeepsInv(config, Initial(now), steps[..k]);
    RunKeepsInv(config, Run(config, Initial(now), steps[..k]), steps[k..]);
    var a := Run(config, Initial(now), steps[..k]);
    assert TaskOk(a.db.requests, a.db.tasks[t]);
  }

  lemma {:induction false} SplitRun(config: Config, s: State, steps: seq<Step>, k: nat)
    requires Disciplined(config, s, steps) && k <= |steps|
    ensures Disciplined(config, s, steps[..k]) && Disciplined(config, Run(config, s, steps[..k]), steps[k..])
    ensures Run(config, s, steps) == Run(config, Run(config, s, steps[..k]), steps[k..])
    decreases k
  {
    if k == 0 {
      assert steps[..0] == [] && steps[0..] == steps;
    } else {
      assert steps[..k][0] == steps[0] && steps[..k][1..] == steps[1..][..k - 1] && steps[k..] == steps[1..][k - 1..];
      SplitRun(config, Apply(config, s, steps[0]), steps[1..], k - 1);
    }
  }

  lemma SuccessReceipt(config: Config, now: int, steps: seq<Step>, k: nat, t: TaskId)
    requires Disciplined(config, Initial(now), steps) && FinishedAt(config, Initial(now), steps, k, t)
    requires var s := Run(config, Initial(now), steps);
      && s.db.tasks[t].status.Succeeded? && s.db.tasks[t].request < |s.db.requests|
      && s.db.requests[s.db.tasks[t].request].kind.Access?
    ensures var s, was := Run(config, Initial(now), steps), Run(config, Initial(now), steps[..k]); var task := s.db.tasks[t];
      && (!OnRegion(config, was, steps[k].handler) ==>
            && task.receipt.Receipt?
            && ListsLiveRows(was.db.records, task.tenant, s.db.requests[task.request].subject, task.source, task.receipt.records))
      && (OnRegion(config, was, steps[k].handler) ==>
            steps[k].outcome.Replied? && task.receipt == steps[k].outcome.payload)
  {
    var was, h := Run(config, Initial(now), steps[..k]), steps[k].handler;
    RowsSince(config, now, steps, k, t);
    FinishSucceeds(config, was, h, steps[k].outcome);
    if !OnRegion(config, was, h) {
      AccessReceipt(config, was, h);
    }
  }

  // ---------------------------------------------------------------- attempts before giving up

  predicate NoPolling(steps: seq<Step>) {
    forall i :: 0 <= i < |steps| ==> !steps[i].Poll?
  }

  ghost predicate GivesUpLate(config: Config, s: State) {
    && (forall h :: 0 <= h < |s.handlers| ==> s.handlers[h].message.Some?)
    && (forall t :: 0 <= t < |s.db.tasks| && s.db.tasks[t].status.Failed? ==> config.maxAttempts <= s.db.tasks[t].attempt)
  }

  lemma MessagesStay(config: Config, s: State, step: Step)
    requires !step.Poll? && forall h :: 0 <= h < |s.handlers| ==> s.handlers[h].message.Some?
    ensures forall h :: 0 <= h < |Apply(config, s, step).handlers| ==> Apply(config, s, step).handlers[h].message.Some?
  {
  }

  lemma StepGivesUpLate(config: Config, s: State, step: Step, t: TaskId)
    requires config.regional && Inv(config, s) && GivesUpLate(config, s) && DisciplinedStep(s, step) && !step.Poll?
    requires t < |Apply(config, s, step).db.tasks| && Apply(config, s, step).db.tasks[t].status.Failed?
    ensures config.maxAttempts <= Apply(config, s, step).db.tasks[t].attempt
  {
    if t >= |s.db.tasks| {
      NewTasksPending(config, s, step, t);
    } else {
      TaskWrites(config, s, step, t);
      WriteGivesUpLate(config, s, step, t, Apply(config, s, step).db.tasks[t]);
    }
  }

  lemma WriteGivesUpLate(config: Config, s: State, step: Step, t: TaskId, after: Task)
    requires config.regional && HandlersOk(s) && GivesUpLate(config, s) && DisciplinedStep(s, step)
    requires t < |s.db.tasks| && TaskWrite(config, s, step, t, after) && after.status.Failed?
    ensures config.maxAttempts <= after.attempt
  {
    if step.Finish? && CanFinish(s, step.handler) && s.handlers[step.handler].phase.task == t {
      FinisherHolds(s, step.handler, step.outcome);
    }
  }

  lemma {:induction false} RunGivesUpLate(config: Config, s: State, steps: seq<Step>)
    requires config.regional && Inv(config, s) && GivesUpLate(config, s) && Disciplined(config, s, steps) && NoPolling(steps)
    ensures GivesUpLate(config, Run(config, s, steps))
    decreases |steps|
  {
    if steps != [] {
      var mid := Apply(config, s, steps[0]);
      assert !steps[0].Poll?;
      MessagesStay(config, s, steps[0]);
      forall t | 0 <= t < |mid.db.tasks| && mid.db.tasks[t].status.Failed? ensures config.maxAttempts <= mid.db.tasks[t].attempt {
        StepGivesUpLate(config, s, steps[0], t);
      }
      StepKeepsInv(config, s, steps[0]);
      RunGivesUpLate(config, mid, steps[1..]);
    }
  }

  /** Without polling, a regional deployment gives a task up only after the configured number of attempts. */
  lemma FailedAfterAllAttempts(config: Config, now: int, steps: seq<Step>, t: TaskId)
    requires config.regional && Disciplined(config, Initial(now), steps) && NoPolling(steps)
    requires t < |Run(config, Initial(now), steps).db.tasks| && Run(config, Initial(now), steps).db.tasks[t].status.Failed?
    ensures config.maxAttempts <= Run(config, Initial(now), steps).db.tasks[t].attempt
  {
    InitialInv(config, now);
    RunGivesUpLate(config, Initial(now), steps);
  }
}
