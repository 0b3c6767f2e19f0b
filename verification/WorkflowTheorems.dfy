/** What holds in every state, and across every run, that the lease-disciplined protocol can reach. */
module WorkflowTheorems {
  import opened Tables
  import opened Transactions
  import opened RowInvariants
  import opened Intake
  import opened Evolution
  import opened Protocol
  import opened ProtocolInvariants
  import opened HandlerProofs
  import opened DeliveryProofs
  import opened HistoryProofs

  // ---------------------------------------------------------------- induction over runs

  lemma StepKeepsInv(config: Config, s: State, step: Step)
    requires Inv(config, s) && DisciplinedStep(s, step)
    ensures Inv(config, Apply(config, s, step)) && Tame(s, Apply(config, s, step))
  {
    StepKeepsDb(config, s, step);
    StepKeepsHandlers(config, s, step);
    StepKeepsQueue(config, s, step);
    StepKeepsSettled(config, s, step);
    StepKeepsArtifacts(config, s, step);
    StepKeepsHistory(config, s, step);
    StepKeepsCalls(config, s, step);
  }

  lemma {:induction false} RunKeepsInv(config: Config, s: State, steps: seq<Step>)
    requires Inv(config, s) && Disciplined(config, s, steps)
    ensures Inv(config, Run(config, s, steps)) && Tame(s, Run(config, s, steps))
    decreases |steps|
  {
    if steps != [] {
      var mid := Apply(config, s, steps[0]);
      StepKeepsInv(config, s, steps[0]);
      RunKeepsInv(config, mid, steps[1..]);
      EvolvesTransitive(s.db, mid.db, Run(config, s, steps).db);
    }
  }

  /** The states of lease-disciplined runs from an empty deployment. */
  ghost predicate Reachable(config: Config, s: State) {
    exists now: int, steps: seq<Step> :: Disciplined(config, Initial(now), steps) && s == Run(config, Initial(now), steps)
  }

  lemma ReachableInv(config: Config, s: State)
    requires Reachable(config, s)
    ensures Inv(config, s)
  {
    var now: int, steps: seq<Step> :|
      Disciplined(config, Initial(now), steps) && s == Run(config, Initial(now), steps);
    InitialInv(config, now);
    RunKeepsInv(config, Initial(now), steps);
  }

  lemma InitialInv(config: Config, now: int)
    ensures Inv(config, Initial(now))
  {
    InitialRows(now);
    InitialCreation(now);
    InitialWork(config, now);
    InitialCalls(now);
  }

  lemma InitialRows(now: int)
    ensures RowsOk(Initial(now).db) && CompletionOk(Initial(now).db)
  {
  }

  lemma InitialCreation(now: int)
    ensures CreationOk(Initial(now).db)
  {
  }

  lemma InitialWork(config: Config, now: int)
    ensures HandlersOk(Initial(now)) && QueueOk(Initial(now)) && SettledOk(Initial(now))
    ensures ArtifactsOk(Initial(now)) && HistoryOk(config, Initial(now))
  {
  }

  lemma InitialCalls(now: int)
    ensures CallsOk(Initial(now))
  {
  }

  // ---------------------------------------------------------------- no stranded request

  ghost predicate UnpublishedReady(s: State, t: TaskId, e: EventId) {
    e < |s.db.outbox| && IsReady(s.db.outbox[e].body, t) && !s.db.outbox[e].published
  }

  ghost predicate UnackedMessage(s: State, t: TaskId, m: nat) {
    MessageOk(s, m) && IsReady(BodyOf(s, m), t) && !s.queue[m].acked
  }

  /** Something will still wake a worker for task `t`. */
  ghost predicate Outstanding(s: State, t: TaskId) {
    (exists e :: UnpublishedReady(s, t, e)) || (exists m :: UnackedMessage(s, t, m))
  }

  /** A task that was never refreshed after becoming terminal still has its wake-up. */
  lemma UnsettledIsOutstanding(config: Config, s: State, t: TaskId)
    requires Inv(config, s) && t < |s.db.tasks| && t !in s.settled
    ensures Outstanding(s, t)
  {
    assert ReadyExists(s.db.outbox, t);
    var e :| 0 <= e < |s.db.outbox| && IsReady(s.db.outbox[e].body, t);
    if !s.db.outbox[e].published {
      assert UnpublishedReady(s, t, e);
    } else {
      assert WasSent(s.queue, e);
      var m :| 0 <= m < |s.queue| && s.queue[m].event == e;
      assert MessageOk(s, m);
      assert UnackedMessage(s, t, m);
    }
  }

  /** An unfinished request always has a task whose wake-up is unpublished or unacknowledged. */
  lemma NoStrandedRequest(config: Config, s: State, r: RequestId)
    requires Reachable(config, s)
    requires r < |s.db.requests| && HasTask(s.db.tasks, r) && !s.db.requests[r].status.Terminal()
    ensures exists t :: 0 <= t < |s.db.tasks| && s.db.tasks[t].request == r && Outstanding(s, t)
  {
    ReachableInv(config, s);
    assert !AllSettled(s, r);
    var t :| 0 <= t < |s.db.tasks| && s.db.tasks[t].request == r && t !in s.settled;
    UnsettledIsOutstanding(config, s, t);
  }

  /** A request without sources is accepted, has no task to run, and stays queued. */
  lemma EmptyRequestNeverFinishes(config: Config, s: State, r: RequestId)
    requires Reachable(config, s) && r < |s.db.requests| && s.db.requests[r].sources == []
    ensures !HasTask(s.db.tasks, r) && s.db.requests[r].status.Queued?
  {
    ReachableInv(config, s);
    assert RequestOk(s.db.requests[r], r, s.db.tasks);
    DeriveMeaning(s.db.tasks, r);
    assert forall t :: 0 <= t < |s.db.tasks| ==> s.db.requests[s.db.tasks[t].request].sources != [];
  }

  // ---------------------------------------------------------------- absorbing states

  /** Terminal tasks and terminal requests never change again, whatever is delivered, claimed or replayed. */
  lemma TerminalRowsAreAbsorbing(config: Config, s: State, steps: seq<Step>)
    requires Reachable(config, s) && Disciplined(config, s, steps)
    ensures var s' := Run(config, s, steps);
      && |s.db.tasks| <= |s'.db.tasks| && |s.db.requests| <= |s'.db.requests|
      && (forall t :: 0 <= t < |s.db.tasks| && s.db.tasks[t].status.Terminal() ==> s'.db.tasks[t] == s.db.tasks[t])
      && (forall r :: 0 <= r < |s.db.requests| && s.db.requests[r].status.Terminal()
                      ==> s'.db.requests[r] == s.db.requests[r])
  {
    ReachableInv(config, s);
    RunKeepsInv(config, s, steps);
  }

  // ---------------------------------------------------------------- exactly one completion record

  /** A request is terminal exactly when it has its one announcement, whose counts add up to its sources. */
  lemma ExactlyOneCompletionRecord(config: Config, s: State, r: RequestId)
    requires Reachable(config, s) && r < |s.db.requests|
    ensures s.db.requests[r].status.Terminal() <==>
            exists e :: 0 <= e < |s.db.outbox| && Announces(s.db.outbox[e].body, r)
    ensures s.db.requests[r].status.Terminal() <==>
            exists a :: 0 <= a < |s.db.audit| && Attests(s.db.audit[a], r)
    ensures forall e, f :: 0 <= e < f < |s.db.outbox| && Announces(s.db.outbox[e].body, r)
                           ==> !Announces(s.db.outbox[f].body, r)
    ensures forall a, b :: 0 <= a < b < |s.db.audit| && Attests(s.db.audit[a], r) ==> !Attests(s.db.audit[b], r)
    ensures forall e :: 0 <= e < |s.db.outbox| && Announces(s.db.outbox[e].body, r) ==>
              var body := s.db.outbox[e].body;
              && body.status == s.db.requests[r].status
              && body.succeeded == |set t | 0 <= t < |s.db.tasks| && s.db.tasks[t].request == r && s.db.tasks[t].status == Succeeded|
              && body.failed == |set t | 0 <= t < |s.db.tasks| && s.db.tasks[t].request == r && s.db.tasks[t].status == Failed|
              && body.succeeded + body.failed == |s.db.requests[r].sources|
    ensures forall a :: 0 <= a < |s.db.audit| && Attests(s.db.audit[a], r) ==>
              s.db.audit[a].action == FinishedRequest(s.db.requests[r].status,
                |set t | 0 <= t < |s.db.tasks| && s.db.tasks[t].request == r && s.db.tasks[t].status == Succeeded|,
                |set t | 0 <= t < |s.db.tasks| && s.db.tasks[t].request == r && s.db.tasks[t].status == Failed|)
  {
    ReachableInv(config, s);
    CountIsCardinality(s.db.tasks, r, Succeeded);
    CountIsCardinality(s.db.tasks, r, Failed);
    assert OutboxCompletion(s.db, r) && AuditCompletion(s.db, r) && RequestOk(s.db.requests[r], r, s.db.tasks);
    if s.db.requests[r].status.Terminal() {
      DeriveMeaning(s.db.tasks, r);
      TerminalCounts(s.db.tasks, r);
    }
  }

  // ---------------------------------------------------------------- parent and children

  lemma ParentMatchesChildren(config: Config, s: State, r: RequestId)
    requires Reachable(config, s) && r < |s.db.requests|
    ensures var request := s.db.requests[r];
      && (request.status.Queued? ==> AllPending(s.db.tasks, r))
      && (request.status.Verifying? ==> request.kind.Delete?)
      && (request.status.Terminal() ==>
            HasTask(s.db.tasks, r) && AllTerminal(s.db.tasks, r) && request.status == Derive(StatusesOf(s.db.tasks, r)))
      && (request.status.Completed? ==> AllHave(s.db.tasks, r, Succeeded))
      && (request.status.Unsuccessful? ==> AllHave(s.db.tasks, r, Failed))
  {
    ReachableInv(config, s);
    assert RequestOk(s.db.requests[r], r, s.db.tasks);
    DeriveMeaning(s.db.tasks, r);
  }

  lemma {:induction false} DocumentHolds(tasks: seq<Task>, r: RequestId, x: string)
    requires forall t, u :: 0 <= t < u < |tasks| && tasks[t].request == tasks[u].request ==> tasks[t].source != tasks[u].source
    ensures x in Document(tasks, r) <==> HasSource(tasks, r, x)
    ensures forall t :: 0 <= t < |tasks| && tasks[t].request == r && tasks[t].source == x ==>
              x in Document(tasks, r) && Document(tasks, r)[x] == tasks[t].receipt
  {
    if tasks != [] {
      var n := |tasks| - 1;
      DocumentHolds(tasks[..n], r, x);
      if HasSource(tasks, r, x) && !(tasks[n].request == r && tasks[n].source == x) {
        var t :| 0 <= t < |tasks| && tasks[t].request == r && tasks[t].source == x;
        assert tasks[..n][t] == tasks[t];
      }
      if HasSource(tasks[..n], r, x) {
        var t :| 0 <= t < n && tasks[..n][t].request == r && tasks[..n][t].source == x;
        assert tasks[t].request == r && tasks[t].source == x;
      }
    }
  }

  /** The export of a finished access request holds each source's receipt as its task holds it now. */
  lemma ArtifactIsTheReceipts(config: Config, s: State, r: RequestId)
    requires Reachable(config, s) && r < |s.db.requests| && s.db.requests[r].kind.Access?
    requires s.db.requests[r].status.Completed? || s.db.requests[r].status.Partial?
    ensures s.db.requests[r].artifactPath.Some? && s.db.requests[r].artifactPath.value in s.artifacts
    ensures var document := s.artifacts[s.db.requests[r].artifactPath.value];
      && (forall x :: x in document <==> x in s.db.requests[r].sources)
      && (forall t :: 0 <= t < |s.db.tasks| && s.db.tasks[t].request == r ==>
            s.db.tasks[t].source in document && document[s.db.tasks[t].source] == s.db.tasks[t].receipt)
  {
    ReachableInv(config, s);
    assert RequestOk(s.db.requests[r], r, s.db.tasks);
    var document := s.artifacts[s.db.requests[r].artifactPath.value];
    forall x ensures x in document <==> x in s.db.requests[r].sources {
      DocumentHolds(s.db.tasks, r, x);
      if HasSource(s.db.tasks, r, x) {
        var t :| 0 <= t < |s.db.tasks| && s.db.tasks[t].request == r && s.db.tasks[t].source == x;
      }
    }
    forall t | 0 <= t < |s.db.tasks| && s.db.tasks[t].request == r
      ensures s.db.tasks[t].source in document && document[s.db.tasks[t].source] == s.db.tasks[t].receipt
    {
      DocumentHolds(s.db.tasks, r, s.db.tasks[t].source);
    }
  }

  /** Once exported, always exported: the artifact of a finished request is the same document forever. */
  lemma ArtifactIsForever(config: Config, s: State, steps: seq<Step>, r: RequestId)
    requires Reachable(config, s) && Disciplined(config, s, steps)
    requires r < |s.db.requests| && s.db.requests[r].artifactPath.Some?
    ensures var s' := Run(config, s, steps); var uri := s.db.requests[r].artifactPath.value;
      && uri in s.artifacts && uri in s'.artifacts && s'.artifacts[uri] == s.artifacts[uri]
  {
    ReachableInv(config, s);
    RunKeepsInv(config, s, steps);
    assert RequestOk(s.db.requests[r], r, s.db.tasks);
    TerminalDocumentFrozen(s.db, Run(config, s, steps).db, r);
  }

  // ---------------------------------------------------------------- leases

  /** A claimed task is begun exactly if it is still running for that worker; else the handling ends without a trace. */
  lemma BeginsOnlyOwnTask(config: Config, s: State, h: nat)
    requires h < |s.handlers| && s.handlers[h].phase.Claimed? && s.handlers[h].phase.task < |s.db.tasks|
    ensures var s' := Apply(config, s, Begin(h)); var t := s.handlers[h].phase.task;
      && s'.db == s.db && s'.queue == s.queue && |s'.handlers| == |s.handlers|
      && (s'.handlers[h].phase.Executing? <==>
            s.db.tasks[t].status.Running? && s.db.tasks[t].owner == Some(s.handlers[h].worker))
      && (s'.handlers[h].phase.Executing? ==>
            s'.handlers[h].phase == Executing(t, s.handlers[h].phase.claim, s.db.tasks[t].attempt))
      && (!s'.handlers[h].phase.Executing? ==> s'.handlers[h].phase.Done?)
  {
    BeginApplies(config, s, Begin(h));
  }

  lemma LeaseFieldsMatchStatus(config: Config, s: State, t: TaskId)
    requires Reachable(config, s) && t < |s.db.tasks|
    ensures s.db.tasks[t].status.Running? <==> s.db.tasks[t].owner.Some?
    ensures s.db.tasks[t].status.Running? <==> s.db.tasks[t].expires.Some?
    ensures !s.db.tasks[t].status.Terminal() ==> exists later: int :: later >= s.now && Claimable(s.db.tasks[t], later)
  {
    ReachableInv(config, s);
    var task := s.db.tasks[t];
    assert TaskOk(s.db.requests, task);
    if task.status.Running? {
      var later := if task.expires.value + 1 >= s.now then task.expires.value + 1 else s.now;
      assert later >= s.now && Claimable(task, later);
    } else if task.status.Pending? {
      assert s.now >= s.now && Claimable(task, s.now);
    }
  }

  /** The tasks whose current lease handler `h` works under. */
  ghost predicate WorksOn(s: State, h: nat, t: TaskId) {
    && h < |s.handlers| && t < |s.db.tasks|
    && ClaimOf(s.handlers[h]) == Some((t, s.db.tasks[t].attempt))
  }

  /** At any time at most one handler works under a task's current lease, and it is the recorded owner. */
  lemma ConcurrentClaimsAreDisjoint(config: Config, s: State, g: nat, h: nat, t: TaskId)
    requires Reachable(config, s) && WorksOn(s, g, t) && WorksOn(s, h, t)
    ensures g == h && s.db.tasks[t].status.Running? && s.db.tasks[t].owner == Some(s.handlers[h].worker)
  {
    ReachableInv(config, s);
    assert HandlerOk(s, s.handlers[h]);
  }

  /** The only ways a step can write an existing task row. */
  ghost predicate TaskWrite(config: Config, s: State, step: Step, t: TaskId, after: Task)
    requires t < |s.db.tasks|
  {
    var before := s.db.tasks[t];
    || after == before
    || (Claimable(before, s.now) && exists worker :: after == ClaimedTask(before, worker, s.now, config.lease))
    || (step.Heartbeat? && step.task == t && before.status.Running? && before.owner == Some(step.worker)
        && after == before.(expires := Some(s.now + config.lease)))
    || (step.Finish? && CanFinish(s, step.handler) && s.handlers[step.handler].phase.task == t
        && (var backend := BackendOf(config, s.handlers[step.handler]);
            after == FinishedTask(backend, before, s.handlers[step.handler].phase.loaded, Judge(backend, s.db, before, step.outcome))))
  }

  lemma TaskWrites(config: Config, s: State, step: Step, t: TaskId)
    requires t < |s.db.tasks|
    ensures t < |Apply(config, s, step).db.tasks| && TaskWrite(config, s, step, t, Apply(config, s, step).db.tasks[t])
  {
    if step.Insert? {
      InsertKeepsOldTasks(s, step.call, t);
    } else if step.ClaimMessage? {
      ClaimMessageWrites(config, s, step.handler, t);
    } else if step.Poll? {
      PollWrites(config, s, step.worker, step.task, t);
    } else if step.Refresh? {
      assert Apply(config, s, step).db.tasks == s.db.tasks;
    }
  }

  lemma InsertKeepsOldTasks(s: State, c: nat, t: TaskId)
    requires t < |s.db.tasks|
    ensures t < |InsertCall(s, c).db.tasks| && InsertCall(s, c).db.tasks[t] == s.db.tasks[t]
  {
  }

  lemma ClaimMessageWrites(config: Config, s: State, h: nat, t: TaskId)
    requires t < |s.db.tasks|
    ensures |ClaimForMessage(config, s, h).db.tasks| == |s.db.tasks|
    ensures TaskWrite(config, s, ClaimMessage(h), t, ClaimForMessage(config, s, h).db.tasks[t])
  {
  }

  lemma PollWrites(config: Config, s: State, worker: WorkerId, u: TaskId, t: TaskId)
    requires t < |s.db.tasks|
    ensures |PollTask(config, s, worker, u).db.tasks| == |s.db.tasks|
    ensures TaskWrite(config, s, Poll(worker, u), t, PollTask(config, s, worker, u).db.tasks[t])
  {
  }

  /** While a lease is live no step claims the task again; only its holder's finish releases it. */
  lemma LiveLeaseIsNotTakenOver(config: Config, s: State, step: Step, t: TaskId)
    requires Reachable(config, s) && DisciplinedStep(s, step) && t < |s.db.tasks|
    requires s.db.tasks[t].status.Running? && s.db.tasks[t].expires.Some? && s.now <= s.db.tasks[t].expires.value
    ensures t < |Apply(config, s, step).db.tasks|
    ensures var before, after := s.db.tasks[t], Apply(config, s, step).db.tasks[t];
      && after.attempt == before.attempt
      && (after.owner == before.owner
          || (step.Finish? && step.handler < |s.handlers| && WorksOn(s, step.handler, t)
              && before.owner == Some(s.handlers[step.handler].worker)))
  {
    ReachableInv(config, s);
    assert TaskOk(s.db.requests, s.db.tasks[t]);
    TaskWrites(config, s, step, t);
    WriteKeepsLive(config, s, step, t, Apply(config, s, step).db.tasks[t]);
  }

  /** A write to a task under a live lease leaves attempt and owner alone, or is its holder's finish. */
  lemma WriteKeepsLive(config: Config, s: State, step: Step, t: TaskId, after: Task)
    requires HandlersOk(s) && DisciplinedStep(s, step) && t < |s.db.tasks| && TaskWrite(config, s, step, t, after)
    requires s.db.tasks[t].status.Running? && s.db.tasks[t].expires.Some? && s.now <= s.db.tasks[t].expires.value
    ensures var before := s.db.tasks[t];
      && after.attempt == before.attempt
      && (after.owner == before.owner
          || (step.Finish? && step.handler < |s.handlers| && WorksOn(s, step.handler, t)
              && before.owner == Some(s.handlers[step.handler].worker)))
  {
    if step.Finish? && CanFinish(s, step.handler) {
      FinisherHolds(s, step.handler, step.outcome);
    }
  }
}
