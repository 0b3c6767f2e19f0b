/** Attempt accounting over whole runs: how often tasks can be claimed before all of them are terminal. */
module Budget {
  import opened Tables
  import opened Transactions
  import opened Intake
  import opened Protocol
  import opened ProtocolInvariants
  import opened WorkflowTheorems

  /** Each attempt is a finish, a lapsed lease, or the execution under way; lapses aside it stays within the ceiling. */
  lemma AttemptAccounting(config: Config, s: State, t: TaskId)
    requires Reachable(config, s) && t < |s.db.tasks|
    ensures t < |s.finishes| && t < |s.reclaims|
    ensures s.db.tasks[t].attempt == s.finishes[t] + s.reclaims[t] + (if s.db.tasks[t].status.Running? then 1 else 0)
    ensures s.db.tasks[t].status.Pending? ==>
              s.db.tasks[t].attempt < (if config.regional && config.maxAttempts >= 1 then config.maxAttempts else 1)
    ensures s.db.tasks[t].attempt <= (if config.regional && config.maxAttempts >= 1 then config.maxAttempts else 1) + s.reclaims[t]
  {
    ReachableInv(config, s);
    assert TaskHistoryOk(config, s.db.tasks[t], s.finishes[t], s.reclaims[t]);
  }

  // ---------------------------------------------------------------- totals

  function Sum(s: seq<nat>): nat {
    if s == [] then 0 else Sum(s[..|s| - 1]) + s[|s| - 1]
  }

  function SumAttempts(tasks: seq<Task>): nat {
    if tasks == [] then 0 else SumAttempts(tasks[..|tasks| - 1]) + tasks[|tasks| - 1].attempt
  }

  function CountRunning(tasks: seq<Task>): nat {
    if tasks == [] then 0
    else CountRunning(tasks[..|tasks| - 1]) + (if tasks[|tasks| - 1].status.Running? then 1 else 0)
  }

  lemma {:induction false} SumUpdate(s: seq<nat>, i: nat, x: nat)
    requires i < |s|
    ensures Sum(s[i := x]) == Sum(s) - s[i] + x
  {
    var n := |s| - 1;
    if i < n {
      SumUpdate(s[..n], i, x);
      assert s[i := x][..n] == s[..n][i := x];
    } else {
      assert s[i := x][..n] == s[..n];
    }
  }

  lemma {:induction false} TaskUpdate(tasks: seq<Task>, t: TaskId, task: Task)
    requires t < |tasks|
    ensures SumAttempts(tasks[t := task]) == SumAttempts(tasks) - tasks[t].attempt + task.attempt
  {
    var n := |tasks| - 1;
    if t < n {
      TaskUpdate(tasks[..n], t, task);
      assert tasks[t := task][..n] == tasks[..n][t := task];
    } else {
      assert tasks[t := task][..n] == tasks[..n];
    }
  }

  lemma {:induction false} FreshTasksAddNothing(tasks: seq<Task>, more: seq<Task>)
    requires forall i :: 0 <= i < |more| ==> more[i].attempt == 0
    ensures SumAttempts(tasks + more) == SumAttempts(tasks)
  {
    if more == [] {
      assert tasks + more == tasks;
    } else {
      FreshTasksAddNothing(tasks, more[..|more| - 1]);
      assert (tasks + more)[..|tasks + more| - 1] == tasks + more[..|more| - 1];
    }
  }

  // ---------------------------------------------------------------- counting claims along a run

  /** The step takes a lease. */
  predicate Claims(s: State, step: Step) {
    match step
    case Poll(_, t) => ValidTask(s.db, t) && Claimable(s.db.tasks[t], s.now)
    case ClaimMessage(h) =>
      && HasMessage(s, h) && s.handlers[h].phase.Received?
      && (var body := s.db.outbox[s.queue[s.handlers[h].message.value].event].body;
          body.TaskReady? && ValidTask(s.db, body.task) && Claimable(s.db.tasks[body.task], s.now))
    case _ => false
  }

  function CountClaims(config: Config, s: State, steps: seq<Step>): nat
    decreases |steps|
  {
    if steps == [] then 0
    else (if Claims(s, steps[0]) then 1 else 0) + CountClaims(config, Apply(config, s, steps[0]), steps[1..])
  }

  lemma StepAddsClaims(config: Config, s: State, step: Step)
    ensures SumAttempts(Apply(config, s, step).db.tasks) == SumAttempts(s.db.tasks) + (if Claims(s, step) then 1 else 0)
  {
    if step.Poll? {
      PollAddsClaim(config, s, step.worker, step.task);
    } else if step.ClaimMessage? {
      ClaimMessageAddsClaim(config, s, step.handler);
    } else if step.Insert? {
      InsertAddsNothing(s, step.call);
    } else if step.Finish? {
      FinishAddsNothing(config, s, step.handler, step.outcome);
    } else if step.Heartbeat? {
      HeartbeatAddsNothing(config, s, step.worker, step.task);
    } else {
      LeavesTasks(config, s, step);
    }
  }

  lemma PollAddsClaim(config: Config, s: State, worker: WorkerId, t: TaskId)
    ensures SumAttempts(PollTask(config, s, worker, t).db.tasks)
         == SumAttempts(s.db.tasks) + (if Claims(s, Poll(worker, t)) then 1 else 0)
  {
    if Claims(s, Poll(worker, t)) {
      TaskUpdate(s.db.tasks, t, ClaimedTask(s.db.tasks[t], worker, s.now, config.lease));
    }
  }

  lemma FinishAddsNothing(config: Config, s: State, h: nat, outcome: Outcome)
    ensures SumAttempts(FinishTask(config, s, h, outcome).db.tasks) == SumAttempts(s.db.tasks)
  {
    if CanFinish(s, h) {
      var t := s.handlers[h].phase.task;
      TaskUpdate(s.db.tasks, t, FinishTask(config, s, h, outcome).db.tasks[t]);
    }
  }

  lemma HeartbeatAddsNothing(config: Config, s: State, worker: WorkerId, t: TaskId)
    ensures SumAttempts(HeartbeatTx(s.db, t, worker, s.now, config.lease).tasks) == SumAttempts(s.db.tasks)
  {
    if t < |s.db.tasks| && Holds(s.db.tasks[t], worker) {
      TaskUpdate(s.db.tasks, t, s.db.tasks[t].(expires := Some(s.now + config.lease)));
    }
  }

  lemma LeavesTasks(config: Config, s: State, step: Step)
    requires !step.Poll? && !step.ClaimMessage? && !step.Insert? && !step.Finish? && !step.Heartbeat?
    ensures Apply(config, s, step).db.tasks == s.db.tasks
  {
  }

  lemma ClaimMessageAddsClaim(config: Config, s: State, h: nat)
    ensures SumAttempts(ClaimForMessage(config, s, h).db.tasks)
         == SumAttempts(s.db.tasks) + (if Claims(s, ClaimMessage(h)) then 1 else 0)
  {
    if Claims(s, ClaimMessage(h)) {
      var t := s.db.outbox[s.queue[s.handlers[h].message.value].event].body.task;
      TaskUpdate(s.db.tasks, t, ClaimedTask(s.db.tasks[t], s.handlers[h].worker, s.now, config.lease));
    }
  }

  lemma InsertAddsNothing(s: State, c: nat)
    ensures SumAttempts(InsertCall(s, c).db.tasks) == SumAttempts(s.db.tasks)
  {
    if c < |s.calls| && s.calls[c].phase.Inserting? && FindKey(s.db.requests, s.calls[c].tenant, s.calls[c].key).None? {
      var call := s.calls[c];
      FreshTasksAddNothing(s.db.tasks, NewTasks(|s.db.requests|, call.tenant, call.command.sources));
    }
  }

  lemma {:induction false} ClaimsAreAttempts(config: Config, s: State, steps: seq<Step>)
    ensures SumAttempts(Run(config, s, steps).db.tasks) == SumAttempts(s.db.tasks) + CountClaims(config, s, steps)
    decreases |steps|
  {
    if steps != [] {
      StepAddsClaims(config, s, steps[0]);
      ClaimsAreAttempts(config, Apply(config, s, steps[0]), steps[1..]);
    }
  }

  // ---------------------------------------------------------------- the bound

  /** One task's share of the totals. */
  ghost predicate ShareOk(ceiling: nat, task: Task, finishes: nat, reclaims: nat) {
    && task.attempt == finishes + reclaims + (if task.status.Running? then 1 else 0)
    && task.attempt <= ceiling + reclaims
    && (task.attempt == ceiling + reclaims ==> !task.status.Pending?)
  }

  lemma {:induction false} SharesAddUp(ceiling: nat, tasks: seq<Task>, finishes: seq<nat>, reclaims: seq<nat>)
    requires |finishes| == |tasks| == |reclaims|
    requires forall t :: 0 <= t < |tasks| ==> ShareOk(ceiling, tasks[t], finishes[t], reclaims[t])
    ensures SumAttempts(tasks) == Sum(finishes) + Sum(reclaims) + CountRunning(tasks)
    ensures SumAttempts(tasks) <= ceiling * |tasks| + Sum(reclaims)
    ensures SumAttempts(tasks) == ceiling * |tasks| + Sum(reclaims)
            ==> forall t :: 0 <= t < |tasks| ==> !tasks[t].status.Pending?
  {
    if tasks != [] {
      var n := |tasks| - 1;
      SharesAddUp(ceiling, tasks[..n], finishes[..n], reclaims[..n]);
      OneMore(ceiling, n);
      assert ShareOk(ceiling, tasks[n], finishes[n], reclaims[n]);
      assert forall t :: 0 <= t < n ==> tasks[..n][t] == tasks[t];
    }
  }

  lemma OneMore(ceiling: nat, n: nat)
    ensures ceiling * (n + 1) == ceiling * n + ceiling
  {
  }

  lemma TotalsAreBounded(config: Config, s: State)
    requires HistoryOk(config, s)
    ensures SumAttempts(s.db.tasks) == Sum(s.finishes) + Sum(s.reclaims) + CountRunning(s.db.tasks)
    ensures SumAttempts(s.db.tasks) <= Ceiling(config) * |s.db.tasks| + Sum(s.reclaims)
    ensures SumAttempts(s.db.tasks) == Ceiling(config) * |s.db.tasks| + Sum(s.reclaims)
            ==> forall t :: 0 <= t < |s.db.tasks| ==> !s.db.tasks[t].status.Pending?
  {
    assert forall t :: 0 <= t < |s.db.tasks| ==> TaskHistoryOk(config, s.db.tasks[t], s.finishes[t], s.reclaims[t]);
    SharesAddUp(Ceiling(config), s.db.tasks, s.finishes, s.reclaims);
  }

  /**
   In a run that ends with n tasks and f lapsed leases there are at most M*n + f claims; once that many
   have happened and none is still executing, every task is terminal.
   */
  lemma ClaimsAreBounded(config: Config, now: int, steps: seq<Step>)
    requires Disciplined(config, Initial(now), steps)
    ensures var s := Run(config, Initial(now), steps);
      var ceiling := if config.regional && config.maxAttempts >= 1 then config.maxAttempts else 1;
      var claims, limit := CountClaims(config, Initial(now), steps), ceiling * |s.db.tasks| + Sum(s.reclaims);
      && claims <= limit
      && (claims == limit && (forall t :: 0 <= t < |s.db.tasks| ==> !s.db.tasks[t].status.Running?)
          ==> forall t :: 0 <= t < |s.db.tasks| ==> s.db.tasks[t].status.Terminal())
  {
    var s := Run(config, Initial(now), steps);
    InitialInv(config, now);
    RunKeepsInv(config, Initial(now), steps);
    ClaimsAreAttempts(config, Initial(now), steps);
    TotalsAreBounded(config, s);
  }

  // ---------------------------------------------------------------- the measure

  /** Work left when at most `lapses` leases ever lapse. */
  function Measure(config: Config, s: State, lapses: nat): int {
    2 * (Ceiling(config) * |s.db.tasks| + lapses - SumAttempts(s.db.tasks)) + CountRunning(s.db.tasks)
  }

  predicate Finishes(s: State, step: Step) {
    step.Finish? && CanFinish(s, step.handler)
  }

  lemma FinishesAdd(config: Config, s: State, step: Step)
    requires |s.finishes| == |s.db.tasks| == |s.reclaims|
    requires |Apply(config, s, step).db.tasks| == |s.db.tasks|
    ensures Sum(Apply(config, s, step).finishes) == Sum(s.finishes) + (if Finishes(s, step) then 1 else 0)
    ensures Sum(Apply(config, s, step).reclaims) >= Sum(s.reclaims)
  {
    if step.Finish? {
      if CanFinish(s, step.handler) {
        var t := s.handlers[step.handler].phase.task;
        SumUpdate(s.finishes, t, s.finishes[t] + 1);
      }
    } else if step.ClaimMessage? {
      ClaimMessageReclaims(config, s, step.handler);
    } else if step.Poll? {
      PollReclaims(config, s, step.worker, step.task);
    } else {
      LeavesCounters(config, s, step);
    }
  }

  lemma LeavesCounters(config: Config, s: State, step: Step)
    requires !step.Finish? && !step.ClaimMessage? && !step.Poll?
    requires |Apply(config, s, step).db.tasks| == |s.db.tasks|
    ensures Apply(config, s, step).finishes == s.finishes && Apply(config, s, step).reclaims == s.reclaims
  {
  }

  lemma PollReclaims(config: Config, s: State, worker: WorkerId, t: TaskId)
    requires |s.reclaims| == |s.db.tasks|
    ensures PollTask(config, s, worker, t).finishes == s.finishes
    ensures Sum(PollTask(config, s, worker, t).reclaims) >= Sum(s.reclaims)
  {
    if Claims(s, Poll(worker, t)) {
      SumUpdate(s.reclaims, t, s.reclaims[t] + 1);
    }
  }

  lemma ClaimMessageReclaims(config: Config, s: State, h: nat)
    requires |s.reclaims| == |s.db.tasks|
    ensures ClaimForMessage(config, s, h).finishes == s.finishes
    ensures Sum(ClaimForMessage(config, s, h).reclaims) >= Sum(s.reclaims)
  {
    if Claims(s, ClaimMessage(h)) {
      var t := s.db.outbox[s.queue[s.handlers[h].message.value].event].body.task;
      SumUpdate(s.reclaims, t, s.reclaims[t] + 1);
    }
  }

  /** Every claim and every finish strictly consumes the measure, which never goes below zero. */
  lemma WorkDecreasesMeasure(config: Config, s: State, step: Step, lapses: nat)
    requires Reachable(config, s) && DisciplinedStep(s, step)
    requires |Apply(config, s, step).db.tasks| == |s.db.tasks|
    requires Sum(Apply(config, s, step).reclaims) <= lapses
    ensures 0 <= Measure(config, Apply(config, s, step), lapses) <= Measure(config, s, lapses)
    ensures Claims(s, step) || Finishes(s, step)
            ==> Measure(config, Apply(config, s, step), lapses) < Measure(config, s, lapses)
  {
    var s' := Apply(config, s, step);
    ReachableInv(config, s);
    StepKeepsInv(config, s, step);
    StepAddsClaims(config, s, step);
    FinishesAdd(config, s, step);
    TotalsAreBounded(config, s);
    TotalsAreBounded(config, s');
  }
}
