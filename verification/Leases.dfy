/** Leases over whole runs: one lasts until its holder finishes or its expiry passes, and heartbeats move the expiry. */
module Leases {
  import opened Tables
  import opened Transactions
  import opened Protocol
  import opened ProtocolInvariants
  import opened WorkflowTheorems

  /** Nobody holds a lease that reaches further than one taken now. */
  ghost predicate ExpiriesBounded(config: Config, s: State) {
    forall t :: 0 <= t < |s.db.tasks| ==> ExpiryBounded(config, s.db.tasks[t], s.now)
  }

  ghost predicate ExpiryBounded(config: Config, task: Task, now: int) {
    task.expires.Some? ==> task.expires.value <= now + config.lease
  }

  lemma ClockAdvances(config: Config, s: State, step: Step)
    ensures s.now <= Apply(config, s, step).now
  {
  }

  lemma NewTasksUnleased(config: Config, s: State, step: Step, t: TaskId)
    requires |s.db.tasks| <= t < |Apply(config, s, step).db.tasks|
    ensures Apply(config, s, step).db.tasks[t].expires.None?
  {
  }

  lemma StepKeepsExpiries(config: Config, s: State, step: Step)
    requires ExpiriesBounded(config, s)
    ensures ExpiriesBounded(config, Apply(config, s, step))
  {
    var s' := Apply(config, s, step);
    ClockAdvances(config, s, step);
    forall t | 0 <= t < |s'.db.tasks| ensures ExpiryBounded(config, s'.db.tasks[t], s'.now) {
      if t < |s.db.tasks| {
        TaskWrites(config, s, step, t);
        WriteBounded(config, s, step, t, s'.db.tasks[t]);
      } else {
        NewTasksUnleased(config, s, step, t);
      }
    }
  }

  lemma WriteBounded(config: Config, s: State, step: Step, t: TaskId, after: Task)
    requires t < |s.db.tasks| && ExpiryBounded(config, s.db.tasks[t], s.now) && TaskWrite(config, s, step, t, after)
    ensures ExpiryBounded(config, after, s.now)
  {
  }

  lemma {:induction false} RunKeepsExpiries(config: Config, s: State, steps: seq<Step>)
    requires ExpiriesBounded(config, s)
    ensures ExpiriesBounded(config, Run(config, s, steps)) && s.now <= Run(config, s, steps).now
    decreases |steps|
  {
    if steps != [] {
      ClockAdvances(config, s, steps[0]);
      StepKeepsExpiries(config, s, steps[0]);
      RunKeepsExpiries(config, Apply(config, s, steps[0]), steps[1..]);
    }
  }

  /** Attempt `attempt` of task `t` is running for `owner`, at least until `until`. */
  ghost predicate LeasedUntil(s: State, t: TaskId, owner: WorkerId, attempt: nat, until: int) {
    && t < |s.db.tasks| && s.db.tasks[t].status.Running? && s.db.tasks[t].owner == Some(owner)
    && s.db.tasks[t].attempt == attempt
    && s.db.tasks[t].expires.Some? && until <= s.db.tasks[t].expires.value
  }

  ghost predicate FinishedSince(before: State, after: State, t: TaskId) {
    t < |before.finishes| && t < |after.finishes| && before.finishes[t] < after.finishes[t]
  }

  lemma StepKeepsLease(config: Config, s: State, step: Step, t: TaskId, owner: WorkerId, attempt: nat, until: int)
    requires HistoryOk(config, s) && ExpiriesBounded(config, s) && LeasedUntil(s, t, owner, attempt, until) && s.now <= until
    ensures LeasedUntil(Apply(config, s, step), t, owner, attempt, until) || FinishedSince(s, Apply(config, s, step), t)
  {
    TaskWrites(config, s, step, t);
    assert ExpiryBounded(config, s.db.tasks[t], s.now);
  }

  lemma FinishesGrow(config: Config, s: State, step: Step, t: TaskId)
    requires t < |s.finishes|
    ensures t < |Apply(config, s, step).finishes| && s.finishes[t] <= Apply(config, s, step).finishes[t]
  {
  }

  lemma {:induction false} FinishesNeverShrink(config: Config, s: State, steps: seq<Step>, t: TaskId)
    requires t < |s.finishes|
    ensures t < |Run(config, s, steps).finishes| && s.finishes[t] <= Run(config, s, steps).finishes[t]
    decreases |steps|
  {
    if steps != [] {
      FinishesGrow(config, s, steps[0], t);
      FinishesNeverShrink(config, Apply(config, s, steps[0]), steps[1..], t);
    }
  }

  lemma {:induction false} RunKeepsLease(config: Config, s: State, steps: seq<Step>, t: TaskId, owner: WorkerId, attempt: nat, until: int)
    requires Inv(config, s) && ExpiriesBounded(config, s) && Disciplined(config, s, steps)
    requires LeasedUntil(s, t, owner, attempt, until) && Run(config, s, steps).now <= until
    ensures LeasedUntil(Run(config, s, steps), t, owner, attempt, until) || FinishedSince(s, Run(config, s, steps), t)
    decreases |steps|
  {
    if steps != [] {
      var mid := Apply(config, s, steps[0]);
      RunKeepsExpiries(config, s, steps);
      StepKeepsLease(config, s, steps[0], t, owner, attempt, until);
      if FinishedSince(s, mid, t) {
        FinishesNeverShrink(config, mid, steps[1..], t);
      } else {
        StepKeepsInv(config, s, steps[0]);
        StepKeepsExpiries(config, s, steps[0]);
        FinishesGrow(config, s, steps[0], t);
        RunKeepsLease(config, mid, steps[1..], t, owner, attempt, until);
      }
    }
  }

  lemma ReachableExpiries(config: Config, s: State)
    requires Reachable(config, s)
    ensures ExpiriesBounded(config, s)
  {
    var now: int, steps: seq<Step> :|
      Disciplined(config, Initial(now), steps) && s == Run(config, Initial(now), steps);
    RunKeepsExpiries(config, Initial(now), steps);
  }

  /** Until its expiry passes, a lease ends only by a finish of its task, whatever the other workers do. */
  lemma LeaseLasts(config: Config, s: State, steps: seq<Step>, t: TaskId, owner: WorkerId)
    requires Reachable(config, s) && Disciplined(config, s, steps)
    requires t < |s.db.tasks| && s.db.tasks[t].status.Running? && s.db.tasks[t].owner == Some(owner)
    requires s.db.tasks[t].expires.Some?
    requires Run(config, s, steps).now <= s.db.tasks[t].expires.value
    ensures var s' := Run(config, s, steps);
      LeasedUntil(s', t, owner, s.db.tasks[t].attempt, s.db.tasks[t].expires.value) || FinishedSince(s, s', t)
  {
    ReachableInv(config, s);
    ReachableExpiries(config, s);
    RunKeepsLease(config, s, steps, t, owner, s.db.tasks[t].attempt, s.db.tasks[t].expires.value);
  }

  /** A heartbeat of the holder gives it a full lease from now, and one of anybody else nothing. */
  lemma HeartbeatRenews(config: Config, s: State, steps: seq<Step>, t: TaskId, worker: WorkerId)
    requires Reachable(config, s) && t < |s.db.tasks|
    requires Disciplined(config, s, [Heartbeat(worker, t)] + steps)
    ensures !(s.db.tasks[t].status.Running? && s.db.tasks[t].owner == Some(worker)) ==> Apply(config, s, Heartbeat(worker, t)) == s
    ensures var s' := Run(config, s, [Heartbeat(worker, t)] + steps);
      s.db.tasks[t].status.Running? && s.db.tasks[t].owner == Some(worker) && s'.now <= s.now + config.lease ==>
        LeasedUntil(s', t, worker, s.db.tasks[t].attempt, s.now + config.lease) || FinishedSince(s, s', t)
  {
    var all := [Heartbeat(worker, t)] + steps;
    var mid := Apply(config, s, Heartbeat(worker, t));
    assert all[0] == Heartbeat(worker, t) && all[1..] == steps;
    assert Run(config, s, all) == Run(config, mid, steps);
    HeartbeatLeases(config, s, t, worker);
    if Holds(s.db.tasks[t], worker) && Run(config, mid, steps).now <= s.now + config.lease {
      ReachableInv(config, s);
      ReachableExpiries(config, s);
      StepKeepsInv(config, s, Heartbeat(worker, t));
      StepKeepsExpiries(config, s, Heartbeat(worker, t));
      RunKeepsLease(config, mid, steps, t, worker, s.db.tasks[t].attempt, s.now + config.lease);
    }
  }

  lemma HeartbeatLeases(config: Config, s: State, t: TaskId, worker: WorkerId)
    requires t < |s.db.tasks|
    ensures var s' := Apply(config, s, Heartbeat(worker, t));
      && s'.finishes == s.finishes
      && (if Holds(s.db.tasks[t], worker)
          then LeasedUntil(s', t, worker, s.db.tasks[t].attempt, s.now + config.lease) else s' == s)
  {
    HeartbeatApplies(config, s, Heartbeat(worker, t));
  }

  /** Only a claim raises the attempt, by one, and it starts a full lease. */
  lemma ClaimStartsLease(config: Config, s: State, step: Step, t: TaskId)
    requires t < |s.db.tasks|
    ensures t < |Apply(config, s, step).db.tasks|
    ensures var s' := Apply(config, s, step);
      s'.db.tasks[t].attempt != s.db.tasks[t].attempt ==>
        && Claimable(s.db.tasks[t], s.now) && s'.db.tasks[t].owner.Some?
        && LeasedUntil(s', t, s'.db.tasks[t].owner.value, s.db.tasks[t].attempt + 1, s.now + config.lease)
  {
    TaskWrites(config, s, step, t);
  }
}
