/** Lease discipline is needed: without it a stale worker overwrites a finished task. */
module Witness {
  import opened Tables
  import opened Transactions
  import opened Intake
  import opened Protocol
  import opened WorkflowTheorems

  lemma ReachableStep(config: Config, s: State, step: Step)
    requires Reachable(config, s) && DisciplinedStep(s, step)
    ensures Reachable(config, Apply(config, s, step))
  {
    var now: int, steps: seq<Step> :|
      Disciplined(config, Initial(now), steps) && s == Run(config, Initial(now), steps);
    RunExtends(config, Initial(now), steps, step);
    assert Disciplined(config, Initial(now), steps + [step]);
  }

  /** One access request with one task, created at time zero. */
  lemma OneTask(config: Config) returns (s: State)
    ensures Reachable(config, s) && s.now == 0 && s.handlers == []
    ensures |s.db.requests| == 1 && s.db.requests[0].kind.Access?
    ensures s.db.tasks == [Task(0, "tenant", "profile", Pending, 0, None, None, NoReceipt, None)]
  {
    var submit := Submit("tenant", "key", Command("subject", Access, ["profile"]));
    s := Initial(0);
    assert Disciplined(config, s, []) && s == Run(config, s, []);
    ReachableStep(config, s, submit);
    assert ["profile"][..0] == [] && Dedup([]) == [];
    assert Dedup(["profile"]) == ["profile"];
    assert ValidateSources(["profile"]) == Some(["profile"]);
    s := Apply(config, s, submit);
    ReachableStep(config, s, Lookup(0));
    s := Apply(config, s, Lookup(0));
    ReachableStep(config, s, Insert(0));
    s := Apply(config, s, Insert(0));
  }

  /** Worker "a" has begun. */
  lemma Begun(config: Config) returns (s: State)
    ensures Reachable(config, s) && |s.db.requests| == 1 && s.db.requests[0].kind.Access? && |s.db.tasks| == 1
    ensures s.db.tasks[0] == Task(0, "tenant", "profile", Running, 1, Some("a"), Some(s.now + config.lease), NoReceipt, None)
    ensures s.handlers == [Handler("a", None, Executing(0, 1, 1))]
  {
    var s0 := OneTask(config);
    ReachableStep(config, s0, Poll("a", 0));
    var s1 := PolledByA(config, s0);
    BeginApplies(config, s1, Begin(0));
    ReachableStep(config, s1, Begin(0));
    s := Apply(config, s1, Begin(0));
  }

  lemma PolledByA(config: Config, s: State) returns (s': State)
    requires |s.db.requests| == 1 && s.db.requests[0].kind.Access? && s.handlers == []
    requires s.db.tasks == [Task(0, "tenant", "profile", Pending, 0, None, None, NoReceipt, None)]
    ensures s' == Apply(config, s, Poll("a", 0)) && |s'.db.requests| == 1 && s'.db.requests[0].kind.Access?
    ensures s'.db.tasks == [Task(0, "tenant", "profile", Running, 1, Some("a"), Some(s'.now + config.lease), NoReceipt, None)]
    ensures s'.handlers == [Handler("a", None, Claimed(0, 1))]
  {
    PollApplies(config, s, Poll("a", 0));
    s' := PollTask(config, s, "a", 0);
  }

  /** Worker "a" began, its lease lapsed, and worker "b" finished the task. */
  lemma StaleHandler(config: Config) returns (s: State)
    ensures Reachable(config, s) && CanFinish(s, 0) && s.handlers[0].phase.task == 0
    ensures |s.db.tasks| == 1 && s.db.tasks[0].status.Succeeded? && s.db.tasks[0].attempt == 2
    ensures s.handlers[0] == Handler("a", None, Executing(0, 1, 1))
  {
    s := Begun(config);
    ReachableStep(config, s, Tick(config.lease + 1));
    s := Apply(config, s, Tick(config.lease + 1));
    s := LapsedAndRedone(config, s);
  }

  lemma LapsedAndRedone(config: Config, s0: State) returns (s: State)
    requires Reachable(config, s0) && |s0.db.requests| == 1 && |s0.db.tasks| == 1 && s0.db.tasks[0].request == 0
    requires s0.db.tasks[0].status.Running? && s0.db.tasks[0].attempt == 1 && Claimable(s0.db.tasks[0], s0.now)
    requires s0.handlers == [Handler("a", None, Executing(0, 1, 1))] && s0.db.requests[0].kind.Access?
    ensures Reachable(config, s) && CanFinish(s, 0) && s.handlers[0].phase.task == 0
    ensures |s.db.tasks| == 1 && s.db.tasks[0].status.Succeeded? && s.db.tasks[0].attempt == 2
    ensures s.handlers[0] == Handler("a", None, Executing(0, 1, 1))
  {
    s := s0;
    ReachableStep(config, s, Poll("b", 0));
    s := Apply(config, s, Poll("b", 0));
    ReachableStep(config, s, Begin(1));
    s := Apply(config, s, Begin(1));
    assert s.handlers[1].phase == Executing(0, 2, 2);
    ReachableStep(config, s, Finish(1, RanLocally));
    s := Apply(config, s, Finish(1, RanLocally));
  }

  /**
   In every deployment and for every lease length, one finish after a lapsed lease, the only undisciplined
   step of its run, turns a success into a failure.
   */
  lemma LeaseDisciplineIsNeeded(config: Config)
    ensures exists s: State, step: Step ::
              && Reachable(config, s) && !DisciplinedStep(s, step)
              && |s.db.tasks| == 1 && s.db.tasks[0].status.Succeeded?
              && |Apply(config, s, step).db.tasks| == 1 && Apply(config, s, step).db.tasks[0].status.Failed?
  {
    var s := StaleHandler(config);
    var late := Finish(0, Raised("late"));
    FinishApplies(config, s, late);
    assert Apply(config, s, late).db.tasks[0].status.Failed?;
    assert !DisciplinedStep(s, late);
  }
}
