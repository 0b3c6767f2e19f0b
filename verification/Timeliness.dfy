/**
 Where lease discipline comes from: a worker that finishes within a lease time of its claim, or of a
 heartbeat it sent in time, is disciplined.  Deadlines need only clocks, so a worker can check its own.
 */
module Timeliness {
  import opened Tables
  import opened Transactions
  import opened Protocol
  import opened ProtocolInvariants
  import opened WorkflowTheorems
  import opened Leases
  import opened Recovery

  /** Handler `h` works under the current claim of `t`, leased to its worker at least until `until`. */
  ghost predicate WorksUntil(s: State, h: nat, t: TaskId, claim: nat, until: int) {
    && h < |s.handlers| && ClaimOf(s.handlers[h]) == Some((t, claim))
    && LeasedUntil(s, t, s.handlers[h].worker, claim, until)
  }

  // ---------------------------------------------------------------- where claims come from

  /** Handler `h` keeps the claim and the worker it had. */
  ghost predicate KeepsClaim(s: State, s': State, h: nat) {
    && h < |s.handlers| && h < |s'.handlers|
    && ClaimOf(s'.handlers[h]) == ClaimOf(s.handlers[h]) && s'.handlers[h].worker == s.handlers[h].worker
  }

  /** Handler `h` has just claimed its task, for a full lease from `s.now`. */
  ghost predicate JustClaimed(config: Config, s: State, s': State, h: nat) {
    && h < |s'.handlers| && ClaimOf(s'.handlers[h]).Some?
    && (var (t, claim) := ClaimOf(s'.handlers[h]).value;
        WorksUntil(s', h, t, claim, s.now + config.lease) && s'.db.tasks[t].expires == Some(s.now + config.lease))
  }

  /** A handler that has given up its claim for good. */
  predicate Retired(s: State, h: nat) {
    h < |s.handlers| && ClaimOf(s.handlers[h]).None? && !s.handlers[h].phase.Received?
  }

  /** The handlers that exist are the old ones, each as it was, moved on without a claim, or freshly claiming. */
  lemma ClaimOrigin(config: Config, s: State, step: Step, h: nat)
    requires h < |s.handlers|
    ensures KeepsClaim(s, Apply(config, s, step), h) || Retired(Apply(config, s, step), h)
            || (step == ClaimMessage(h) && s.handlers[h].phase.Received? && JustClaimed(config, s, Apply(config, s, step), h))
    ensures Retired(s, h) ==> Retired(Apply(config, s, step), h)
  {
    if step.ClaimMessage? {
      ClaimMessageApplies(config, s, step);
      ClaimMessageOrigin(config, s, step.handler, h);
    } else if step.Poll? {
      PollApplies(config, s, step);
      PollOrigin(config, s, step.worker, step.task, h);
    } else {
      OtherOrigin(config, s, step, h);
    }
  }

  lemma ClaimMessageOrigin(config: Config, s: State, g: nat, h: nat)
    requires h < |s.handlers|
    ensures var s' := ClaimForMessage(config, s, g);
      && (KeepsClaim(s, s', h) || Retired(s', h)
          || (g == h && s.handlers[h].phase.Received? && JustClaimed(config, s, s', h)))
      && (Retired(s, h) ==> Retired(s', h))
  {
  }

  lemma PollOrigin(config: Config, s: State, worker: WorkerId, t: TaskId, h: nat)
    requires h < |s.handlers|
    ensures KeepsClaim(s, PollTask(config, s, worker, t), h)
    ensures PollTask(config, s, worker, t).handlers[h] == s.handlers[h]
  {
  }

  lemma OtherOrigin(config: Config, s: State, step: Step, h: nat)
    requires h < |s.handlers| && !step.ClaimMessage? && !step.Poll?
    ensures KeepsClaim(s, Apply(config, s, step), h) || Retired(Apply(config, s, step), h)
    ensures Retired(s, h) ==> Retired(Apply(config, s, step), h)
  {
    if step.Begin? || step.Finish? || step.Refresh? {
      WorkingOrigin(config, s, step, h);
    } else if step.CrashInRefresh? || step.Ack? || step.Crash? {
      EndingOrigin(config, s, step, h);
    } else {
      OthersKeepHandlers(config, s, step, h);
    }
  }

  lemma WorkingOrigin(config: Config, s: State, step: Step, h: nat)
    requires h < |s.handlers| && (step.Begin? || step.Finish? || step.Refresh?)
    ensures KeepsClaim(s, Apply(config, s, step), h) || Retired(Apply(config, s, step), h)
    ensures Retired(s, h) ==> Retired(Apply(config, s, step), h)
  {
    if step.Begin? {
      BeginApplies(config, s, step);
    } else if step.Finish? {
      FinishApplies(config, s, step);
    } else {
      RefreshApplies(config, s, step);
    }
  }

  lemma EndingOrigin(config: Config, s: State, step: Step, h: nat)
    requires h < |s.handlers| && (step.CrashInRefresh? || step.Ack? || step.Crash?)
    ensures KeepsClaim(s, Apply(config, s, step), h) || Retired(Apply(config, s, step), h)
    ensures Retired(s, h) ==> Retired(Apply(config, s, step), h)
  {
    if step.CrashInRefresh? {
      CrashInRefreshApplies(config, s, step);
    } else if step.Ack? {
      AckApplies(config, s, step);
    }
  }

  lemma OthersKeepHandlers(config: Config, s: State, step: Step, h: nat)
    requires h < |s.handlers| && !step.ClaimMessage? && !step.Poll? && !step.Begin? && !step.Finish?
    requires !step.Refresh? && !step.CrashInRefresh? && !step.Ack? && !step.Crash?
    ensures h < |Apply(config, s, step).handlers| && Apply(config, s, step).handlers[h] == s.handlers[h]
  {
  }

  /** A new handler has no claim unless it polled. */
  lemma NewHandlers(config: Config, s: State, step: Step, h: nat)
    requires |s.handlers| <= h < |Apply(config, s, step).handlers| && ClaimOf(Apply(config, s, step).handlers[h]).Some?
    ensures step.Poll? && h == |s.handlers| && JustClaimed(config, s, Apply(config, s, step), h)
  {
    if step.Poll? {
      PollApplies(config, s, step);
    }
  }

  // ---------------------------------------------------------------- one step

  lemma OnlyFinishFinishes(config: Config, s: State, step: Step, t: TaskId)
    requires FinishedSince(s, Apply(config, s, step), t)
    ensures step.Finish? && CanFinish(s, step.handler) && s.handlers[step.handler].phase.task == t
  {
  }

  /** Until its lease time is over a worker keeps the current claim, unless it retires. */
  lemma StepKeepsWork(config: Config, s: State, step: Step, h: nat, t: TaskId, claim: nat, until: int)
    requires Inv(config, s) && ExpiriesBounded(config, s) && DisciplinedStep(s, step)
    requires WorksUntil(s, h, t, claim, until) && s.now <= until
    ensures WorksUntil(Apply(config, s, step), h, t, claim, until) || Retired(Apply(config, s, step), h)
  {
    var s' := Apply(config, s, step);
    ClaimOrigin(config, s, step, h);
    StepKeepsLease(config, s, step, t, s.handlers[h].worker, claim, until);
    if FinishedSince(s, s', t) {
      OnlyFinishFinishes(config, s, step, t);
      FinisherIsHandler(s, step.handler, h, t, claim);
      FinishApplies(config, s, step);
    }
  }

  /** The one disciplined finisher of a task is the handler under its current claim. */
  lemma FinisherIsHandler(s: State, g: nat, h: nat, t: TaskId, claim: nat)
    requires HandlersOk(s) && CanFinish(s, g) && s.handlers[g].phase.task == t
    requires s.handlers[g].phase.claim == s.db.tasks[t].attempt
    requires h < |s.handlers| && ClaimOf(s.handlers[h]) == Some((t, claim)) && s.db.tasks[t].attempt == claim
    ensures g == h
  {
  }

  // ---------------------------------------------------------------- finishing before the lease expires

  lemma {:induction false} RetiredForGood(config: Config, s: State, steps: seq<Step>, h: nat)
    requires Retired(s, h)
    ensures Retired(Run(config, s, steps), h)
    decreases |steps|
  {
    if steps != [] {
      ClaimOrigin(config, s, steps[0], h);
      RetiredForGood(config, Apply(config, s, steps[0]), steps[1..], h);
    }
  }

  lemma {:induction false} RunKeepsWork(config: Config, s: State, steps: seq<Step>, h: nat, t: TaskId, claim: nat, until: int)
    requires Inv(config, s) && ExpiriesBounded(config, s) && Disciplined(config, s, steps)
    requires WorksUntil(s, h, t, claim, until) && Run(config, s, steps).now <= until
    ensures WorksUntil(Run(config, s, steps), h, t, claim, until) || Retired(Run(config, s, steps), h)
    decreases |steps|
  {
    if steps != [] {
      var mid := Apply(config, s, steps[0]);
      RunKeepsExpiries(config, s, steps);
      StepKeepsWork(config, s, steps[0], h, t, claim, until);
      if Retired(mid, h) {
        RetiredForGood(config, mid, steps[1..], h);
      } else {
        StepKeepsInv(config, s, steps[0]);
        StepKeepsExpiries(config, s, steps[0]);
        RunKeepsWork(config, mid, steps[1..], h, t, claim, until);
      }
    }
  }

  /** A worker that finishes before the lease it holds expires is disciplined, whatever the others do meanwhile. */
  lemma TimelyFinishIsDisciplined(config: Config, s: State, steps: seq<Step>, h: nat, t: TaskId, outcome: Outcome)
    requires Reachable(config, s) && Disciplined(config, s, steps) && WorksOn(s, h, t)
    requires s.db.tasks[t].expires.Some? && Run(config, s, steps).now <= s.db.tasks[t].expires.value
    ensures DisciplinedStep(Run(config, s, steps), Finish(h, outcome))
  {
    ReachableInv(config, s);
    ReachableExpiries(config, s);
    assert HandlerOk(s, s.handlers[h]);
    RunKeepsWork(config, s, steps, h, t, s.db.tasks[t].attempt, s.db.tasks[t].expires.value);
  }

  // ---------------------------------------------------------------- timely runs

  /** By when each handler that claimed a task has to finish it. */
  type Deadlines = map<nat, int>

  predicate WorksFor(s: State, h: nat, worker: WorkerId, t: TaskId) {
    && h < |s.handlers| && s.handlers[h].worker == worker
    && ClaimOf(s.handlers[h]).Some? && ClaimOf(s.handlers[h]).value.0 == t
  }

  /** A claim sets its handler's deadline; a heartbeat sent in time moves it. */
  function NextDeadlines(config: Config, s: State, step: Step, deadlines: Deadlines): Deadlines {
    match step
    case ClaimMessage(h) =>
      if h < |s.handlers| && s.handlers[h].phase.Received? then deadlines[h := s.now + config.lease] else deadlines
    case Poll(_, _) => deadlines[|s.handlers| := s.now + config.lease]
    case Heartbeat(worker, t) =>
      map h | h in deadlines ::
        if WorksFor(s, h, worker, t) && s.now <= deadlines[h] then s.now + config.lease else deadlines[h]
    case _ => deadlines
  }

  /** A finish happens within the deadline of its own handler. */
  predicate TimelyStep(s: State, step: Step, deadlines: Deadlines) {
    step.Finish? && CanFinish(s, step.handler) ==> step.handler in deadlines && s.now <= deadlines[step.handler]
  }

  predicate TimelyRun(config: Config, s: State, deadlines: Deadlines, steps: seq<Step>)
    decreases |steps|
  {
    steps == []
    || (TimelyStep(s, steps[0], deadlines)
        && TimelyRun(config, Apply(config, s, steps[0]), NextDeadlines(config, s, steps[0], deadlines), steps[1..]))
  }

  /** A handler within its deadline works under the current claim, and its deadline is the recorded expiry. */
  ghost predicate DeadlineOk(s: State, h: nat, deadline: int) {
    h < |s.handlers| && ClaimOf(s.handlers[h]).Some? && s.now <= deadline ==>
      var (t, claim) := ClaimOf(s.handlers[h]).value;
      WorksUntil(s, h, t, claim, deadline) && s.db.tasks[t].expires == Some(deadline)
  }

  ghost predicate DeadlinesOk(s: State, deadlines: Deadlines) {
    forall h :: h in deadlines ==> DeadlineOk(s, h, deadlines[h])
  }

  lemma TimelyStepIsDisciplined(s: State, step: Step, deadlines: Deadlines)
    requires DeadlinesOk(s, deadlines) && TimelyStep(s, step, deadlines)
    ensures DisciplinedStep(s, step)
  {
    if step.Finish? && CanFinish(s, step.handler) {
      assert DeadlineOk(s, step.handler, deadlines[step.handler]);
    }
  }

  /** The heartbeat of a handler that still holds the lease leaves it a full one. */
  lemma HeartbeatInTime(config: Config, s: State, h: nat, worker: WorkerId, t: TaskId, claim: nat, until: int)
    requires WorksUntil(s, h, t, claim, until) && s.handlers[h].worker == worker
    ensures WorksUntil(Apply(config, s, Heartbeat(worker, t)), h, t, claim, s.now + config.lease)
    ensures Apply(config, s, Heartbeat(worker, t)).db.tasks[t].expires == Some(s.now + config.lease)
  {
    HeartbeatApplies(config, s, Heartbeat(worker, t));
  }

  /** Within an unchanged deadline a handler keeps its claim; one that has none yet has nothing to keep. */
  lemma KeptDeadline(config: Config, s: State, step: Step, h: nat, deadline: int)
    requires Inv(config, s) && ExpiriesBounded(config, s) && DisciplinedStep(s, step)
    requires h < |s.handlers| && DeadlineOk(s, h, deadline)
    requires !(step == ClaimMessage(h) && s.handlers[h].phase.Received?)
    requires !(step.Heartbeat? && WorksFor(s, h, step.worker, step.task) && s.now <= deadline)
    ensures DeadlineOk(Apply(config, s, step), h, deadline)
  {
    var s' := Apply(config, s, step);
    ClockAdvances(config, s, step);
    ClaimOrigin(config, s, step, h);
    if ClaimOf(s.handlers[h]).Some? && s.now <= deadline {
      var (t, claim) := ClaimOf(s.handlers[h]).value;
      StepKeepsWork(config, s, step, h, t, claim, deadline);
      TaskWrites(config, s, step, t);
      OthersKeepExpiry(config, s, step, h, t, claim, deadline, s'.db.tasks[t]);
      if !Retired(s', h) {
        assert ClaimOf(s'.handlers[h]) == Some((t, claim)) && s'.db.tasks[t].expires == Some(deadline);
      }
    }
  }

  /** Only the holder's own heartbeat moves the expiry of a live lease. */
  lemma OthersKeepExpiry(config: Config, s: State, step: Step, h: nat, t: TaskId, claim: nat, deadline: int, after: Task)
    requires WorksUntil(s, h, t, claim, deadline) && s.now <= deadline && TaskWrite(config, s, step, t, after)
    requires !(step.Heartbeat? && WorksFor(s, h, step.worker, step.task))
    ensures after.expires == s.db.tasks[t].expires || after.expires.None?
  {
  }

  lemma FirstDeadline(config: Config, s: State, step: Step, h: nat)
    requires step == ClaimMessage(h) && h < |s.handlers| && s.handlers[h].phase.Received?
    ensures DeadlineOk(Apply(config, s, step), h, s.now + config.lease)
  {
    ClaimMessageApplies(config, s, step);
    ClaimMessageOrigin(config, s, h, h);
  }

  lemma MovedDeadline(config: Config, s: State, step: Step, h: nat, deadline: int)
    requires step.Heartbeat? && WorksFor(s, h, step.worker, step.task) && s.now <= deadline && DeadlineOk(s, h, deadline)
    ensures DeadlineOk(Apply(config, s, step), h, s.now + config.lease)
  {
    var claim := ClaimOf(s.handlers[h]).value.1;
    assert step == Heartbeat(step.worker, step.task);
    HeartbeatInTime(config, s, h, step.worker, step.task, claim, deadline);
  }

  /** The step gives handler `h` a new deadline. */
  predicate MovesDeadline(s: State, step: Step, deadlines: Deadlines, h: nat)
    requires h < |s.handlers|
  {
    || (step == ClaimMessage(h) && s.handlers[h].phase.Received?)
    || (step.Heartbeat? && WorksFor(s, h, step.worker, step.task) && h in deadlines && s.now <= deadlines[h])
  }

  lemma DeadlineOf(config: Config, s: State, step: Step, deadlines: Deadlines, h: nat)
    requires h < |s.handlers| && h in NextDeadlines(config, s, step, deadlines)
    ensures if MovesDeadline(s, step, deadlines, h) then NextDeadlines(config, s, step, deadlines)[h] == s.now + config.lease
            else h in deadlines && NextDeadlines(config, s, step, deadlines)[h] == deadlines[h]
  {
  }

  lemma MovesToFullLease(config: Config, s: State, step: Step, deadlines: Deadlines, h: nat)
    requires DeadlinesOk(s, deadlines) && h < |s.handlers| && MovesDeadline(s, step, deadlines, h)
    ensures DeadlineOk(Apply(config, s, step), h, s.now + config.lease)
  {
    if step.Heartbeat? {
      assert DeadlineOk(s, h, deadlines[h]);
      MovedDeadline(config, s, step, h, deadlines[h]);
    } else {
      FirstDeadline(config, s, step, h);
    }
  }

  lemma StaysAsItWas(config: Config, s: State, step: Step, deadlines: Deadlines, h: nat)
    requires Inv(config, s) && ExpiriesBounded(config, s) && DisciplinedStep(s, step) && DeadlinesOk(s, deadlines)
    requires h < |s.handlers| && h in deadlines && !MovesDeadline(s, step, deadlines, h)
    ensures DeadlineOk(Apply(config, s, step), h, deadlines[h])
  {
    assert DeadlineOk(s, h, deadlines[h]);
    KeptDeadline(config, s, step, h, deadlines[h]);
  }

  lemma OldDeadline(config: Config, s: State, step: Step, deadlines: Deadlines, h: nat)
    requires Inv(config, s) && ExpiriesBounded(config, s) && DisciplinedStep(s, step) && DeadlinesOk(s, deadlines)
    requires h in NextDeadlines(config, s, step, deadlines) && h < |s.handlers|
    ensures exists next :: next == NextDeadlines(config, s, step, deadlines)[h] && DeadlineOk(Apply(config, s, step), h, next)
  {
    DeadlineOf(config, s, step, deadlines, h);
    if MovesDeadline(s, step, deadlines, h) {
      MovesToFullLease(config, s, step, deadlines, h);
    } else {
      StaysAsItWas(config, s, step, deadlines, h);
    }
  }

  lemma NewDeadline(config: Config, s: State, step: Step, deadlines: Deadlines, h: nat)
    requires h in NextDeadlines(config, s, step, deadlines) && |s.handlers| <= h
    ensures DeadlineOk(Apply(config, s, step), h, NextDeadlines(config, s, step, deadlines)[h])
  {
    if h < |Apply(config, s, step).handlers| && ClaimOf(Apply(config, s, step).handlers[h]).Some? {
      NewHandlers(config, s, step, h);
    }
  }

  lemma StepKeepsDeadlines(config: Config, s: State, step: Step, deadlines: Deadlines)
    requires Inv(config, s) && ExpiriesBounded(config, s) && DisciplinedStep(s, step) && DeadlinesOk(s, deadlines)
    ensures DeadlinesOk(Apply(config, s, step), NextDeadlines(config, s, step, deadlines))
  {
    var next := NextDeadlines(config, s, step, deadlines);
    forall h | h in next ensures DeadlineOk(Apply(config, s, step), h, next[h]) {
      if h < |s.handlers| {
        OldDeadline(config, s, step, deadlines, h);
      } else {
        NewDeadline(config, s, step, deadlines, h);
      }
    }
  }

  lemma {:induction false} TimelyRunFrom(config: Config, s: State, deadlines: Deadlines, steps: seq<Step>)
    requires Inv(config, s) && ExpiriesBounded(config, s) && DeadlinesOk(s, deadlines)
    requires TimelyRun(config, s, deadlines, steps)
    ensures Disciplined(config, s, steps)
    decreases |steps|
  {
    if steps != [] {
      TimelyStepIsDisciplined(s, steps[0], deadlines);
      StepKeepsDeadlines(config, s, steps[0], deadlines);
      StepKeepsInv(config, s, steps[0]);
      StepKeepsExpiries(config, s, steps[0]);
      TimelyRunFrom(config, Apply(config, s, steps[0]), NextDeadlines(config, s, steps[0], deadlines), steps[1..]);
    }
  }

  /** Workers that keep to their own clocks need no other discipline: a timely run is lease-disciplined. */
  lemma TimelyRunsAreDisciplined(config: Config, now: int, steps: seq<Step>)
    requires TimelyRun(config, Initial(now), map[], steps)
    ensures Disciplined(config, Initial(now), steps)
    ensures Reachable(config, Run(config, Initial(now), steps))
  {
    InitialInv(config, now);
    TimelyRunFrom(config, Initial(now), map[], steps);
  }

  function DeadlinesAfter(config: Config, s: State, deadlines: Deadlines, steps: seq<Step>): Deadlines
    decreases |steps|
  {
    if steps == [] then deadlines
    else DeadlinesAfter(config, Apply(config, s, steps[0]), NextDeadlines(config, s, steps[0], deadlines), steps[1..])
  }

  /** In a timely run a deadline that has not passed is exactly the expiry recorded for its handler's task. */
  lemma {:induction false} DeadlinesAreExpiries(config: Config, s: State, deadlines: Deadlines, steps: seq<Step>)
    requires Inv(config, s) && ExpiriesBounded(config, s) && DeadlinesOk(s, deadlines)
    requires TimelyRun(config, s, deadlines, steps)
    ensures DeadlinesOk(Run(config, s, steps), DeadlinesAfter(config, s, deadlines, steps))
    decreases |steps|
  {
    if steps != [] {
      TimelyStepIsDisciplined(s, steps[0], deadlines);
      StepKeepsDeadlines(config, s, steps[0], deadlines);
      StepKeepsInv(config, s, steps[0]);
      StepKeepsExpiries(config, s, steps[0]);
      DeadlinesAreExpiries(config, Apply(config, s, steps[0]), NextDeadlines(config, s, steps[0], deadlines), steps[1..]);
    }
  }

  /** In a timely run, a deadline that has not passed is the recorded expiry of the task its handler holds. */
  lemma TimelyDeadlineIsTheExpiry(config: Config, now: int, steps: seq<Step>, h: nat)
    requires TimelyRun(config, Initial(now), map[], steps)
    requires var s := Run(config, Initial(now), steps);
      h < |s.handlers| && ClaimOf(s.handlers[h]).Some? && h in DeadlinesAfter(config, Initial(now), map[], steps)
    requires Run(config, Initial(now), steps).now <= DeadlinesAfter(config, Initial(now), map[], steps)[h]
    ensures var s := Run(config, Initial(now), steps); var (t, claim) := ClaimOf(s.handlers[h]).value;
      && t < |s.db.tasks| && s.db.tasks[t].attempt == claim && Holds(s.db.tasks[t], s.handlers[h].worker)
      && s.db.tasks[t].expires == Some(DeadlinesAfter(config, Initial(now), map[], steps)[h])
  {
    InitialInv(config, now);
    DeadlinesAreExpiries(config, Initial(now), map[], steps);
    assert DeadlineOk(Run(config, Initial(now), steps), h, DeadlinesAfter(config, Initial(now), map[], steps)[h]);
  }

  // ---------------------------------------------------------------- when a finish does harm

  /** The finish of `h` changes the status of a task that was already over. */
  ghost predicate Overwrites(config: Config, s: State, h: nat, outcome: Outcome)
    requires CanFinish(s, h)
  {
    var t := s.handlers[h].phase.task;
    var after := FinishTask(config, s, h, outcome).db.tasks[t];
    s.db.tasks[t].status.Terminal() && after.status != s.db.tasks[t].status
  }

  lemma LateFailure(config: Config, s: State, h: nat)
    requires CanFinish(s, h) && s.db.tasks[s.handlers[h].phase.task].status.Succeeded?
    ensures Overwrites(config, s, h, Raised("late"))
  {
  }

  lemma LateSuccess(config: Config, s: State, h: nat)
    requires CanFinish(s, h) && s.db.tasks[s.handlers[h].phase.task].status.Failed?
    ensures Overwrites(config, s, h, Success(BackendOf(config, s.handlers[h])))
  {
  }

  /** A finish can overwrite a finished task exactly when it meets one, and then it is not disciplined. */
  lemma StaleFinishOverwrites(config: Config, s: State, h: nat)
    requires Reachable(config, s) && CanFinish(s, h)
    ensures (exists outcome :: Overwrites(config, s, h, outcome)) <==> s.db.tasks[s.handlers[h].phase.task].status.Terminal()
    ensures s.db.tasks[s.handlers[h].phase.task].status.Terminal()
            ==> forall outcome :: !DisciplinedStep(s, Finish(h, outcome))
  {
    ReachableInv(config, s);
    if s.db.tasks[s.handlers[h].phase.task].status.Terminal() {
      SomeOutcomeOverwrites(config, s, h);
      StaleIsUndisciplined(config, s, h);
    }
  }

  lemma SomeOutcomeOverwrites(config: Config, s: State, h: nat)
    requires CanFinish(s, h) && s.db.tasks[s.handlers[h].phase.task].status.Terminal()
    ensures exists outcome :: Overwrites(config, s, h, outcome)
  {
    if s.db.tasks[s.handlers[h].phase.task].status.Succeeded? {
      LateFailure(config, s, h);
    } else {
      LateSuccess(config, s, h);
    }
  }

  lemma StaleIsUndisciplined(config: Config, s: State, h: nat)
    requires HandlersOk(s) && CanFinish(s, h) && s.db.tasks[s.handlers[h].phase.task].status.Terminal()
    ensures forall outcome :: !DisciplinedStep(s, Finish(h, outcome))
  {
    forall outcome | DisciplinedStep(s, Finish(h, outcome)) ensures false {
      FinisherHolds(s, h, outcome);
    }
  }
}
