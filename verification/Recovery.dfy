/**
 Recoverability: from every reachable state, however it was reached, the queue alone can still drive
 any request that has tasks to a terminal status.

 The argument works inside an arbitrary set of states that is closed under lease-disciplined queue steps;
 at the end the set is taken to be the states some continuation reaches.
 */
module Recovery {
  import opened Tables
  import opened Transactions
  import opened RowInvariants
  import opened Intake
  import opened Evolution
  import opened Protocol
  import opened ProtocolInvariants
  import opened WorkflowTheorems

  /** The steps of the event path: time, sending an event, handling and acknowledging a delivery. No polling, no fault. */
  predicate ByQueue(step: Step) {
    || step.Tick? || step.Send? || step.Receive? || step.ClaimMessage?
    || step.Begin? || step.Finish? || step.Refresh? || step.Ack?
  }

  ghost predicate Closed(config: Config, states: iset<State>) {
    && (forall x {:trigger Inv(config, x)} :: x in states ==> Inv(config, x))
    && (forall x, step {:trigger Apply(config, x, step)} ::
          x in states && ByQueue(step) && DisciplinedStep(x, step) ==> Apply(config, x, step) in states)
  }

  function TasksOf(tasks: seq<Task>, r: RequestId): set<TaskId> {
    set t | 0 <= t < |tasks| && tasks[t].request == r
  }

  /** No request or task was added, finished requests stay finished, and acknowledged messages acknowledged. */
  ghost predicate Forward(s: State, s': State) {
    && |s'.db.requests| == |s.db.requests| && |s'.db.tasks| == |s.db.tasks| && |s.queue| <= |s'.queue|
    && (forall q :: 0 <= q < |s.db.requests| && s.db.requests[q].status.Terminal() ==> s'.db.requests[q].status.Terminal())
    && (forall t :: 0 <= t < |s.db.tasks| ==> s'.db.tasks[t].request == s.db.tasks[t].request)
    && (forall m :: 0 <= m < |s.queue| && s.queue[m].acked ==> s'.queue[m].acked)
  }

  /** `s'` has settled at least as much, and request `r` still has the same tasks. */
  ghost predicate Onward(s: State, s': State, r: RequestId) {
    && Forward(s, s')
    && r < |s.db.requests| && r < |s'.db.requests|
    && s.settled <= s'.settled && TasksOf(s'.db.tasks, r) == TasksOf(s.db.tasks, r)
  }

  lemma TasksOfStable(db: Db, db': Db, r: RequestId)
    requires RowsOk(db) && Evolves(db, db') && r < |db.requests|
    ensures TasksOf(db'.tasks, r) == TasksOf(db.tasks, r)
  {
    assert forall t :: 0 <= t < |db.tasks| ==> TaskOk(db.requests, db.tasks[t]);
  }

  lemma Take(config: Config, states: iset<State>, s: State, step: Step, r: RequestId)
    requires Closed(config, states) && s in states && ByQueue(step) && DisciplinedStep(s, step) && r < |s.db.requests|
    ensures Apply(config, s, step) in states && Onward(s, Apply(config, s, step), r)
  {
    assert Inv(config, s);
    StepKeepsInv(config, s, step);
    TasksOfStable(s.db, Apply(config, s, step).db, r);
    StepIsForward(config, s, step);
  }

  lemma StepIsForward(config: Config, s: State, step: Step)
    requires ByQueue(step) && Evolves(s.db, Apply(config, s, step).db)
    ensures Forward(s, Apply(config, s, step))
  {
    AddsNoRow(config, s, step);
    KeepsAcknowledgements(config, s, step);
  }

  lemma AddsNoRow(config: Config, s: State, step: Step)
    requires ByQueue(step)
    ensures |Apply(config, s, step).db.requests| == |s.db.requests| && |Apply(config, s, step).db.tasks| == |s.db.tasks|
  {
  }

  lemma KeepsAcknowledgements(config: Config, s: State, step: Step)
    ensures |s.queue| <= |Apply(config, s, step).queue|
    ensures forall m :: 0 <= m < |s.queue| && s.queue[m].acked ==> Apply(config, s, step).queue[m].acked
  {
  }

  // ---------------------------------------------------------------- one task

  /** Some unacknowledged message for an unsettled task can be had, sending its event if necessary. */
  lemma ObtainMessage(config: Config, states: iset<State>, s: State, t: TaskId, r: RequestId) returns (s': State, m: nat)
    requires Closed(config, states) && s in states && r < |s.db.requests| && t < |s.db.tasks| && t !in s.settled
    ensures s' in states && Onward(s, s', r) && s'.db == s.db && UnackedMessage(s', t, m)
  {
    assert Inv(config, s);
    UnsettledIsOutstanding(config, s, t);
    if m0 :| UnackedMessage(s, t, m0) {
      s', m := s, m0;
    } else {
      var e :| UnpublishedReady(s, t, e);
      Take(config, states, s, Send(0, e), r);
      SendLeavesMessage(config, s, t, e);
      s', m := Apply(config, s, Send(0, e)), |s.queue|;
    }
  }

  lemma SendLeavesMessage(config: Config, s: State, t: TaskId, e: EventId)
    requires UnpublishedReady(s, t, e)
    ensures var s' := Apply(config, s, Send(0, e)); s'.db == s.db && UnackedMessage(s', t, |s.queue|)
  {
  }

  /** How long to wait until any lease on the task has lapsed. */
  function Wait(task: Task, now: int): nat {
    if task.expires.Some? && task.expires.value >= now then task.expires.value - now + 1 else 0
  }

  /** A fresh handler receives the message once no lease can be in the way. */
  lemma Deliver(config: Config, states: iset<State>, s: State, t: TaskId, m: nat, r: RequestId) returns (s': State, h: nat)
    requires Closed(config, states) && s in states && r < |s.db.requests| && t < |s.db.tasks| && UnackedMessage(s, t, m)
    ensures s' in states && Onward(s, s', r) && s'.db == s.db && s'.queue == s.queue && t < |s'.db.tasks|
    ensures HasMessage(s', h) && s'.handlers[h].phase.Received? && s'.handlers[h].message == Some(m)
    ensures IsReady(BodyOf(s', m), t)
    ensures s.db.tasks[t].status.Terminal() || Claimable(s.db.tasks[t], s'.now)
  {
    ClaimableAfterWait(config, states, s, t);
    var wait := Tick(Wait(s.db.tasks[t], s.now));
    Take(config, states, s, wait, r);
    var s1 := Apply(config, s, wait);
    Take(config, states, s1, Receive(m, "recovery"), r);
    s', h := Apply(config, s1, Receive(m, "recovery")), |s.handlers|;
    ReceiveApplies(config, s1, Receive(m, "recovery"));
    ReceivedMessage(s1, t, m, "recovery");
  }

  lemma ClaimableAfterWait(config: Config, states: iset<State>, s: State, t: TaskId)
    requires Closed(config, states) && s in states && t < |s.db.tasks|
    ensures s.db.tasks[t].status.Terminal() || Claimable(s.db.tasks[t], s.now + Wait(s.db.tasks[t], s.now))
  {
    assert Inv(config, s);
    assert TaskOk(s.db.requests, s.db.tasks[t]);
  }

  lemma ReceivedMessage(s: State, t: TaskId, m: nat, worker: WorkerId)
    requires UnackedMessage(s, t, m)
    ensures var s', h := ReceiveMessage(s, m, worker), |s.handlers|;
      && s'.db == s.db && s'.now == s.now && s'.queue == s.queue && HasMessage(s', h)
      && s'.handlers[h].phase.Received? && s'.handlers[h].message == Some(m) && IsReady(BodyOf(s', m), t)
  {
  }

  /** The phases whose refresh ends in an acknowledgement. */
  predicate Concluded(phase: Phase) {
    phase.Duplicate? || (phase.Finished? && phase.succeeded)
  }

  /** The delivery either meets a terminal task or claims it; both end in front of a refresh. */
  lemma Handle(config: Config, states: iset<State>, s: State, t: TaskId, m: nat, h: nat, r: RequestId) returns (s': State)
    requires Closed(config, states) && s in states && r < |s.db.requests| && t < |s.db.tasks|
    requires HasMessage(s, h) && s.handlers[h].phase.Received? && s.handlers[h].message == Some(m)
    requires IsReady(BodyOf(s, m), t)
    requires s.db.tasks[t].status.Terminal() || Claimable(s.db.tasks[t], s.now)
    ensures s' in states && Onward(s, s', r) && s'.queue == s.queue
    ensures CanRefresh(s', h) && s'.handlers[h].phase.task == t && s'.db.tasks[t].status.Terminal()
    ensures s'.handlers[h].message == Some(m) && Concluded(s'.handlers[h].phase)
  {
    ValidInReach(config, states, s, t);
    Take(config, states, s, ClaimMessage(h), r);
    var s1 := Apply(config, s, ClaimMessage(h));
    ClaimMessageApplies(config, s, ClaimMessage(h));
    assert s1 == ClaimReady(config, s, h, t);
    if s.db.tasks[t].status.Terminal() {
      s' := s1;
    } else {
      s' := Execute(config, states, s1, t, h, r);
    }
  }

  lemma ValidInReach(config: Config, states: iset<State>, s: State, t: TaskId)
    requires Closed(config, states) && s in states && t < |s.db.tasks|
    ensures ValidTask(s.db, t)
  {
    assert Inv(config, s);
    assert TaskOk(s.db.requests, s.db.tasks[t]);
  }

  /** An outcome that the configured backend accepts. */
  function Success(config: Config): Outcome {
    if config.regional then Replied(true, Receipt(true, [], None, Some(0))) else RanLocally
  }

  /** A handler holding the latest claim can execute it to success. */
  lemma Execute(config: Config, states: iset<State>, s: State, t: TaskId, h: nat, r: RequestId) returns (s': State)
    requires Closed(config, states) && s in states && r < |s.db.requests| && t < |s.db.tasks| && h < |s.handlers|
    requires s.handlers[h].phase == Claimed(t, s.db.tasks[t].attempt) && Holds(s.db.tasks[t], s.handlers[h].worker)
    requires s.handlers[h].message.Some?
    ensures s' in states && Onward(s, s', r) && s'.queue == s.queue
    ensures CanRefresh(s', h) && s'.handlers[h].phase.task == t && s'.db.tasks[t].status.Terminal()
    ensures s'.handlers[h].message == s.handlers[h].message && Concluded(s'.handlers[h].phase)
  {
    ValidInReach(config, states, s, t);
    Take(config, states, s, Begin(h), r);
    var s1 := Apply(config, s, Begin(h));
    BeginsOwnTask(config, s, t, h);
    Take(config, states, s1, Finish(h, Success(config)), r);
    s' := Apply(config, s1, Finish(h, Success(config)));
    FinishesOwnTask(config, s1, t, h);
  }

  lemma BeginsOwnTask(config: Config, s: State, t: TaskId, h: nat)
    requires t < |s.db.tasks| && h < |s.handlers|
    requires s.handlers[h].phase == Claimed(t, s.db.tasks[t].attempt) && Holds(s.db.tasks[t], s.handlers[h].worker)
    ensures var s' := Apply(config, s, Begin(h));
      && s'.db == s.db && s'.queue == s.queue && h < |s'.handlers| && s'.handlers[h].message == s.handlers[h].message
      && s'.handlers[h].phase == Executing(t, s.db.tasks[t].attempt, s.db.tasks[t].attempt)
  {
    BeginApplies(config, s, Begin(h));
  }

  lemma FinishesOwnTask(config: Config, s: State, t: TaskId, h: nat)
    requires ValidTask(s.db, t) && h < |s.handlers| && s.handlers[h].message.Some?
    requires s.handlers[h].phase == Executing(t, s.db.tasks[t].attempt, s.db.tasks[t].attempt)
    ensures var s' := Apply(config, s, Finish(h, Success(config)));
      && s'.queue == s.queue && CanRefresh(s', h) && s'.handlers[h].phase.task == t && s'.db.tasks[t].status.Terminal()
      && s'.handlers[h].message == s.handlers[h].message && Concluded(s'.handlers[h].phase)
  {
    FinishApplies(config, s, Finish(h, Success(config)));
  }

  /** One more task of the request can be settled. */
  lemma SettleTask(config: Config, states: iset<State>, s: State, t: TaskId, r: RequestId) returns (s': State)
    requires Closed(config, states) && s in states && r < |s.db.requests| && t < |s.db.tasks| && t !in s.settled
    ensures s' in states && Onward(s, s', r) && t in s'.settled
  {
    var s1, m := ObtainMessage(config, states, s, t, r);
    var s2, h := Deliver(config, states, s1, t, m, r);
    var s3 := Handle(config, states, s2, t, m, h, r);
    Take(config, states, s3, Refresh(h), r);
    s' := Apply(config, s3, Refresh(h));
    assert t in TerminalTasksOf(s3.db.tasks, s3.db.tasks[t].request);
  }

  // ---------------------------------------------------------------- all tasks of a request

  lemma AllSettledTerminal(config: Config, states: iset<State>, s: State, r: RequestId)
    requires Closed(config, states) && s in states && r < |s.db.requests|
    requires TasksOf(s.db.tasks, r) != {} && TasksOf(s.db.tasks, r) <= s.settled
    ensures s.db.requests[r].status.Terminal()
  {
    assert Inv(config, s);
    var t :| t in TasksOf(s.db.tasks, r);
    assert HasTask(s.db.tasks, r);
    forall u | 0 <= u < |s.db.tasks| && s.db.tasks[u].request == r ensures u in s.settled {
      assert u in TasksOf(s.db.tasks, r);
    }
    assert AllSettled(s, r);
  }

  lemma {:induction false} DriveRequest(config: Config, states: iset<State>, s: State, r: RequestId) returns (s': State)
    requires Closed(config, states) && s in states && r < |s.db.requests| && TasksOf(s.db.tasks, r) != {}
    ensures s' in states && Forward(s, s') && r < |s'.db.requests| && s'.db.requests[r].status.Terminal()
    decreases |TasksOf(s.db.tasks, r) - s.settled|
  {
    var open := TasksOf(s.db.tasks, r) - s.settled;
    if open == {} {
      assert forall t :: t in TasksOf(s.db.tasks, r) ==> t !in open ==> t in s.settled;
      AllSettledTerminal(config, states, s, r);
      s' := s;
    } else {
      var t :| t in open;
      var mid := SettleTask(config, states, s, t, r);
      SubsetSize(TasksOf(mid.db.tasks, r) - mid.settled, open - {t});
      s' := DriveRequest(config, states, mid, r);
    }
  }

  // ---------------------------------------------------------------- the continuation

  ghost predicate Continues(config: Config, s: State, steps: seq<Step>, s': State) {
    && Disciplined(config, s, steps) && s' == Run(config, s, steps)
    && (forall i :: 0 <= i < |steps| ==> ByQueue(steps[i]))
  }

  ghost predicate CanReach(config: Config, s: State, s': State) {
    exists steps: seq<Step> :: Continues(config, s, steps, s')
  }

  ghost function Continuations(config: Config, s: State): iset<State> {
    iset s' | CanReach(config, s, s')
  }

  lemma ContinuationsClosed(config: Config, s: State)
    requires Inv(config, s)
    ensures Closed(config, Continuations(config, s)) && s in Continuations(config, s)
  {
    assert Continues(config, s, [], s);
    forall x | x in Continuations(config, s) ensures Inv(config, x) {
      ReachedInv(config, s, x);
    }
    forall x, step | x in Continuations(config, s) && ByQueue(step) && DisciplinedStep(x, step)
      ensures Apply(config, x, step) in Continuations(config, s)
    {
      ReachOneMore(config, s, x, step);
    }
  }

  lemma ReachedInv(config: Config, s: State, x: State)
    requires Inv(config, s) && CanReach(config, s, x)
    ensures Inv(config, x)
  {
    var steps: seq<Step> :| Continues(config, s, steps, x);
    RunKeepsInv(config, s, steps);
  }

  lemma ReachOneMore(config: Config, s: State, x: State, step: Step)
    requires CanReach(config, s, x) && ByQueue(step) && DisciplinedStep(x, step)
    ensures CanReach(config, s, Apply(config, x, step))
  {
    var steps: seq<Step> :| Continues(config, s, steps, x);
    RunExtends(config, s, steps, step);
    assert Continues(config, s, steps + [step], Apply(config, x, step));
  }

  /** No reachable state is a dead end: a lease-disciplined continuation on the event path finishes the request. */
  lemma EveryRequestCanFinish(config: Config, s: State, r: RequestId)
    requires Reachable(config, s) && r < |s.db.requests| && HasTask(s.db.tasks, r)
    ensures exists steps: seq<Step> :: Disciplined(config, s, steps)
              && (forall i :: 0 <= i < |steps| ==> ByQueue(steps[i]))
              && r < |Run(config, s, steps).db.requests| && Run(config, s, steps).db.requests[r].status.Terminal()
  {
    ReachableInv(config, s);
    ContinuationsClosed(config, s);
    var t :| 0 <= t < |s.db.tasks| && s.db.tasks[t].request == r;
    assert t in TasksOf(s.db.tasks, r);
    var s' := DriveRequest(config, Continuations(config, s), s, r);
    var steps: seq<Step> :| Continues(config, s, steps, s');
    assert Disciplined(config, s, steps);
  }
}
