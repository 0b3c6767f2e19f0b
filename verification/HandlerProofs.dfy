/** Every lease-disciplined step keeps the handler invariant: claims stay unique and current claims hold leases. */
module HandlerProofs {
  import opened Tables
  import opened Transactions
  import opened Evolution
  import opened Protocol
  import opened ProtocolInvariants

  /** Messages persist, acknowledgements are final, settlement only grows. */
  ghost predicate Tame(s: State, s': State) {
    && Evolves(s.db, s'.db)
    && |s.queue| <= |s'.queue|
    && (forall m :: 0 <= m < |s.queue| ==> s'.queue[m].event == s.queue[m].event)
    && s.settled <= s'.settled
  }

  lemma SafeToAckFrame(s: State, s': State, m: nat)
    requires Tame(s, s') && SafeToAck(s, m)
    ensures SafeToAck(s', m)
  {
  }

  /** If `claim` is the latest claim of `t` afterwards, the lease it holds was not touched. */
  ghost predicate LeaseKept(s: State, s': State, t: TaskId, claim: nat) {
    t < |s.db.tasks| <= |s'.db.tasks| && s'.db.tasks[t].attempt == claim ==>
      && s.db.tasks[t].attempt == claim
      && s'.db.tasks[t].status == s.db.tasks[t].status && s'.db.tasks[t].owner == s.db.tasks[t].owner
  }

  lemma HandlerFrame(s: State, s': State, handler: Handler)
    requires Tame(s, s') && HandlerOk(s, handler)
    requires ClaimOf(handler).Some? ==> LeaseKept(s, s', ClaimOf(handler).value.0, ClaimOf(handler).value.1)
    ensures HandlerOk(s', handler)
  {
    match handler.phase
    case AckDue => SafeToAckFrame(s, s', handler.message.value);
    case _ =>
  }

  ghost predicate LeasesKept(s: State, s': State) {
    && |s.db.tasks| <= |s'.db.tasks|
    && (forall t :: 0 <= t < |s.db.tasks| ==>
          && s'.db.tasks[t].attempt == s.db.tasks[t].attempt
          && s'.db.tasks[t].status == s.db.tasks[t].status
          && s'.db.tasks[t].owner == s.db.tasks[t].owner)
  }

  lemma AllHandlersFrame(s: State, s': State)
    requires HandlersOk(s) && Tame(s, s') && LeasesKept(s, s')
    ensures forall h :: 0 <= h < |s.handlers| ==> HandlerOk(s', s.handlers[h])
  {
    forall h | 0 <= h < |s.handlers| ensures HandlerOk(s', s.handlers[h]) {
      HandlerFrame(s, s', s.handlers[h]);
    }
  }

  /** Handler `h` moved on without gaining a claim. */
  lemma HandlerMoved(s: State, s': State, h: nat, phase: Phase)
    requires HandlersOk(s) && h < |s.handlers|
    requires s'.handlers == s.handlers[h := s.handlers[h].(phase := phase)]
    requires forall g :: 0 <= g < |s.handlers| && g != h ==> HandlerOk(s', s.handlers[g])
    requires HandlerOk(s', s'.handlers[h])
    requires ClaimOf(s'.handlers[h]).None? || ClaimOf(s'.handlers[h]) == ClaimOf(s.handlers[h])
    ensures HandlersOk(s')
  {
  }

  /** After a claim of `t` every older claim of `t` is out of date, and the new claim is fresh. */
  lemma OthersAfterClaim(config: Config, s: State, t: TaskId, worker: WorkerId)
    requires DbOk(s.db) && HandlersOk(s) && ValidTask(s.db, t) && Claimable(s.db.tasks[t], s.now)
    ensures var s' := ClaimBy(config, s, t, worker);
      && Tame(s, s')
      && (forall h :: 0 <= h < |s.handlers| ==>
            && HandlerOk(s', s.handlers[h])
            && ClaimOf(s.handlers[h]) != Some((t, s.db.tasks[t].attempt + 1)))
  {
    var s' := ClaimBy(config, s, t, worker);
    ClaimKeepsDb(s.db, t, worker, s.now, config.lease);
    forall h | 0 <= h < |s.handlers|
      ensures HandlerOk(s', s.handlers[h]) && ClaimOf(s.handlers[h]) != Some((t, s.db.tasks[t].attempt + 1))
    {
      assert HandlerOk(s, s.handlers[h]);
      HandlerFrame(s, s', s.handlers[h]);
    }
  }

  lemma ClaimReadyKeepsHandlers(config: Config, s: State, h: nat, t: TaskId)
    requires DbOk(s.db) && HandlersOk(s) && h < |s.handlers| && ValidTask(s.db, t) && Serves(s, s.handlers[h], t)
    ensures HandlersOk(ClaimReady(config, s, h, t)) && Tame(s, ClaimReady(config, s, h, t))
  {
    if s.db.tasks[t].status.Terminal() {
      ClaimMeetsTerminal(config, s, h, t);
      DuplicateKeepsHandlers(s, h, t);
    } else if Claimable(s.db.tasks[t], s.now) {
      ClaimMeetsClaimable(config, s, h, t);
      ClaimingKeeps(config, s, h, t);
    } else {
      ClaimMeetsLease(config, s, h, t);
      CrashEnds(s, h);
    }
  }

  lemma ClaimMeetsTerminal(config: Config, s: State, h: nat, t: TaskId)
    requires h < |s.handlers| && ValidTask(s.db, t) && s.db.tasks[t].status.Terminal()
    ensures ClaimReady(config, s, h, t) == SetPhase(s, h, Duplicate(t))
  {
  }

  lemma ClaimMeetsClaimable(config: Config, s: State, h: nat, t: TaskId)
    requires h < |s.handlers| && ValidTask(s.db, t) && Claimable(s.db.tasks[t], s.now)
    ensures ClaimReady(config, s, h, t)
         == SetPhase(ClaimBy(config, s, t, s.handlers[h].worker), h, Claimed(t, s.db.tasks[t].attempt + 1))
  {
  }

  lemma ClaimMeetsLease(config: Config, s: State, h: nat, t: TaskId)
    requires h < |s.handlers| && ValidTask(s.db, t)
    requires !s.db.tasks[t].status.Terminal() && !Claimable(s.db.tasks[t], s.now)
    ensures ClaimReady(config, s, h, t) == SetPhase(s, h, Done)
  {
  }

  lemma DuplicateKeepsHandlers(s: State, h: nat, t: TaskId)
    requires HandlersOk(s) && h < |s.handlers| && Serves(s, s.handlers[h], t) && s.db.tasks[t].status.Terminal()
    ensures HandlersOk(SetPhase(s, h, Duplicate(t))) && Tame(s, SetPhase(s, h, Duplicate(t)))
  {
    var s' := SetPhase(s, h, Duplicate(t));
    AllHandlersFrame(s, s');
    HandlerMoved(s, s', h, Duplicate(t));
  }

  lemma ClaimingKeeps(config: Config, s: State, h: nat, t: TaskId)
    requires DbOk(s.db) && HandlersOk(s) && h < |s.handlers| && ValidTask(s.db, t) && Serves(s, s.handlers[h], t)
    requires Claimable(s.db.tasks[t], s.now)
    ensures var s' := SetPhase(ClaimBy(config, s, t, s.handlers[h].worker), h, Claimed(t, s.db.tasks[t].attempt + 1));
      HandlersOk(s') && Tame(s, s')
  {
    var mid := ClaimBy(config, s, t, s.handlers[h].worker);
    var s' := SetPhase(mid, h, Claimed(t, s.db.tasks[t].attempt + 1));
    OthersAfterClaim(config, s, t, s.handlers[h].worker);
    assert ClaimOk(mid, s'.handlers[h], t, s.db.tasks[t].attempt + 1);
    AllHandlersMoveTo(mid, s', h);
  }

  lemma ClaimMessageKeepsHandlers(config: Config, s: State, h: nat)
    requires DbOk(s.db) && HandlersOk(s)
    ensures HandlersOk(ClaimForMessage(config, s, h)) && Tame(s, ClaimForMessage(config, s, h))
  {
    if HasMessage(s, h) && s.handlers[h].phase.Received? {
      assert HandlerOk(s, s.handlers[h]);
      var body := BodyOf(s, s.handlers[h].message.value);
      if body.TaskReady? {
        assert ValidTask(s.db, body.task);
        ClaimReadyKeepsHandlers(config, s, h, body.task);
      } else {
        var s' := SetPhase(s, h, AckDue);
        AllHandlersFrame(s, s');
        HandlerMoved(s, s', h, AckDue);
      }
    }
  }

  /** The handler that just claimed joins the others. */
  lemma AllHandlersMoveTo(mid: State, s': State, h: nat)
    requires h < |mid.handlers| == |s'.handlers| && s' == mid.(handlers := s'.handlers)
    requires s'.handlers == mid.handlers[h := s'.handlers[h]]
    requires forall g :: 0 <= g < |mid.handlers| ==> HandlerOk(mid, mid.handlers[g])
    requires ClaimsUnique(mid.handlers)
    requires HandlerOk(mid, s'.handlers[h])
    requires forall g :: 0 <= g < |mid.handlers| && g != h ==> ClaimOf(mid.handlers[g]) != ClaimOf(s'.handlers[h])
    ensures HandlersOk(s')
  {
    forall g | 0 <= g < |s'.handlers| ensures HandlerOk(s', s'.handlers[g]) {
      SameButHandlers(mid, s', s'.handlers[g]);
    }
  }

  lemma SameButHandlers(mid: State, s': State, handler: Handler)
    requires s' == mid.(handlers := s'.handlers) && HandlerOk(mid, handler)
    ensures HandlerOk(s', handler)
  {
  }

  lemma PollKeepsHandlers(config: Config, s: State, worker: WorkerId, t: TaskId)
    requires DbOk(s.db) && HandlersOk(s)
    ensures HandlersOk(PollTask(config, s, worker, t)) && Tame(s, PollTask(config, s, worker, t))
  {
    if ValidTask(s.db, t) && Claimable(s.db.tasks[t], s.now) {
      var mid := ClaimBy(config, s, t, worker);
      var poller := Handler(worker, None, Claimed(t, s.db.tasks[t].attempt + 1));
      PollTaskClaims(config, s, worker, t);
      OthersAfterClaim(config, s, t, worker);
      PollerOk(config, s, t, worker);
      HandlerJoins(mid, PollTask(config, s, worker, t), poller);
    }
  }

  lemma PollTaskClaims(config: Config, s: State, worker: WorkerId, t: TaskId)
    requires ValidTask(s.db, t) && Claimable(s.db.tasks[t], s.now)
    ensures var mid := ClaimBy(config, s, t, worker);
      && mid.handlers == s.handlers
      && PollTask(config, s, worker, t)
         == mid.(handlers := mid.handlers + [Handler(worker, None, Claimed(t, s.db.tasks[t].attempt + 1))])
  {
  }

  lemma PollerOk(config: Config, s: State, t: TaskId, worker: WorkerId)
    requires ValidTask(s.db, t)
    ensures HandlerOk(ClaimBy(config, s, t, worker), Handler(worker, None, Claimed(t, s.db.tasks[t].attempt + 1)))
  {
  }

  /** A handler with a claim of its own joins the others. */
  lemma HandlerJoins(mid: State, s': State, newcomer: Handler)
    requires s' == mid.(handlers := mid.handlers + [newcomer])
    requires forall g :: 0 <= g < |mid.handlers| ==> HandlerOk(mid, mid.handlers[g])
    requires ClaimsUnique(mid.handlers) && HandlerOk(mid, newcomer)
    requires forall g :: 0 <= g < |mid.handlers| ==> ClaimOf(mid.handlers[g]) != ClaimOf(newcomer)
    ensures HandlersOk(s')
  {
    forall g | 0 <= g < |s'.handlers| ensures HandlerOk(s', s'.handlers[g]) {
      SameButHandlers(mid, s', s'.handlers[g]);
    }
  }

  lemma BeginKeepsHandlers(s: State, h: nat)
    requires HandlersOk(s)
    ensures HandlersOk(BeginTask(s, h)) && Tame(s, BeginTask(s, h))
  {
    var s' := BeginTask(s, h);
    if s'.handlers != s.handlers {
      assert HandlerOk(s, s.handlers[h]);
      AllHandlersFrame(s, s');
      HandlerMoved(s, s', h, s'.handlers[h].phase);
    }
  }

  /** A finish writes its own task, without a new attempt, and moves its own handler. */
  ghost predicate FinishedBy(s: State, s': State, h: nat, t: TaskId) {
    && Tame(s, s') && |s'.db.tasks| == |s.db.tasks| && t < |s.db.tasks|
    && s'.db.tasks[t].attempt == s.db.tasks[t].attempt
    && (forall u :: 0 <= u < |s.db.tasks| && u != t ==> s'.db.tasks[u] == s.db.tasks[u])
    && h < |s.handlers| && s'.handlers == s.handlers[h := s.handlers[h].(phase := Finished(t, s'.db.tasks[t].status.Succeeded?))]
    && s'.queue == s.queue
  }

  lemma FinishMoves(config: Config, s: State, h: nat, outcome: Outcome)
    requires DbOk(s.db) && HandlersOk(s) && DisciplinedStep(s, Finish(h, outcome)) && CanFinish(s, h)
    ensures FinishedBy(s, FinishTask(config, s, h, outcome), h, s.handlers[h].phase.task)
  {
    FinisherHolds(s, h, outcome);
    FinishKeepsDb(BackendOf(config, s.handlers[h]), s.db, s.handlers[h].phase.task, s.handlers[h].phase.loaded, outcome);
    FinishShape(config, s, h, outcome);
  }

  lemma FinishShape(config: Config, s: State, h: nat, outcome: Outcome)
    requires CanFinish(s, h)
    ensures var s', phase := FinishTask(config, s, h, outcome), s.handlers[h].phase; var t := phase.task;
      && s'.db == FinishTx(BackendOf(config, s.handlers[h]), s.db, t, phase.loaded, outcome)
      && s'.queue == s.queue && s'.settled == s.settled
      && |s'.db.tasks| == |s.db.tasks| && s'.db.tasks[t].attempt == s.db.tasks[t].attempt
      && (forall u :: 0 <= u < |s.db.tasks| && u != t ==> s'.db.tasks[u] == s.db.tasks[u])
      && s'.handlers == s.handlers[h := s.handlers[h].(phase := Finished(t, s'.db.tasks[t].status.Succeeded?))]
  {
  }

  lemma FinishedHandlerOk(s: State, s': State, h: nat, t: TaskId)
    requires FinishedBy(s, s', h, t) && Serves(s, s.handlers[h], t)
    ensures HandlerOk(s', s'.handlers[h])
  {
  }

  /** Nobody else works under the claim that just finished. */
  lemma FinishKeepsHandlers(config: Config, s: State, h: nat, outcome: Outcome)
    requires DbOk(s.db) && HandlersOk(s) && DisciplinedStep(s, Finish(h, outcome))
    ensures HandlersOk(FinishTask(config, s, h, outcome)) && Tame(s, FinishTask(config, s, h, outcome))
  {
    if CanFinish(s, h) {
      FinishMoves(config, s, h, outcome);
      FinishKeeps(s, FinishTask(config, s, h, outcome), h);
    }
  }

  lemma FinishKeeps(s: State, s': State, h: nat)
    requires HandlersOk(s) && CanFinish(s, h) && FinishedBy(s, s', h, s.handlers[h].phase.task)
    requires s.db.tasks[s.handlers[h].phase.task].attempt == s.handlers[h].phase.claim
    ensures HandlersOk(s')
  {
    var Executing(t, claim, _) := s.handlers[h].phase;
    assert HandlerOk(s, s.handlers[h]);
    FinishedHandlerOk(s, s', h, t);
    OthersAfterFinish(s, s', h, t, claim);
    HandlerMoved(s, s', h, s'.handlers[h].phase);
  }

  lemma OthersAfterFinish(s: State, s': State, h: nat, t: TaskId, claim: nat)
    requires HandlersOk(s) && Tame(s, s') && h < |s.handlers| && ClaimOf(s.handlers[h]) == Some((t, claim))
    requires |s'.db.tasks| == |s.db.tasks| && t < |s.db.tasks|
    requires s.db.tasks[t].attempt == claim && s'.db.tasks[t].attempt == claim
    requires forall u :: 0 <= u < |s.db.tasks| && u != t ==> s'.db.tasks[u] == s.db.tasks[u]
    ensures forall g :: 0 <= g < |s.handlers| && g != h ==> HandlerOk(s', s.handlers[g])
  {
    forall g | 0 <= g < |s.handlers| && g != h ensures HandlerOk(s', s.handlers[g]) {
      assert ClaimOf(s.handlers[g]) != ClaimOf(s.handlers[h]);
      HandlerFrame(s, s', s.handlers[g]);
    }
  }

  /** A refresh moves only its own handler. */
  lemma RefreshMoves(s: State, h: nat)
    requires DbOk(s.db) && CanRefresh(s, h)
    ensures var s' := RefreshParent(s, h);
      && Tame(s, s') && LeasesKept(s, s')
      && |s'.handlers| == |s.handlers| && s'.handlers == s.handlers[h := s.handlers[h].(phase := s'.handlers[h].phase)]
  {
    RefreshKeepsDb(s.db, s.db.tasks[s.handlers[h].phase.task].request);
  }

  /** After the refresh the handler is done, or may acknowledge because its task is settled now. */
  lemma RefreshedHandlerOk(s: State, h: nat)
    requires CanRefresh(s, h) && HandlerOk(s, s.handlers[h]) && Tame(s, RefreshParent(s, h))
    ensures |RefreshParent(s, h).handlers| == |s.handlers|
    ensures HandlerOk(RefreshParent(s, h), RefreshParent(s, h).handlers[h])
    ensures ClaimOf(RefreshParent(s, h).handlers[h]).None?
  {
    var s', handler := RefreshParent(s, h), s.handlers[h];
    var t := handler.phase.task;
    if s'.handlers[h].phase.AckDue? {
      assert t in TerminalTasksOf(s.db.tasks, s.db.tasks[t].request);
      assert t in s'.settled;
      assert SafeToAck(s', handler.message.value);
    }
  }

  lemma RefreshKeepsHandlers(s: State, h: nat)
    requires DbOk(s.db) && HandlersOk(s)
    ensures HandlersOk(RefreshParent(s, h)) && Tame(s, RefreshParent(s, h))
  {
    if CanRefresh(s, h) {
      RefreshMoves(s, h);
      RefreshKeeps(s, RefreshParent(s, h), h);
    }
  }

  lemma RefreshKeeps(s: State, s': State, h: nat)
    requires HandlersOk(s) && CanRefresh(s, h) && s' == RefreshParent(s, h) && Tame(s, s') && LeasesKept(s, s')
    requires |s'.handlers| == |s.handlers| && s'.handlers == s.handlers[h := s.handlers[h].(phase := s'.handlers[h].phase)]
    ensures HandlersOk(s')
  {
    RefreshedHandlerOk(s, h);
    AllHandlersFrame(s, s');
    HandlerMoved(s, s', h, s'.handlers[h].phase);
  }

  /** A handler gives up, is acknowledged, or crashes. */
  lemma HandlerEnds(s: State, s': State, h: nat)
    requires HandlersOk(s) && h < |s.handlers| && Tame(s, s') && LeasesKept(s, s')
    requires s'.handlers == s.handlers[h := s.handlers[h].(phase := Done)]
    ensures HandlersOk(s')
  {
    AllHandlersFrame(s, s');
    HandlerMoved(s, s', h, Done);
  }

  lemma ReceiveKeepsHandlers(s: State, m: nat, worker: WorkerId)
    requires HandlersOk(s) && QueueOk(s)
    ensures HandlersOk(ReceiveMessage(s, m, worker)) && Tame(s, ReceiveMessage(s, m, worker))
  {
    var s' := ReceiveMessage(s, m, worker);
    AllHandlersFrame(s, s');
    if m < |s.queue| {
      assert MessageOk(s, m);
    }
  }

  /** The steps that leave every handler and every lease alone. */
  predicate LeavesHandlers(step: Step) {
    || step.Tick? || step.AddRecord? || step.Submit? || step.Lookup? || step.Insert?
    || step.Send? || step.CommitRelay? || step.CrashRelay? || step.Heartbeat?
  }

  lemma LeavesHandlersTame(config: Config, s: State, step: Step)
    requires LeavesHandlers(step) && Evolves(s.db, Apply(config, s, step).db)
    ensures var s' := Apply(config, s, step); s'.handlers == s.handlers && Tame(s, s') && LeasesKept(s, s')
  {
  }

  lemma QuietKeepsHandlers(config: Config, s: State, step: Step)
    requires DbOk(s.db) && HandlersOk(s) && CallsOk(s) && DisciplinedStep(s, step) && LeavesHandlers(step)
    ensures HandlersOk(Apply(config, s, step)) && Tame(s, Apply(config, s, step))
  {
    StepKeepsDb(config, s, step);
    LeavesHandlersTame(config, s, step);
    AllHandlersFrame(s, Apply(config, s, step));
  }

  lemma CrashInRefreshEnds(s: State, h: nat)
    requires HandlersOk(s)
    ensures HandlersOk(CrashWhileRefreshing(s, h)) && Tame(s, CrashWhileRefreshing(s, h))
  {
    if CanRefresh(s, h) {
      HandlerEnds(s, CrashWhileRefreshing(s, h), h);
    }
  }

  lemma AckEnds(s: State, h: nat)
    requires HandlersOk(s)
    ensures HandlersOk(AckMessage(s, h)) && Tame(s, AckMessage(s, h))
  {
    if HasMessage(s, h) && s.handlers[h].phase.AckDue? {
      HandlerEnds(s, AckMessage(s, h), h);
    }
  }

  lemma CrashEnds(s: State, h: nat)
    requires HandlersOk(s) && h < |s.handlers|
    ensures HandlersOk(SetPhase(s, h, Done)) && Tame(s, SetPhase(s, h, Done))
  {
    HandlerEnds(s, SetPhase(s, h, Done), h);
  }

  lemma EndingKeepsHandlers(config: Config, s: State, step: Step)
    requires HandlersOk(s) && (step.CrashInRefresh? || step.Ack? || step.Crash?)
    ensures HandlersOk(Apply(config, s, step)) && Tame(s, Apply(config, s, step))
  {
    if step.CrashInRefresh? {
      CrashInRefreshApplies(config, s, step);
      CrashInRefreshEnds(s, step.handler);
    } else if step.Ack? {
      AckApplies(config, s, step);
      AckEnds(s, step.handler);
    } else if step.handler < |s.handlers| {
      CrashEnds(s, step.handler);
    }
  }

  lemma ClaimingKeepsHandlers(config: Config, s: State, step: Step)
    requires DbOk(s.db) && HandlersOk(s) && QueueOk(s) && (step.Receive? || step.ClaimMessage? || step.Poll?)
    ensures HandlersOk(Apply(config, s, step)) && Tame(s, Apply(config, s, step))
  {
    if step.Receive? {
      ReceiveApplies(config, s, step);
      ReceiveKeepsHandlers(s, step.message, step.worker);
    } else if step.ClaimMessage? {
      ClaimMessageApplies(config, s, step);
      ClaimMessageKeepsHandlers(config, s, step.handler);
    } else {
      PollApplies(config, s, step);
      PollKeepsHandlers(config, s, step.worker, step.task);
    }
  }

  lemma WorkingKeepsHandlers(config: Config, s: State, step: Step)
    requires DbOk(s.db) && HandlersOk(s) && DisciplinedStep(s, step) && (step.Begin? || step.Finish? || step.Refresh?)
    ensures HandlersOk(Apply(config, s, step)) && Tame(s, Apply(config, s, step))
  {
    if step.Begin? {
      BeginApplies(config, s, step);
      BeginKeepsHandlers(s, step.handler);
    } else if step.Finish? {
      FinishApplies(config, s, step);
      FinishKeepsHandlers(config, s, step.handler, step.outcome);
    } else {
      RefreshApplies(config, s, step);
      RefreshKeepsHandlers(s, step.handler);
    }
  }

  lemma StepKeepsHandlers(config: Config, s: State, step: Step)
    requires DbOk(s.db) && HandlersOk(s) && CallsOk(s) && QueueOk(s) && DisciplinedStep(s, step)
    ensures HandlersOk(Apply(config, s, step)) && Tame(s, Apply(config, s, step))
  {
    if LeavesHandlers(step) {
      QuietKeepsHandlers(config, s, step);
    } else if step.Receive? || step.ClaimMessage? || step.Poll? {
      ClaimingKeepsHandlers(config, s, step);
    } else if step.Begin? || step.Finish? || step.Refresh? {
      WorkingKeepsHandlers(config, s, step);
    } else {
      EndingKeepsHandlers(config, s, step);
    }
  }
}
