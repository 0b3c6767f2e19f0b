/** Attempt accounting and intake answers, kept by every step. */
module HistoryProofs {
  import opened Tables
  import opened Transactions
  import opened Intake
  import opened Evolution
  import opened Protocol
  import opened ProtocolInvariants

  // ---------------------------------------------------------------- attempts

  lemma ClaimKeepsHistory(config: Config, s: State, t: TaskId, worker: WorkerId)
    requires HistoryOk(config, s) && ValidTask(s.db, t) && Claimable(s.db.tasks[t], s.now)
    ensures HistoryOk(config, ClaimBy(config, s, t, worker))
  {
    var s' := ClaimBy(config, s, t, worker);
    assert TaskHistoryOk(config, s.db.tasks[t], s.finishes[t], s.reclaims[t]);
    assert TaskHistoryOk(config, s'.db.tasks[t], s'.finishes[t], s'.reclaims[t]);
  }

  lemma FinishKeepsHistory(config: Config, s: State, h: nat, outcome: Outcome)
    requires HandlersOk(s) && HistoryOk(config, s) && DisciplinedStep(s, Finish(h, outcome))
    ensures HistoryOk(config, FinishTask(config, s, h, outcome))
  {
    if CanFinish(s, h) {
      FinisherHolds(s, h, outcome);
      var t := s.handlers[h].phase.task;
      var s' := FinishTask(config, s, h, outcome);
      assert TaskHistoryOk(config, s.db.tasks[t], s.finishes[t], s.reclaims[t]);
      assert TaskHistoryOk(config, s'.db.tasks[t], s'.finishes[t], s'.reclaims[t]);
    }
  }

  lemma InsertKeepsHistory(config: Config, s: State, c: nat)
    requires HistoryOk(config, s)
    ensures HistoryOk(config, InsertCall(s, c))
  {
  }

  lemma ClaimMessageKeepsHistory(config: Config, s: State, h: nat)
    requires HistoryOk(config, s)
    ensures HistoryOk(config, ClaimForMessage(config, s, h))
  {
    if HasMessage(s, h) && s.handlers[h].phase.Received? {
      var body := BodyOf(s, s.handlers[h].message.value);
      if body.TaskReady? && ValidTask(s.db, body.task) && Claimable(s.db.tasks[body.task], s.now) {
        ClaimKeepsHistory(config, s, body.task, s.handlers[h].worker);
      }
    }
  }

  lemma PollKeepsHistory(config: Config, s: State, worker: WorkerId, t: TaskId)
    requires DbOk(s.db) && HistoryOk(config, s)
    ensures HistoryOk(config, PollTask(config, s, worker, t))
  {
    if ValidTask(s.db, t) && Claimable(s.db.tasks[t], s.now) {
      ClaimKeepsHistory(config, s, t, worker);
    }
  }

  /** The steps that count nothing. */
  predicate CountsNothing(step: Step) {
    !step.Insert? && !step.ClaimMessage? && !step.Poll? && !step.Finish?
  }

  ghost predicate SameCounts(s: State, s': State) {
    && s'.finishes == s.finishes && s'.reclaims == s.reclaims && |s'.db.tasks| == |s.db.tasks|
    && (forall t :: 0 <= t < |s.db.tasks| ==>
          s'.db.tasks[t].attempt == s.db.tasks[t].attempt && s'.db.tasks[t].status == s.db.tasks[t].status)
  }

  lemma UncountedStep(config: Config, s: State, step: Step)
    requires CountsNothing(step)
    ensures SameCounts(s, Apply(config, s, step))
  {
  }

  lemma SameCountsKeepHistory(config: Config, s: State, s': State)
    requires HistoryOk(config, s) && SameCounts(s, s')
    ensures HistoryOk(config, s')
  {
    forall t | 0 <= t < |s'.db.tasks| ensures TaskHistoryOk(config, s'.db.tasks[t], s'.finishes[t], s'.reclaims[t]) {
      assert TaskHistoryOk(config, s.db.tasks[t], s.finishes[t], s.reclaims[t]);
    }
  }

  lemma StepKeepsHistory(config: Config, s: State, step: Step)
    requires DbOk(s.db) && HandlersOk(s) && HistoryOk(config, s) && DisciplinedStep(s, step)
    ensures HistoryOk(config, Apply(config, s, step))
  {
    if CountsNothing(step) {
      UncountedStep(config, s, step);
      SameCountsKeepHistory(config, s, Apply(config, s, step));
    } else if step.Insert? {
      InsertApplies(config, s, step);
      InsertKeepsHistory(config, s, step.call);
    } else if step.ClaimMessage? {
      ClaimMessageApplies(config, s, step);
      ClaimMessageKeepsHistory(config, s, step.handler);
    } else if step.Poll? {
      PollApplies(config, s, step);
      PollKeepsHistory(config, s, step.worker, step.task);
    } else {
      FinishApplies(config, s, step);
      FinishKeepsHistory(config, s, step.handler, step.outcome);
    }
  }

  // ---------------------------------------------------------------- intake answers

  lemma CallFrame(requests: seq<Request>, requests': seq<Request>, call: Call)
    requires CallOk(requests, call) && |requests| <= |requests'|
    requires forall r :: 0 <= r < |requests| ==>
      && requests'[r].tenant == requests[r].tenant && requests'[r].key == requests[r].key
      && requests'[r].subject == requests[r].subject && requests'[r].kind == requests[r].kind
      && requests'[r].sources == requests[r].sources
    ensures CallOk(requests', call)
  {
    if call.phase == Answered(Conflict) {
      var r :| 0 <= r < |requests| && HasKey(requests[r], call.tenant, call.key) && !SameCommand(requests[r], call.command);
      assert HasKey(requests'[r], call.tenant, call.key) && !SameCommand(requests'[r], call.command);
    }
  }

  /** Steps other than intake steps. */
  lemma CallsFrame(s: State, s': State)
    requires CallsOk(s) && Evolves(s.db, s'.db)
    requires s'.calls == s.calls && |s'.db.requests| == |s.db.requests|
    ensures CallsOk(s')
  {
    forall c | 0 <= c < |s'.calls| ensures CallOk(s'.db.requests, s'.calls[c]) {
      CallFrame(s.db.requests, s'.db.requests, s.calls[c]);
    }
  }

  /** A call that ends without creating anything leaves every request's creator in place. */
  lemma CallMoved(s: State, s': State, c: nat, phase: CallPhase)
    requires CallsOk(s) && c < |s.calls| && s'.db == s.db
    requires !s.calls[c].phase.Answered?
    requires s'.calls == s.calls[c := s.calls[c].(phase := phase)] && CallOk(s.db.requests, s'.calls[c])
    requires phase.Answered? ==> !phase.answer.Created?
    ensures CallsOk(s')
  {
    forall r | 0 <= r < |s'.db.requests| ensures HasCreator(s'.calls, r) {
      assert HasCreator(s.calls, r);
      var b :| CreatedBy(s.calls, b, r);
      assert CreatedBy(s'.calls, b, r);
    }
    forall b, d, r | CreatedBy(s'.calls, b, r) && CreatedBy(s'.calls, d, r) ensures b == d {
      assert CreatedBy(s.calls, b, r) && CreatedBy(s.calls, d, r);
    }
  }

  /** A lookup that finds the key answers truthfully. */
  lemma FoundAnswerOk(requests: seq<Request>, call: Call, r: RequestId)
    requires FindKey(requests, call.tenant, call.key) == Some(r)
    ensures r < |requests| && AnswerOk(requests, call, AnswerFrom(requests, r, call.command))
  {
    FindKeyIsTheLookup(requests, call.tenant, call.key);
  }

  lemma LookupKeepsCalls(s: State, c: nat)
    requires CallsOk(s)
    ensures CallsOk(LookupCall(s, c))
  {
    var s' := LookupCall(s, c);
    if c < |s.calls| && s.calls[c].phase.Looking? {
      var call := s.calls[c];
      assert CallOk(s.db.requests, call);
      match FindKey(s.db.requests, call.tenant, call.key) {
        case Some(r) => FoundAnswerOk(s.db.requests, call, r);
        case None =>
      }
      CallMoved(s, s', c, s'.calls[c].phase);
    }
  }

  lemma SubmitKeepsCalls(s: State, tenant: string, key: string, command: Command)
    requires CallsOk(s)
    ensures CallsOk(SubmitCall(s, tenant, key, command))
  {
    var s' := SubmitCall(s, tenant, key, command);
    DedupKeepsTheSet(command.sources);
    forall r | 0 <= r < |s'.db.requests| ensures HasCreator(s'.calls, r) {
      assert HasCreator(s.calls, r);
      var b :| CreatedBy(s.calls, b, r);
      assert CreatedBy(s'.calls, b, r);
    }
    forall b, d, r | CreatedBy(s'.calls, b, r) && CreatedBy(s'.calls, d, r) ensures b == d {
      assert CreatedBy(s.calls, b, r) && CreatedBy(s.calls, d, r);
    }
  }

  /** The winning insert is the unique creator of the new request. */
  lemma InsertCreates(s: State, c: nat)
    requires CallsOk(s) && c < |s.calls| && s.calls[c].phase.Inserting?
    requires FindKey(s.db.requests, s.calls[c].tenant, s.calls[c].key).None?
    ensures CallsOk(InsertCall(s, c))
  {
    var s' := InsertCall(s, c);
    var n := |s.db.requests|;
    assert CallOk(s.db.requests, s.calls[c]);
    forall b | 0 <= b < |s'.calls| ensures CallOk(s'.db.requests, s'.calls[b]) {
      if b != c {
        CallFrame(s.db.requests, s'.db.requests, s.calls[b]);
      }
    }
    forall r | 0 <= r < |s'.db.requests| ensures HasCreator(s'.calls, r) {
      if r == n {
        assert CreatedBy(s'.calls, c, r);
      } else {
        assert HasCreator(s.calls, r);
        var b :| CreatedBy(s.calls, b, r);
        assert CreatedBy(s'.calls, b, r);
      }
    }
    forall b, d, r | CreatedBy(s'.calls, b, r) && CreatedBy(s'.calls, d, r) ensures b == d {
      CreatorOf(s, c, s', b, r);
      CreatorOf(s, c, s', d, r);
    }
  }

  lemma CreatorOf(s: State, c: nat, s': State, b: nat, r: RequestId)
    requires CallsOk(s) && c < |s.calls| && CreatedBy(s'.calls, b, r)
    requires s'.calls == s.calls[c := s.calls[c].(phase := Answered(Created(|s.db.requests|)))]
    ensures if r == |s.db.requests| then b == c else CreatedBy(s.calls, b, r)
  {
    if b != c {
      assert CreatedBy(s.calls, b, r) && CallOk(s.db.requests, s.calls[b]);
    }
  }

  lemma InsertKeepsCalls(s: State, c: nat)
    requires CallsOk(s)
    ensures CallsOk(InsertCall(s, c))
  {
    var s' := InsertCall(s, c);
    if c < |s.calls| && s.calls[c].phase.Inserting? {
      var call := s.calls[c];
      assert CallOk(s.db.requests, call);
      match FindKey(s.db.requests, call.tenant, call.key) {
        case Some(r) =>
          FoundAnswerOk(s.db.requests, call, r);
          CallMoved(s, s', c, s'.calls[c].phase);
        case None => InsertCreates(s, c);
      }
    }
  }

  lemma OnlyIntakeCalls(config: Config, s: State, step: Step)
    requires !step.Submit? && !step.Lookup? && !step.Insert?
    ensures Apply(config, s, step).calls == s.calls
    ensures |Apply(config, s, step).db.requests| == |s.db.requests|
  {
  }

  lemma StepKeepsCalls(config: Config, s: State, step: Step)
    requires CallsOk(s) && Evolves(s.db, Apply(config, s, step).db)
    ensures CallsOk(Apply(config, s, step))
  {
    match step
    case Submit(tenant, key, command) => SubmitKeepsCalls(s, tenant, key, command);
    case Lookup(c) => LookupKeepsCalls(s, c);
    case Insert(c) => InsertKeepsCalls(s, c);
    case _ =>
      OnlyIntakeCalls(config, s, step);
      CallsFrame(s, Apply(config, s, step));
  }
}
