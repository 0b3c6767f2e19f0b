/**
 When deliveries are acknowledged: which handlings answer yes, that only they remove a message, and that
 from every reachable state the queue can be drained with every request finished.
 */
module Acknowledgement {
  import opened Tables
  import opened Transactions
  import opened RowInvariants
  import opened Protocol
  import opened ProtocolInvariants
  import opened WorkflowTheorems
  import opened Recovery

  // ---------------------------------------------------------------- sending and marking

  /** A send puts an unpublished event on the queue, and the relay remembers it. */
  lemma SendEnqueues(config: Config, s: State, k: nat, e: EventId)
    requires e < |s.db.outbox| && !s.db.outbox[e].published
    ensures var s' := Apply(config, s, Send(k, e));
      && s'.db == s.db && s'.queue == s.queue + [Message(e, false)]
      && k in s'.relays && s'.relays[k] == (if k in s.relays then s.relays[k] else {}) + {e}
  {
    SendApplies(config, s, Send(k, e));
  }

  /** The relay's commit marks exactly what it sent. */
  lemma CommitMarksTheSent(config: Config, s: State, k: nat)
    ensures var s' := Apply(config, s, CommitRelay(k));
      && s'.queue == s.queue && |s'.db.outbox| == |s.db.outbox| && k !in s'.relays
      && (forall e :: 0 <= e < |s.db.outbox| ==>
            s'.db.outbox[e] == s.db.outbox[e].(published := s.db.outbox[e].published || (k in s.relays && e in s.relays[k])))
  {
  }

  // ---------------------------------------------------------------- the answer of one handling

  /** A message handler's refresh leads to an acknowledgement exactly after a success or for a finished task. */
  lemma RefreshAnswers(config: Config, s: State, h: nat)
    requires CanRefresh(s, h)
    ensures var s' := Apply(config, s, Refresh(h));
      && h < |s'.handlers| && s'.handlers[h].message == s.handlers[h].message && s'.queue == s.queue
      && s'.db.outbox[..|s.db.outbox|] == s.db.outbox && |s.db.outbox| <= |s'.db.outbox|
      && (s'.handlers[h].phase.AckDue? <==>
            s.handlers[h].message.Some?
            && (s.handlers[h].phase.Duplicate? || (s.handlers[h].phase.Finished? && s.handlers[h].phase.succeeded)))
      && (!s'.handlers[h].phase.AckDue? ==> s'.handlers[h].phase.Done?)
  {
    RefreshApplies(config, s, Refresh(h));
  }

  /** An executed delivery is acknowledged, after its refresh, exactly if the execution left the task succeeded. */
  lemma ExecutionAnswers(config: Config, s: State, h: nat, outcome: Outcome)
    requires CanFinish(s, h) && s.handlers[h].message.Some?
    ensures var t, done := s.handlers[h].phase.task, Apply(config, s, Finish(h, outcome));
      && CanRefresh(done, h) && t < |done.db.tasks|
      && h < |Apply(config, done, Refresh(h)).handlers|
      && (Apply(config, done, Refresh(h)).handlers[h].phase.AckDue? <==> done.db.tasks[t].status.Succeeded?)
  {
    FinishApplies(config, s, Finish(h, outcome));
    RefreshAnswers(config, Apply(config, s, Finish(h, outcome)), h);
  }

  /** A delivery of an event that is not a ready task is due to be acknowledged at once. */
  lemma OtherEventsAreAcknowledged(config: Config, s: State, h: nat)
    requires HasMessage(s, h) && s.handlers[h].phase.Received?
    requires !s.db.outbox[s.queue[s.handlers[h].message.value].event].body.TaskReady?
    ensures var s' := Apply(config, s, ClaimMessage(h));
      s'.db == s.db && s'.queue == s.queue && s'.handlers == s.handlers[h := s.handlers[h].(phase := AckDue)]
  {
    ClaimMessageApplies(config, s, ClaimMessage(h));
  }

  /** The acknowledgement removes exactly the handler's own message from delivery. */
  lemma AckRemoves(config: Config, s: State, h: nat)
    requires HasMessage(s, h) && s.handlers[h].phase.AckDue?
    ensures var s', m := Apply(config, s, Ack(h)), s.handlers[h].message.value;
      && |s'.queue| == |s.queue| && s'.db == s.db && s'.queue[m].acked
      && (forall k :: 0 <= k < |s.queue| && k != m ==> s'.queue[k] == s.queue[k])
  {
    AckApplies(config, s, Ack(h));
  }

  /** Nothing else removes a message. */
  lemma OnlyAckRemoves(config: Config, s: State, step: Step, m: nat)
    requires m < |s.queue| && !s.queue[m].acked
    ensures m < |Apply(config, s, step).queue|
    ensures Apply(config, s, step).queue[m].acked ==>
              && step.Ack? && HasMessage(s, step.handler)
              && s.handlers[step.handler].phase.AckDue? && s.handlers[step.handler].message == Some(m)
  {
    if step.Ack? {
      AckApplies(config, s, step);
    }
  }

  // ---------------------------------------------------------------- draining the queue

  lemma AckStep(config: Config, states: iset<State>, s: State, h: nat, m: nat, r: RequestId) returns (s': State)
    requires Closed(config, states) && s in states && r < |s.db.requests|
    requires HasMessage(s, h) && s.handlers[h].phase.AckDue? && s.handlers[h].message == Some(m)
    ensures s' in states && Forward(s, s') && |s'.queue| == |s.queue| && m < |s'.queue| && s'.queue[m].acked
  {
    Take(config, states, s, Ack(h), r);
    AckRemoves(config, s, h);
    s' := Apply(config, s, Ack(h));
  }

  /** The delivery of a ready task ends in an acknowledgement. */
  lemma AcknowledgeTask(config: Config, states: iset<State>, s: State, t: TaskId, m: nat, r: RequestId) returns (s': State)
    requires Closed(config, states) && s in states && r < |s.db.requests| && t < |s.db.tasks| && UnackedMessage(s, t, m)
    ensures s' in states && Forward(s, s') && |s'.queue| == |s.queue| && s'.queue[m].acked
  {
    var s1, h := Deliver(config, states, s, t, m, r);
    var s2 := Handle(config, states, s1, t, m, h, r);
    Take(config, states, s2, Refresh(h), r);
    RefreshAnswers(config, s2, h);
    var s3 := Apply(config, s2, Refresh(h));
    MessageInReach(config, states, s3, m);
    s' := AckStep(config, states, s3, h, m, r);
    ForwardTwice(s, s1, s2);
    ForwardTwice(s, s2, s3);
    ForwardTwice(s, s3, s');
  }

  lemma ForwardTwice(a: State, b: State, c: State)
    requires Forward(a, b) && Forward(b, c)
    ensures Forward(a, c)
  {
  }

  lemma MessageInReach(config: Config, states: iset<State>, s: State, m: nat)
    requires Closed(config, states) && s in states && m < |s.queue|
    ensures MessageOk(s, m) && BodyOf(s, m).request < |s.db.requests|
    ensures BodyOf(s, m).TaskReady? ==> BodyOf(s, m).task < |s.db.tasks|
  {
    assert Inv(config, s);
    assert MessageOk(s, m);
  }

  lemma AcknowledgeOther(config: Config, states: iset<State>, s: State, m: nat, r: RequestId) returns (s': State)
    requires Closed(config, states) && s in states && r < |s.db.requests| && MessageOk(s, m) && !BodyOf(s, m).TaskReady?
    ensures s' in states && Forward(s, s') && |s'.queue| == |s.queue| && s'.queue[m].acked
  {
    var h := |s.handlers|;
    Take(config, states, s, Receive(m, "recovery"), r);
    ReceiveApplies(config, s, Receive(m, "recovery"));
    var s1 := Apply(config, s, Receive(m, "recovery"));
    Take(config, states, s1, ClaimMessage(h), r);
    OtherEventsAreAcknowledged(config, s1, h);
    var s2 := Apply(config, s1, ClaimMessage(h));
    s' := AckStep(config, states, s2, h, m, r);
    ForwardTwice(s, s1, s2);
    ForwardTwice(s, s2, s');
  }

  lemma AcknowledgeOne(config: Config, states: iset<State>, s: State, m: nat) returns (s': State)
    requires Closed(config, states) && s in states && m < |s.queue|
    ensures s' in states && Forward(s, s') && |s'.queue| == |s.queue| && s'.queue[m].acked
  {
    MessageInReach(config, states, s, m);
    var body := BodyOf(s, m);
    if s.queue[m].acked {
      s' := s;
    } else if body.TaskReady? {
      s' := AcknowledgeTask(config, states, s, body.task, m, body.request);
    } else {
      s' := AcknowledgeOther(config, states, s, m, body.request);
    }
  }

  lemma {:induction false} AcknowledgeAll(config: Config, states: iset<State>, s: State, n: nat) returns (s': State)
    requires Closed(config, states) && s in states && n <= |s.queue|
    ensures s' in states && Forward(s, s') && |s'.queue| == |s.queue|
    ensures forall m :: 0 <= m < n ==> s'.queue[m].acked
  {
    if n == 0 {
      s' := s;
    } else {
      var mid := AcknowledgeAll(config, states, s, n - 1);
      s' := AcknowledgeOne(config, states, mid, n - 1);
      ForwardTwice(s, mid, s');
    }
  }

  ghost predicate FinishedBelow(s: State, n: nat) {
    forall r :: 0 <= r < n && r < |s.db.requests| && HasTask(s.db.tasks, r) ==> s.db.requests[r].status.Terminal()
  }

  lemma FinishedStays(s: State, s': State, n: nat)
    requires FinishedBelow(s, n) && Forward(s, s')
    ensures FinishedBelow(s', n)
  {
    forall r | 0 <= r < n && r < |s'.db.requests| && HasTask(s'.db.tasks, r) ensures s'.db.requests[r].status.Terminal() {
      var t :| 0 <= t < |s'.db.tasks| && s'.db.tasks[t].request == r;
      assert s.db.tasks[t].request == r;
    }
  }

  lemma {:induction false} FinishAll(config: Config, states: iset<State>, s: State, n: nat) returns (s': State)
    requires Closed(config, states) && s in states && n <= |s.db.requests|
    ensures s' in states && Forward(s, s') && FinishedBelow(s', n)
  {
    if n == 0 {
      s' := s;
    } else {
      var mid := FinishAll(config, states, s, n - 1);
      if HasTask(mid.db.tasks, n - 1) {
        var t :| 0 <= t < |mid.db.tasks| && mid.db.tasks[t].request == n - 1;
        assert t in TasksOf(mid.db.tasks, n - 1);
        s' := DriveRequest(config, states, mid, n - 1);
        FinishedStays(mid, s', n - 1);
        ForwardTwice(s, mid, s');
      } else {
        s' := mid;
      }
    }
  }

  /**
   The system can always come to rest: from every reachable state a lease-disciplined continuation on the
   event path finishes every request that has tasks and acknowledges every message, the old ones included.
   */
  lemma EverythingCanFinish(config: Config, s: State)
    requires Reachable(config, s)
    ensures exists steps: seq<Step> :: Disciplined(config, s, steps)
              && (forall i :: 0 <= i < |steps| ==> ByQueue(steps[i]))
              && AtRest(s, Run(config, s, steps))
  {
    ReachableInv(config, s);
    ContinuationsClosed(config, s);
    var states := Continuations(config, s);
    var finished := FinishAll(config, states, s, |s.db.requests|);
    var s' := AcknowledgeAll(config, states, finished, |finished.queue|);
    FinishedStays(finished, s', |s.db.requests|);
    ForwardTwice(s, finished, s');
    var steps: seq<Step> :| Continues(config, s, steps, s');
    assert Disciplined(config, s, steps) && AtRest(s, Run(config, s, steps));
  }

  /** Every request with tasks is finished and every message is acknowledged; no row was added for it. */
  ghost predicate AtRest(before: State, s: State) {
    && |s.db.requests| == |before.db.requests| && |s.db.tasks| == |before.db.tasks| && |before.queue| <= |s.queue|
    && (forall r :: 0 <= r < |s.db.requests| && HasTask(s.db.tasks, r) ==> s.db.requests[r].status.Terminal())
    && (forall m :: 0 <= m < |s.queue| ==> s.queue[m].acked)
  }
}
