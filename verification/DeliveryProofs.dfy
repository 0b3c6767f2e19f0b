/** Queue, settlement and artifact invariants: no wake-up is lost before its task is settled. */
module DeliveryProofs {
  import opened Tables
  import opened Transactions
  import opened RowInvariants
  import opened Evolution
  import opened Protocol
  import opened ProtocolInvariants
  import opened HandlerProofs

  // ---------------------------------------------------------------- queue

  lemma QueueFrame(s: State, s': State)
    requires QueueOk(s) && Tame(s, s') && s'.queue == s.queue
    requires forall k :: k in s'.relays ==> k in s.relays && s'.relays[k] == s.relays[k]
    requires forall e :: 0 <= e < |s'.db.outbox| && s'.db.outbox[e].published ==> WasSent(s.queue, e)
    ensures QueueOk(s')
  {
    forall m | 0 <= m < |s'.queue| ensures MessageOk(s', m) && (s'.queue[m].acked ==> SafeToAck(s', m)) {
      assert MessageOk(s, m);
      if s.queue[m].acked {
        SafeToAckFrame(s, s', m);
      }
    }
  }

  lemma SendKeepsQueue(s: State, k: nat, e: EventId)
    requires QueueOk(s)
    ensures QueueOk(SendEvent(s, k, e))
  {
    var s' := SendEvent(s, k, e);
    if s' != s {
      assert s'.queue[|s.queue|].event == e;
      forall f | WasSent(s.queue, f) ensures WasSent(s'.queue, f) {
        var m :| 0 <= m < |s.queue| && s.queue[m].event == f;
        assert s'.queue[m].event == f;
      }
      forall m | 0 <= m < |s'.queue| ensures MessageOk(s', m) && (s'.queue[m].acked ==> SafeToAck(s', m)) {
        if m < |s.queue| {
          assert MessageOk(s, m) && (s.queue[m].acked ==> SafeToAck(s, m));
        }
      }
    }
  }

  lemma AckKeepsQueue(s: State, h: nat)
    requires QueueOk(s) && HandlersOk(s)
    ensures QueueOk(AckMessage(s, h))
  {
    var s' := AckMessage(s, h);
    if s' != s {
      assert HandlerOk(s, s.handlers[h]);
      forall f | WasSent(s.queue, f) ensures WasSent(s'.queue, f) {
        var m :| 0 <= m < |s.queue| && s.queue[m].event == f;
        assert s'.queue[m].event == f;
      }
      forall m | 0 <= m < |s'.queue| ensures MessageOk(s', m) && (s'.queue[m].acked ==> SafeToAck(s', m)) {
        assert MessageOk(s, m) && (s.queue[m].acked ==> SafeToAck(s, m));
      }
    }
  }

  ghost predicate PublishesNothing(db: Db, db': Db) {
    forall e :: 0 <= e < |db'.outbox| && db'.outbox[e].published ==> e < |db.outbox| && db.outbox[e].published
  }

  /** New events start unpublished, so only a relay commit publishes. */
  lemma OnlyRelaysPublish(config: Config, s: State, step: Step)
    requires !step.CommitRelay? && !step.Send? && !step.Ack?
    ensures var s' := Apply(config, s, step);
      && s'.queue == s.queue
      && (forall k :: k in s'.relays ==> k in s.relays && s'.relays[k] == s.relays[k])
      && PublishesNothing(s.db, s'.db)
  {
    if step.Insert? {
      InsertApplies(config, s, step);
      InsertPublishesNothing(s, step.call);
    } else if step.Refresh? {
      RefreshApplies(config, s, step);
      RefreshPublishesNothing(s, step.handler);
    } else {
      OtherStepsLeaveOutbox(config, s, step);
    }
  }

  lemma OtherStepsLeaveOutbox(config: Config, s: State, step: Step)
    requires !step.CommitRelay? && !step.Send? && !step.Ack? && !step.Insert? && !step.Refresh?
    ensures var s' := Apply(config, s, step);
      && s'.queue == s.queue && s'.db.outbox == s.db.outbox
      && (forall k :: k in s'.relays ==> k in s.relays && s'.relays[k] == s.relays[k])
  {
  }

  lemma InsertPublishesNothing(s: State, c: nat)
    ensures PublishesNothing(s.db, InsertCall(s, c).db)
    ensures InsertCall(s, c).queue == s.queue && InsertCall(s, c).relays == s.relays
  {
  }

  lemma RefreshPublishesNothing(s: State, h: nat)
    ensures PublishesNothing(s.db, RefreshParent(s, h).db)
    ensures RefreshParent(s, h).queue == s.queue && RefreshParent(s, h).relays == s.relays
  {
  }

  lemma StepKeepsQueue(config: Config, s: State, step: Step)
    requires QueueOk(s) && HandlersOk(s) && Tame(s, Apply(config, s, step))
    ensures QueueOk(Apply(config, s, step))
  {
    if step.Send? {
      SendApplies(config, s, step);
      SendKeepsQueue(s, step.relay, step.event);
    } else if step.Ack? {
      AckApplies(config, s, step);
      AckKeepsQueue(s, step.handler);
    } else if step.CommitRelay? {
      CommitKeepsQueue(config, s, step.relay);
    } else {
      OnlyRelaysPublish(config, s, step);
      QueueFrame(s, Apply(config, s, step));
    }
  }

  lemma CommitKeepsQueue(config: Config, s: State, k: nat)
    requires QueueOk(s) && Tame(s, Apply(config, s, CommitRelay(k)))
    ensures QueueOk(Apply(config, s, CommitRelay(k)))
  {
    QueueFrame(s, Apply(config, s, CommitRelay(k)));
  }

  // ---------------------------------------------------------------- settlement

  lemma SettledFrame(s: State, s': State)
    requires RowsOk(s.db) && SettledOk(s) && Tame(s, s') && s'.settled == s.settled
    ensures SettledOk(s')
  {
    forall r | 0 <= r < |s'.db.requests| && HasTask(s'.db.tasks, r) && AllSettled(s', r)
      ensures s'.db.requests[r].status.Terminal()
    {
      var t :| 0 <= t < |s'.db.tasks| && s'.db.tasks[t].request == r;
      assert t in s'.settled;
      assert s.db.tasks[t].request == r && TaskOk(s.db.requests, s.db.tasks[t]);
      assert AllSettled(s, r);
    }
  }

  /** What a refresh of `r0` does to settlement and status. */
  ghost predicate SettledBy(s: State, s': State, r0: RequestId) {
    && r0 < |s.db.requests| == |s'.db.requests| && s'.db.tasks == s.db.tasks
    && s'.settled == s.settled + TerminalTasksOf(s.db.tasks, r0)
    && s'.db.requests[r0].status == Derive(StatusesOf(s.db.tasks, r0))
    && (forall r :: 0 <= r < |s.db.requests| && r != r0 ==> s'.db.requests[r] == s.db.requests[r])
  }

  lemma RefreshSettles(s: State, h: nat)
    requires CanRefresh(s, h)
    ensures SettledBy(s, RefreshParent(s, h), s.db.tasks[s.handlers[h].phase.task].request)
  {
  }

  /** The refresh settles the terminal tasks of `r0`; if that is all of them, it also finished `r0`. */
  lemma RefreshKeepsSettled(s: State, h: nat)
    requires SettledOk(s)
    ensures SettledOk(RefreshParent(s, h))
  {
    if CanRefresh(s, h) {
      RefreshSettles(s, h);
      SettlingKeepsSettled(s, RefreshParent(s, h), s.db.tasks[s.handlers[h].phase.task].request);
    }
  }

  lemma SettlingKeepsSettled(s: State, s': State, r0: RequestId)
    requires SettledOk(s) && SettledBy(s, s', r0)
    ensures SettledOk(s')
  {
    forall r | 0 <= r < |s'.db.requests| && HasTask(s'.db.tasks, r) && AllSettled(s', r)
      ensures s'.db.requests[r].status.Terminal()
    {
      if r == r0 {
        AllSettledIsDerivedTerminal(s, s', r);
      } else {
        OtherRequestSettled(s, s', r0, r);
      }
    }
  }

  lemma AllSettledIsDerivedTerminal(s: State, s': State, r: RequestId)
    requires SettledOk(s) && s'.db.tasks == s.db.tasks && HasTask(s.db.tasks, r) && AllSettled(s', r)
    requires s'.settled == s.settled + TerminalTasksOf(s.db.tasks, r)
    ensures Derive(StatusesOf(s.db.tasks, r)).Terminal()
  {
    DeriveMeaning(s.db.tasks, r);
  }

  lemma OtherRequestSettled(s: State, s': State, r0: RequestId, r: RequestId)
    requires r0 != r && s'.db.tasks == s.db.tasks && AllSettled(s', r)
    requires s'.settled == s.settled + TerminalTasksOf(s.db.tasks, r0)
    ensures AllSettled(s, r)
  {
  }

  lemma StepKeepsSettled(config: Config, s: State, step: Step)
    requires DbOk(s.db) && SettledOk(s) && Tame(s, Apply(config, s, step))
    ensures SettledOk(Apply(config, s, step))
  {
    if step.Refresh? {
      RefreshApplies(config, s, step);
      RefreshKeepsSettled(s, step.handler);
    } else {
      OnlyRefreshSettles(config, s, step);
      SettledFrame(s, Apply(config, s, step));
    }
  }

  lemma OnlyRefreshSettles(config: Config, s: State, step: Step)
    requires !step.Refresh?
    ensures Apply(config, s, step).settled == s.settled
  {
  }

  // ---------------------------------------------------------------- artifacts

  lemma {:induction false} DocumentFrame(a: seq<Task>, b: seq<Task>, r: RequestId)
    requires |a| <= |b|
    requires forall t :: 0 <= t < |a| ==> a[t].request == b[t].request
    requires forall t :: 0 <= t < |a| && a[t].request == r ==> a[t].source == b[t].source && a[t].receipt == b[t].receipt
    requires forall t :: |a| <= t < |b| ==> b[t].request != r
    ensures Document(a, r) == Document(b, r)
    decreases |b|
  {
    if |b| > |a| {
      DocumentFrame(a, b[..|b| - 1], r);
    } else if |a| > 0 {
      DocumentFrame(a[..|a| - 1], b[..|b| - 1], r);
    }
  }

  /** Tasks of a terminal request are frozen, so its document is too. */
  lemma TerminalDocumentFrozen(db: Db, db': Db, r: RequestId)
    requires RowsOk(db) && Evolves(db, db') && r < |db.requests| && db.requests[r].status.Terminal()
    ensures Document(db'.tasks, r) == Document(db.tasks, r)
  {
    assert RequestOk(db.requests[r], r, db.tasks);
    DeriveMeaning(db.tasks, r);
    DocumentFrame(db.tasks, db'.tasks, r);
  }

  lemma ArtifactsFrame(s: State, s': State)
    requires RowsOk(s.db) && RowsOk(s'.db) && ArtifactsOk(s) && Tame(s, s') && s'.artifacts == s.artifacts
    requires forall r :: 0 <= r < |s'.db.requests| && s'.db.requests[r].artifactPath.Some? ==>
               r < |s.db.requests| && s.db.requests[r].artifactPath.Some?
    ensures ArtifactsOk(s')
  {
    forall r | 0 <= r < |s'.db.requests| && s'.db.requests[r].artifactPath.Some?
      ensures var uri := ArtifactUri(s'.db.requests[r].tenant, r);
        uri in s'.artifacts && s'.artifacts[uri] == Document(s'.db.tasks, r)
    {
      assert RequestOk(s.db.requests[r], r, s.db.tasks);
      TerminalDocumentFrozen(s.db, s'.db, r);
    }
  }

  /** Storing the artifact of `r0` touches no finished request's artifact. */
  lemma PutKeepsArtifacts(s: State, r0: RequestId)
    requires ArtifactsOk(s) && r0 < |s.db.requests|
    ensures ArtifactsOk(s.(artifacts := PutArtifact(s, r0)))
    ensures NeedsArtifact(s.db.requests[r0], Derive(StatusesOf(s.db.tasks, r0))) ==>
              var uri := ArtifactUri(s.db.requests[r0].tenant, r0);
              uri in PutArtifact(s, r0) && PutArtifact(s, r0)[uri] == Document(s.db.tasks, r0)
  {
  }

  /** What a refresh of `r0` does to artifacts and their paths. */
  ghost predicate ExportedBy(s: State, s': State, r0: RequestId) {
    && r0 < |s.db.requests| == |s'.db.requests| && s'.db.tasks == s.db.tasks
    && s'.artifacts == PutArtifact(s, r0)
    && s'.db.requests[r0].tenant == s.db.requests[r0].tenant
    && (s'.db.requests[r0].artifactPath.Some? ==>
          s.db.requests[r0].artifactPath.Some? || NeedsArtifact(s.db.requests[r0], Derive(StatusesOf(s.db.tasks, r0))))
    && (forall r :: 0 <= r < |s.db.requests| && r != r0 ==> s'.db.requests[r] == s.db.requests[r])
  }

  lemma RefreshExports(s: State, h: nat)
    requires CanRefresh(s, h)
    ensures ExportedBy(s, RefreshParent(s, h), s.db.tasks[s.handlers[h].phase.task].request)
  {
  }

  lemma RefreshKeepsArtifacts(s: State, h: nat)
    requires ArtifactsOk(s)
    ensures ArtifactsOk(RefreshParent(s, h))
  {
    if CanRefresh(s, h) {
      RefreshExports(s, h);
      ExportKeepsArtifacts(s, RefreshParent(s, h), s.db.tasks[s.handlers[h].phase.task].request);
    }
  }

  lemma ExportKeepsArtifacts(s: State, s': State, r0: RequestId)
    requires ArtifactsOk(s) && ExportedBy(s, s', r0)
    ensures ArtifactsOk(s')
  {
    PutKeepsArtifacts(s, r0);
  }

  lemma CrashKeepsArtifacts(s: State, h: nat)
    requires ArtifactsOk(s)
    ensures ArtifactsOk(CrashWhileRefreshing(s, h))
  {
    if CanRefresh(s, h) {
      PutKeepsArtifacts(s, s.db.tasks[s.handlers[h].phase.task].request);
    }
  }

  lemma StepKeepsArtifacts(config: Config, s: State, step: Step)
    requires DbOk(s.db) && ArtifactsOk(s) && Tame(s, Apply(config, s, step)) && DbOk(Apply(config, s, step).db)
    ensures ArtifactsOk(Apply(config, s, step))
  {
    if step.Refresh? {
      RefreshApplies(config, s, step);
      RefreshKeepsArtifacts(s, step.handler);
    } else if step.CrashInRefresh? {
      CrashInRefreshApplies(config, s, step);
      CrashKeepsArtifacts(s, step.handler);
    } else {
      OnlyRefreshExports(config, s, step);
      ArtifactsFrame(s, Apply(config, s, step));
    }
  }

  /** No request has an artifact path it did not have before. */
  ghost predicate NoNewPaths(s: State, s': State) {
    && s'.artifacts == s.artifacts
    && (forall r :: 0 <= r < |s'.db.requests| && s'.db.requests[r].artifactPath.Some? ==>
          r < |s.db.requests| && s.db.requests[r].artifactPath.Some?)
  }

  lemma InsertExportsNothing(s: State, c: nat)
    ensures NoNewPaths(s, InsertCall(s, c))
  {
  }

  lemma ClaimExportsNothing(config: Config, s: State, h: nat)
    ensures NoNewPaths(s, ClaimForMessage(config, s, h))
  {
  }

  lemma PollExportsNothing(config: Config, s: State, worker: WorkerId, t: TaskId)
    ensures NoNewPaths(s, PollTask(config, s, worker, t))
  {
  }

  lemma FinishExportsNothing(config: Config, s: State, h: nat, outcome: Outcome)
    ensures NoNewPaths(s, FinishTask(config, s, h, outcome))
  {
  }

  lemma OtherStepsLeaveRequests(config: Config, s: State, step: Step)
    requires !step.Refresh? && !step.CrashInRefresh?
    requires !step.Insert? && !step.ClaimMessage? && !step.Poll? && !step.Finish?
    ensures Apply(config, s, step).db.requests == s.db.requests && Apply(config, s, step).artifacts == s.artifacts
  {
  }

  lemma OnlyRefreshExports(config: Config, s: State, step: Step)
    requires !step.Refresh? && !step.CrashInRefresh?
    ensures NoNewPaths(s, Apply(config, s, step))
  {
    if step.Insert? {
      InsertExportsNothing(s, step.call);
    } else if step.ClaimMessage? {
      ClaimExportsNothing(config, s, step.handler);
    } else if step.Poll? {
      PollExportsNothing(config, s, step.worker, step.task);
    } else if step.Finish? {
      FinishExportsNothing(config, s, step.handler, step.outcome);
    } else {
      OtherStepsLeaveRequests(config, s, step);
    }
  }
}
