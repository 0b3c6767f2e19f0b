/** Idempotent creation under any interleaving of callers, with lookup and insert as separate steps. */
module IntakeTheorems {
  import opened Tables
  import opened Transactions
  import opened Intake
  import opened Protocol
  import opened ProtocolInvariants
  import opened WorkflowTheorems

  /** Call `c` was given request `r`, newly created or already there. */
  ghost predicate Got(s: State, c: nat, r: RequestId) {
    c < |s.calls| && (s.calls[c].phase == Answered(Created(r)) || s.calls[c].phase == Answered(Existing(r)))
  }

  ghost predicate GotConflict(s: State, c: nat) {
    c < |s.calls| && s.calls[c].phase == Answered(Conflict)
  }

  ghost predicate SameKey(a: Call, b: Call) {
    a.tenant == b.tenant && a.key == b.key
  }

  /** A tenant's key names at most one request, and exactly one call was told that it created it. */
  lemma OneRequestPerKey(config: Config, s: State)
    requires Reachable(config, s)
    ensures forall q, r :: 0 <= q < r < |s.db.requests|
              ==> !HasKey(s.db.requests[q], s.db.requests[r].tenant, s.db.requests[r].key)
    ensures forall r :: 0 <= r < |s.db.requests| ==> HasCreator(s.calls, r)
    ensures forall b, c, r :: CreatedBy(s.calls, b, r) && CreatedBy(s.calls, c, r) ==> b == c
  {
    ReachableInv(config, s);
  }

  /** Two answered calls with one key agree on the request exactly when their commands agree. */
  lemma SameKeySameRequest(config: Config, s: State, b: nat, c: nat, q: RequestId)
    requires Reachable(config, s) && Got(s, b, q) && c < |s.calls| && SameKey(s.calls[b], s.calls[c])
    ensures q < |s.db.requests| && SameCommand(s.db.requests[q], s.calls[b].command)
    ensures forall r :: Got(s, c, r) ==> r == q && SameCommand(s.db.requests[q], s.calls[c].command)
    ensures GotConflict(s, c) ==> !SameCommand(s.db.requests[q], s.calls[c].command)
  {
    ReachableInv(config, s);
    AnswersAgree(s.db.requests, s.calls[b], s.calls[c], q);
  }

  /** Two right answers about one key, over requests whose keys are unique. */
  lemma AnswersAgree(requests: seq<Request>, first: Call, second: Call, q: RequestId)
    requires KeysUnique(requests) && CallOk(requests, first) && CallOk(requests, second) && SameKey(first, second)
    requires first.phase == Answered(Created(q)) || first.phase == Answered(Existing(q))
    ensures q < |requests| && SameCommand(requests[q], first.command)
    ensures forall r :: second.phase == Answered(Created(r)) || second.phase == Answered(Existing(r))
              ==> r == q && SameCommand(requests[q], second.command)
    ensures second.phase == Answered(Conflict) ==> !SameCommand(requests[q], second.command)
  {
  }

  /** A conflict means a different subject, kind or source set under the same key. */
  lemma ConflictMeansDifferentCommand(config: Config, s: State, c: nat)
    requires Reachable(config, s) && GotConflict(s, c)
    ensures exists r :: 0 <= r < |s.db.requests| && HasKey(s.db.requests[r], s.calls[c].tenant, s.calls[c].key)
              && !(s.db.requests[r].subject == s.calls[c].command.subject
                   && s.db.requests[r].kind == s.calls[c].command.kind
                   && (forall x :: x in s.db.requests[r].sources <==> x in s.calls[c].command.sources))
  {
    ReachableInv(config, s);
    var call := s.calls[c];
    assert CallOk(s.db.requests, call);
    var r :| 0 <= r < |s.db.requests| && HasKey(s.db.requests[r], call.tenant, call.key)
             && !SameCommand(s.db.requests[r], call.command);
    SameCommandComparesSourceSets(s.db.requests[r], call.command);
  }

  /** A request gets the subject, kind and source set of the command it was created for. */
  lemma CreatedAsCommanded(config: Config, s: State, c: nat, r: RequestId)
    requires Reachable(config, s) && Got(s, c, r)
    ensures r < |s.db.requests| && HasKey(s.db.requests[r], s.calls[c].tenant, s.calls[c].key)
    ensures s.db.requests[r].subject == s.calls[c].command.subject && s.db.requests[r].kind == s.calls[c].command.kind
    ensures forall x :: x in s.db.requests[r].sources <==> x in s.calls[c].command.sources
  {
    ReachableInv(config, s);
    assert CallOk(s.db.requests, s.calls[c]);
    SameCommandComparesSourceSets(s.db.requests[r], s.calls[c].command);
  }

  /** A command is rejected exactly for naming a source that does not exist; otherwise repetitions are dropped. */
  lemma UnknownSourcesAreRejected(config: Config, s: State, tenant: string, key: string, command: Command)
    ensures var s' := Apply(config, s, Submit(tenant, key, command)); var c := |s.calls|;
      && |s'.calls| == c + 1 && s'.calls[..c] == s.calls && s'.db == s.db
      && s'.calls[c].tenant == tenant && s'.calls[c].key == key
      && (s'.calls[c].phase == Answered(Rejected) <==>
            exists x :: x in command.sources && x !in {"profile", "devices", "telemetry", "jobs", "support_logs"})
      && (s'.calls[c].phase != Answered(Rejected) ==>
            && s'.calls[c].phase == Looking
            && s'.calls[c].command.subject == command.subject && s'.calls[c].command.kind == command.kind
            && (forall x :: x in s'.calls[c].command.sources <==> x in command.sources)
            && Distinct(s'.calls[c].command.sources))
  {
    DedupKeepsTheSet(command.sources);
  }

  /** A step that answers a call without creating writes no row. */
  lemma OnlyCreationWrites(config: Config, s: State, c: nat)
    ensures Apply(config, s, Lookup(c)).db == s.db
    ensures Apply(config, s, Insert(c)).db != s.db ==>
            CreatedBy(Apply(config, s, Insert(c)).calls, c, |s.db.requests|)
            && FindKey(s.db.requests, s.calls[c].tenant, s.calls[c].key).None?
  {
  }

  /** A created request starts queued at version one, and its tasks pending, unclaimed, unowned and without a result. */
  lemma CreatedFresh(config: Config, s: State, c: nat)
    requires c < |s.calls| && s.calls[c].phase.Inserting? && FindKey(s.db.requests, s.calls[c].tenant, s.calls[c].key).None?
    ensures var db', call, r := Apply(config, s, Insert(c)).db, s.calls[c], |s.db.requests|;
      && |db'.requests| == r + 1 && |db'.tasks| == |s.db.tasks| + |call.command.sources|
      && db'.requests[r].status.Queued? && db'.requests[r].version == 1 && db'.requests[r].artifactPath.None?
      && db'.requests[r].tenant == call.tenant && db'.requests[r].key == call.key && db'.requests[r].sources == call.command.sources
      && (forall i :: 0 <= i < |call.command.sources| ==>
            var task := db'.tasks[|s.db.tasks| + i];
            && task.request == r && task.tenant == call.tenant && task.source == call.command.sources[i]
            && task.status.Pending? && task.attempt == 0 && task.owner.None? && task.expires.None?
            && task.receipt.NoReceipt? && task.error.None?)
      && (forall e :: |s.db.outbox| <= e < |db'.outbox| ==> !db'.outbox[e].published)
  {
    InsertApplies(config, s, Insert(c));
  }

  /**
   The creation record of a request: one task per source, one ready event per task, one
   request-created event and one creation audit entry.
   */
  lemma CreationRecord(config: Config, s: State, r: RequestId)
    requires Reachable(config, s) && r < |s.db.requests|
    ensures Distinct(s.db.requests[r].sources) && CountTasks(s.db.tasks, r) == |s.db.requests[r].sources|
    ensures forall x :: x in s.db.requests[r].sources ==>
              exists t :: 0 <= t < |s.db.tasks| && s.db.tasks[t].request == r && s.db.tasks[t].source == x
    ensures forall t, u :: 0 <= t < u < |s.db.tasks| && s.db.tasks[t].request == r && s.db.tasks[u].request == r
              ==> s.db.tasks[t].source != s.db.tasks[u].source
    ensures forall t :: 0 <= t < |s.db.tasks| && s.db.tasks[t].request == r ==>
              exists e :: 0 <= e < |s.db.outbox| && s.db.outbox[e].body == TaskReady(t, r, s.db.tasks[t].source)
    ensures forall e, f :: 0 <= e < f < |s.db.outbox| && s.db.outbox[e].body.TaskReady? && s.db.outbox[f].body.TaskReady?
              ==> s.db.outbox[e].body.task != s.db.outbox[f].body.task
    ensures exists e :: 0 <= e < |s.db.outbox|
              && s.db.outbox[e].body == RequestCreated(r, s.db.requests[r].kind, s.db.requests[r].sources)
    ensures forall e, f :: 0 <= e < f < |s.db.outbox| && IsBirth(s.db.outbox[e].body, r) ==> !IsBirth(s.db.outbox[f].body, r)
    ensures exists a :: 0 <= a < |s.db.audit| && s.db.audit[a]
              == AuditEntry(s.db.requests[r].tenant, r, CreatedRequest(s.db.requests[r].kind, s.db.requests[r].sources))
    ensures forall a, b :: 0 <= a < b < |s.db.audit| && IsBirthEntry(s.db.audit[a], r) ==> !IsBirthEntry(s.db.audit[b], r)
  {
    ReachableInv(config, s);
    TasksOfCreation(s.db, r);
    ReadyOfCreation(s.db, r);
    BirthOfCreation(s.db, r);
  }

  lemma TasksOfCreation(db: Db, r: RequestId)
    requires DbOk(db) && r < |db.requests|
    ensures Distinct(db.requests[r].sources) && CountTasks(db.tasks, r) == |db.requests[r].sources|
    ensures forall x :: x in db.requests[r].sources ==>
              exists t :: 0 <= t < |db.tasks| && db.tasks[t].request == r && db.tasks[t].source == x
    ensures forall t, u :: 0 <= t < u < |db.tasks| && db.tasks[t].request == r && db.tasks[u].request == r
              ==> db.tasks[t].source != db.tasks[u].source
  {
    forall x | x in db.requests[r].sources
      ensures exists t :: 0 <= t < |db.tasks| && db.tasks[t].request == r && db.tasks[t].source == x
    {
      assert HasSource(db.tasks, r, x);
    }
  }

  lemma ReadyOfCreation(db: Db, r: RequestId)
    requires DbOk(db)
    ensures forall t :: 0 <= t < |db.tasks| && db.tasks[t].request == r ==>
              exists e :: 0 <= e < |db.outbox| && db.outbox[e].body == TaskReady(t, r, db.tasks[t].source)
    ensures forall e, f :: 0 <= e < f < |db.outbox| && db.outbox[e].body.TaskReady? && db.outbox[f].body.TaskReady?
              ==> db.outbox[e].body.task != db.outbox[f].body.task
  {
    forall t | 0 <= t < |db.tasks| && db.tasks[t].request == r
      ensures exists e :: 0 <= e < |db.outbox| && db.outbox[e].body == TaskReady(t, r, db.tasks[t].source)
    {
      assert ReadyExists(db.outbox, t);
      var e :| 0 <= e < |db.outbox| && IsReady(db.outbox[e].body, t);
      assert db.outbox[e].body == TaskReady(t, r, db.tasks[t].source);
    }
  }

  lemma BirthOfCreation(db: Db, r: RequestId)
    requires DbOk(db) && r < |db.requests|
    ensures exists e :: 0 <= e < |db.outbox|
              && db.outbox[e].body == RequestCreated(r, db.requests[r].kind, db.requests[r].sources)
    ensures forall e, f :: 0 <= e < f < |db.outbox| && IsBirth(db.outbox[e].body, r) ==> !IsBirth(db.outbox[f].body, r)
    ensures exists a :: 0 <= a < |db.audit| && db.audit[a]
              == AuditEntry(db.requests[r].tenant, r, CreatedRequest(db.requests[r].kind, db.requests[r].sources))
    ensures forall a, b :: 0 <= a < b < |db.audit| && IsBirthEntry(db.audit[a], r) ==> !IsBirthEntry(db.audit[b], r)
  {
    assert BirthExists(db, r);
    var e :| 0 <= e < |db.outbox| && IsBirth(db.outbox[e].body, r);
    assert db.outbox[e].body == RequestCreated(r, db.requests[r].kind, db.requests[r].sources);
    var a :| 0 <= a < |db.audit| && IsBirthEntry(db.audit[a], r);
    assert db.audit[a]
        == AuditEntry(db.requests[r].tenant, r, CreatedRequest(db.requests[r].kind, db.requests[r].sources));
  }
}
