/**
 The two-state view: what any lease-disciplined step may do to the committed rows.  The relation is
 reflexive and transitive, so what it says of one step it says of whole runs.
 */
module Evolution {
  import opened Tables
  import opened Transactions
  import opened RowInvariants
  import opened Intake

  /** Terminal tasks are frozen; every task keeps its identity and its attempts only grow. */
  ghost predicate TasksEvolve(db: Db, db': Db) {
    && |db.tasks| <= |db'.tasks|
    && (forall t :: 0 <= t < |db.tasks| ==>
          && db'.tasks[t].request == db.tasks[t].request
          && db'.tasks[t].tenant == db.tasks[t].tenant
          && db'.tasks[t].source == db.tasks[t].source
          && db.tasks[t].attempt <= db'.tasks[t].attempt
          && (db.tasks[t].status.Terminal() ==> db'.tasks[t] == db.tasks[t]))
    && (forall t :: |db.tasks| <= t < |db'.tasks| ==> db'.tasks[t].request >= |db.requests|)
  }

  /** Terminal requests are frozen; every request keeps its identity and its version only grows. */
  ghost predicate RequestsEvolve(db: Db, db': Db) {
    && |db.requests| <= |db'.requests|
    && (forall r :: 0 <= r < |db.requests| ==>
          && db'.requests[r].tenant == db.requests[r].tenant
          && db'.requests[r].key == db.requests[r].key
          && db'.requests[r].subject == db.requests[r].subject
          && db'.requests[r].kind == db.requests[r].kind
          && db'.requests[r].sources == db.requests[r].sources
          && db.requests[r].version <= db'.requests[r].version
          && (db.requests[r].status.Terminal() ==> db'.requests[r] == db.requests[r]))
  }

  /** Events are never withdrawn or unpublished, audit entries never change, deletions are final. */
  ghost predicate LogsEvolve(db: Db, db': Db) {
    && |db.outbox| <= |db'.outbox| && |db.audit| <= |db'.audit| && |db.records| <= |db'.records|
    && (forall e :: 0 <= e < |db.outbox| ==>
          db'.outbox[e].body == db.outbox[e].body && (db.outbox[e].published ==> db'.outbox[e].published))
    && (forall a :: 0 <= a < |db.audit| ==> db'.audit[a] == db.audit[a])
    && (forall i :: 0 <= i < |db.records| ==>
          db'.records[i] == db.records[i] || db'.records[i] == db.records[i].(deleted := true))
  }

  ghost predicate Evolves(db: Db, db': Db) {
    TasksEvolve(db, db') && RequestsEvolve(db, db') && LogsEvolve(db, db')
  }

  lemma EvolvesTransitive(a: Db, b: Db, c: Db)
    requires Evolves(a, b) && Evolves(b, c)
    ensures Evolves(a, c)
  {
  }

  lemma ClaimEvolves(db: Db, t: TaskId, worker: WorkerId, now: int, lease: nat)
    requires RowsOk(db) && t < |db.tasks| && Claimable(db.tasks[t], now)
    ensures Evolves(db, ClaimTx(db, t, worker, now, lease))
    ensures CreatesNothing(db, ClaimTx(db, t, worker, now, lease))
  {
    OpenTaskOpenRequest(db, t);
  }

  lemma HeartbeatEvolves(db: Db, t: TaskId, worker: WorkerId, now: int, lease: nat)
    ensures Evolves(db, HeartbeatTx(db, t, worker, now, lease))
    ensures CreatesNothing(db, HeartbeatTx(db, t, worker, now, lease))
  {
  }

  lemma FinishEvolves(config: Config, db: Db, t: TaskId, loaded: nat, outcome: Outcome)
    requires RowsOk(db) && t < |db.tasks| && db.tasks[t].status.Running?
    ensures Evolves(db, FinishTx(config, db, t, loaded, outcome))
    ensures CreatesNothing(db, FinishTx(config, db, t, loaded, outcome))
  {
    OpenTaskOpenRequest(db, t);
  }

  lemma RefreshEvolves(db: Db, r: RequestId)
    requires RowsOk(db) && r < |db.requests|
    ensures Evolves(db, RefreshTx(db, r))
    ensures CreatesNothing(db, RefreshTx(db, r))
  {
    if db.requests[r].status.Terminal() {
      RefreshOfTerminalIsIdentity(db, r);
    }
  }

  lemma CreateEvolves(db: Db, tenant: string, key: string, subject: string, kind: Kind, sources: seq<string>)
    ensures Evolves(db, CreateTx(db, tenant, key, subject, kind, sources))
  {
  }

  lemma MarkEvolves(db: Db, sent: set<EventId>)
    ensures Evolves(db, MarkTx(db, sent))
    ensures CreatesNothing(db, MarkTx(db, sent))
  {
  }
}
