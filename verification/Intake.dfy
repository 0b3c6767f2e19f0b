/**
 Request intake: source validation, the idempotency lookup, and what every transaction keeps about
 the rows that a creation writes.
 */
module Intake {
  import opened Tables
  import opened Transactions

  const ALLOWED_SOURCES: set<string> := {"profile", "devices", "telemetry", "jobs", "support_logs"}

  // ---------------------------------------------------------------- commands

  /** Keeps the first occurrence of each source, in order. */
  function Dedup(sources: seq<string>): seq<string> {
    if sources == [] then []
    else
      var n := |sources| - 1;
      var init := Dedup(sources[..n]);
      if sources[n] in sources[..n] then init else init + [sources[n]]
  }

  ghost predicate Distinct(sources: seq<string>) {
    forall i, j :: 0 <= i < j < |sources| ==> sources[i] != sources[j]
  }

  lemma {:induction false} DedupKeepsTheSet(sources: seq<string>)
    ensures Distinct(Dedup(sources))
    ensures forall x :: x in Dedup(sources) <==> x in sources
  {
    if sources != [] {
      DedupKeepsTheSet(sources[..|sources| - 1]);
    }
  }

  /** First occurrences keep their order: every occurrence of a later source has an earlier one before it. */
  lemma {:induction false} DedupKeepsOrder(sources: seq<string>, i: nat, j: nat)
    requires i < j < |Dedup(sources)|
    ensures forall q :: 0 <= q < |sources| && sources[q] == Dedup(sources)[j] ==> Dedup(sources)[i] in sources[..q]
  {
    var n := |sources| - 1;
    var init := Dedup(sources[..n]);
    DedupKeepsTheSet(sources[..n]);
    assert init[i] in init;
    if j < |init| {
      DedupKeepsOrder(sources[..n], i, j);
    } else {
      assert init == Dedup(sources)[..j];
    }
    forall q | 0 <= q < |sources| && sources[q] == Dedup(sources)[j] ensures Dedup(sources)[i] in sources[..q] {
      if q < n {
        assert sources[..n][q] == sources[q] && sources[..n][..q] == sources[..q];
      }
    }
  }

  /** `None` stands for the validation error on an unknown source. */
  function ValidateSources(sources: seq<string>): Option<seq<string>> {
    if forall x :: x in sources ==> x in ALLOWED_SOURCES then Some(Dedup(sources)) else None
  }

  datatype Command = Command(subject: string, kind: Kind, sources: seq<string>)

  /** Two sorted lists are equal exactly when the lists are equal as multisets. */
  predicate SameCommand(request: Request, command: Command) {
    && request.subject == command.subject
    && request.kind == command.kind
    && multiset(request.sources) == multiset(command.sources)
  }

  lemma {:induction false} DistinctMultiplicity(s: seq<string>)
    requires Distinct(s)
    ensures forall x :: multiset(s)[x] == (if x in s then 1 else 0)
  {
    if s != [] {
      var n := |s| - 1;
      DistinctMultiplicity(s[..n]);
      assert s == s[..n] + [s[n]];
    }
  }

  /** On validated commands the comparison is exactly equality of the source sets. */
  lemma SameCommandComparesSourceSets(request: Request, command: Command)
    requires Distinct(request.sources) && Distinct(command.sources)
    ensures SameCommand(request, command) <==>
            && request.subject == command.subject && request.kind == command.kind
            && (forall x :: x in request.sources <==> x in command.sources)
  {
    DistinctMultiplicity(request.sources);
    DistinctMultiplicity(command.sources);
    if forall x :: x in request.sources <==> x in command.sources {
      assert multiset(request.sources) == multiset(command.sources);
    } else {
      var x :| (x in request.sources) != (x in command.sources);
      assert multiset(request.sources)[x] != multiset(command.sources)[x];
    }
  }

  // ---------------------------------------------------------------- lookup

  predicate HasKey(request: Request, tenant: string, key: string) {
    request.tenant == tenant && request.key == key
  }

  function FindKey(requests: seq<Request>, tenant: string, key: string): Option<RequestId> {
    if requests == [] then None
    else if HasKey(requests[|requests| - 1], tenant, key) then Some(|requests| - 1)
    else FindKey(requests[..|requests| - 1], tenant, key)
  }

  lemma {:induction false} FindKeyIsTheLookup(requests: seq<Request>, tenant: string, key: string)
    ensures match FindKey(requests, tenant, key)
            case Some(r) => r < |requests| && HasKey(requests[r], tenant, key)
            case None => forall r :: 0 <= r < |requests| ==> !HasKey(requests[r], tenant, key)
  {
    if requests != [] {
      FindKeyIsTheLookup(requests[..|requests| - 1], tenant, key);
    }
  }

  // ---------------------------------------------------------------- creation records

  ghost predicate KeysUnique(requests: seq<Request>) {
    forall q, r :: 0 <= q < r < |requests| ==> !HasKey(requests[q], requests[r].tenant, requests[r].key)
  }

  /** Tasks of one request have distinct sources, and together they are the requested sources. */
  ghost predicate TasksMatchSources(db: Db) {
    && (forall t :: 0 <= t < |db.tasks| ==>
          db.tasks[t].request < |db.requests| && db.tasks[t].source in db.requests[db.tasks[t].request].sources)
    && (forall t, u :: 0 <= t < u < |db.tasks| && db.tasks[t].request == db.tasks[u].request
                       ==> db.tasks[t].source != db.tasks[u].source)
    && (forall r, x :: 0 <= r < |db.requests| && x in db.requests[r].sources ==> HasSource(db.tasks, r, x))
    && (forall r :: 0 <= r < |db.requests| ==> Distinct(db.requests[r].sources))
  }

  ghost predicate HasSource(tasks: seq<Task>, r: RequestId, x: string) {
    exists t :: 0 <= t < |tasks| && tasks[t].request == r && tasks[t].source == x
  }

  predicate IsReady(body: EventBody, t: TaskId) { body.TaskReady? && body.task == t }

  /** Exactly one ready event per task, and it describes that task. */
  ghost predicate ReadyOk(db: Db) {
    && (forall t :: 0 <= t < |db.tasks| ==> ReadyExists(db.outbox, t))
    && (forall e :: 0 <= e < |db.outbox| && db.outbox[e].body.TaskReady? ==>
          var t := db.outbox[e].body.task;
          t < |db.tasks| && db.outbox[e].body == TaskReady(t, db.tasks[t].request, db.tasks[t].source))
    && (forall e, f :: 0 <= e < f < |db.outbox| && db.outbox[e].body.TaskReady? && db.outbox[f].body.TaskReady?
                       ==> db.outbox[e].body.task != db.outbox[f].body.task)
  }

  ghost predicate ReadyExists(outbox: seq<OutboxEvent>, t: TaskId) {
    exists e :: 0 <= e < |outbox| && IsReady(outbox[e].body, t)
  }

  predicate IsBirth(body: EventBody, r: RequestId) { body.RequestCreated? && body.request == r }

  predicate IsBirthEntry(entry: AuditEntry, r: RequestId) { entry.action.CreatedRequest? && entry.request == r }

  /** Exactly one creation event and one creation audit entry per request, describing it. */
  ghost predicate BirthOk(db: Db) {
    && (forall r :: 0 <= r < |db.requests| ==> BirthExists(db, r))
    && (forall e :: 0 <= e < |db.outbox| && db.outbox[e].body.RequestCreated? ==>
          var r := db.outbox[e].body.request;
          r < |db.requests| && db.outbox[e].body == RequestCreated(r, db.requests[r].kind, db.requests[r].sources))
    && (forall e, f :: 0 <= e < f < |db.outbox| && db.outbox[e].body.RequestCreated? && db.outbox[f].body.RequestCreated?
                       ==> db.outbox[e].body.request != db.outbox[f].body.request)
    && (forall a :: 0 <= a < |db.audit| && db.audit[a].action.CreatedRequest? ==>
          var r := db.audit[a].request;
          r < |db.requests| && db.audit[a]
          == AuditEntry(db.requests[r].tenant, r, CreatedRequest(db.requests[r].kind, db.requests[r].sources)))
    && (forall a, b :: 0 <= a < b < |db.audit| && db.audit[a].action.CreatedRequest? && db.audit[b].action.CreatedRequest?
                       ==> db.audit[a].request != db.audit[b].request)
  }

  ghost predicate BirthExists(db: Db, r: RequestId) {
    && (exists e :: 0 <= e < |db.outbox| && IsBirth(db.outbox[e].body, r))
    && (exists a :: 0 <= a < |db.audit| && IsBirthEntry(db.audit[a], r))
  }

  ghost predicate CreationOk(db: Db) {
    KeysUnique(db.requests) && TasksMatchSources(db) && ReadyOk(db) && BirthOk(db)
  }

  /** `db'` creates nothing: identifying fields stay, and new events and entries are not creations. */
  ghost predicate CreatesNothing(db: Db, db': Db) {
    && |db'.requests| == |db.requests| && |db'.tasks| == |db.tasks|
    && |db.outbox| <= |db'.outbox| && |db.audit| <= |db'.audit|
    && (forall r :: 0 <= r < |db.requests| ==>
          && db'.requests[r].tenant == db.requests[r].tenant && db'.requests[r].key == db.requests[r].key
          && db'.requests[r].subject == db.requests[r].subject && db'.requests[r].kind == db.requests[r].kind
          && db'.requests[r].sources == db.requests[r].sources)
    && (forall t :: 0 <= t < |db.tasks| ==>
          db'.tasks[t].request == db.tasks[t].request && db'.tasks[t].source == db.tasks[t].source)
    && (forall e :: 0 <= e < |db.outbox| ==> db'.outbox[e].body == db.outbox[e].body)
    && (forall e :: |db.outbox| <= e < |db'.outbox| ==> db'.outbox[e].body.RequestFinished?)
    && (forall a :: 0 <= a < |db.audit| ==> db'.audit[a] == db.audit[a])
    && (forall a :: |db.audit| <= a < |db'.audit| ==> !db'.audit[a].action.CreatedRequest?)
  }

  lemma CreationFrame(db: Db, db': Db)
    requires CreationOk(db) && CreatesNothing(db, db')
    ensures CreationOk(db')
  {
    forall r, x | 0 <= r < |db'.requests| && x in db'.requests[r].sources ensures HasSource(db'.tasks, r, x) {
      assert HasSource(db.tasks, r, x);
      var t :| 0 <= t < |db.tasks| && db.tasks[t].request == r && db.tasks[t].source == x;
      assert db'.tasks[t].request == r && db'.tasks[t].source == x;
    }
    ReadyFrame(db, db');
    BirthFrame(db, db');
  }

  lemma ReadyFrame(db: Db, db': Db)
    requires ReadyOk(db) && CreatesNothing(db, db')
    ensures ReadyOk(db')
  {
    forall t | 0 <= t < |db'.tasks| ensures ReadyExists(db'.outbox, t) {
      assert ReadyExists(db.outbox, t);
      var e :| 0 <= e < |db.outbox| && IsReady(db.outbox[e].body, t);
      assert IsReady(db'.outbox[e].body, t);
    }
  }

  lemma BirthFrame(db: Db, db': Db)
    requires BirthOk(db) && CreatesNothing(db, db')
    ensures BirthOk(db')
  {
    forall r | 0 <= r < |db'.requests| ensures BirthExists(db', r) {
      assert BirthExists(db, r);
      var e :| 0 <= e < |db.outbox| && IsBirth(db.outbox[e].body, r);
      assert IsBirth(db'.outbox[e].body, r);
      var a :| 0 <= a < |db.audit| && IsBirthEntry(db.audit[a], r);
      assert IsBirthEntry(db'.audit[a], r);
    }
  }

  lemma CreateKeepsCreation(db: Db, tenant: string, key: string, subject: string, kind: Kind, sources: seq<string>)
    requires CreationOk(db) && Distinct(sources)
    requires FindKey(db.requests, tenant, key).None?
    ensures CreationOk(CreateTx(db, tenant, key, subject, kind, sources))
  {
    FindKeyIsTheLookup(db.requests, tenant, key);
    CreateMatchesSources(db, tenant, key, subject, kind, sources);
    CreateKeepsReady(db, tenant, key, subject, kind, sources);
    CreateKeepsBirth(db, tenant, key, subject, kind, sources);
  }

  lemma CreateMatchesSources(db: Db, tenant: string, key: string, subject: string, kind: Kind, sources: seq<string>)
    requires TasksMatchSources(db) && Distinct(sources)
    ensures TasksMatchSources(CreateTx(db, tenant, key, subject, kind, sources))
  {
    NewRowsMatch(db, CreateTx(db, tenant, key, subject, kind, sources));
  }

  /** `db'` adds one request and, in order, a task for each of its sources. */
  ghost predicate AddsRequest(db: Db, db': Db) {
    && |db'.requests| == |db.requests| + 1 && db'.requests[..|db.requests|] == db.requests
    && (var r := |db.requests|; var sources := db'.requests[r].sources;
        && |db'.tasks| == |db.tasks| + |sources| && db'.tasks[..|db.tasks|] == db.tasks
        && (forall t :: |db.tasks| <= t < |db'.tasks| ==>
              db'.tasks[t].request == r && db'.tasks[t].source == sources[t - |db.tasks|]))
  }

  lemma NewRowsMatch(db: Db, db': Db)
    requires TasksMatchSources(db) && AddsRequest(db, db') && Distinct(db'.requests[|db.requests|].sources)
    ensures TasksMatchSources(db')
  {
    assert forall r :: 0 <= r < |db.requests| ==> db'.requests[r] == db.requests[r];
    assert forall t :: 0 <= t < |db.tasks| ==> db'.tasks[t] == db.tasks[t];
    forall r, x | 0 <= r < |db'.requests| && x in db'.requests[r].sources ensures HasSource(db'.tasks, r, x) {
      if r < |db.requests| {
        assert HasSource(db.tasks, r, x);
        var t :| 0 <= t < |db.tasks| && db.tasks[t].request == r && db.tasks[t].source == x;
        assert db'.tasks[t] == db.tasks[t];
      } else {
        var i :| 0 <= i < |db'.requests[r].sources| && db'.requests[r].sources[i] == x;
        assert db'.tasks[|db.tasks| + i].source == x;
      }
    }
  }

  /** `db'` appends one other event and then, in order, the ready events of its new tasks. */
  ghost predicate AppendsReady(db: Db, db': Db) {
    && |db.tasks| <= |db'.tasks| && |db'.outbox| == |db.outbox| + 1 + (|db'.tasks| - |db.tasks|)
    && (forall t :: 0 <= t < |db.tasks| ==> db'.tasks[t] == db.tasks[t])
    && (forall e :: 0 <= e < |db.outbox| ==> db'.outbox[e] == db.outbox[e])
    && !db'.outbox[|db.outbox|].body.TaskReady?
    && (forall e :: |db.outbox| < e < |db'.outbox| ==>
          var t := e - |db.outbox| - 1 + |db.tasks|;
          db'.outbox[e].body == TaskReady(t, db'.tasks[t].request, db'.tasks[t].source))
  }

  lemma CreateKeepsReady(db: Db, tenant: string, key: string, subject: string, kind: Kind, sources: seq<string>)
    requires ReadyOk(db)
    ensures ReadyOk(CreateTx(db, tenant, key, subject, kind, sources))
  {
    ReadyExtends(db, CreateTx(db, tenant, key, subject, kind, sources));
  }

  lemma ReadyExtends(db: Db, db': Db)
    requires ReadyOk(db) && AppendsReady(db, db')
    ensures ReadyOk(db')
  {
    forall t | 0 <= t < |db'.tasks| ensures ReadyExists(db'.outbox, t) {
      if t < |db.tasks| {
        assert ReadyExists(db.outbox, t);
        var e :| 0 <= e < |db.outbox| && IsReady(db.outbox[e].body, t);
        assert db'.outbox[e] == db.outbox[e];
      } else {
        assert IsReady(db'.outbox[t - |db.tasks| + |db.outbox| + 1].body, t);
      }
    }
  }

  lemma CreateKeepsBirth(db: Db, tenant: string, key: string, subject: string, kind: Kind, sources: seq<string>)
    requires BirthOk(db)
    ensures BirthOk(CreateTx(db, tenant, key, subject, kind, sources))
  {
    var db' := CreateTx(db, tenant, key, subject, kind, sources);
    assert forall e :: |db.outbox| + 1 <= e < |db'.outbox| ==> db'.outbox[e].body.TaskReady?;
    forall r | 0 <= r < |db'.requests| ensures BirthExists(db', r) {
      if r < |db.requests| {
        assert BirthExists(db, r);
        var e :| 0 <= e < |db.outbox| && IsBirth(db.outbox[e].body, r);
        assert db'.outbox[e] == db.outbox[e];
        var a :| 0 <= a < |db.audit| && IsBirthEntry(db.audit[a], r);
        assert db'.audit[a] == db.audit[a];
      } else {
        assert IsBirth(db'.outbox[|db.outbox|].body, r);
        assert IsBirthEntry(db'.audit[|db.audit|], r);
      }
    }
  }
}
