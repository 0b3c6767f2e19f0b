/**
 What one worker does between its claim and its answer, as functions on rows, and the polling worker's
 whole batch as a run of the protocol.
 */
module BatchExecution {
  import opened Tables
  import opened Transactions
  import opened Protocol

  type ArtifactMap = map<ArtifactUri, map<string, Receipt>>

  // ---------------------------------------------------------------- claiming a batch

  /** Claims `ids` one after the other. */
  function ClaimAll(db: Db, ids: seq<TaskId>, worker: WorkerId, now: int, lease: nat): (claimed: Db)
    requires forall t :: t in ids ==> ValidTask(db, t)
    ensures |claimed.tasks| == |db.tasks| && |claimed.requests| == |db.requests|
    ensures forall t :: 0 <= t < |db.tasks| ==> claimed.tasks[t].request == db.tasks[t].request
  {
    if ids == [] then db
    else
      var n := |ids| - 1;
      var rest := ClaimAll(db, ids[..n], worker, now, lease);
      assert ids[n] in ids && ValidTask(db, ids[n]);
      assert rest.tasks[ids[n]].request == db.tasks[ids[n]].request;
      ClaimTx(rest, ids[n], worker, now, lease)
  }

  /** Exactly the tasks in `ids` are leased, and exactly their queued parents start. */
  ghost predicate RowsClaimed(db: Db, claimed: Db, ids: seq<TaskId>, worker: WorkerId, now: int, lease: nat) {
    && |claimed.tasks| == |db.tasks| && |claimed.requests| == |db.requests|
    && (forall t :: 0 <= t < |db.tasks| ==>
          claimed.tasks[t] == if t in ids then ClaimedTask(db.tasks[t], worker, now, lease) else db.tasks[t])
    && (forall r :: 0 <= r < |db.requests| ==>
          claimed.requests[r] == if HasParent(db, ids, r) then StartedRequest(db.requests[r]) else db.requests[r])
    && claimed.outbox == db.outbox && claimed.audit == db.audit && claimed.records == db.records
  }

  /** Request `r` is the parent of one of `ids`. */
  ghost predicate HasParent(db: Db, ids: seq<TaskId>, r: RequestId) {
    exists t :: t in ids && t < |db.tasks| && db.tasks[t].request == r
  }

  lemma ClaimOneRow(db: Db, before: Db, done: seq<TaskId>, t: TaskId, worker: WorkerId, now: int, lease: nat)
    requires RowsClaimed(db, before, done, worker, now, lease) && ValidTask(db, t) && t !in done
    ensures ValidTask(before, t)
    ensures RowsClaimed(db, ClaimTx(before, t, worker, now, lease), done + [t], worker, now, lease)
  {
    forall r | 0 <= r < |db.requests|
      ensures HasParent(db, done + [t], r) <==> HasParent(db, done, r) || db.tasks[t].request == r
    {
      assert t in done + [t];
      if u :| u in done && u < |db.tasks| && db.tasks[u].request == r {
        assert u in done + [t];
      }
    }
  }

  /** A batch claim row by row: each listed task is leased once. */
  lemma {:induction false} ClaimAllRows(db: Db, ids: seq<TaskId>, worker: WorkerId, now: int, lease: nat)
    requires forall t :: t in ids ==> ValidTask(db, t)
    requires forall i, j :: 0 <= i < j < |ids| ==> ids[i] < ids[j]
    ensures RowsClaimed(db, ClaimAll(db, ids, worker, now, lease), ids, worker, now, lease)
  {
    if ids != [] {
      var n := |ids| - 1;
      ClaimAllRows(db, ids[..n], worker, now, lease);
      assert ids[n] in ids && ids[n] !in ids[..n];
      ClaimOneRow(db, ClaimAll(db, ids[..n], worker, now, lease), ids[..n], ids[n], worker, now, lease);
      assert ids[..n] + [ids[n]] == ids;
    }
  }

  // ---------------------------------------------------------------- executing tasks

  /** The committed result of a task that runs now. */
  function ResultTx(config: Config, db: Db, t: TaskId, outcome: Outcome): Db
    requires ValidTask(db, t)
  {
    FinishTx(config, db, t, db.tasks[t].attempt, outcome)
  }

  /** `execute_task`: nothing without the lease; else the result, and the refresh unless its upload fails. */
  function ExecuteTx(config: Config, db: Db, t: TaskId, worker: WorkerId, outcome: Outcome, storeUp: bool): Db
    requires ValidTask(db, t)
  {
    if !Holds(db.tasks[t], worker) then db
    else
      var done := ResultTx(config, db, t, outcome);
      if UploadFails(done, db.tasks[t].request, storeUp) then done else RefreshTx(done, db.tasks[t].request)
  }

  function ExecuteArtifacts(
    config: Config, db: Db, artifacts: ArtifactMap, t: TaskId, worker: WorkerId, outcome: Outcome, storeUp: bool): ArtifactMap
    requires ValidTask(db, t)
  {
    var done := ResultTx(config, db, t, outcome);
    if !Holds(db.tasks[t], worker) || UploadFails(done, db.tasks[t].request, storeUp) then artifacts
    else Exported(artifacts, done, db.tasks[t].request)
  }

  /** Executing one task writes no other task row. */
  lemma ExecuteWrites(config: Config, db: Db, t: TaskId, worker: WorkerId, outcome: Outcome, storeUp: bool)
    requires ValidTask(db, t)
    ensures var db' := ExecuteTx(config, db, t, worker, outcome, storeUp);
      && |db'.tasks| == |db.tasks| && |db'.requests| == |db.requests|
      && db'.tasks[t].request == db.tasks[t].request
      && (forall u :: 0 <= u < |db.tasks| && u != t ==> db'.tasks[u] == db.tasks[u])
  {
  }

  /** Executes `ids` one after the other. */
  function ExecuteAllTx(
    config: Config, db: Db, ids: seq<TaskId>, worker: WorkerId, outcomes: TaskId -> Outcome, storeUp: TaskId -> bool): (db': Db)
    requires forall t :: t in ids ==> ValidTask(db, t)
    ensures |db'.tasks| == |db.tasks| && |db'.requests| == |db.requests|
    ensures forall t :: 0 <= t < |db.tasks| ==> db'.tasks[t].request == db.tasks[t].request
    ensures forall t :: 0 <= t < |db.tasks| && t !in ids ==> db'.tasks[t] == db.tasks[t]
  {
    if ids == [] then db
    else
      var n := |ids| - 1;
      var rest := ExecuteAllTx(config, db, ids[..n], worker, outcomes, storeUp);
      assert ids[n] in ids && ValidTask(db, ids[n]);
      assert rest.tasks[ids[n]].request == db.tasks[ids[n]].request;
      ExecuteWrites(config, rest, ids[n], worker, outcomes(ids[n]), storeUp(ids[n]));
      ExecuteTx(config, rest, ids[n], worker, outcomes(ids[n]), storeUp(ids[n]))
  }

  function Successes(tasks: seq<Task>, ids: seq<TaskId>): nat {
    if ids == [] then 0
    else
      var t := ids[|ids| - 1];
      Successes(tasks, ids[..|ids| - 1]) + (if t < |tasks| && tasks[t].status.Succeeded? then 1 else 0)
  }

  /** Of distinct tasks it is the number of those that succeeded. */
  lemma {:induction false} SuccessesCount(tasks: seq<Task>, ids: seq<TaskId>)
    requires forall i, j :: 0 <= i < j < |ids| ==> ids[i] < ids[j]
    ensures Successes(tasks, ids) == |set t | t in ids && 0 <= t < |tasks| && tasks[t].status.Succeeded?|
  {
    if ids != [] {
      SuccessesCount(tasks, ids[..|ids| - 1]);
      LastSuccess(tasks, ids);
    }
  }

  lemma LastSuccess(tasks: seq<Task>, ids: seq<TaskId>)
    requires ids != [] && forall i, j :: 0 <= i < j < |ids| ==> ids[i] < ids[j]
    ensures var n := |ids| - 1;
      |set t | t in ids && 0 <= t < |tasks| && tasks[t].status.Succeeded?|
      == |set t | t in ids[..n] && 0 <= t < |tasks| && tasks[t].status.Succeeded?|
         + (if ids[n] < |tasks| && tasks[ids[n]].status.Succeeded? then 1 else 0)
  {
    var n := |ids| - 1;
    var all := set t | t in ids && 0 <= t < |tasks| && tasks[t].status.Succeeded?;
    var rest := set t | t in ids[..n] && 0 <= t < |tasks| && tasks[t].status.Succeeded?;
    assert ids[n] in ids && ids[n] !in ids[..n];
    assert forall t :: t in ids <==> t in ids[..n] || t == ids[n];
    if ids[n] in all {
      assert all == rest + {ids[n]};
    } else {
      assert all == rest;
    }
  }

  lemma SuccessesExtend(tasks: seq<Task>, ids: seq<TaskId>, n: nat)
    requires n < |ids|
    ensures Successes(tasks, ids[..n + 1])
         == Successes(tasks, ids[..n]) + (if ids[n] < |tasks| && tasks[ids[n]].status.Succeeded? then 1 else 0)
  {
    assert ids[..n + 1][..n] == ids[..n];
  }

  lemma {:induction false} OthersKeepSuccess(before: seq<Task>, after: seq<Task>, ids: seq<TaskId>, t: TaskId)
    requires |after| == |before| && t !in ids
    requires forall u :: 0 <= u < |before| && u != t ==> after[u] == before[u]
    ensures Successes(after, ids) == Successes(before, ids)
  {
    if ids != [] {
      OthersKeepSuccess(before, after, ids[..|ids| - 1], t);
    }
  }

  /** A polling worker's batch: `ids` claimed together, then the first `ran` of them executed on the database. */
  function BatchTx(
    config: Config, db: Db, ids: seq<TaskId>, ran: nat, worker: WorkerId, now: int,
    outcomes: TaskId -> Outcome, storeUp: TaskId -> bool): (db': Db)
    requires ran <= |ids| && forall t :: t in ids ==> ValidTask(db, t)
    ensures |db'.tasks| == |db.tasks| && |db'.requests| == |db.requests|
    ensures forall t :: 0 <= t < |db.tasks| ==> db'.tasks[t].request == db.tasks[t].request
  {
    var claimed := ClaimAll(db, ids, worker, now, config.lease);
    assert forall t :: t in ids[..ran] ==> t in ids;
    ExecuteAllTx(config.(regional := false), claimed, ids[..ran], worker, outcomes, storeUp)
  }

  /** After the first `n` tasks of a batch the worker still holds the next one, and the next one only is written. */
  lemma NextIsHeld(
    config: Config, db: Db, ids: seq<TaskId>, n: nat, worker: WorkerId, now: int,
    outcomes: TaskId -> Outcome, storeUp: TaskId -> bool)
    requires n < |ids| && forall t :: t in ids ==> ValidTask(db, t)
    requires forall i, j :: 0 <= i < j < |ids| ==> ids[i] < ids[j]
    ensures ids[n] in ids && ids[n] !in ids[..n] && ids[n] < |db.tasks|
    ensures var before := BatchTx(config, db, ids, n, worker, now, outcomes, storeUp);
      && before.tasks[ids[n]] == ClaimedTask(db.tasks[ids[n]], worker, now, config.lease)
      && ValidTask(before, ids[n])
      && BatchTx(config, db, ids, n + 1, worker, now, outcomes, storeUp)
         == ExecuteTx(config.(regional := false), before, ids[n], worker, outcomes(ids[n]), storeUp(ids[n]))
  {
    ClaimAllRows(db, ids, worker, now, config.lease);
    assert ids[n] in ids;
    assert ids[n] !in ids[..n];
    assert ids[..n + 1][..n] == ids[..n] && ids[..n + 1][n] == ids[n];
  }

  /** What the executing worker leaves behind: no attempt used, nothing running, and the parent derived if it returned. */
  lemma ExecutionLeaves(config: Config, db: Db, t: TaskId, worker: WorkerId, outcome: Outcome, storeUp: bool)
    requires ValidTask(db, t) && Holds(db.tasks[t], worker)
    ensures var db' := ExecuteTx(config, db, t, worker, outcome, storeUp); var r := db.tasks[t].request;
      && |db'.tasks| == |db.tasks| && |db'.requests| == |db.requests|
      && db'.tasks[t].request == r && db'.tasks[t].attempt == db.tasks[t].attempt && !db'.tasks[t].status.Running?
      && (!UploadFails(ResultTx(config, db, t, outcome), r, storeUp) ==>
            db'.requests[r].status == Derive(StatusesOf(db'.tasks, r)))
      && (UploadFails(ResultTx(config, db, t, outcome), r, storeUp) <==>
            && !storeUp && db.requests[r].kind.Access? && db.requests[r].artifactPath.None?
            && (Derive(StatusesOf(db'.tasks, r)).Completed? || Derive(StatusesOf(db'.tasks, r)).Partial?))
  {
  }

  // ---------------------------------------------------------------- batches as runs

  /** A state that differs from `s` in rows, artifacts, history and the phase of handler `h` only. */
  ghost predicate MovesOnly(s: State, s': State, h: nat) {
    && h < |s.handlers| == |s'.handlers| && s'.now == s.now
    && (forall g :: 0 <= g < |s.handlers| && g != h ==> s'.handlers[g] == s.handlers[g])
  }

  lemma ThreeSteps(config: Config, s: State, a: Step, b: Step, c: Step)
    requires DisciplinedStep(s, a) && DisciplinedStep(Apply(config, s, a), b)
    requires DisciplinedStep(Apply(config, Apply(config, s, a), b), c)
    ensures Disciplined(config, s, [a, b, c])
    ensures Run(config, s, [a, b, c]) == Apply(config, Apply(config, Apply(config, s, a), b), c)
  {
    var s1, s2 := Apply(config, s, a), Apply(config, Apply(config, s, a), b);
    var s3 := Apply(config, s2, c);
    assert [a, b, c][1..] == [b, c] && [b, c][1..] == [c] && [c][1..] == [];
    assert Run(config, s3, []) == s3 && Disciplined(config, s3, []);
    assert Run(config, s2, [c]) == s3 && Disciplined(config, s2, [c]);
    assert Run(config, s1, [b, c]) == s3 && Disciplined(config, s1, [b, c]);
  }

  lemma {:induction false} RunsCompose(config: Config, s: State, before: seq<Step>, after: seq<Step>)
    requires Disciplined(config, s, before) && Disciplined(config, Run(config, s, before), after)
    ensures Disciplined(config, s, before + after)
    ensures Run(config, s, before + after) == Run(config, Run(config, s, before), after)
    decreases |before|
  {
    if before == [] {
      assert before + after == after;
    } else {
      assert (before + after)[0] == before[0] && (before + after)[1..] == before[1..] + after;
      RunsCompose(config, Apply(config, s, before[0]), before[1..], after);
    }
  }

  /** A polling handler that has just claimed `t`. */
  function Polled(worker: WorkerId, t: TaskId, attempt: nat): Handler {
    Handler(worker, None, Claimed(t, attempt))
  }

  lemma BegunState(config: Config, s: State, h: nat, t: TaskId, worker: WorkerId)
    requires h < |s.handlers| && t < |s.db.tasks|
    requires s.handlers[h] == Polled(worker, t, s.db.tasks[t].attempt) && Holds(s.db.tasks[t], worker)
    ensures var s' := Apply(config, s, Begin(h));
      && s'.db == s.db && s'.artifacts == s.artifacts && MovesOnly(s, s', h)
      && s'.handlers[h] == Handler(worker, None, Executing(t, s.db.tasks[t].attempt, s.db.tasks[t].attempt))
  {
    BeginApplies(config, s, Begin(h));
  }

  lemma FinishedState(config: Config, s: State, h: nat, t: TaskId, worker: WorkerId, outcome: Outcome)
    requires h < |s.handlers| && ValidTask(s.db, t)
    requires s.handlers[h] == Handler(worker, None, Executing(t, s.db.tasks[t].attempt, s.db.tasks[t].attempt))
    ensures var s' := Apply(config, s, Finish(h, outcome));
      && s'.db == ResultTx(config.(regional := false), s.db, t, outcome) && s'.artifacts == s.artifacts
      && MovesOnly(s, s', h) && s'.handlers[h].phase.Finished? && s'.handlers[h].phase.task == t
      && s'.handlers[h].message.None?
  {
    FinishApplies(config, s, Finish(h, outcome));
  }

  lemma RefreshedState(config: Config, s: State, h: nat, t: TaskId)
    requires h < |s.handlers| && ValidTask(s.db, t)
    requires s.handlers[h].phase.Finished? && s.handlers[h].phase.task == t && s.handlers[h].message.None?
    ensures var s' := Apply(config, s, Refresh(h));
      && s'.db == RefreshTx(s.db, s.db.tasks[t].request)
      && s'.artifacts == Exported(s.artifacts, s.db, s.db.tasks[t].request) && MovesOnly(s, s', h)
  {
    RefreshApplies(config, s, Refresh(h));
  }

  lemma CrashedState(config: Config, s: State, h: nat)
    requires h < |s.handlers|
    ensures var s' := Apply(config, s, Crash(h)); s'.db == s.db && s'.artifacts == s.artifacts && MovesOnly(s, s', h)
  {
  }

  function ExecutionSteps(h: nat, outcome: Outcome, uploads: bool): seq<Step> {
    [Begin(h), Finish(h, outcome), if uploads then Refresh(h) else Crash(h)]
  }

  /** One execution of a held task is a disciplined run of its handler: begin, finish, refresh or crash. */
  lemma ExecutionIsARun(config: Config, s: State, h: nat, t: TaskId, worker: WorkerId, outcome: Outcome, storeUp: bool)
    returns (steps: seq<Step>, s': State)
    requires h < |s.handlers| && ValidTask(s.db, t)
    requires s.handlers[h] == Polled(worker, t, s.db.tasks[t].attempt) && Holds(s.db.tasks[t], worker)
    ensures Disciplined(config, s, steps) && s' == Run(config, s, steps)
    ensures var backend := config.(regional := false);
      && s'.db == ExecuteTx(backend, s.db, t, worker, outcome, storeUp)
      && s'.artifacts == ExecuteArtifacts(backend, s.db, s.artifacts, t, worker, outcome, storeUp)
      && MovesOnly(s, s', h)
  {
    BegunState(config, s, h, t, worker);
    var s1 := Apply(config, s, Begin(h));
    FinishedState(config, s1, h, t, worker, outcome);
    var s2 := Apply(config, s1, Finish(h, outcome));
    var uploads := !UploadFails(s2.db, s.db.tasks[t].request, storeUp);
    if uploads {
      RefreshedState(config, s2, h, t);
    } else {
      CrashedState(config, s2, h);
    }
    steps := ExecutionSteps(h, outcome, uploads);
    ThreeSteps(config, s, steps[0], steps[1], steps[2]);
    assert steps == [steps[0], steps[1], steps[2]];
    s' := Apply(config, s2, steps[2]);
  }

  // ---------------------------------------------------------------- the whole batch

  function Polls(worker: WorkerId, ids: seq<TaskId>): seq<Step> {
    seq(|ids|, i requires 0 <= i < |ids| => Poll(worker, ids[i]))
  }

  /** The handler that claims task `t` as `db` has it. */
  function NextHandler(db: Db, worker: WorkerId, t: TaskId): Handler {
    Polled(worker, t, if t < |db.tasks| then db.tasks[t].attempt + 1 else 1)
  }

  /** Claiming `ids[..n]` leaves `ids[n]` as it was. */
  lemma NextUnclaimed(db: Db, ids: seq<TaskId>, worker: WorkerId, now: int, lease: nat)
    requires ids != [] && forall t :: t in ids ==> ValidTask(db, t)
    requires forall i, j :: 0 <= i < j < |ids| ==> ids[i] < ids[j]
    ensures var before, t := ClaimAll(db, ids[..|ids| - 1], worker, now, lease), ids[|ids| - 1];
      && ValidTask(db, t) && ValidTask(before, t) && before.tasks[t] == db.tasks[t]
      && ClaimAll(db, ids, worker, now, lease) == ClaimTx(before, t, worker, now, lease)
  {
    var n := |ids| - 1;
    ClaimAllRows(db, ids[..n], worker, now, lease);
    assert ids[n] in ids && ids[n] !in ids[..n];
  }

  /** Polling a task that stands in the rows as it stood in `base`. */
  lemma PollClaims(config: Config, base: Db, s: State, worker: WorkerId, t: TaskId)
    requires ValidTask(base, t) && ValidTask(s.db, t) && s.db.tasks[t] == base.tasks[t] && Claimable(base.tasks[t], s.now)
    ensures var s' := PollTask(config, s, worker, t);
      && s'.db == ClaimTx(s.db, t, worker, s.now, config.lease)
      && s'.now == s.now && s'.handlers == s.handlers + [NextHandler(base, worker, t)]
  {
  }

  /** Behind the old handlers stands one for each task of the batch, in order. */
  ghost predicate BatchHandlers(s: State, handlers: seq<Handler>, ids: seq<TaskId>, worker: WorkerId) {
    && |handlers| == |s.handlers| + |ids|
    && (forall i :: 0 <= i < |ids| ==> handlers[|s.handlers| + i] == NextHandler(s.db, worker, ids[i]))
  }

  /** A claimed batch: the rows are leased, and each task has its handler. */
  ghost predicate BatchClaimed(config: Config, s: State, s': State, ids: seq<TaskId>, worker: WorkerId)
    requires forall t :: t in ids ==> ValidTask(s.db, t)
  {
    && s'.db == ClaimAll(s.db, ids, worker, s.now, config.lease) && s'.now == s.now
    && BatchHandlers(s, s'.handlers, ids, worker)
  }

  lemma OneMoreHandler(s: State, handlers: seq<Handler>, ids: seq<TaskId>, worker: WorkerId)
    requires ids != [] && BatchHandlers(s, handlers, ids[..|ids| - 1], worker)
    ensures BatchHandlers(s, handlers + [NextHandler(s.db, worker, ids[|ids| - 1])], ids, worker)
  {
    var n, longer := |ids| - 1, handlers + [NextHandler(s.db, worker, ids[|ids| - 1])];
    forall i | 0 <= i < |ids| ensures longer[|s.handlers| + i] == NextHandler(s.db, worker, ids[i]) {
      if i < n {
        assert handlers[|s.handlers| + i] == NextHandler(s.db, worker, ids[..n][i]);
      }
    }
  }

  /** A batch claim is the polling worker's claims in a row. */
  lemma {:induction false} BatchClaimIsARun(config: Config, s: State, ids: seq<TaskId>, worker: WorkerId)
    requires forall t :: t in ids ==> ValidTask(s.db, t) && Claimable(s.db.tasks[t], s.now)
    requires forall i, j :: 0 <= i < j < |ids| ==> ids[i] < ids[j]
    ensures Disciplined(config, s, Polls(worker, ids))
    ensures BatchClaimed(config, s, Run(config, s, Polls(worker, ids)), ids, worker)
  {
    if ids == [] {
      assert Polls(worker, ids) == [];
    } else {
      var n := |ids| - 1;
      var before, poll := Polls(worker, ids[..n]), Poll(worker, ids[n]);
      BatchClaimIsARun(config, s, ids[..n], worker);
      ClaimOneMore(config, s, Run(config, s, before), ids, worker);
      RunExtends(config, s, before, poll);
      PollsExtend(worker, ids);
    }
  }

  lemma PollsExtend(worker: WorkerId, ids: seq<TaskId>)
    requires ids != []
    ensures Polls(worker, ids) == Polls(worker, ids[..|ids| - 1]) + [Poll(worker, ids[|ids| - 1])]
  {
  }

  lemma ClaimOneMore(config: Config, s: State, mid: State, ids: seq<TaskId>, worker: WorkerId)
    requires ids != [] && forall t :: t in ids ==> ValidTask(s.db, t) && Claimable(s.db.tasks[t], s.now)
    requires forall i, j :: 0 <= i < j < |ids| ==> ids[i] < ids[j]
    requires BatchClaimed(config, s, mid, ids[..|ids| - 1], worker)
    ensures BatchClaimed(config, s, Apply(config, mid, Poll(worker, ids[|ids| - 1])), ids, worker)
  {
    var t := ids[|ids| - 1];
    assert t in ids;
    NextUnclaimed(s.db, ids, worker, s.now, config.lease);
    PollClaims(config, s.db, mid, worker, t);
    OneMoreHandler(s, mid.handlers, ids, worker);
    PollApplies(config, mid, Poll(worker, t));
  }

  /** The rows before each task of the batch, and after the last. */
  ghost predicate Stages(
    config: Config, base: Db, rows: seq<Db>, ids: seq<TaskId>, worker: WorkerId,
    outcomes: TaskId -> Outcome, storeUp: TaskId -> bool)
  {
    |rows| == |ids| + 1 && forall n :: 0 <= n < |ids| ==> StageOk(config, base, rows, ids, n, worker, outcomes, storeUp)
  }

  /** Task `n` is held when its turn comes, and executing it leads to the next stage. */
  ghost predicate StageOk(
    config: Config, base: Db, rows: seq<Db>, ids: seq<TaskId>, n: nat, worker: WorkerId,
    outcomes: TaskId -> Outcome, storeUp: TaskId -> bool)
    requires n < |ids| < |rows|
  {
    Executes(config, base, rows[n], rows[n + 1], ids[n], worker, outcomes(ids[n]), storeUp(ids[n]))
  }

  ghost predicate Executes(
    config: Config, base: Db, before: Db, after: Db, t: TaskId, worker: WorkerId, outcome: Outcome, storeUp: bool)
  {
    && ValidTask(before, t) && Holds(before.tasks[t], worker)
    && NextHandler(base, worker, t) == Polled(worker, t, before.tasks[t].attempt)
    && after == ExecuteTx(config.(regional := false), before, t, worker, outcome, storeUp)
  }

  lemma NextExecutes(
    config: Config, db: Db, ids: seq<TaskId>, n: nat, worker: WorkerId, now: int,
    outcomes: TaskId -> Outcome, storeUp: TaskId -> bool)
    requires n < |ids| && forall t :: t in ids ==> ValidTask(db, t)
    requires forall i, j :: 0 <= i < j < |ids| ==> ids[i] < ids[j]
    ensures Executes(config, db, BatchTx(config, db, ids, n, worker, now, outcomes, storeUp),
                     BatchTx(config, db, ids, n + 1, worker, now, outcomes, storeUp),
                     ids[n], worker, outcomes(ids[n]), storeUp(ids[n]))
  {
    NextIsHeld(config, db, ids, n, worker, now, outcomes, storeUp);
    HeldExecutes(config, db, BatchTx(config, db, ids, n, worker, now, outcomes, storeUp), ids[n], worker, now,
                 outcomes(ids[n]), storeUp(ids[n]));
  }

  lemma HeldExecutes(
    config: Config, base: Db, before: Db, t: TaskId, worker: WorkerId, now: int, outcome: Outcome, storeUp: bool)
    requires t < |base.tasks| && ValidTask(before, t)
    requires before.tasks[t] == ClaimedTask(base.tasks[t], worker, now, config.lease)
    ensures Executes(config, base, before, ExecuteTx(config.(regional := false), before, t, worker, outcome, storeUp),
                     t, worker, outcome, storeUp)
  {
  }

  lemma BatchStages(
    config: Config, db: Db, ids: seq<TaskId>, worker: WorkerId, now: int,
    outcomes: TaskId -> Outcome, storeUp: TaskId -> bool)
    returns (rows: seq<Db>)
    requires forall t :: t in ids ==> ValidTask(db, t)
    requires forall i, j :: 0 <= i < j < |ids| ==> ids[i] < ids[j]
    ensures Stages(config, db, rows, ids, worker, outcomes, storeUp)
    ensures forall n :: 0 <= n <= |ids| ==> rows[n] == BatchTx(config, db, ids, n, worker, now, outcomes, storeUp)
  {
    rows := seq(|ids| + 1, n requires 0 <= n <= |ids| => BatchTx(config, db, ids, n, worker, now, outcomes, storeUp));
    forall n | 0 <= n < |ids| ensures StageOk(config, db, rows, ids, n, worker, outcomes, storeUp) {
      NextExecutes(config, db, ids, n, worker, now, outcomes, storeUp);
    }
  }

  /** The first `n` tasks of the batch have been executed; the handlers of the others stand as claimed. */
  ghost predicate BatchRan(s: State, s': State, rows: seq<Db>, ids: seq<TaskId>, n: nat, worker: WorkerId)
    requires n < |rows|
  {
    && s'.db == rows[n] && |s'.handlers| == |s.handlers| + |ids|
    && (forall i :: n <= i < |ids| ==> s'.handlers[|s.handlers| + i] == NextHandler(s.db, worker, ids[i]))
  }

  lemma RunOneMore(
    config: Config, s: State, mid: State, rows: seq<Db>, ids: seq<TaskId>, n: nat, worker: WorkerId,
    outcomes: TaskId -> Outcome, storeUp: TaskId -> bool)
    returns (steps: seq<Step>, s': State)
    requires n < |ids| && Stages(config, s.db, rows, ids, worker, outcomes, storeUp)
    requires BatchRan(s, mid, rows, ids, n, worker)
    ensures Disciplined(config, mid, steps) && s' == Run(config, mid, steps)
    ensures BatchRan(s, s', rows, ids, n + 1, worker)
  {
    var h, t := |s.handlers| + n, ids[n];
    assert StageOk(config, s.db, rows, ids, n, worker, outcomes, storeUp);
    assert mid.handlers[h] == NextHandler(s.db, worker, t);
    steps, s' := ExecutionIsARun(config, mid, h, t, worker, outcomes(t), storeUp(t));
    RanOneMore(s, mid, s', rows, ids, n, worker);
  }

  lemma RanOneMore(s: State, mid: State, s': State, rows: seq<Db>, ids: seq<TaskId>, n: nat, worker: WorkerId)
    requires n < |ids| < |rows| && BatchRan(s, mid, rows, ids, n, worker)
    requires MovesOnly(mid, s', |s.handlers| + n) && s'.db == rows[n + 1]
    ensures BatchRan(s, s', rows, ids, n + 1, worker)
  {
  }

  lemma {:induction false} BatchRuns(
    config: Config, s: State, claimed: State, rows: seq<Db>, ids: seq<TaskId>, n: nat, worker: WorkerId,
    outcomes: TaskId -> Outcome, storeUp: TaskId -> bool)
    returns (steps: seq<Step>)
    requires n <= |ids| && Stages(config, s.db, rows, ids, worker, outcomes, storeUp)
    requires BatchRan(s, claimed, rows, ids, 0, worker)
    ensures Disciplined(config, claimed, steps)
    ensures BatchRan(s, Run(config, claimed, steps), rows, ids, n, worker)
  {
    if n == 0 {
      steps := [];
    } else {
      var before := BatchRuns(config, s, claimed, rows, ids, n - 1, worker, outcomes, storeUp);
      var execution, _ := RunOneMore(config, s, Run(config, claimed, before), rows, ids, n - 1, worker, outcomes, storeUp);
      RunsCompose(config, claimed, before, execution);
      steps := before + execution;
    }
  }

  /** Claiming a batch and executing its first `ran` tasks is one disciplined run of the protocol. */
  lemma ProcessOnceIsARun(
    config: Config, s: State, ids: seq<TaskId>, ran: nat, worker: WorkerId,
    outcomes: TaskId -> Outcome, storeUp: TaskId -> bool)
    returns (steps: seq<Step>)
    requires forall t :: t in ids ==> ValidTask(s.db, t) && Claimable(s.db.tasks[t], s.now)
    requires forall i, j :: 0 <= i < j < |ids| ==> ids[i] < ids[j]
    requires ran <= |ids|
    ensures Disciplined(config, s, steps)
    ensures Run(config, s, steps).db == BatchTx(config, s.db, ids, ran, worker, s.now, outcomes, storeUp)
  {
    BatchClaimIsARun(config, s, ids, worker);
    var claimed := Run(config, s, Polls(worker, ids));
    var rows := BatchStages(config, s.db, ids, worker, s.now, outcomes, storeUp);
    assert ids[..0] == [];
    var executions := BatchRuns(config, s, claimed, rows, ids, ran, worker, outcomes, storeUp);
    RunsCompose(config, s, Polls(worker, ids), executions);
    steps := Polls(worker, ids) + executions;
  }
}
