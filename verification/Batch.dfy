/**
 Batch execution against a regional source: the loop under a local or Redis-shared window, and how often
 a capacity-limited source is overloaded by it.
 */
module Batch {
  import opened Tables
  import opened Percentile
  import opened Aimd

  datatype Operation = Operation(taskId: string, tenant: string, source: string, subject: string, kind: string)

  datatype Response = Response(succeeded: bool, statusCode: int, latency: real, payload: string)

  datatype SourceReceipt = SourceReceipt(taskId: string, succeeded: bool, statusCode: int, latency: real, payload: string)

  /** A call gets an answer, or raises: without a response, or on a response whose body cannot be read. */
  datatype Fault = Answered | NoResponse | UnreadableBody

  /** What becomes of the call for operation `index` within the batch of `size` that begins at `start`. */
  type Faults = (nat, nat, nat) -> Fault

  datatype BatchResult = Done(receipts: seq<SourceReceipt>) | MixedScopes | Aborted(batch: Round)

  /** What the source answers to operation `index` within the batch of `size` that begins at `start`. */
  type Source = (nat, nat, nat) -> Response

  /** One pass of the loop: the window it used, the window it left, and the value then stored in Redis. */
  datatype Round = Round(start: nat, size: nat, before: int, after: int, stored: Option<int>)

  // ---------------------------------------------------------------- specification of the loop

  function Latencies(source: Source, start: nat, size: nat, count: nat): seq<real> {
    if count == 0 then []
    else Latencies(source, start, size, count - 1) + [source(start, size, start + count - 1).latency]
  }

  function Failures(source: Source, start: nat, size: nat, count: nat): nat {
    if count == 0 then 0
    else Failures(source, start, size, count - 1) + (if source(start, size, start + count - 1).succeeded then 0 else 1)
  }

  /** What the controller has observed after the whole batch. */
  function Observation(source: Source, start: nat, size: nat): Window {
    Window(Latencies(source, start, size, size), Failures(source, start, size, size))
  }

  lemma {:induction false} LatenciesLength(source: Source, start: nat, size: nat, count: nat)
    ensures |Latencies(source, start, size, count)| == count
  {
    if count > 0 {
      LatenciesLength(source, start, size, count - 1);
    }
  }

  /** The observed latencies are those of the batch's answers, in order. */
  lemma {:induction false} LatenciesAt(source: Source, start: nat, size: nat, count: nat, i: nat)
    requires i < count
    ensures |Latencies(source, start, size, count)| == count
    ensures Latencies(source, start, size, count)[i] == source(start, size, start + i).latency
  {
    LatenciesLength(source, start, size, count);
    LatenciesLength(source, start, size, count - 1);
    if i < count - 1 {
      LatenciesAt(source, start, size, count - 1, i);
    }
  }

  /** The counted failures are the answers that were not successful. */
  lemma {:induction false} FailuresCount(source: Source, start: nat, size: nat, count: nat)
    ensures Failures(source, start, size, count) == |set i: nat | start <= i < start + count && !source(start, size, i).succeeded|
  {
    var all := set i: nat | start <= i < start + count && !source(start, size, i).succeeded;
    if count == 0 {
      assert all == {};
    } else {
      var n: nat := count - 1;
      FailuresCount(source, start, size, n);
      var rest := set i: nat | start <= i < start + n && !source(start, size, i).succeeded;
      if source(start, size, start + n).succeeded {
        assert all == rest;
      } else {
        assert all == rest + {start + n};
      }
    }
  }

  function LimitAfter(settings: Settings, limit: int, source: Source, start: nat, size: nat): int {
    NextLimit(settings, limit, VerdictOf(settings, Observation(source, start, size)))
  }

  /** How a controller decides after a batch: from its window, start and size. */
  type Decide = (int, nat, nat) -> int

  function Controller(settings: Settings, source: Source): Decide {
    (limit: int, start: nat, size: nat) => LimitAfter(settings, limit, source, start, size)
  }

  /** `decide` is the controller's decision, stated so that it is looked up only where a decision is made. */
  ghost predicate Decides(decide: Decide, settings: Settings, source: Source) {
    forall limit: int, start: nat, size: nat {:trigger LimitAfter(settings, limit, source, start, size)} ::
      decide(limit, start, size) == LimitAfter(settings, limit, source, start, size)
  }

  /** The local run from `start`: windows of the current limit until all `total` operations are done. */
  function Rounds(decide: Decide, limit: int, total: nat, start: nat): seq<(nat, int, int)>
    decreases total - start
  {
    if start >= total || limit < 1 then []
    else
      var size := Min(limit, total - start);
      var next := decide(limit, start, size);
      [(size, limit, next)] + Rounds(decide, next, total, start + size)
  }

  function Trace(rounds: seq<Round>): seq<(nat, int, int)> {
    seq(|rounds|, i requires 0 <= i < |rounds| => (rounds[i].size, rounds[i].before, rounds[i].after))
  }

  /** Batch `i` begins where batch `i - 1` ended. */
  ghost predicate Follows(rounds: seq<Round>, i: nat)
    requires 0 < i < |rounds|
  {
    rounds[i].start == rounds[i - 1].start + rounds[i - 1].size
  }

  /** Batch `i` runs under the window that batch `i - 1` left. */
  ghost predicate Inherits(rounds: seq<Round>, i: nat)
    requires 0 < i < |rounds|
  {
    rounds[i].before == rounds[i - 1].after
  }

  /** The rounds cut the operations into consecutive batches, each within its window. */
  ghost predicate Covers(rounds: seq<Round>, total: nat) {
    CoversFrom(rounds, 0, total)
  }

  /** The loop's limits never leave the configured bounds. */
  ghost predicate Bounded(settings: Settings, rounds: seq<Round>) {
    forall i :: 0 <= i < |rounds| ==> InRange(settings, rounds[i].before) && InRange(settings, rounds[i].after)
  }

  ghost predicate InOrder(receipts: seq<SourceReceipt>, operations: seq<Operation>) {
    |receipts| == |operations| && forall i :: 0 <= i < |receipts| ==> receipts[i].taskId == operations[i].taskId
  }

  function ReceiptOf(operation: Operation, response: Response): SourceReceipt {
    SourceReceipt(operation.taskId, response.succeeded, response.statusCode, response.latency, response.payload)
  }

  /** Some call of the batch raises. */
  ghost predicate Faulty(faults: Faults, start: nat, size: nat) {
    exists i: nat :: start <= i < start + size && !faults(start, size, i).Answered?
  }

  /** Every receipt carries what the source answered to its operation in its batch. */
  ghost predicate Answers(receipts: seq<SourceReceipt>, rounds: seq<Round>, operations: seq<Operation>, source: Source) {
    forall k :: 0 <= k < |rounds| ==> RoundAnswered(receipts, rounds[k], operations, source)
  }

  ghost predicate RoundAnswered(receipts: seq<SourceReceipt>, round: Round, operations: seq<Operation>, source: Source) {
    && round.start + round.size <= |receipts| && round.start + round.size <= |operations|
    && (forall i: nat :: round.start <= i < round.start + round.size ==>
          var response := source(round.start, round.size, i);
          && receipts[i].taskId == operations[i].taskId && receipts[i].succeeded == response.succeeded
          && receipts[i].statusCode == response.statusCode && receipts[i].latency == response.latency
          && receipts[i].payload == response.payload)
  }

  predicate OneScope(operations: seq<Operation>) {
    forall i, j :: 0 <= i < |operations| && 0 <= j < |operations| ==>
      operations[i].tenant == operations[j].tenant && operations[i].source == operations[j].source
  }

  // ---------------------------------------------------------------- the shared window

  /** Other workers act between two accesses: `Some(v)` sets the key to `v`, or expires it when `v` is `None`. */
  type Interference = nat -> Option<Option<int>>

  class RedisWindow {
    var value: Option<int>

    constructor ()
      ensures value == None
    {
      value := None;
    }

    method Interfere(change: Option<Option<int>>)
      modifies this
      ensures value == if change.Some? then change.value else old(value)
    {
      if change.Some? {
        value := change.value;
      }
    }

    method Get(fallback: int) returns (limit: int)
      ensures limit == if value.Some? then value.value else fallback
    {
      limit := if value.Some? then value.value else fallback;
    }

    method Adjust(settings: Settings, fallback: int, p95: real, failureRate: real) returns (current: int, next: int)
      modifies this
      ensures current == LuaAdjust(settings, old(value), fallback, p95, failureRate).0
      ensures next == LuaAdjust(settings, old(value), fallback, p95, failureRate).1 && value == Some(next)
    {
      current := if value.Some? then value.value else fallback;
      if failureRate > 0.0 || p95 > settings.target {
        next := Max(settings.minimum, (current as real * settings.ratio).Floor);
      } else {
        next := Min(settings.maximum, current + settings.step);
      }
      value := Some(next);
    }
  }

  ghost predicate StoredInRange(settings: Settings, value: Option<int>) {
    value.Some? ==> InRange(settings, value.value)
  }

  /** Others keep to the configured bounds. */
  ghost predicate Polite(settings: Settings, others: Interference) {
    forall k :: others(k).Some? ==> StoredInRange(settings, others(k).value)
  }

  ghost predicate Absent(others: Interference) {
    forall k :: others(k).None?
  }

  // ---------------------------------------------------------------- the client

  class RegionalSourceClient {
    const controller: AimdConcurrencyController
    const shared: RedisWindow?

    constructor (controller: AimdConcurrencyController, shared: RedisWindow?)
      ensures this.controller == controller && this.shared == shared
    {
      this.controller, this.shared := controller, shared;
    }

    /** Issues one batch and gathers its receipts in operation order; one call that raises loses them all. */
    method ExecuteAll(operations: seq<Operation>, start: nat, size: nat, source: Source, faults: Faults)
      returns (receipts: Option<seq<SourceReceipt>>)
      requires start + size <= |operations|
      modifies controller`latencies, controller`failures
      ensures receipts.None? <==> Faulty(faults, start, size)
      ensures receipts.Some? ==>
                && controller.latencies == old(controller.latencies) + Latencies(source, start, size, size)
                && controller.failures == old(controller.failures) + Failures(source, start, size, size)
                && |receipts.value| == size
      ensures receipts.Some? ==> forall i :: 0 <= i < size ==>
                receipts.value[i] == ReceiptOf(operations[start + i], source(start, size, start + i))
    {
      var gathered: seq<SourceReceipt> := [];
      var raised := false;
      var count := 0;
      while count < size
        invariant 0 <= count <= size && |gathered| == count
        invariant raised <==> exists i: nat :: start <= i < start + count && !faults(start, size, i).Answered?
        invariant !raised ==>
          && controller.latencies == old(controller.latencies) + Latencies(source, start, size, count)
          && controller.failures == old(controller.failures) + Failures(source, start, size, count)
        invariant forall i :: 0 <= i < count ==>
          gathered[i] == ReceiptOf(operations[start + i], source(start, size, start + i))
        modifies controller`latencies, controller`failures
      {
        var response, fault := source(start, size, start + count), faults(start, size, start + count);
        if !fault.NoResponse? {
          controller.Observe(response.latency, response.succeeded);
        }
        raised := raised || !fault.Answered?;
        gathered := gathered + [SourceReceipt(operations[start + count].taskId, response.succeeded, response.statusCode,
                                              response.latency, response.payload)];
        count := count + 1;
      }
      receipts := if raised then None else Some(gathered);
    }

    /** The window's bounds hold; calls that raised earlier may have left observations behind. */
    ghost predicate Ready()
      reads this, controller, shared
    {
      && SaneSettings(controller.settings) && InRange(controller.settings, controller.limit)
      && (shared != null ==> StoredInRange(controller.settings, shared.value))
    }

    predicate NothingObserved()
      reads this, controller
    {
      controller.Observed() == Window([], 0)
    }

    /** Reads the shared window, if there is one, into the controller. */
    method LoadLimit(change: Option<Option<int>>)
      requires Ready() && (change.Some? ==> StoredInRange(controller.settings, change.value))
      modifies controller`limit, shared
      ensures Ready()
      ensures shared == null ==> controller.limit == old(controller.limit)
      ensures shared != null ==> shared.value == (if change.Some? then change.value else old(shared.value))
      ensures shared != null ==>
                controller.limit == (if shared.value.Some? then shared.value.value else old(controller.limit))
    {
      if shared != null {
        shared.Interfere(change);
        var limit := shared.Get(controller.limit);
        controller.limit := limit;
      }
    }

    /** Adjusts the controller, then the shared window, whose answer wins. */
    method StoreLimit(change: Option<Option<int>>, ghost limit: int, ghost window: Window)
      requires SaneSettings(controller.settings) && InRange(controller.settings, controller.limit)
      requires limit == controller.limit && window == controller.Observed() && window.latencies != []
      requires shared != null ==> StoredInRange(controller.settings, shared.value)
      requires change.Some? ==> StoredInRange(controller.settings, change.value)
      modifies controller, shared
      ensures Ready() && NothingObserved()
      ensures shared == null ==> controller.limit == NextLimit(controller.settings, limit, VerdictOf(controller.settings, window))
      ensures shared != null ==> shared.value == Some(controller.limit)
      ensures shared != null ==>
                var stored := if change.Some? then change.value else old(shared.value);
                controller.limit == NextLimit(controller.settings, if stored.Some? then stored.value else limit,
                                              VerdictOf(controller.settings, window))
    {
      NextInRange(controller.settings, limit, VerdictOf(controller.settings, window));
      var decision := controller.Adjust();
      if shared != null {
        shared.Interfere(change);
        LuaInRange(controller.settings, shared.value, decision.previous, decision.p95, decision.failureRate);
        var _, next := shared.Adjust(controller.settings, decision.previous, decision.p95, decision.failureRate);
        controller.limit := next;
      }
    }

    /** The shared window, if any, holds nothing but this controller's limit. */
    ghost predicate InStep()
      reads this, controller, shared
    {
      shared != null ==> shared.value.None? || shared.value == Some(controller.limit)
    }

    /** One pass of the loop. A batch that raises ends it before any decision. */
    method RunRound(operations: seq<Operation>, start: nat, source: Source, faults: Faults,
                    beforeLoad: Option<Option<int>>, beforeStore: Option<Option<int>>)
      returns (batch: Option<seq<SourceReceipt>>, round: Round)
      requires Ready() && start < |operations|
      requires beforeLoad.Some? ==> StoredInRange(controller.settings, beforeLoad.value)
      requires beforeStore.Some? ==> StoredInRange(controller.settings, beforeStore.value)
      modifies controller, shared
      ensures Ready() && round.after == controller.limit && InRange(controller.settings, round.before)
      ensures round.start == start && round.size == Min(round.before, |operations| - start)
      ensures batch.None? <==> Faulty(faults, start, round.size)
      ensures batch.None? ==> round.after == round.before
      ensures batch.None? && shared != null ==>
                shared.value == (if beforeLoad.Some? then beforeLoad.value else old(shared.value))
      ensures batch.Some? ==> |batch.value| == round.size && NothingObserved()
      ensures batch.Some? ==> forall i :: 0 <= i < |batch.value| ==>
                batch.value[i] == ReceiptOf(operations[start + i], source(start, round.size, start + i))
      ensures shared != null ==>
                var stored := if beforeLoad.Some? then beforeLoad.value else old(shared.value);
                round.before == (if stored.Some? then stored.value else old(controller.limit))
      ensures shared == null ==> round.before == old(controller.limit)
      ensures batch.Some? ==>
                var window := Window(old(controller.latencies) + Latencies(source, start, round.size, round.size),
                                     old(controller.failures) + Failures(source, start, round.size, round.size));
                var stored := if shared == null then None else if beforeStore.Some? then beforeStore.value
                              else if beforeLoad.Some? then beforeLoad.value else old(shared.value);
                round.after == NextLimit(controller.settings, if stored.Some? then stored.value else round.before,
                                         VerdictOf(controller.settings, window))
      ensures batch.Some? && shared != null ==> round.stored == Some(round.after) && InStep()
    {
      LoadLimit(beforeLoad);
      var before := controller.limit;
      var size := Min(controller.limit, |operations| - start);
      batch := ExecuteAll(operations, start, size, source, faults);
      round := Round(start, size, before, before, None);
      if batch.Some? {
        LatenciesLength(source, start, size, size);
        StoreLimit(beforeStore, before, controller.Observed());
        round := Round(start, size, before, controller.limit, if shared != null then shared.value else None);
      }
    }

    /** A pass that starts with no observation, and meets no interference, decides like the local controller. */
    method ExecuteRound(operations: seq<Operation>, start: nat, source: Source, faults: Faults,
                        beforeLoad: Option<Option<int>>, beforeStore: Option<Option<int>>, ghost decide: Decide)
      returns (batch: Option<seq<SourceReceipt>>, round: Round)
      requires Ready() && start < |operations| && Decides(decide, controller.settings, source)
      requires beforeLoad.Some? ==> StoredInRange(controller.settings, beforeLoad.value)
      requires beforeStore.Some? ==> StoredInRange(controller.settings, beforeStore.value)
      modifies controller, shared
      ensures Ready() && round.after == controller.limit && InRange(controller.settings, round.before)
      ensures round.start == start && round.size == Min(round.before, |operations| - start)
      ensures batch.None? <==> Faulty(faults, start, round.size)
      ensures batch.None? ==> round.after == round.before
      ensures batch.None? && shared != null ==>
                shared.value == (if beforeLoad.Some? then beforeLoad.value else old(shared.value))
      ensures batch.Some? ==> |batch.value| == round.size && NothingObserved()
      ensures batch.Some? ==> forall i :: 0 <= i < |batch.value| ==>
                batch.value[i] == ReceiptOf(operations[start + i], source(start, round.size, start + i))
      ensures batch.Some? && shared != null ==> round.stored == Some(round.after) && InStep()
      ensures batch.Some? && old(NothingObserved())
              && (shared == null || (beforeLoad.None? && beforeStore.None? && old(InStep()))) ==>
                round.before == old(controller.limit) && LocalRound(decide, round)
    {
      ghost var alone := NothingObserved() && (shared == null || (beforeLoad.None? && beforeStore.None? && InStep()));
      batch, round := RunRound(operations, start, source, faults, beforeLoad, beforeStore);
      if alone && batch.Some? {
        assert [] + Latencies(source, start, round.size, round.size) == Latencies(source, start, round.size, round.size);
        assert decide(round.before, start, round.size) == LimitAfter(controller.settings, round.before, source, start, round.size);
      }
    }

    /**
     The batch loop.  Unless a call raises, every operation gets one receipt, in order; every batch fits its
     window; and without interference the shared run is the local run, round by round.  A call that raises
     aborts its batch: the rounds before it are complete, and no decision is made about it.
     */
    method ExecuteBatch(operations: seq<Operation>, source: Source, faults: Faults, others: Interference)
      returns (result: BatchResult, rounds: seq<Round>)
      requires Ready() && Polite(controller.settings, others)
      modifies controller, shared
      ensures Ready() && Bounded(controller.settings, rounds)
      ensures result.MixedScopes? <==> !OneScope(operations)
      ensures result.Done? ==> InOrder(result.receipts, operations)
      ensures result.Done? ==> Answers(result.receipts, rounds, operations, source)
      ensures result.Done? ==> Covers(rounds, |operations|)
      ensures NoneFaulty(faults, rounds)
      ensures result.Aborted? ==> AbortedAt(faults, rounds, result.batch, |operations|) && controller.limit == result.batch.before
      ensures shared != null ==> forall i :: 0 <= i < |rounds| ==> rounds[i].stored == Some(rounds[i].after)
      ensures result.Done? && old(NothingObserved()) && (shared == null || (Absent(others) && old(InStep()))) ==>
                Trace(rounds) == Rounds(Controller(controller.settings, source), old(controller.limit), |operations|, 0)
    {
      if !OneScope(operations) {
        return MixedScopes, [];
      }
      ghost var alone := NothingObserved() && (shared == null || (Absent(others) && InStep()));
      ghost var limit := controller.limit;
      result, rounds := ExecuteAllRounds(operations, source, faults, others, Controller(controller.settings, source));
      if alone && result.Done? {
        LocalRoundsAreThePlan(Controller(controller.settings, source), limit, |operations|, 0, rounds);
      }
    }

    method ExecuteAllRounds(
      operations: seq<Operation>, source: Source, faults: Faults, others: Interference, ghost decide: Decide)
      returns (result: BatchResult, rounds: seq<Round>)
      requires Ready() && Polite(controller.settings, others) && Decides(decide, controller.settings, source)
      modifies controller, shared
      ensures Ready() && Bounded(controller.settings, rounds) && !result.MixedScopes?
      ensures result.Done? ==> InOrder(result.receipts, operations) && Answers(result.receipts, rounds, operations, source)
      ensures result.Done? ==> Covers(rounds, |operations|)
      ensures NoneFaulty(faults, rounds)
      ensures result.Aborted? ==> AbortedAt(faults, rounds, result.batch, |operations|) && controller.limit == result.batch.before
      ensures shared != null ==> forall i :: 0 <= i < |rounds| ==> rounds[i].stored == Some(rounds[i].after)
      ensures FullSize(rounds, |operations|)
      ensures old(NothingObserved()) && (shared == null || (Absent(others) && old(InStep()))) ==>
                Local(decide, old(controller.limit), rounds)
    {
      var results: seq<SourceReceipt> := [];
      rounds := [];
      var cursor := 0;
      ghost var alone := NothingObserved() && (shared == null || (Absent(others) && InStep()));
      ghost var limit := controller.limit;
      while cursor < |operations|
        invariant Ready() && 0 <= cursor <= |operations|
        invariant SoFar(controller.settings, results, rounds, operations, source, faults, shared != null)
        invariant |results| == cursor
        invariant alone ==> NothingObserved() && (shared == null || (Absent(others) && InStep()))
        invariant controller.limit == LastLimit(limit, rounds)
        invariant alone ==> Local(decide, limit, rounds)
        decreases |operations| - cursor
        modifies controller, shared
      {
        var batch, round := ExecuteRound(operations, cursor, source, faults,
                                         others(2 * |rounds|), others(2 * |rounds| + 1), decide);
        if batch.None? {
          return Aborted(round), rounds;
        }
        SoFarExtends(controller.settings, results, rounds, batch.value, round, operations, source, faults, shared != null);
        if alone {
          LocalExtends(decide, limit, rounds, round);
        }
        results := results + batch.value;
        rounds := rounds + [round];
        assert LastLimit(limit, rounds) == round.after;
        cursor := cursor + round.size;
      }
      SoFarInOrder(controller.settings, results, rounds, operations, source, faults, shared != null);
      result := Done(results);
    }
  }

  /** What the loop has when `|results|` operations are done. */
  ghost predicate SoFar(
    settings: Settings, results: seq<SourceReceipt>, rounds: seq<Round>, operations: seq<Operation>,
    source: Source, faults: Faults, isShared: bool)
  {
    && Answers(results, rounds, operations, source) && NoneFaulty(faults, rounds)
    && Progress(settings, rounds, |results|, |operations|, isShared)
  }

  lemma SoFarExtends(
    settings: Settings, results: seq<SourceReceipt>, rounds: seq<Round>, batch: seq<SourceReceipt>, round: Round,
    operations: seq<Operation>, source: Source, faults: Faults, isShared: bool)
    requires SoFar(settings, results, rounds, operations, source, faults, isShared)
    requires SaneSettings(settings) && InRange(settings, round.before) && InRange(settings, round.after)
    requires |results| < |operations| && round.start == |results| && round.size == |batch|
    requires round.size == Min(round.before, |operations| - |results|) && !Faulty(faults, round.start, round.size)
    requires isShared ==> round.stored == Some(round.after)
    requires forall i :: 0 <= i < |batch| ==>
               batch[i] == ReceiptOf(operations[|results| + i], source(|results|, |batch|, |results| + i))
    ensures SoFar(settings, results + batch, rounds + [round], operations, source, faults, isShared)
  {
    ProgressExtends(settings, rounds, round, |results|, |operations|, isShared);
    AnswersExtend(results, rounds, batch, round, operations, source);
  }

  lemma SoFarInOrder(
    settings: Settings, results: seq<SourceReceipt>, rounds: seq<Round>, operations: seq<Operation>,
    source: Source, faults: Faults, isShared: bool)
    requires SoFar(settings, results, rounds, operations, source, faults, isShared) && |results| == |operations|
    ensures InOrder(results, operations)
  {
    AnswersAreInOrder(results, rounds, operations, source, |results|);
    assert results[..|results|] == results && operations[..|operations|] == operations;
  }

  /** No call of the completed rounds raised. */
  ghost predicate NoneFaulty(faults: Faults, rounds: seq<Round>) {
    forall k :: 0 <= k < |rounds| ==> !Faulty(faults, rounds[k].start, rounds[k].size)
  }

  /** The completed rounds lead up to the batch in which a call raised. */
  ghost predicate AbortedAt(faults: Faults, rounds: seq<Round>, batch: Round, total: nat) {
    && batch.start < total && batch.size == Min(batch.before, total - batch.start)
    && Covers(rounds, batch.start) && Faulty(faults, batch.start, batch.size)
  }

  function LastLimit(limit: int, rounds: seq<Round>): int {
    if rounds == [] then limit else rounds[|rounds| - 1].after
  }

  /** Everything the rounds so far guarantee, alone or not. */
  ghost predicate Progress(settings: Settings, rounds: seq<Round>, done: nat, total: nat, isShared: bool) {
    && Covers(rounds, done) && Bounded(settings, rounds) && FullSize(rounds, total)
    && (isShared ==> forall i :: 0 <= i < |rounds| ==> rounds[i].stored == Some(rounds[i].after))
  }

  lemma ProgressExtends(settings: Settings, rounds: seq<Round>, round: Round, done: nat, total: nat, isShared: bool)
    requires Progress(settings, rounds, done, total, isShared) && done < total && SaneSettings(settings)
    requires InRange(settings, round.before) && InRange(settings, round.after)
    requires round.start == done && round.size == Min(round.before, total - done)
    requires isShared ==> round.stored == Some(round.after)
    ensures Progress(settings, rounds + [round], done + round.size, total, isShared)
  {
    CoversExtends(rounds, round, done);
  }

  /** Only the last batch may be smaller than its window. */
  ghost predicate FullSize(rounds: seq<Round>, total: nat) {
    forall i :: 0 <= i < |rounds| ==> rounds[i].start < total && rounds[i].size == Min(rounds[i].before, total - rounds[i].start)
  }

  ghost predicate LocalRound(decide: Decide, round: Round) {
    round.after == decide(round.before, round.start, round.size)
  }

  /** Each round starts from the previous round's limit and decides like the local controller. */
  ghost predicate Local(decide: Decide, limit: int, rounds: seq<Round>) {
    && (rounds != [] ==> rounds[0].before == limit)
    && (forall i :: 0 < i < |rounds| ==> Inherits(rounds, i))
    && (forall i :: 0 <= i < |rounds| ==> LocalRound(decide, rounds[i]))
  }

  lemma LocalExtends(decide: Decide, limit: int, rounds: seq<Round>, round: Round)
    requires Local(decide, limit, rounds) && LocalRound(decide, round)
    requires round.before == LastLimit(limit, rounds)
    ensures Local(decide, limit, rounds + [round])
  {
    var longer := rounds + [round];
    forall i | 0 < i < |longer| ensures Inherits(longer, i) {
      assert i < |rounds| ==> Inherits(rounds, i);
    }
  }

  lemma AnswersExtend(results: seq<SourceReceipt>, rounds: seq<Round>, batch: seq<SourceReceipt>, round: Round,
                      operations: seq<Operation>, source: Source)
    requires |results| + |batch| <= |operations|
    requires round.start == |results| && round.size == |batch| && Answers(results, rounds, operations, source)
    requires forall i :: 0 <= i < |batch| ==>
               batch[i] == ReceiptOf(operations[|results| + i], source(|results|, |batch|, |results| + i))
    ensures Answers(results + batch, rounds + [round], operations, source)
  {
    forall k | 0 <= k < |rounds| ensures RoundAnswered(results + batch, rounds[k], operations, source) {
      assert RoundAnswered(results, rounds[k], operations, source);
    }
    assert RoundAnswered(results + batch, round, operations, source);
  }

  /** Covering rounds leave no operation without its own receipt. */
  lemma {:induction false} AnswersAreInOrder(
    results: seq<SourceReceipt>, rounds: seq<Round>, operations: seq<Operation>, source: Source, done: nat)
    requires done <= |results| && done <= |operations|
    requires Covers(rounds, done) && Answers(results, rounds, operations, source)
    ensures InOrder(results[..done], operations[..done])
    decreases |rounds|
  {
    if rounds != [] {
      var last := rounds[|rounds| - 1];
      assert RoundAnswered(results, last, operations, source);
      PrefixCovers(rounds, done);
      AnswersAreInOrder(results, rounds[..|rounds| - 1], operations, source, last.start);
    }
  }

  lemma PrefixCovers(rounds: seq<Round>, done: nat)
    requires Covers(rounds, done) && rounds != []
    ensures Covers(rounds[..|rounds| - 1], rounds[|rounds| - 1].start)
  {
    var n := |rounds| - 1;
    if n > 0 {
      assert Follows(rounds, n);
    }
    forall i | 0 < i < n ensures Follows(rounds[..n], i) {
      assert Follows(rounds, i);
    }
  }

  /** The rounds cover the operations from `start` on. */
  ghost predicate CoversFrom(rounds: seq<Round>, start: nat, total: nat) {
    && start <= total
    && (rounds == [] ==> start == total)
    && (rounds != [] ==> rounds[0].start == start && rounds[|rounds| - 1].start + rounds[|rounds| - 1].size == total)
    && (forall i :: 0 < i < |rounds| ==> Follows(rounds, i))
    && (forall i :: 0 <= i < |rounds| ==> 1 <= rounds[i].size <= rounds[i].before)
  }

  lemma {:induction false} LocalRoundsAreThePlan(decide: Decide, limit: int, total: nat, start: nat, rounds: seq<Round>)
    requires CoversFrom(rounds, start, total) && FullSize(rounds, total) && Local(decide, limit, rounds)
    ensures Trace(rounds) == Rounds(decide, limit, total, start)
    decreases |rounds|
  {
    if rounds != [] {
      var first, rest := rounds[0], rounds[1..];
      assert first.before == limit && LocalRound(decide, first);
      assert Trace(rounds) == [(first.size, first.before, first.after)] + Trace(rest);
      SuffixCovers(rounds, start, total);
      SuffixLocal(decide, limit, rounds);
      LocalRoundsAreThePlan(decide, first.after, total, start + first.size, rest);
    }
  }

  lemma SuffixCovers(rounds: seq<Round>, start: nat, total: nat)
    requires CoversFrom(rounds, start, total) && FullSize(rounds, total) && rounds != []
    ensures CoversFrom(rounds[1..], start + rounds[0].size, total) && FullSize(rounds[1..], total)
  {
    var rest := rounds[1..];
    if rest != [] {
      assert Follows(rounds, 1);
      assert rest[|rest| - 1] == rounds[|rounds| - 1];
    }
    forall i | 0 < i < |rest| ensures Follows(rest, i) {
      assert Follows(rounds, i + 1);
    }
  }

  lemma SuffixLocal(decide: Decide, limit: int, rounds: seq<Round>)
    requires Local(decide, limit, rounds) && rounds != []
    ensures Local(decide, rounds[0].after, rounds[1..])
  {
    var rest := rounds[1..];
    if rest != [] {
      assert Inherits(rounds, 1);
    }
    forall i | 0 < i < |rest| ensures Inherits(rest, i) {
      assert Inherits(rounds, i + 1);
    }
    forall i | 0 <= i < |rest| ensures LocalRound(decide, rest[i]) {
      assert LocalRound(decide, rounds[i + 1]);
    }
  }

  lemma CoversExtends(rounds: seq<Round>, round: Round, done: nat)
    requires Covers(rounds, done) && round.start == done && 1 <= round.size <= round.before
    ensures Covers(rounds + [round], done + round.size)
  {
    var longer := rounds + [round];
    forall i | 0 < i < |longer| ensures Follows(longer, i) {
      assert i < |rounds| ==> Follows(rounds, i);
    }
  }
}
