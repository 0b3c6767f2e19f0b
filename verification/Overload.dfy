/** How rarely the additive-increase, multiplicative-decrease window overloads a source of fixed capacity. */
module Overload {
  import opened Percentile
  import opened Aimd
  import opened Batch

  /** a + (a + 1) + ... + b */
  function SumRange(a: int, b: int): int
    decreases b - a + 1
  {
    if a > b then 0 else a + SumRange(a + 1, b)
  }

  lemma {:induction false} SumRangeEnd(a: int, b: int)
    requires a <= b + 1
    ensures SumRange(a, b + 1) == SumRange(a, b) + b + 1
    decreases b - a + 1
  {
    if a <= b {
      SumRangeEnd(a + 1, b);
    } else {
      assert SumRange(a + 1, b + 1) == 0;
    }
  }

  lemma {:induction false} SumRangeNonNegative(a: int, b: int)
    requires a >= 0
    ensures SumRange(a, b) >= 0
    decreases b - a + 1
  {
    if a <= b {
      SumRangeNonNegative(a + 1, b);
    }
  }

  /** The source rejects exactly what exceeds its capacity in each batch, and always answers in time. */
  ghost predicate RejectsOverCapacity(source: Source, capacity: nat, target: real) {
    && (forall start: nat, size: nat :: Failures(source, start, size, size) == Max(0, size - capacity))
    && (forall start: nat, size: nat, index: nat :: source(start, size, index).latency <= target)
  }

  /** The benchmark's upstream: the first `capacity` requests of a batch are admitted, the others get HTTP 429. */
  function CapacityTransport(capacity: nat, service: real): Source {
    (start: nat, size: nat, index: nat) =>
      if index < start + capacity then Response(true, 200, service, "verified") else Response(false, 429, service, "retryable")
  }

  lemma {:induction false} TransportFailures(capacity: nat, service: real, start: nat, size: nat, count: nat)
    ensures Failures(CapacityTransport(capacity, service), start, size, count) == Max(0, count - capacity)
  {
    if count > 0 {
      TransportFailures(capacity, service, start, size, count - 1);
    }
  }

  lemma TransportRejectsOverCapacity(capacity: nat, service: real, target: real)
    requires service <= target
    ensures RejectsOverCapacity(CapacityTransport(capacity, service), capacity, target)
  {
    var source := CapacityTransport(capacity, service);
    forall start: nat, size: nat ensures Failures(source, start, size, size) == Max(0, size - capacity) {
      TransportFailures(capacity, service, start, size, size);
    }
  }

  /** The rejections of a run: what each batch exceeds the capacity by. */
  function Rejections(rounds: seq<(nat, int, int)>, capacity: nat): nat {
    if rounds == [] then 0 else Max(0, rounds[0].0 - capacity) + Rejections(rounds[1..], capacity)
  }

  /** The window that follows an overload at capacity + 1. */
  function FallBack(settings: Settings, capacity: nat): int {
    Decreased(settings, capacity + 1)
  }

  lemma FallBackIsFloor(settings: Settings, capacity: nat)
    ensures FallBack(settings, capacity) == Max(settings.minimum, ((capacity + 1) as real * settings.ratio).Floor)
  {
    assert Times((capacity + 1) as real, settings.ratio) == (capacity + 1) as real * settings.ratio;
  }

  /** Twice the sum is the number of terms times first plus last. */
  lemma {:induction false} SumRangeClosedForm(a: int, b: int)
    requires a <= b + 1
    ensures 2 * SumRange(a, b) == (b - a + 1) * (a + b)
    decreases b - a + 1
  {
    if a <= b {
      SumRangeClosedForm(a + 1, b);
    }
  }

  // ---------------------------------------------------------------- what the controller decides

  lemma {:induction false} TimelyLatencies(source: Source, start: nat, size: nat, count: nat, target: real)
    requires forall index: nat :: source(start, size, index).latency <= target
    ensures CountAtMost(Latencies(source, start, size, count), target) == count
    ensures |Latencies(source, start, size, count)| == count
  {
    if count > 0 {
      TimelyLatencies(source, start, size, count - 1, target);
      var longer := Latencies(source, start, size, count);
      assert longer[..|longer| - 1] == Latencies(source, start, size, count - 1);
    }
  }

  /** Against such a source the controller backs off exactly when the batch exceeded the capacity. */
  lemma CapacityVerdict(settings: Settings, source: Source, capacity: nat, start: nat, size: nat)
    requires RejectsOverCapacity(source, capacity, settings.target) && size >= 1
    ensures VerdictOf(settings, Observation(source, start, size)) == if size > capacity then Bad else Healthy
  {
    var window := Observation(source, start, size);
    TimelyLatencies(source, start, size, size, settings.target);
    assert window.latencies != [];
    BackOffCondition(settings, window);
    RankInRange(size, FRACTION);
    assert Rank(size, FRACTION) <= size;
  }

  /** The shape of the decisions: back to `low` from an overload, one step up otherwise. */
  ghost predicate SawTooth(decide: Decide, capacity: nat, low: int, maximum: int) {
    && (forall limit: int, start: nat, size: nat :: limit == capacity + 1 && size > capacity
                                                   ==> decide(limit, start, size) == low)
    && (forall limit: int, start: nat, size: nat :: 1 <= size <= capacity ==> decide(limit, start, size) == Min(maximum, limit + 1))
  }

  lemma DecisionOf(settings: Settings, source: Source, limit: int, start: nat, size: nat)
    ensures Controller(settings, source)(limit, start, size)
         == NextLimit(settings, limit, VerdictOf(settings, Observation(source, start, size)))
  {
  }

  lemma CapacityDecision(settings: Settings, source: Source, capacity: nat, limit: int, start: nat, size: nat)
    requires RejectsOverCapacity(source, capacity, settings.target) && settings.step == 1 && size >= 1
    ensures Controller(settings, source)(limit, start, size)
         == if size > capacity then Decreased(settings, limit) else Min(settings.maximum, limit + 1)
  {
    CapacityVerdict(settings, source, capacity, start, size);
    DecisionOf(settings, source, limit, start, size);
  }

  lemma ControllerIsSawTooth(settings: Settings, source: Source, capacity: nat)
    requires RejectsOverCapacity(source, capacity, settings.target) && settings.step == 1
    ensures SawTooth(Controller(settings, source), capacity, FallBack(settings, capacity), settings.maximum)
  {
    var decide := Controller(settings, source);
    forall limit: int, start: nat, size: nat | limit == capacity + 1 && size > capacity
      ensures decide(limit, start, size) == FallBack(settings, capacity)
    {
      CapacityDecision(settings, source, capacity, limit, start, size);
    }
    forall limit: int, start: nat, size: nat | 1 <= size <= capacity
      ensures decide(limit, start, size) == Min(settings.maximum, limit + 1)
    {
      CapacityDecision(settings, source, capacity, limit, start, size);
    }
  }

  // ---------------------------------------------------------------- the saw tooth

  lemma OneMoreCycle(count: nat, cycle: int)
    requires count >= 1
    ensures count * cycle == (count - 1) * cycle + cycle
  {
  }

  /** What one round may look like. */
  ghost predicate LowRound(round: (nat, int, int), capacity: nat, maximum: int) {
    && 1 <= round.1 <= capacity + 1
    && (round.2 <= capacity + 1 <==> !(round.1 == capacity + 1 && round.0 <= capacity && maximum >= capacity + 2))
  }

  lemma LastRound(decide: Decide, limit: int, total: nat, start: nat)
    requires limit >= 1 && start < total <= start + limit
    ensures Rounds(decide, limit, total, start) == [(total - start, limit, decide(limit, start, total - start))]
  {
    assert Rounds(decide, decide(limit, start, total - start), total, total) == [];
  }

  /** No batch is ever issued under a window above capacity + 1; only a partial last batch can leave one behind. */
  lemma {:induction false} WindowsStayLow(
    decide: Decide, capacity: nat, low: int, maximum: int, limit: int, total: nat, start: nat)
    requires SawTooth(decide, capacity, low, maximum) && 1 <= low <= capacity
    requires 1 <= limit <= capacity + 1 && limit <= maximum
    ensures forall i :: 0 <= i < |Rounds(decide, limit, total, start)| ==>
              LowRound(Rounds(decide, limit, total, start)[i], capacity, maximum)
    decreases total - start
  {
    if start < total {
      var size := Min(limit, total - start);
      var next := decide(limit, start, size);
      assert next == (if size > capacity then low else Min(maximum, limit + 1));
      if size > capacity || limit <= capacity {
        WindowsStayLow(decide, capacity, low, maximum, Min(next, maximum), total, start + size);
      } else {
        LastRound(decide, limit, total, start);
      }
    }
  }

  /** The potential argument: climbing back to capacity + 1 costs the whole range of windows in between. */
  lemma {:induction false} OverloadsCostCycles(
    decide: Decide, capacity: nat, low: int, maximum: int, limit: int, total: nat, start: nat)
    requires SawTooth(decide, capacity, low, maximum) && 1 <= low <= capacity
    requires 1 <= limit <= capacity + 1 && limit <= maximum && low <= maximum && start <= total
    ensures var rejected := Rejections(Rounds(decide, limit, total, start), capacity);
      rejected >= 1 ==>
        SumRange(limit, capacity) + (capacity + 1) + (rejected - 1) * SumRange(low, capacity + 1) <= total - start
    decreases total - start
  {
    if start < total {
      var size := Min(limit, total - start);
      var next := decide(limit, start, size);
      var rounds := Rounds(decide, limit, total, start);
      assert rounds == [(size, limit, next)] + Rounds(decide, next, total, start + size);
      assert rounds[1..] == Rounds(decide, next, total, start + size);
      if size > capacity {
        OverloadsCostCycles(decide, capacity, low, maximum, low, total, start + size);
        AfterOverload(capacity, low, Rejections(rounds[1..], capacity), total - start);
      } else if limit <= capacity {
        OverloadsCostCycles(decide, capacity, low, maximum, Min(maximum, limit + 1), total, start + size);
        AfterHealthy(capacity, limit, Min(maximum, limit + 1), total - start);
      } else {
        LastRound(decide, limit, total, start);
      }
    }
  }

  /** One overload plus the cycles of the rest. */
  lemma AfterOverload(capacity: nat, low: int, rest: nat, remaining: int)
    requires 1 <= low <= capacity && remaining >= capacity + 1
    requires rest >= 1 ==>
      SumRange(low, capacity) + (capacity + 1) + (rest - 1) * SumRange(low, capacity + 1) <= remaining - (capacity + 1)
    ensures (capacity + 1) + rest * SumRange(low, capacity + 1) <= remaining
  {
    SumRangeEnd(low, capacity);
    if rest >= 1 {
      OneMoreCycle(rest, SumRange(low, capacity + 1));
    }
  }

  /** A healthy full batch pays for its own window. */
  lemma AfterHealthy(capacity: nat, limit: int, next: int, remaining: int)
    requires 1 <= limit <= capacity && (next == limit || next == limit + 1)
    ensures SumRange(limit, capacity) <= SumRange(next, capacity) + limit
  {
  }

  // ---------------------------------------------------------------- theorem

  /**
   A source of capacity C under a window that starts at most at C + 1: no batch exceeds C + 1, and
   R rejections over N operations satisfy (R - 1) * S + (C + 1) <= N, S being the length of one cycle.
   */
  lemma OverloadBound(settings: Settings, source: Source, capacity: nat, limit: int, total: nat)
    requires SaneSettings(settings) && settings.step == 1 && settings.ratio < 1.0 && settings.minimum <= capacity
    requires RejectsOverCapacity(source, capacity, settings.target)
    requires InRange(settings, limit) && limit <= capacity + 1
    ensures var rounds := Rounds(Controller(settings, source), limit, total, 0);
      && (forall i :: 0 <= i < |rounds| ==> LowRound(rounds[i], capacity, settings.maximum))
      && (Rejections(rounds, capacity) >= 1 ==>
            (Rejections(rounds, capacity) - 1)
            * SumRange(Max(settings.minimum, ((capacity + 1) as real * settings.ratio).Floor), capacity + 1) + (capacity + 1) <= total)
  {
    var decide, low := Controller(settings, source), FallBack(settings, capacity);
    FallBackIsFloor(settings, capacity);
    ControllerIsSawTooth(settings, source, capacity);
    LowIsLow(settings, capacity);
    SawToothBound(decide, capacity, low, settings.maximum, limit, total);
  }

  lemma SawToothBound(decide: Decide, capacity: nat, low: int, maximum: int, limit: int, total: nat)
    requires SawTooth(decide, capacity, low, maximum) && 1 <= low <= capacity
    requires 1 <= limit <= capacity + 1 && limit <= maximum
    ensures var rounds := Rounds(decide, limit, total, 0);
      && (forall i :: 0 <= i < |rounds| ==> LowRound(rounds[i], capacity, maximum))
      && (Rejections(rounds, capacity) >= 1 ==>
            (Rejections(rounds, capacity) - 1) * SumRange(low, capacity + 1) + (capacity + 1) <= total)
  {
    if maximum <= capacity {
      // The window never reaches an overload, whatever it would fall back to.
      NeverOverloads(decide, capacity, low, maximum, limit, total, 0);
    } else {
      WindowsStayLow(decide, capacity, low, maximum, limit, total, 0);
      OverloadsCostCycles(decide, capacity, low, maximum, limit, total, 0);
      SumRangeNonNegative(limit, capacity);
    }
  }

  lemma LowIsLow(settings: Settings, capacity: nat)
    requires SaneSettings(settings) && settings.ratio < 1.0 && settings.minimum <= capacity
    ensures 1 <= FallBack(settings, capacity) <= capacity
  {
    var limit: int := capacity + 1;
    ScaledFloor(limit, settings.ratio);
  }

  lemma {:induction false} NeverOverloads(
    decide: Decide, capacity: nat, low: int, maximum: int, limit: int, total: nat, start: nat)
    requires SawTooth(decide, capacity, low, maximum) && 1 <= limit <= maximum <= capacity
    ensures Rejections(Rounds(decide, limit, total, start), capacity) == 0
    ensures forall i :: 0 <= i < |Rounds(decide, limit, total, start)| ==>
              LowRound(Rounds(decide, limit, total, start)[i], capacity, maximum)
    decreases total - start
  {
    if start < total {
      var size := Min(limit, total - start);
      var next := decide(limit, start, size);
      assert next == Min(maximum, limit + 1);
      var rounds := Rounds(decide, limit, total, start);
      assert rounds == [(size, limit, next)] + Rounds(decide, next, total, start + size);
      assert rounds[1..] == Rounds(decide, next, total, start + size);
      NeverOverloads(decide, capacity, low, maximum, next, total, start + size);
    }
  }

  function CountFailed(receipts: seq<SourceReceipt>): nat {
    if receipts == [] then 0
    else CountFailed(receipts[..|receipts| - 1]) + (if receipts[|receipts| - 1].succeeded then 0 else 1)
  }

  lemma {:induction false} BatchFailures(
    receipts: seq<SourceReceipt>, source: Source, start: nat, size: nat, count: nat)
    requires start + count <= |receipts|
    requires forall i: nat :: start <= i < start + count ==> receipts[i].succeeded == source(start, size, i).succeeded
    ensures CountFailed(receipts[..start + count]) == CountFailed(receipts[..start]) + Failures(source, start, size, count)
  {
    if count > 0 {
      BatchFailures(receipts, source, start, size, count - 1);
      assert receipts[..start + count][..start + count - 1] == receipts[..start + count - 1];
    }
  }

  lemma {:induction false} RejectionsExtend(rounds: seq<(nat, int, int)>, round: (nat, int, int), capacity: nat)
    ensures Rejections(rounds + [round], capacity) == Rejections(rounds, capacity) + Max(0, round.0 - capacity)
  {
    if rounds == [] {
      assert [] + [round] == [round] && [round][1..] == [];
    } else {
      RejectionsExtend(rounds[1..], round, capacity);
      assert (rounds + [round])[1..] == rounds[1..] + [round];
    }
  }

  /** A running total that grows in each round by what its batch exceeds the capacity by. */
  ghost predicate GrowsWith(total: nat -> nat, round: Round, capacity: nat) {
    total(round.start + round.size) == total(round.start) + Max(0, round.size - capacity)
  }

  /** The failed receipts among the first `done`. */
  function FailedSoFar(receipts: seq<SourceReceipt>): nat -> nat {
    (done: nat) => if done <= |receipts| then CountFailed(receipts[..done]) else 0
  }

  lemma FailuresGrow(
    receipts: seq<SourceReceipt>, round: Round, operations: seq<Operation>, source: Source, capacity: nat, target: real)
    requires RejectsOverCapacity(source, capacity, target) && RoundAnswered(receipts, round, operations, source)
    ensures GrowsWith(FailedSoFar(receipts), round, capacity)
  {
    BatchFailures(receipts, source, round.start, round.size, round.size);
    assert Failures(source, round.start, round.size, round.size) == Max(0, round.size - capacity);
  }

  lemma TraceLast(rounds: seq<Round>, capacity: nat)
    requires rounds != []
    ensures Rejections(Trace(rounds), capacity)
         == Rejections(Trace(rounds[..|rounds| - 1]), capacity) + Max(0, rounds[|rounds| - 1].size - capacity)
  {
    var last := rounds[|rounds| - 1];
    RejectionsExtend(Trace(rounds[..|rounds| - 1]), (last.size, last.before, last.after), capacity);
    assert Trace(rounds) == Trace(rounds[..|rounds| - 1]) + [(last.size, last.before, last.after)];
  }

  lemma {:induction false} RoundsAddUp(total: nat -> nat, rounds: seq<Round>, capacity: nat, done: nat)
    requires total(0) == 0 && Covers(rounds, done)
    requires forall k :: 0 <= k < |rounds| ==> GrowsWith(total, rounds[k], capacity)
    ensures total(done) == Rejections(Trace(rounds), capacity)
    decreases |rounds|
  {
    if rounds != [] {
      var n := |rounds| - 1;
      PrefixCovers(rounds, done);
      assert GrowsWith(total, rounds[n], capacity);
      RoundsAddUp(total, rounds[..n], capacity, rounds[n].start);
      TraceLast(rounds, capacity);
    }
  }

  /** The failed receipts of a batch run are its rejections. */
  lemma FailedReceiptsAreRejections(
    receipts: seq<SourceReceipt>, rounds: seq<Round>, operations: seq<Operation>, source: Source,
    capacity: nat, target: real)
    requires RejectsOverCapacity(source, capacity, target)
    requires Covers(rounds, |receipts|) && Answers(receipts, rounds, operations, source)
    ensures CountFailed(receipts) == Rejections(Trace(rounds), capacity)
  {
    forall k | 0 <= k < |rounds| ensures GrowsWith(FailedSoFar(receipts), rounds[k], capacity) {
      FailuresGrow(receipts, rounds[k], operations, source, capacity, target);
    }
    assert receipts[..0] == [] && FailedSoFar(receipts)(0) == 0;
    RoundsAddUp(FailedSoFar(receipts), rounds, capacity, |receipts|);
    assert receipts[..|receipts|] == receipts;
  }

  /** The bound for what a batch execution returns: the failed receipts among its operations. */
  lemma FailedReceiptsAreBounded(
    settings: Settings, source: Source, capacity: nat, limit: int,
    receipts: seq<SourceReceipt>, rounds: seq<Round>, operations: seq<Operation>)
    requires SaneSettings(settings) && settings.step == 1 && settings.ratio < 1.0 && settings.minimum <= capacity
    requires RejectsOverCapacity(source, capacity, settings.target)
    requires InRange(settings, limit) && limit <= capacity + 1
    requires InOrder(receipts, operations) && Answers(receipts, rounds, operations, source) && Covers(rounds, |operations|)
    requires Trace(rounds) == Rounds(Controller(settings, source), limit, |operations|, 0)
    ensures CountFailed(receipts) >= 1 ==>
              (CountFailed(receipts) - 1)
              * SumRange(Max(settings.minimum, ((capacity + 1) as real * settings.ratio).Floor), capacity + 1) + (capacity + 1)
              <= |operations|
  {
    OverloadBound(settings, source, capacity, limit, |operations|);
    FailedReceiptsAreRejections(receipts, rounds, operations, source, capacity, settings.target);
  }

  /** Not every limit stays at or below capacity + 1: one partial batch at that window raises it further. */
  lemma PartialBatchOvershoots(settings: Settings, source: Source, capacity: nat)
    requires SaneSettings(settings) && settings.step == 1 && 1 <= capacity && settings.maximum >= capacity + 2
    requires RejectsOverCapacity(source, capacity, settings.target)
    ensures Rounds(Controller(settings, source), capacity + 1, capacity, 0) == [(capacity, capacity + 1, capacity + 2)]
  {
    CapacityDecision(settings, source, capacity, capacity + 1, 0, capacity);
    LastRound(Controller(settings, source), capacity + 1, capacity, 0);
  }
}
