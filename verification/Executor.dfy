/**
 One regional call from admission to release, with every other worker free to act between two of its
 accesses to Redis.  Whatever it does is a run of the admission machine.
 */
module Executor {
  import opened Tables
  import opened Percentile
  import opened Aimd
  import opened Admission

  const RETRY_MS := 20

  /**
   What the source call comes to: a cancellation, no response, or one whose body is `readable` JSON or not,
   and whose payload is `valid` (the expected shape, verified, nothing remaining after a delete) or not.
   */
  datatype Reply = Cancelled | Raises | Response(succeeded: bool, latency: real, readable: bool, valid: bool) {
    /** A failed response is not validated: it is returned as it is. */
    predicate Breaks() {
      Cancelled? || Raises? || !readable || (succeeded && !valid)
    }
  }

  /** Which of the two Redis commands after the call get through. */
  datatype Service = Service(publishUp: bool, releaseUp: bool)

  datatype Outcome = TimedOut | Raised | Received(succeeded: bool)

  /** What the controller has observed when the decision is published. */
  function Observation(reply: Reply): Window {
    match reply
    case Cancelled => Window([], 0)
    case Raises => Window([0.0], 1)
    case Response(succeeded, latency, _, _) =>
      var failures := if succeeded then 0 else 1;
      if reply.Breaks() then Window([latency, 0.0], failures + 1) else Window([latency], failures)
  }

  /** What an admitted call does after its source call: publish if it can, then give the place up, or leave its entry to lapse. */
  function Tail(call: nat, limit: int, reply: Reply, service: Service): seq<Step> {
    var window := Observation(reply);
    (if !reply.Cancelled? && service.publishUp
     then [Adjust(limit, PercentileOf(window.latencies, FRACTION), FailureRate(window))] else [])
    + [if service.releaseUp then Release(call) else Crash(call)]
  }

  /** A call that is not cancelled publishes if it can; then it releases its place, or loses it if Redis is out of reach. */
  lemma TailSteps(call: nat, limit: int, reply: Reply, service: Service)
    ensures var tail := Tail(call, limit, reply, service);
      && |tail| == (if reply.Cancelled? || !service.publishUp then 1 else 2)
      && tail[|tail| - 1] == (if service.releaseUp then Release(call) else Crash(call))
      && (|tail| == 2 ==> tail[0].Adjust? && tail[0].previous == limit)
  {
  }

  /** The numbers that are published: the worst sample, and which part of the samples failed. */
  lemma PublishedNumbers(reply: Reply)
    requires !reply.Cancelled?
    ensures var p95 := PercentileOf(Observation(reply).latencies, FRACTION); var rate := FailureRate(Observation(reply));
      && (reply.Raises? ==> p95 == 0.0 && rate == 1.0)
      && (reply.Response? && reply.readable && reply.succeeded && reply.valid ==> p95 == reply.latency && rate == 0.0)
      && (reply.Response? && reply.readable && reply.succeeded && !reply.valid ==>
            p95 == MaxReal(reply.latency, 0.0) && rate == 0.5)
      && (reply.Response? && reply.readable && !reply.succeeded ==> p95 == reply.latency && rate == 1.0)
      && (reply.Response? && !reply.readable ==>
            p95 == MaxReal(reply.latency, 0.0) && rate == (if reply.succeeded then 0.5 else 1.0))
  {
    if reply.Response? {
      OneSampleIsItsPercentile(reply.latency);
      WorstOfTwo(reply.latency, 0.0);
    } else {
      OneSampleIsItsPercentile(0.0);
    }
  }

  lemma OneSampleIsItsPercentile(latency: real)
    ensures PercentileOf([latency], FRACTION) == latency
  {
    PercentileIsNearestRank([latency], FRACTION, latency);
  }

  lemma WorstOfTwo(a: real, b: real)
    ensures PercentileOf([a, b], FRACTION) == MaxReal(a, b)
  {
    var values, worst := [a, b], MaxReal(a, b);
    RankInRange(2, FRACTION);
    assert Ceil(2.0 * FRACTION) == 2;
    TwoSamples(a, b, worst);
    TwoSamples(a, b, PercentileOf(values, FRACTION));
    PercentileIsNearestRank(values, FRACTION, worst);
    PercentileIsNearestRank(values, FRACTION, PercentileOf(values, FRACTION));
  }

  lemma TwoSamples(a: real, b: real, v: real)
    ensures CountAtMost([a, b], v) == (if a <= v then 1 else 0) + (if b <= v then 1 else 0)
  {
    assert [a, b][..1] == [a] && [a][..0] == [];
    assert CountAtMost([], v) == 0;
    assert CountAtMost([a], v) == (if a <= v then 1 else 0);
  }

  /** The published window grows exactly on a valid, successful and timely response. */
  lemma PublishedVerdict(settings: Settings, reply: Reply)
    requires !reply.Cancelled?
    ensures VerdictOf(settings, Observation(reply)) ==
            if reply.Response? && reply.readable && reply.valid && reply.succeeded && reply.latency <= settings.target
            then Healthy else Bad
    ensures Overloaded(settings, PercentileOf(Observation(reply).latencies, FRACTION), FailureRate(Observation(reply)))
            <==> VerdictOf(settings, Observation(reply)).Bad?
  {
    var window := Observation(reply);
    RateIsPositive(window.failures, |window.latencies|);
    if !reply.Breaks() && reply.succeeded {
      BackOffCondition(settings, window);
      OneSample(reply.latency, settings.target);
    }
  }

  lemma OneSample(latency: real, bound: real)
    ensures CountAtMost([latency], bound) == if latency <= bound then 1 else 0
    ensures Ceil(|[latency]| as real * FRACTION) == 1
  {
    assert [latency][1..] == [] && [latency][..0] == [];
    assert CountAtMost([], bound) == 0;
  }

  // ---------------------------------------------------------------- traces

  /** A step of the admission machine, taken by this call or by another worker. */
  datatype Event = Own(step: Step) | Other(step: Step)

  function Steps(trace: seq<Event>): (steps: seq<Step>)
    ensures |steps| == |trace|
  {
    if trace == [] then [] else Steps(trace[..|trace| - 1]) + [trace[|trace| - 1].step]
  }

  function OwnSteps(trace: seq<Event>): seq<Step> {
    if trace == [] then []
    else
      var last := trace[|trace| - 1];
      OwnSteps(trace[..|trace| - 1]) + if last.Own? then [last.step] else []
  }

  /** Another worker neither begins, ends nor loses this call. */
  predicate Foreign(call: nat, step: Step) {
    match step
    case Acquire(c, _, _) => c != call
    case Release(c) => c != call
    case Crash(c) => c != call
    case _ => true
  }

  /** What other workers do before this call's `k`-th access. */
  type Others = nat -> seq<Step>

  ghost predicate AllForeign(call: nat, others: Others) {
    forall k, i {:trigger others(k)[i]} :: 0 <= i < |others(k)| ==> Foreign(call, others(k)[i])
  }

  /** Attempts to be admitted, separated by sleeps. */
  ghost predicate Attempts(own: seq<Step>, call: nat, holder: string) {
    forall i :: 0 <= i < |own| ==>
      if i % 2 == 0 then own[i].Acquire? && own[i].call == call && own[i].holder == holder
      else own[i] == Tick(20)
  }

  lemma {:induction false} RunSnoc(limits: Limits, s: State, steps: seq<Step>, step: Step)
    ensures Run(limits, s, steps + [step]) == Apply(limits, Run(limits, s, steps), step)
    decreases |steps|
  {
    if steps == [] {
      assert ([step])[1..] == [] && [] + [step] == [step];
      assert Run(limits, Apply(limits, s, step), []) == Apply(limits, s, step);
    } else {
      assert (steps + [step])[1..] == steps[1..] + [step];
      RunSnoc(limits, Apply(limits, s, steps[0]), steps[1..], step);
    }
  }

  lemma TraceSnoc(limits: Limits, s: State, trace: seq<Event>, event: Event)
    ensures Run(limits, s, Steps(trace + [event])) == Apply(limits, Run(limits, s, Steps(trace)), event.step)
    ensures OwnSteps(trace + [event]) == OwnSteps(trace) + if event.Own? then [event.step] else []
  {
    assert (trace + [event])[..|trace|] == trace;
    RunSnoc(limits, s, Steps(trace), event.step);
  }

  /** Other workers keep the admission bounds, let time pass and leave this call alone. */
  lemma ForeignStep(limits: Limits, s: State, step: Step, call: nat)
    requires SaneSettings(limits.settings) && Bounded(limits, s) && Foreign(call, step)
    ensures var s' := Apply(limits, s, step);
      && Bounded(limits, s') && s.now <= s'.now
      && (call in s'.calls <==> call in s.calls) && (call in s.calls ==> s'.calls[call] == s.calls[call])
  {
    StepKeepsBounded(limits, s, step);
  }

  // ---------------------------------------------------------------- Redis

  /** The keys of one tenant and source, with the clock and the calls they admit. */
  class Redis {
    const limits: Limits
    var state: State

    constructor (limits: Limits, now: int)
      ensures this.limits == limits && state == Initial(now)
    {
      this.limits, state := limits, Initial(now);
    }

    /** The admission script. */
    method Acquire(call: nat, holder: string, fallback: int) returns (admitted: bool, limit: int)
      requires call !in state.calls && InRange(limits.settings, fallback)
      modifies this
      ensures state == Apply(limits, old(state), Step.Acquire(call, holder, fallback))
      ensures limit == CurrentLimit(old(state).keys, fallback) && (admitted <==> call in state.calls)
    {
      var keys, now := state.keys, state.now;
      limit := if keys.window.Some? then keys.window.value else fallback;
      var holders := Purged(keys.holders, now);
      admitted := |holders| < limit;
      if admitted {
        state := State(Keys(keys.window, holders[holder := now + limits.Lease()], Some(now + limits.ttl)), now,
                       state.calls[call := Call(holder, now)]);
      } else {
        state := state.(keys := keys.(holders := holders));
      }
    }

    method Adjust(previous: int, p95: real, failureRate: real)
      requires InRange(limits.settings, previous)
      modifies this
      ensures state == Apply(limits, old(state), Step.Adjust(previous, p95, failureRate))
    {
      var current := if state.keys.window.Some? then state.keys.window.value else previous;
      var next := if failureRate > 0.0 || p95 > limits.settings.target
        then Max(limits.settings.minimum, (current as real * limits.settings.ratio).Floor)
        else Min(limits.settings.maximum, current + limits.settings.step);
      assert next == LuaAdjust(limits.settings, state.keys.window, previous, p95, failureRate).1;
      state := state.(keys := state.keys.(window := Some(next)));
    }

    method Release(call: nat)
      requires call in state.calls
      modifies this
      ensures state == Apply(limits, old(state), Step.Release(call))
    {
      state := state.(keys := state.keys.(holders := state.keys.holders - {state.calls[call].holder}),
                      calls := state.calls - {call});
    }

    /** The call is over, but its entry could not be removed. */
    method Abandon(call: nat)
      requires call in state.calls
      modifies this
      ensures state == Apply(limits, old(state), Crash(call))
    {
      state := state.(calls := state.calls - {call});
    }

    method Sleep(elapsed: nat)
      modifies this
      ensures state == Apply(limits, old(state), Tick(elapsed))
    {
      state := state.(now := state.now + elapsed);
    }

    /** Other workers act. */
    method Interfere(steps: seq<Step>, ghost runs: Runs, ghost trace: seq<Event>, ghost call: nat)
      returns (ghost trace': seq<Event>)
      requires SaneSettings(limits.settings) && Bounded(limits, state)
      requires Closed(limits, runs) && (trace, state) in runs
      requires forall i :: 0 <= i < |steps| ==> Foreign(call, steps[i])
      modifies this
      ensures Bounded(limits, state) && old(state.now) <= state.now
      ensures (trace', state) in runs && OwnSteps(trace') == OwnSteps(trace)
      ensures call in state.calls <==> call in old(state.calls)
      ensures call in state.calls ==> state.calls[call] == old(state.calls)[call]
    {
      trace' := trace;
      for i := 0 to |steps|
        invariant Bounded(limits, state) && old(state.now) <= state.now
        invariant (trace', state) in runs && OwnSteps(trace') == OwnSteps(trace)
        invariant call in state.calls <==> call in old(state.calls)
        invariant call in state.calls ==> state.calls[call] == old(state.calls)[call]
      {
        ForeignStep(limits, state, steps[i], call);
        Extend(limits, runs, trace', state, Other(steps[i]));
        state := Apply(limits, state, steps[i]);
        trace' := trace' + [Other(steps[i])];
      }
    }
  }

  // ---------------------------------------------------------------- the executor

  /** Which state each trace ends in. */
  type Runs = iset<(seq<Event>, State)>

  ghost predicate Closed(limits: Limits, runs: Runs) {
    forall trace: seq<Event>, s: State, event: Event :: (trace, s) in runs ==> (trace + [event], Apply(limits, s, event.step)) in runs
  }

  lemma Extend(limits: Limits, runs: Runs, trace: seq<Event>, s: State, event: Event)
    requires Closed(limits, runs) && (trace, s) in runs
    ensures (trace + [event], Apply(limits, s, event.step)) in runs
    ensures OwnSteps(trace + [event]) == OwnSteps(trace) + if event.Own? then [event.step] else []
  {
    assert (trace + [event])[..|trace|] == trace;
  }

  lemma AllRuns(limits: Limits, start: State) returns (runs: Runs)
    ensures Closed(limits, runs) && ([], start) in runs
    ensures forall trace, s :: (trace, s) in runs ==> s == Run(limits, start, Steps(trace))
  {
    runs := iset trace: seq<Event>, s: State | s == Run(limits, start, Steps(trace)) :: (trace, s);
    forall trace: seq<Event>, s: State, event: Event | (trace, s) in runs
      ensures (trace + [event], Apply(limits, s, event.step)) in runs
    {
      TraceSnoc(limits, start, trace, event);
    }
  }

  lemma AttemptsGrow(own: seq<Step>, call: nat, holder: string, fallback: int)
    requires Attempts(own, call, holder) && |own| % 2 == 1
    ensures Attempts(own + [Tick(RETRY_MS)] + [Acquire(call, holder, fallback)], call, holder)
  {
  }

  class RegionalSourceExecutor {
    const redis: Redis
    const initialLimit: int

    constructor (redis: Redis, initialLimit: int)
      ensures this.redis == redis && this.initialLimit == initialLimit
    {
      this.redis, this.initialLimit := redis, initialLimit;
    }

    /** One attempt to be admitted, after whatever others did. */
    method Attempt(call: nat, holder: string, fallback: int, steps: seq<Step>, ghost runs: Runs, ghost trace: seq<Event>)
      returns (admitted: bool, limit: int, ghost trace': seq<Event>)
      requires SaneSettings(redis.limits.settings) && InRange(redis.limits.settings, fallback)
      requires Bounded(redis.limits, redis.state) && call !in redis.state.calls
      requires Closed(redis.limits, runs) && (trace, redis.state) in runs
      requires forall i :: 0 <= i < |steps| ==> Foreign(call, steps[i])
      modifies redis
      ensures Bounded(redis.limits, redis.state) && (trace', redis.state) in runs
      ensures OwnSteps(trace') == OwnSteps(trace) + [Acquire(call, holder, fallback)]
      ensures limit == CurrentLimit(redis.state.keys, fallback)
      ensures InRange(redis.limits.settings, limit) && old(redis.state.now) <= redis.state.now
      ensures admitted <==> call in redis.state.calls
      ensures admitted ==> redis.state.calls[call] == Call(holder, redis.state.now)
                           && holder in redis.state.keys.holders && |redis.state.keys.holders| <= limit
    {
      trace' := redis.Interfere(steps, runs, trace, call);
      AdmissionRespectsWindow(redis.limits, redis.state, call, holder, fallback);
      StepKeepsBounded(redis.limits, redis.state, Acquire(call, holder, fallback));
      Extend(redis.limits, runs, trace', redis.state, Own(Acquire(call, holder, fallback)));
      trace' := trace' + [Own(Acquire(call, holder, fallback))];
      admitted, limit := redis.Acquire(call, holder, fallback);
    }

    /** A pause between two attempts. */
    method Pause(ghost call: nat, ghost runs: Runs, ghost trace: seq<Event>) returns (ghost trace': seq<Event>)
      requires SaneSettings(redis.limits.settings) && Bounded(redis.limits, redis.state)
      requires Closed(redis.limits, runs) && (trace, redis.state) in runs && call !in redis.state.calls
      modifies redis
      ensures Bounded(redis.limits, redis.state) && (trace', redis.state) in runs && call !in redis.state.calls
      ensures OwnSteps(trace') == OwnSteps(trace) + [Tick(RETRY_MS)]
      ensures redis.state.now == old(redis.state.now) + RETRY_MS
    {
      Extend(redis.limits, runs, trace, redis.state, Own(Tick(RETRY_MS)));
      trace' := trace + [Own(Tick(RETRY_MS))];
      redis.Sleep(RETRY_MS);
    }

    /** One more attempt after a refusal and a pause. */
    method Retry(call: nat, holder: string, fallback: int, steps: seq<Step>, ghost runs: Runs, ghost trace: seq<Event>)
      returns (admitted: bool, limit: int, ghost trace': seq<Event>)
      requires SaneSettings(redis.limits.settings) && InRange(redis.limits.settings, fallback)
      requires Bounded(redis.limits, redis.state) && call !in redis.state.calls
      requires Closed(redis.limits, runs) && (trace, redis.state) in runs
      requires forall i :: 0 <= i < |steps| ==> Foreign(call, steps[i])
      requires Attempts(OwnSteps(trace), call, holder) && |OwnSteps(trace)| % 2 == 1
      modifies redis
      ensures Bounded(redis.limits, redis.state) && (trace', redis.state) in runs
      ensures Attempts(OwnSteps(trace'), call, holder)
      ensures OwnSteps(trace') == OwnSteps(trace) + [Tick(20), Acquire(call, holder, fallback)]
      ensures limit == CurrentLimit(redis.state.keys, fallback)
      ensures InRange(redis.limits.settings, limit) && old(redis.state.now) + RETRY_MS <= redis.state.now
      ensures admitted <==> call in redis.state.calls
      ensures admitted ==> redis.state.calls[call] == Call(holder, redis.state.now)
                           && holder in redis.state.keys.holders && |redis.state.keys.holders| <= limit
    {
      trace' := Pause(call, runs, trace);
      admitted, limit, trace' := Attempt(call, holder, fallback, steps, runs, trace');
      AttemptsGrow(OwnSteps(trace), call, holder, fallback);
      assert OwnSteps(trace) + [Tick(RETRY_MS)] + [Acquire(call, holder, fallback)]
          == OwnSteps(trace) + [Tick(20), Acquire(call, holder, fallback)];
    }

    /** Retries until admitted, giving up once the deadline has passed at a refusal. */
    method Admit(call: nat, holder: string, others: Others, ghost runs: Runs)
      returns (admitted: bool, limit: int, k: nat, ghost trace: seq<Event>, ghost sleeps: nat)
      requires SaneSettings(redis.limits.settings) && InRange(redis.limits.settings, initialLimit)
      requires Bounded(redis.limits, redis.state) && call !in redis.state.calls && AllForeign(call, others)
      requires Closed(redis.limits, runs) && ([], redis.state) in runs
      modifies redis
      ensures Bounded(redis.limits, redis.state) && (trace, redis.state) in runs
      ensures Attempts(OwnSteps(trace), call, holder) && |OwnSteps(trace)| == 2 * sleeps + 1
      ensures OwnSteps(trace)[0] == Acquire(call, holder, initialLimit)
      ensures sleeps * 20 < redis.limits.timeout + 20
      ensures InRange(redis.limits.settings, limit)
      ensures admitted <==> call in redis.state.calls
      ensures admitted ==> redis.state.calls[call] == Call(holder, redis.state.now)
                           && holder in redis.state.keys.holders && |redis.state.keys.holders| <= limit
      ensures !admitted ==> old(redis.state.now) + redis.limits.timeout <= redis.state.now
    {
      sleeps := 0;
      var began := redis.state.now;
      var deadline := began + redis.limits.timeout;
      trace := [];
      k := 1;
      assert OwnSteps(trace) == [];
      admitted, limit, trace := Attempt(call, holder, initialLimit, others(0), runs, trace);
      while !admitted
        invariant Bounded(redis.limits, redis.state) && (trace, redis.state) in runs
        invariant Attempts(OwnSteps(trace), call, holder) && |OwnSteps(trace)| == 2 * sleeps + 1
        invariant OwnSteps(trace)[0] == Acquire(call, holder, initialLimit)
        invariant InRange(redis.limits.settings, limit)
        invariant began + sleeps * 20 <= redis.state.now && sleeps * 20 < redis.limits.timeout + 20
        invariant admitted <==> call in redis.state.calls
        invariant admitted ==> redis.state.calls[call] == Call(holder, redis.state.now)
                               && holder in redis.state.keys.holders && |redis.state.keys.holders| <= limit
        decreases !admitted, deadline - redis.state.now
      {
        trace := redis.Interfere(others(k), runs, trace, call);
        if redis.state.now >= deadline {
          return;
        }
        admitted, limit, trace := Retry(call, holder, limit, others(k + 1), runs, trace);
        k, sleeps := k + 2, sleeps + 1;
      }
    }

    /** Publishes the controller's decision to the shared window. */
    method Publish(call: nat, controller: AimdConcurrencyController, steps: seq<Step>, ghost runs: Runs, ghost trace: seq<Event>)
      returns (ghost trace': seq<Event>)
      requires SaneSettings(redis.limits.settings) && InRange(redis.limits.settings, controller.limit)
      requires Bounded(redis.limits, redis.state) && call in redis.state.calls
      requires Closed(redis.limits, runs) && (trace, redis.state) in runs
      requires forall i :: 0 <= i < |steps| ==> Foreign(call, steps[i])
      modifies redis, controller
      ensures Bounded(redis.limits, redis.state) && (trace', redis.state) in runs
      ensures call in redis.state.calls && redis.state.calls[call] == old(redis.state.calls)[call]
      ensures OwnSteps(trace') == OwnSteps(trace) +
                [Adjust(old(controller.limit), PercentileOf(old(controller.latencies), FRACTION),
                        FailureRate(old(controller.Observed())))]
    {
      trace' := redis.Interfere(steps, runs, trace, call);
      var decision := controller.Adjust();
      ghost var step := Adjust(decision.previous, decision.p95, decision.failureRate);
      Extend(redis.limits, runs, trace', redis.state, Own(step));
      StepKeepsBounded(redis.limits, redis.state, step);
      trace' := trace' + [Own(step)];
      redis.Adjust(decision.previous, decision.p95, decision.failureRate);
    }

    /** Gives the place up; an unreachable Redis keeps the entry until it lapses. */
    method GiveUp(call: nat, releaseUp: bool, steps: seq<Step>, ghost runs: Runs, ghost trace: seq<Event>)
      returns (ghost trace': seq<Event>)
      requires SaneSettings(redis.limits.settings)
      requires Bounded(redis.limits, redis.state) && call in redis.state.calls
      requires Closed(redis.limits, runs) && (trace, redis.state) in runs
      requires forall i :: 0 <= i < |steps| ==> Foreign(call, steps[i])
      modifies redis
      ensures Bounded(redis.limits, redis.state) && (trace', redis.state) in runs
      ensures call !in redis.state.calls
      ensures releaseUp ==> old(redis.state.calls)[call].holder !in redis.state.keys.holders
      ensures OwnSteps(trace') == OwnSteps(trace) + [if releaseUp then Release(call) else Crash(call)]
    {
      trace' := redis.Interfere(steps, runs, trace, call);
      ghost var step := if releaseUp then Release(call) else Crash(call);
      Extend(redis.limits, runs, trace', redis.state, Own(step));
      StepKeepsBounded(redis.limits, redis.state, step);
      trace' := trace' + [Own(step)];
      if releaseUp {
        redis.Release(call);
      } else {
        redis.Abandon(call);
      }
    }

    /** The source call as the controller sees it. */
    method Observe(controller: AimdConcurrencyController, reply: Reply) returns (outcome: Outcome)
      requires controller.Observed() == Window([], 0)
      modifies controller`latencies, controller`failures
      ensures controller.Observed() == Observation(reply)
      ensures outcome == Received(true) <==> reply.Response? && reply.succeeded && reply.readable && reply.valid
      ensures outcome == Received(false) <==> reply.Response? && !reply.succeeded && reply.readable
      ensures outcome.Received? || outcome.Raised?
    {
      if reply.Cancelled? {
        return Raised;
      }
      var raised := reply.Raises?;
      if !raised {
        controller.Observe(reply.latency, reply.succeeded);
        raised := !reply.readable || (reply.succeeded && !reply.valid);
      }
      if raised {
        controller.Observe(0.0, false);
        outcome := Raised;
      } else {
        outcome := Received(reply.succeeded);
      }
    }

    /**
     Admission, one source call, at most one published decision, and the end of the place: whatever the
     source call or the publication comes to, an admitted call always gives its place up.
     */
    method Execute(call: nat, holder: string, reply: Reply, service: Service, others: Others)
      returns (outcome: Outcome, ghost trace: seq<Event>, ghost attempts: seq<Step>, ghost sleeps: nat, ghost limit: int)
      requires SaneSettings(redis.limits.settings) && InRange(redis.limits.settings, initialLimit)
      requires Bounded(redis.limits, redis.state) && call !in redis.state.calls && AllForeign(call, others)
      modifies redis
      ensures redis.state == Run(redis.limits, old(redis.state), Steps(trace)) && Bounded(redis.limits, redis.state)
      ensures Attempts(attempts, call, holder) && |attempts| == 2 * sleeps + 1
      ensures attempts[0] == Acquire(call, holder, initialLimit)
      ensures sleeps * 20 < redis.limits.timeout + 20
      ensures InRange(redis.limits.settings, limit)
      ensures OwnSteps(trace) == attempts + (if outcome.TimedOut? then [] else Tail(call, limit, reply, service))
      ensures !outcome.TimedOut? ==>
                (outcome == Received(true) <==>
                  && reply.Response? && reply.succeeded && reply.readable && reply.valid
                  && service.publishUp && service.releaseUp)
      ensures !outcome.TimedOut? ==>
                (outcome == Received(false) <==>
                  reply.Response? && !reply.succeeded && reply.readable && service.publishUp && service.releaseUp)
      ensures outcome.TimedOut? || outcome.Raised? || outcome.Received?
      ensures call !in redis.state.calls
      ensures if outcome.TimedOut? then old(redis.state.now) + redis.limits.timeout <= redis.state.now
              else service.releaseUp ==> holder !in redis.state.keys.holders
    {
      ghost var runs := AllRuns(redis.limits, redis.state);
      var admitted, window, k, t, waits := Admit(call, holder, others, runs);
      trace, attempts, sleeps, limit := t, OwnSteps(t), waits, window;
      outcome := TimedOut;
      if admitted {
        var controller := new AimdConcurrencyController(window, redis.limits.settings);
        outcome := Observe(controller, reply);
        if !reply.Cancelled? {
          if service.publishUp {
            trace := Publish(call, controller, others(k), runs, trace);
          } else {
            outcome := Raised;
          }
        }
        trace := GiveUp(call, service.releaseUp, others(k + 1), runs, trace);
        if !service.releaseUp {
          outcome := Raised;
        }
      }
    }
  }
}
