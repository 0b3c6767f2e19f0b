/**
 Distributed admission to a regional source: the Redis holder set, the shared window, and calls that
 may crash, with keys that may expire.  Times are milliseconds on one clock.
 */
module Admission {
  import opened Tables
  import opened Aimd

  /** `timeout` is how long a call waits for admission; once admitted it has five seconds more. */
  datatype Limits = Limits(settings: Settings, timeout: nat, ttl: nat) {
    function Lease(): nat { timeout + 5000 }
  }

  /** The two Redis keys of a tenant and source: the window, and the holders with their lease ends. */
  datatype Keys = Keys(window: Option<int>, holders: map<string, int>, expiry: Option<int>)

  datatype Call = Call(holder: string, started: int)

  /** `calls` are the calls truly in flight. */
  datatype State = State(keys: Keys, now: int, calls: map<nat, Call>)

  // ---------------------------------------------------------------- the scripts

  /** The stored window, or the caller's `fallback` while none is stored. */
  function CurrentLimit(keys: Keys, fallback: int): int {
    if keys.window.Some? then keys.window.value else fallback
  }

  /** Drops the entries whose admission lease has ended. */
  function Purged(holders: map<string, int>, now: int): map<string, int> {
    map h | h in holders && holders[h] > now :: holders[h]
  }

  predicate Admits(keys: Keys, now: int, fallback: int) {
    |Purged(keys.holders, now)| < CurrentLimit(keys, fallback)
  }

  /** The admission script. */
  function AcquireKeys(limits: Limits, keys: Keys, now: int, holder: string, fallback: int): Keys {
    var live := Purged(keys.holders, now);
    if Admits(keys, now, fallback)
    then keys.(holders := live[holder := now + limits.Lease()], expiry := Some(now + limits.ttl))
    else keys.(holders := live)
  }

  function ReleaseKeys(keys: Keys, holder: string): Keys {
    keys.(holders := keys.holders - {holder})
  }

  function AdjustKeys(limits: Limits, keys: Keys, previous: int, p95: real, failureRate: real): Keys {
    keys.(window := Some(LuaAdjust(limits.settings, keys.window, previous, p95, failureRate).1))
  }

  // ---------------------------------------------------------------- steps

  datatype Step =
    | Tick(elapsed: nat)
    | Acquire(call: nat, holder: string, fallback: int)
    | Release(call: nat)
    | Crash(call: nat)
    | Adjust(previous: int, p95: real, failureRate: real)
    | ExpireWindow
    | ExpireHolders

  function Apply(limits: Limits, s: State, step: Step): State {
    match step
    case Tick(elapsed) => s.(now := s.now + elapsed)
    case Acquire(c, holder, fallback) =>
      if c in s.calls || !InRange(limits.settings, fallback) then s
      else
        s.(keys := AcquireKeys(limits, s.keys, s.now, holder, fallback),
           calls := if Admits(s.keys, s.now, fallback) then s.calls[c := Call(holder, s.now)] else s.calls)
    case Release(c) =>
      if c in s.calls then s.(keys := ReleaseKeys(s.keys, s.calls[c].holder), calls := s.calls - {c}) else s
    case Crash(c) => s.(calls := s.calls - {c})
    case Adjust(previous, p95, failureRate) =>
      if InRange(limits.settings, previous)
      then s.(keys := AdjustKeys(limits, s.keys, previous, p95, failureRate)) else s
    case ExpireWindow => s.(keys := s.keys.(window := None))
    case ExpireHolders =>
      if s.keys.expiry.Some? && s.keys.expiry.value <= s.now
      then s.(keys := s.keys.(holders := map[], expiry := None)) else s
  }

  function Run(limits: Limits, s: State, steps: seq<Step>): State
    decreases |steps|
  {
    if steps == [] then s else Run(limits, Apply(limits, s, steps[0]), steps[1..])
  }

  function Initial(now: int): State {
    State(Keys(None, map[], None), now, map[])
  }

  /** Holders are distinct, and every call ends before its admission lease does. */
  predicate Orderly(limits: Limits, s: State, step: Step) {
    match step
    case Acquire(_, holder, _) => forall c :: c in s.calls ==> s.calls[c].holder != holder
    case Tick(elapsed) => forall c :: c in s.calls ==> s.now + elapsed < s.calls[c].started + limits.Lease()
    case _ => true
  }

  predicate OrderlyRun(limits: Limits, s: State, steps: seq<Step>)
    decreases |steps|
  {
    steps == [] || (Orderly(limits, s, steps[0]) && OrderlyRun(limits, Apply(limits, s, steps[0]), steps[1..]))
  }

  // ---------------------------------------------------------------- the holder set

  ghost predicate Bounded(limits: Limits, s: State) {
    && |s.keys.holders| <= limits.settings.maximum
    && (s.keys.window.Some? ==> InRange(limits.settings, s.keys.window.value))
  }

  lemma SubMap<K, V>(a: map<K, V>, b: map<K, V>)
    requires forall k :: k in a ==> k in b
    ensures |a| <= |b|
  {
    assert a.Keys <= b.Keys;
    SubsetSize(a.Keys, b.Keys);
  }

  lemma AddedHolder(holders: map<string, int>, holder: string, score: int)
    ensures |holders[holder := score]| <= |holders| + 1
  {
    assert holders[holder := score].Keys == holders.Keys + {holder};
    SubsetSize(holders.Keys + {holder}, holders.Keys + {holder});
  }

  lemma StepKeepsBounded(limits: Limits, s: State, step: Step)
    requires SaneSettings(limits.settings) && Bounded(limits, s)
    ensures Bounded(limits, Apply(limits, s, step))
  {
    match step
    case Acquire(c, holder, _) =>
      SubMap(Purged(s.keys.holders, s.now), s.keys.holders);
      AddedHolder(Purged(s.keys.holders, s.now), holder, s.now + limits.Lease());
    case Release(c) =>
      if c in s.calls {
        SubMap(s.keys.holders - {s.calls[c].holder}, s.keys.holders);
      }
    case Adjust(previous, p95, failureRate) =>
      if InRange(limits.settings, previous) {
        LuaInRange(limits.settings, s.keys.window, previous, p95, failureRate);
      }
    case _ =>
  }

  lemma {:induction false} RunKeepsBounded(limits: Limits, s: State, steps: seq<Step>)
    requires SaneSettings(limits.settings) && Bounded(limits, s)
    ensures Bounded(limits, Run(limits, s, steps))
    decreases |steps|
  {
    if steps != [] {
      StepKeepsBounded(limits, s, steps[0]);
      RunKeepsBounded(limits, Apply(limits, s, steps[0]), steps[1..]);
    }
  }

  /** Whatever moves, expires or crashes, the holder set never exceeds the configured maximum. */
  lemma HoldersNeverExceedMaximum(limits: Limits, now: int, steps: seq<Step>)
    requires SaneSettings(limits.settings)
    ensures |Run(limits, Initial(now), steps).keys.holders| <= limits.settings.maximum
    ensures var window := Run(limits, Initial(now), steps).keys.window; window.Some? ==> InRange(limits.settings, window.value)
  {
    RunKeepsBounded(limits, Initial(now), steps);
  }

  /** A holder is admitted exactly when the live holders are below the window, and then they stay within it. */
  lemma AdmissionRespectsWindow(limits: Limits, s: State, c: nat, holder: string, fallback: int)
    requires c !in s.calls && InRange(limits.settings, fallback)
    ensures var s' := Apply(limits, s, Acquire(c, holder, fallback)); var live := Purged(s.keys.holders, s.now);
      && (c in s'.calls <==> |live| < CurrentLimit(s.keys, fallback))
      && (forall h :: h in live <==> h in s.keys.holders && s.keys.holders[h] > s.now)
      && (c in s'.calls ==> holder in s'.keys.holders && |s'.keys.holders| <= CurrentLimit(s.keys, fallback))
      && (c in s'.calls ==>
            && s'.calls == s.calls[c := Call(holder, s.now)]
            && s'.keys.holders[holder] == s.now + limits.timeout + 5000 && s'.keys.expiry == Some(s.now + limits.ttl))
      && (forall h :: h in s'.keys.holders && h != holder ==> h in live && s'.keys.holders[h] == s.keys.holders[h])
      && (forall h :: h in live ==> h in s'.keys.holders)
      && s'.keys.window == s.keys.window
      && (c !in s'.calls ==> s'.keys.holders == live && s'.calls == s.calls)
      && (forall h :: h in s'.keys.holders && h != holder ==> h in live)
  {
    AddedHolder(Purged(s.keys.holders, s.now), holder, s.now + limits.Lease());
  }

  // ---------------------------------------------------------------- calls in flight

  /** Every call in flight has its own entry, whose lease outlives it; and the key outlives every lease. */
  ghost predicate Tracked(limits: Limits, s: State) {
    && (forall c :: c in s.calls ==>
          && s.calls[c].holder in s.keys.holders
          && s.keys.holders[s.calls[c].holder] == s.calls[c].started + limits.Lease()
          && s.now < s.calls[c].started + limits.Lease())
    && (forall b, c :: b in s.calls && c in s.calls && b != c ==> s.calls[b].holder != s.calls[c].holder)
    && (forall h :: h in s.keys.holders ==>
          s.keys.expiry.Some? && s.keys.holders[h] <= s.keys.expiry.value)
  }

  lemma StepKeepsTracked(limits: Limits, s: State, step: Step)
    requires limits.Lease() <= limits.ttl && Tracked(limits, s) && Orderly(limits, s, step)
    requires forall h :: h in s.keys.holders ==> s.keys.holders[h] <= s.now + limits.Lease()
    ensures Tracked(limits, Apply(limits, s, step))
    ensures var s' := Apply(limits, s, step); forall h :: h in s'.keys.holders ==> s'.keys.holders[h] <= s'.now + limits.Lease()
  {
    if step.Acquire? {
      AcquireKeepsTracked(limits, s, step.call, step.holder, step.fallback);
    } else if step.Release? {
      ReleaseKeepsTracked(limits, s, step.call);
    } else if step.Crash? {
      assert Apply(limits, s, step).keys == s.keys;
    }
  }

  lemma AcquireKeepsTracked(limits: Limits, s: State, c: nat, holder: string, fallback: int)
    requires limits.Lease() <= limits.ttl && Tracked(limits, s)
    requires Orderly(limits, s, Acquire(c, holder, fallback))
    requires forall h :: h in s.keys.holders ==> s.keys.holders[h] <= s.now + limits.Lease()
    ensures var s' := Apply(limits, s, Acquire(c, holder, fallback));
      && Tracked(limits, s')
      && (forall h :: h in s'.keys.holders ==> s'.keys.holders[h] <= s'.now + limits.Lease())
  {
  }

  lemma ReleaseKeepsTracked(limits: Limits, s: State, c: nat)
    requires Tracked(limits, s) && forall h :: h in s.keys.holders ==> s.keys.holders[h] <= s.now + limits.Lease()
    ensures var s' := Apply(limits, s, Release(c));
      && Tracked(limits, s')
      && (forall h :: h in s'.keys.holders ==> s'.keys.holders[h] <= s'.now + limits.Lease())
  {
  }

  lemma {:induction false} RunKeepsTracked(limits: Limits, s: State, steps: seq<Step>)
    requires limits.Lease() <= limits.ttl && Tracked(limits, s) && OrderlyRun(limits, s, steps)
    requires forall h :: h in s.keys.holders ==> s.keys.holders[h] <= s.now + limits.Lease()
    ensures Tracked(limits, Run(limits, s, steps))
    decreases |steps|
  {
    if steps != [] {
      StepKeepsTracked(limits, s, steps[0]);
      RunKeepsTracked(limits, Apply(limits, s, steps[0]), steps[1..]);
    }
  }

  lemma {:induction false} DistinctHoldersCount(calls: map<nat, Call>, holders: map<string, int>)
    requires forall c :: c in calls ==> calls[c].holder in holders
    requires forall b, c :: b in calls && c in calls && b != c ==> calls[b].holder != calls[c].holder
    ensures |calls| <= |holders|
    decreases |calls|
  {
    if |calls| > 0 {
      var c :| c in calls;
      var fewer, rest := calls - {c}, holders - {calls[c].holder};
      assert fewer.Keys == calls.Keys - {c} && rest.Keys == holders.Keys - {calls[c].holder};
      DistinctHoldersCount(fewer, rest);
    }
  }

  /** With distinct holders, timely calls and a key that outlives the lease, calls in flight never exceed the maximum. */
  lemma InFlightIsBounded(limits: Limits, now: int, steps: seq<Step>)
    requires SaneSettings(limits.settings) && limits.Lease() <= limits.ttl && OrderlyRun(limits, Initial(now), steps)
    ensures var s := Run(limits, Initial(now), steps);
      && |s.calls| <= |s.keys.holders| <= limits.settings.maximum
      && (forall c :: c in s.calls ==> s.calls[c].holder in s.keys.holders)
  {
    RunKeepsTracked(limits, Initial(now), steps);
    RunKeepsBounded(limits, Initial(now), steps);
    var s := Run(limits, Initial(now), steps);
    DistinctHoldersCount(s.calls, s.keys.holders);
  }

  /** The holder set after the first of two calls for one task, and after the second. */
  lemma SharedAcquire(limits: Limits, s: State, c: nat, fallback: int)
    requires 2 <= fallback && InRange(limits.settings, fallback) && s.keys.window.None? && c !in s.calls
    requires s.keys.holders == map[] || s.keys.holders == map["task" := s.now + limits.Lease()]
    ensures var s' := Apply(limits, s, Acquire(c, "task", fallback));
      && s'.keys.window.None? && s'.now == s.now
      && s'.keys.holders == map["task" := s.now + limits.Lease()]
      && s'.calls == s.calls[c := Call("task", s.now)]
  {
    var live := Purged(s.keys.holders, s.now);
    SubMap(live, s.keys.holders);
    assert s.keys.holders == map[] || s.keys.holders.Keys == {"task"};
    assert |s.keys.holders| <= 1;
    assert live["task" := s.now + limits.Lease()] == map["task" := s.now + limits.Lease()];
  }

  lemma ThreeSteps(limits: Limits, s: State, a: Step, b: Step, c: Step)
    ensures Run(limits, s, [a, b, c]) == Apply(limits, Apply(limits, Apply(limits, s, a), b), c)
  {
    var steps := [a, b, c];
    assert steps[1..] == [b, c] && [b, c][1..] == [c] && [c][1..] == [];
    var s1 := Apply(limits, s, a);
    var s2 := Apply(limits, s1, b);
    var s3 := Apply(limits, s2, c);
    assert Run(limits, s3, []) == s3;
    assert Run(limits, s2, [c]) == s3;
    assert Run(limits, s1, [b, c]) == s3;
  }

  /** Distinct holders are needed: two calls for one task leave a call in flight that no entry covers. */
  lemma SharedHolderEscapes(limits: Limits, now: int, fallback: int)
    requires SaneSettings(limits.settings) && 2 <= fallback && InRange(limits.settings, fallback)
    ensures var s := Run(limits, Initial(now), [Acquire(0, "task", fallback), Acquire(1, "task", fallback), Release(0)]);
      s.keys.holders == map[] && s.calls == map[1 := Call("task", now)]
  {
    SharedAcquire(limits, Initial(now), 0, fallback);
    var s1 := Apply(limits, Initial(now), Acquire(0, "task", fallback));
    SharedAcquire(limits, s1, 1, fallback);
    ThreeSteps(limits, Initial(now), Acquire(0, "task", fallback), Acquire(1, "task", fallback), Release(0));
  }

  // ---------------------------------------------------------------- when calls stay covered

  /** Every call in flight has an entry under its holder, its own or a shared one. */
  ghost predicate Covered(s: State) {
    forall c :: c in s.calls ==> s.calls[c].holder in s.keys.holders
  }

  /** The entry of call `c` is not yet due to be dropped. */
  predicate EntryLive(s: State, c: nat)
    requires c in s.calls
  {
    s.calls[c].holder in s.keys.holders && s.keys.holders[s.calls[c].holder] > s.now
  }

  /**
   What each step must meet to leave every call covered: a release ends the only call of its holder, an
   attempt finds every other call's entry live or renews it, and the key expires only with no call left.
   */
  predicate KeepsCoverage(limits: Limits, s: State, step: Step) {
    match step
    case Release(c) => c in s.calls ==> forall b :: b in s.calls && b != c ==> s.calls[b].holder != s.calls[c].holder
    case Acquire(c, holder, fallback) =>
      c !in s.calls && InRange(limits.settings, fallback) ==>
        forall b :: b in s.calls ==>
          EntryLive(s, b) || (Admits(s.keys, s.now, fallback) && s.calls[b].holder == holder)
    case ExpireHolders => s.keys.expiry.Some? && s.keys.expiry.value <= s.now ==> s.calls == map[]
    case _ => true
  }

  /** These conditions are exact: a step that misses its own leaves some call without an entry. */
  lemma CoverageCondition(limits: Limits, s: State, step: Step)
    requires Covered(s)
    ensures Covered(Apply(limits, s, step)) <==> KeepsCoverage(limits, s, step)
  {
    if step.Release? {
      ReleaseCoverage(limits, s, step.call);
    } else if step.Acquire? {
      AcquireCoverage(limits, s, step.call, step.holder, step.fallback);
    } else if step.ExpireHolders? {
      ExpiryCoverage(limits, s);
    }
  }

  lemma ReleaseCoverage(limits: Limits, s: State, c: nat)
    requires Covered(s)
    ensures Covered(Apply(limits, s, Release(c))) <==> KeepsCoverage(limits, s, Release(c))
  {
    var s' := Apply(limits, s, Release(c));
    if b :| c in s.calls && b in s.calls && b != c && s.calls[b].holder == s.calls[c].holder {
      assert b in s'.calls && s'.calls[b].holder !in s'.keys.holders;
    }
  }

  lemma AcquireCoverage(limits: Limits, s: State, c: nat, holder: string, fallback: int)
    requires Covered(s)
    ensures Covered(Apply(limits, s, Acquire(c, holder, fallback))) <==> KeepsCoverage(limits, s, Acquire(c, holder, fallback))
  {
    var s' := Apply(limits, s, Acquire(c, holder, fallback));
    if c !in s.calls && InRange(limits.settings, fallback) {
      if b :| b in s.calls && !EntryLive(s, b) && !(Admits(s.keys, s.now, fallback) && s.calls[b].holder == holder) {
        assert b in s'.calls && s'.calls[b].holder !in s'.keys.holders;
      }
    }
  }

  lemma ExpiryCoverage(limits: Limits, s: State)
    requires Covered(s)
    ensures Covered(Apply(limits, s, ExpireHolders)) <==> KeepsCoverage(limits, s, ExpireHolders)
  {
    if c :| c in s.calls {
      assert c in Apply(limits, s, ExpireHolders).calls;
    }
  }

  predicate KeepsCoverageThroughout(limits: Limits, s: State, steps: seq<Step>)
    decreases |steps|
  {
    steps == [] || (KeepsCoverage(limits, s, steps[0]) && KeepsCoverageThroughout(limits, Apply(limits, s, steps[0]), steps[1..]))
  }

  ghost predicate CoveredThroughout(limits: Limits, s: State, steps: seq<Step>)
    decreases |steps|
  {
    Covered(s) && (steps == [] || CoveredThroughout(limits, Apply(limits, s, steps[0]), steps[1..]))
  }

  /** Over a whole run every call stays covered exactly when every step meets its condition. */
  lemma {:induction false} CoverageOfRuns(limits: Limits, s: State, steps: seq<Step>)
    requires Covered(s)
    ensures CoveredThroughout(limits, s, steps) <==> KeepsCoverageThroughout(limits, s, steps)
    decreases |steps|
  {
    if steps != [] {
      var s' := Apply(limits, s, steps[0]);
      CoverageCondition(limits, s, steps[0]);
      if Covered(s') {
        CoverageOfRuns(limits, s', steps[1..]);
      }
    }
  }
}
