/**
 Concurrent audit appends: many transactions, many tenants, lock, head read, append, commit and
 rollback interleaved arbitrarily.  `locking` is the PostgreSQL dialect; without it only the unique
 (tenant, sequence) constraint stands between two writers.
 */
module AuditWriters {
  import opened Tables
  import opened AuditChain

  datatype Phase =
    | Idle
    | HasHead(tenant: string, head: Option<AuditEvent>)
    | Appended(event: AuditEvent)

  /** The audit table, the advisory locks with their holders, and the open transactions. */
  datatype State = State(rows: seq<AuditEvent>, locks: map<int, nat>, writers: map<nat, Phase>)

  datatype Step =
    | Lock(writer: nat, tenant: string)
    | ReadHead(writer: nat, tenant: string)
    | Append(writer: nat, request: string, action: string, payloadHash: string)
    | Commit(writer: nat)
    | Rollback(writer: nat)

  /** `lockKey` maps tenants to advisory-lock keys and need not be injective. */
  datatype Deployment = Deployment(seal: Seal, locking: bool, lockKey: string -> int)

  // ---------------------------------------------------------------- queries

  /** The rows of one tenant, in insertion order. */
  function RowsOf(rows: seq<AuditEvent>, tenant: string): seq<AuditEvent> {
    if rows == [] then []
    else
      var n := |rows| - 1;
      RowsOf(rows[..n], tenant) + (if rows[n].tenant == tenant then [rows[n]] else [])
  }

  /** The chain-head query: the tenant's row with the largest sequence. */
  function LastRow(rows: seq<AuditEvent>, tenant: string): Option<AuditEvent> {
    if rows == [] then None
    else
      var n := |rows| - 1;
      var best := LastRow(rows[..n], tenant);
      if rows[n].tenant == tenant && (best.None? || best.value.sequence <= rows[n].sequence) then Some(rows[n]) else best
  }

  /** Inserts into rows sorted by sequence. */
  function InsertBySequence(event: AuditEvent, sorted: seq<AuditEvent>): seq<AuditEvent> {
    if sorted == [] || sorted[|sorted| - 1].sequence <= event.sequence then sorted + [event]
    else InsertBySequence(event, sorted[..|sorted| - 1]) + [sorted[|sorted| - 1]]
  }

  function ChainQuery(rows: seq<AuditEvent>, tenant: string): seq<AuditEvent> {
    if rows == [] then []
    else
      var n := |rows| - 1;
      var rest := ChainQuery(rows[..n], tenant);
      if rows[n].tenant == tenant then InsertBySequence(rows[n], rest) else rest
  }

  lemma RowsOfAppend(rows: seq<AuditEvent>, event: AuditEvent, tenant: string)
    ensures RowsOf(rows + [event], tenant) == RowsOf(rows, tenant) + (if event.tenant == tenant then [event] else [])
  {
    assert (rows + [event])[..|rows|] == rows;
  }

  lemma {:induction false} RowsOfAreRows(rows: seq<AuditEvent>, tenant: string, i: nat)
    requires i < |RowsOf(rows, tenant)|
    ensures RowsOf(rows, tenant)[i] in rows && RowsOf(rows, tenant)[i].tenant == tenant
  {
    var n := |rows| - 1;
    if i < |RowsOf(rows[..n], tenant)| {
      RowsOfAreRows(rows[..n], tenant, i);
    }
  }

  /** On a valid chain insertion order is sequence order, so both queries see the chain itself. */
  lemma {:induction false} QueriesSeeTheChain(seal: Seal, rows: seq<AuditEvent>, tenant: string)
    requires ChainValid(seal, RowsOf(rows, tenant))
    ensures LastRow(rows, tenant) == Head(RowsOf(rows, tenant))
    ensures ChainQuery(rows, tenant) == RowsOf(rows, tenant)
  {
    if rows != [] {
      var n := |rows| - 1;
      var chain, shorter := RowsOf(rows, tenant), RowsOf(rows[..n], tenant);
      assert shorter == chain[..|shorter|];
      TruncationVerifies(seal, chain, |shorter|);
      QueriesSeeTheChain(seal, rows[..n], tenant);
      if rows[n].tenant == tenant {
        assert LinkOk(seal, chain, |shorter|);
        if shorter != [] {
          assert LinkOk(seal, chain, |shorter| - 1);
        }
      }
    }
  }

  // ---------------------------------------------------------------- steps

  function PhaseOf(s: State, w: nat): Phase {
    if w in s.writers then s.writers[w] else Idle
  }

  predicate HoldsLock(d: Deployment, s: State, w: nat, tenant: string) {
    d.lockKey(tenant) in s.locks && s.locks[d.lockKey(tenant)] == w
  }

  /** A violated unique constraint: (tenant, sequence), or the event hash. */
  predicate Conflicts(rows: seq<AuditEvent>, event: AuditEvent) {
    exists i :: 0 <= i < |rows|
      && ((rows[i].tenant == event.tenant && rows[i].sequence == event.sequence) || rows[i].eventHash == event.eventHash)
  }

  /** Ends the transaction of `w`, releasing its locks. */
  function End(s: State, w: nat): State {
    s.(writers := s.writers[w := Idle], locks := map k | k in s.locks && s.locks[k] != w :: s.locks[k])
  }

  function Apply(d: Deployment, s: State, step: Step): State {
    match step
    case Lock(w, tenant) =>
      if d.locking && d.lockKey(tenant) !in s.locks then s.(locks := s.locks[d.lockKey(tenant) := w]) else s
    case ReadHead(w, tenant) =>
      if PhaseOf(s, w).Idle? && (d.locking ==> HoldsLock(d, s, w, tenant))
      then s.(writers := s.writers[w := HasHead(tenant, LastRow(s.rows, tenant))])
      else s
    case Append(w, request, action, payloadHash) =>
      var phase := PhaseOf(s, w);
      if phase.HasHead?
      then s.(writers := s.writers[w := Appended(NextEvent(d.seal, phase.head, phase.tenant, request, action, payloadHash))])
      else s
    case Commit(w) =>
      var phase := PhaseOf(s, w);
      if phase.Appended? && !Conflicts(s.rows, phase.event) then End(s.(rows := s.rows + [phase.event]), w) else End(s, w)
    case Rollback(w) => End(s, w)
  }

  function Run(d: Deployment, s: State, steps: seq<Step>): State
    decreases |steps|
  {
    if steps == [] then s else Run(d, Apply(d, s, steps[0]), steps[1..])
  }

  const EMPTY := State([], map[], map[])

  // ---------------------------------------------------------------- invariant

  /** `head` was the head of the tenant's chain when it had `n` events. */
  ghost predicate WasHead(rows: seq<AuditEvent>, tenant: string, head: Option<AuditEvent>, n: nat) {
    n <= |RowsOf(rows, tenant)| && head == Head(RowsOf(rows, tenant)[..n])
  }

  /** `event` continues the first `n` events of its tenant's chain. */
  ghost predicate Continues(d: Deployment, rows: seq<AuditEvent>, event: AuditEvent, n: nat) {
    && n <= |RowsOf(rows, event.tenant)|
    && event == NextEvent(d.seal, Head(RowsOf(rows, event.tenant)[..n]), event.tenant, event.request, event.action, event.payloadHash)
  }

  ghost predicate ChainsOk(d: Deployment, rows: seq<AuditEvent>) {
    forall tenant :: ChainValid(d.seal, RowsOf(rows, tenant))
  }

  /** With locking the writer still holds its lock and what it read is still the head. */
  ghost predicate WriterOk(d: Deployment, s: State, w: nat) {
    match PhaseOf(s, w)
    case Idle => true
    case HasHead(tenant, head) =>
      && (exists n :: WasHead(s.rows, tenant, head, n))
      && (d.locking ==> HoldsLock(d, s, w, tenant) && WasHead(s.rows, tenant, head, |RowsOf(s.rows, tenant)|))
    case Appended(event) =>
      && (exists n :: Continues(d, s.rows, event, n))
      && (d.locking ==> HoldsLock(d, s, w, event.tenant) && Continues(d, s.rows, event, |RowsOf(s.rows, event.tenant)|))
  }

  ghost predicate Inv(d: Deployment, s: State) {
    ChainsOk(d, s.rows) && forall w :: w in s.writers ==> WriterOk(d, s, w)
  }

  lemma HeadSequence(seal: Seal, chain: seq<AuditEvent>, n: nat)
    requires ChainValid(seal, chain) && n <= |chain|
    ensures Head(chain[..n]).Some? ==> Head(chain[..n]).value.sequence == n
    ensures n < |chain| ==> chain[n].sequence == n + 1
  {
    if n > 0 {
      assert LinkOk(seal, chain, n - 1);
    }
    if n < |chain| {
      assert LinkOk(seal, chain, n);
    }
  }

  /** An event continuing an outdated head meets the unique constraint. */
  lemma OutdatedEventConflicts(d: Deployment, rows: seq<AuditEvent>, event: AuditEvent, n: nat)
    requires ChainsOk(d, rows) && Continues(d, rows, event, n) && n < |RowsOf(rows, event.tenant)|
    ensures Conflicts(rows, event)
  {
    var chain := RowsOf(rows, event.tenant);
    HeadSequence(d.seal, chain, n);
    RowsOfAreRows(rows, event.tenant, n);
    var i :| 0 <= i < |rows| && rows[i] == chain[n];
    assert rows[i].sequence == event.sequence;
  }

  /** An event that continues the current chain cannot meet its (tenant, sequence) pair in the table. */
  lemma {:induction false} SequencesBelow(seal: Seal, rows: seq<AuditEvent>, tenant: string, i: nat)
    requires ChainValid(seal, RowsOf(rows, tenant)) && i < |rows| && rows[i].tenant == tenant
    ensures 1 <= rows[i].sequence <= |RowsOf(rows, tenant)|
  {
    var n := |rows| - 1;
    var chain, shorter := RowsOf(rows, tenant), RowsOf(rows[..n], tenant);
    assert shorter == chain[..|shorter|];
    if i < n {
      TruncationVerifies(seal, chain, |shorter|);
      SequencesBelow(seal, rows[..n], tenant, i);
    } else {
      assert LinkOk(seal, chain, |shorter|);
    }
  }

  /** Committing `event` extends exactly one tenant's chain. */
  lemma CommitExtends(d: Deployment, rows: seq<AuditEvent>, event: AuditEvent, n: nat)
    requires IgnoresStoredHash(d.seal) && ChainsOk(d, rows) && Continues(d, rows, event, n) && !Conflicts(rows, event)
    ensures ChainsOk(d, rows + [event])
  {
    if n < |RowsOf(rows, event.tenant)| {
      OutdatedEventConflicts(d, rows, event, n);
    }
    forall tenant ensures ChainValid(d.seal, RowsOf(rows + [event], tenant)) {
      RowsOfAppend(rows, event, tenant);
      var chain := RowsOf(rows, tenant);
      if event.tenant == tenant {
        assert chain[..n] == chain;
        AppendExtendsChain(d.seal, chain, tenant, event.request, event.action, event.payloadHash);
      } else {
        assert chain + [] == chain;
      }
    }
  }

  /** What the other writers know survives a commit. */
  lemma WriterFrame(d: Deployment, s: State, s': State, w: nat, event: AuditEvent)
    requires WriterOk(d, s, w) && PhaseOf(s', w) == PhaseOf(s, w)
    requires s'.rows == s.rows + [event]
    requires forall tenant :: HoldsLock(d, s, w, tenant) ==> HoldsLock(d, s', w, tenant)
    requires d.locking ==> forall tenant :: HoldsLock(d, s, w, tenant) ==> tenant != event.tenant
    ensures WriterOk(d, s', w)
  {
    if PhaseOf(s, w).HasHead? {
      ReaderFrame(d, s, s', w, event);
    } else if PhaseOf(s, w).Appended? {
      AppenderFrame(d, s, s', w, event);
    }
  }

  lemma ReaderFrame(d: Deployment, s: State, s': State, w: nat, event: AuditEvent)
    requires WriterOk(d, s, w) && PhaseOf(s', w) == PhaseOf(s, w) && PhaseOf(s, w).HasHead?
    requires s'.rows == s.rows + [event]
    requires forall tenant :: HoldsLock(d, s, w, tenant) ==> HoldsLock(d, s', w, tenant)
    requires d.locking ==> forall tenant :: HoldsLock(d, s, w, tenant) ==> tenant != event.tenant
    ensures WriterOk(d, s', w)
  {
    var HasHead(tenant, head) := PhaseOf(s, w);
    var n: nat :| WasHead(s.rows, tenant, head, n);
    HeadStays(s.rows, event, tenant, head, n);
    RowsOfAppend(s.rows, event, tenant);
  }

  lemma AppenderFrame(d: Deployment, s: State, s': State, w: nat, event: AuditEvent)
    requires WriterOk(d, s, w) && PhaseOf(s', w) == PhaseOf(s, w) && PhaseOf(s, w).Appended?
    requires s'.rows == s.rows + [event]
    requires forall tenant :: HoldsLock(d, s, w, tenant) ==> HoldsLock(d, s', w, tenant)
    requires d.locking ==> forall tenant :: HoldsLock(d, s, w, tenant) ==> tenant != event.tenant
    ensures WriterOk(d, s', w)
  {
    var Appended(e) := PhaseOf(s, w);
    var n: nat :| Continues(d, s.rows, e, n);
    ContinuationStays(d, s.rows, event, e, n);
    RowsOfAppend(s.rows, event, e.tenant);
  }

  lemma HeadStays(rows: seq<AuditEvent>, event: AuditEvent, tenant: string, head: Option<AuditEvent>, n: nat)
    requires WasHead(rows, tenant, head, n)
    ensures WasHead(rows + [event], tenant, head, n)
  {
    RowsOfAppend(rows, event, tenant);
    assert RowsOf(rows + [event], tenant)[..n] == RowsOf(rows, tenant)[..n];
  }

  lemma ContinuationStays(d: Deployment, rows: seq<AuditEvent>, event: AuditEvent, e: AuditEvent, n: nat)
    requires Continues(d, rows, e, n)
    ensures Continues(d, rows + [event], e, n)
  {
    RowsOfAppend(rows, event, e.tenant);
    assert RowsOf(rows + [event], e.tenant)[..n] == RowsOf(rows, e.tenant)[..n];
  }

  /** Same table, same phase, same locks held by `w`. */
  lemma WriterSame(d: Deployment, s: State, s': State, w: nat)
    requires WriterOk(d, s, w) && PhaseOf(s', w) == PhaseOf(s, w) && s'.rows == s.rows
    requires forall tenant :: HoldsLock(d, s, w, tenant) ==> HoldsLock(d, s', w, tenant)
    ensures WriterOk(d, s', w)
  {
  }

  lemma CommitKeepsInv(d: Deployment, s: State, w: nat)
    requires IgnoresStoredHash(d.seal) && Inv(d, s) && PhaseOf(s, w).Appended? && !Conflicts(s.rows, PhaseOf(s, w).event)
    ensures Inv(d, Apply(d, s, Commit(w)))
  {
    var s' := Apply(d, s, Commit(w));
    var event := PhaseOf(s, w).event;
    assert w in s.writers && WriterOk(d, s, w);
    var n: nat :| Continues(d, s.rows, event, n);
    CommitExtends(d, s.rows, event, n);
    forall v | v in s'.writers ensures WriterOk(d, s', v) {
      if v != w {
        assert v in s.writers && WriterOk(d, s, v);
        WriterFrame(d, s, s', v, event);
      }
    }
  }

  lemma ReadKeepsInv(d: Deployment, s: State, w: nat, tenant: string)
    requires Inv(d, s)
    ensures Inv(d, Apply(d, s, ReadHead(w, tenant)))
  {
    var s' := Apply(d, s, ReadHead(w, tenant));
    var chain := RowsOf(s.rows, tenant);
    QueriesSeeTheChain(d.seal, s.rows, tenant);
    assert chain[..|chain|] == chain;
    assert WasHead(s'.rows, tenant, LastRow(s.rows, tenant), |chain|);
    forall v | v in s'.writers ensures WriterOk(d, s', v) {
      if v in s.writers && v != w {
        WriterSame(d, s, s', v);
      }
    }
  }

  lemma AppendKeepsInv(d: Deployment, s: State, w: nat, request: string, action: string, payloadHash: string)
    requires Inv(d, s)
    ensures Inv(d, Apply(d, s, Append(w, request, action, payloadHash)))
  {
    var s' := Apply(d, s, Append(w, request, action, payloadHash));
    forall v | v in s'.writers ensures WriterOk(d, s', v) {
      assert v in s.writers ==> WriterOk(d, s, v);
      if v != w {
        WriterSame(d, s, s', v);
      } else if PhaseOf(s, w).HasHead? {
        var HasHead(tenant, head) := PhaseOf(s, w);
        var n: nat :| WasHead(s.rows, tenant, head, n);
        assert Continues(d, s'.rows, s'.writers[w].event, n);
      }
    }
  }

  lemma StepKeepsInv(d: Deployment, s: State, step: Step)
    requires IgnoresStoredHash(d.seal) && Inv(d, s)
    ensures Inv(d, Apply(d, s, step))
  {
    var s' := Apply(d, s, step);
    if step.ReadHead? {
      ReadKeepsInv(d, s, step.writer, step.tenant);
    } else if step.Append? {
      AppendKeepsInv(d, s, step.writer, step.request, step.action, step.payloadHash);
    } else if step.Commit? && PhaseOf(s, step.writer).Appended? && !Conflicts(s.rows, PhaseOf(s, step.writer).event) {
      CommitKeepsInv(d, s, step.writer);
    } else {
      forall v | v in s'.writers ensures WriterOk(d, s', v) {
        if step.Lock? || v != step.writer {
          assert v in s.writers && WriterOk(d, s, v);
          WriterSame(d, s, s', v);
        }
      }
    }
  }

  lemma {:induction false} RunKeepsInv(d: Deployment, s: State, steps: seq<Step>)
    requires IgnoresStoredHash(d.seal) && Inv(d, s)
    ensures Inv(d, Run(d, s, steps))
    decreases |steps|
  {
    if steps != [] {
      StepKeepsInv(d, s, steps[0]);
      RunKeepsInv(d, Apply(d, s, steps[0]), steps[1..]);
    }
  }

  // ---------------------------------------------------------------- theorems

  /** Whatever the interleaving, with or without advisory locks, every tenant's chain verifies. */
  lemma ChainsNeverFork(d: Deployment, steps: seq<Step>, tenant: string)
    requires IgnoresStoredHash(d.seal)
    ensures var chain := ChainQuery(Run(d, EMPTY, steps).rows, tenant);
      && ChainValid(d.seal, chain)
      && (forall i :: 0 <= i < |chain| ==> chain[i].sequence == i + 1 && chain[i].tenant == tenant)
  {
    RunKeepsInv(d, EMPTY, steps);
    var rows := Run(d, EMPTY, steps).rows;
    QueriesSeeTheChain(d.seal, rows, tenant);
    var chain := RowsOf(rows, tenant);
    forall i | 0 <= i < |chain| ensures chain[i].sequence == i + 1 && chain[i].tenant == tenant {
      assert LinkOk(d.seal, chain, i);
      RowsOfAreRows(rows, tenant, i);
    }
  }

  /** With advisory locks, even colliding ones, no append ever meets a taken sequence number. */
  lemma LockedAppendsNeverConflict(d: Deployment, steps: seq<Step>, w: nat, i: nat)
    requires IgnoresStoredHash(d.seal) && d.locking
    requires var s := Run(d, EMPTY, steps); PhaseOf(s, w).Appended? && i < |s.rows|
    ensures var s := Run(d, EMPTY, steps);
      !(s.rows[i].tenant == PhaseOf(s, w).event.tenant && s.rows[i].sequence == PhaseOf(s, w).event.sequence)
  {
    RunKeepsInv(d, EMPTY, steps);
    var s := Run(d, EMPTY, steps);
    var event := PhaseOf(s, w).event;
    assert w in s.writers && WriterOk(d, s, w);
    var chain := RowsOf(s.rows, event.tenant);
    assert chain[..|chain|] == chain;
    HeadSequence(d.seal, chain, |chain|);
    if s.rows[i].tenant == event.tenant {
      SequencesBelow(d.seal, s.rows, event.tenant, i);
    }
  }
}
