/**
 The tenant audit chain: appending, the verification loop, and what a stored hash proves about history.

 `Seal` recomputes the hash of an event's envelope; `AuditEnvelope` gives the concrete one.
 */
module AuditChain {
  import opened Tables

  datatype AuditEvent = AuditEvent(
    tenant: string, request: string, sequence: int, action: string,
    payloadHash: string, previousHash: string, eventHash: string)

  /** All fields under the hash. */
  predicate SameEnvelope(a: AuditEvent, b: AuditEvent) {
    && a.tenant == b.tenant && a.request == b.request && a.sequence == b.sequence
    && a.action == b.action && a.payloadHash == b.payloadHash && a.previousHash == b.previousHash
  }

  type Seal = AuditEvent -> string

  /** The stored hash itself is not under the hash. */
  ghost predicate IgnoresStoredHash(seal: Seal) {
    forall event: AuditEvent, stored: string :: seal(event.(eventHash := stored)) == seal(event)
  }

  function Zeros(n: nat): string {
    if n == 0 then "" else Zeros(n - 1) + "0"
  }

  lemma {:induction false} ZerosAreZeros(n: nat)
    ensures |Zeros(n)| == n && forall i :: 0 <= i < n ==> Zeros(n)[i] == '0'
  {
    if n > 0 {
      ZerosAreZeros(n - 1);
    }
  }

  /** What the first event has for a previous hash. */
  const GENESIS: string := Zeros(64)

  // ---------------------------------------------------------------- appending and verifying

  /** The event `append_audit` adds after `head`. */
  function NextEvent(
    seal: Seal, head: Option<AuditEvent>, tenant: string, request: string, action: string, payloadHash: string): AuditEvent
  {
    var sequence := if head.None? then 1 else head.value.sequence + 1;
    var previousHash := if head.None? then GENESIS else head.value.eventHash;
    var event := AuditEvent(tenant, request, sequence, action, payloadHash, previousHash, "");
    event.(eventHash := seal(event))
  }

  /** The hash that event `i` must continue from. */
  function PreviousHash(chain: seq<AuditEvent>, i: nat): string
    requires i <= |chain|
  {
    if i == 0 then GENESIS else chain[i - 1].eventHash
  }

  ghost predicate LinkOk(seal: Seal, chain: seq<AuditEvent>, i: nat)
    requires i < |chain|
  {
    && chain[i].sequence == i + 1
    && chain[i].previousHash == PreviousHash(chain, i)
    && chain[i].eventHash == seal(chain[i])
  }

  /** Sequences 1..n, each event linked to its predecessor, each hash recomputable. */
  ghost predicate ChainValid(seal: Seal, chain: seq<AuditEvent>) {
    forall i :: 0 <= i < |chain| ==> LinkOk(seal, chain, i)
  }

  /** The verification loop accepts exactly the valid chains. */
  method VerifyAuditChain(seal: Seal, events: seq<AuditEvent>) returns (valid: bool)
    ensures valid <==> ChainValid(seal, events)
  {
    var previousHash := GENESIS;
    var expectedSequence := 1;
    var i := 0;
    while i < |events|
      invariant 0 <= i <= |events| && expectedSequence == i + 1
      invariant previousHash == PreviousHash(events, i)
      invariant forall j :: 0 <= j < i ==> LinkOk(seal, events, j)
    {
      var event := events[i];
      if event.sequence != expectedSequence || event.previousHash != previousHash {
        assert !LinkOk(seal, events, i);
        return false;
      }
      if seal(event) != event.eventHash {
        assert !LinkOk(seal, events, i);
        return false;
      }
      previousHash := event.eventHash;
      expectedSequence := expectedSequence + 1;
      i := i + 1;
    }
    return true;
  }

  function Head(chain: seq<AuditEvent>): Option<AuditEvent> {
    if chain == [] then None else Some(chain[|chain| - 1])
  }

  /** Appending after the head extends a valid chain. */
  lemma AppendExtendsChain(
    seal: Seal, chain: seq<AuditEvent>, tenant: string, request: string, action: string, payloadHash: string)
    requires IgnoresStoredHash(seal) && ChainValid(seal, chain)
    ensures ChainValid(seal, chain + [NextEvent(seal, Head(chain), tenant, request, action, payloadHash)])
  {
    var event := NextEvent(seal, Head(chain), tenant, request, action, payloadHash);
    var longer := chain + [event];
    assert seal(event.(eventHash := "")) == seal(event);
    if chain != [] {
      assert LinkOk(seal, chain, |chain| - 1);
    }
    forall i | 0 <= i < |longer| ensures LinkOk(seal, longer, i) {
      if i < |chain| {
        assert LinkOk(seal, chain, i);
      }
    }
  }

  /** The first event of a chain continues from 64 zeros. */
  lemma FirstLinkIsZeros(seal: Seal, chain: seq<AuditEvent>)
    requires ChainValid(seal, chain) && chain != []
    ensures chain[0].sequence == 1 && |chain[0].previousHash| == 64
    ensures forall i :: 0 <= i < 64 ==> chain[0].previousHash[i] == '0'
  {
    assert LinkOk(seal, chain, 0);
    ZerosAreZeros(64);
  }

  // ---------------------------------------------------------------- tamper evidence

  /** The seals of the events in the two chains bind their envelopes. */
  ghost predicate Binding(seal: Seal, a: seq<AuditEvent>, b: seq<AuditEvent>) {
    forall j, k :: 0 <= j < |a| && 0 <= k < |b| && seal(a[j]) == seal(b[k]) ==> SameEnvelope(a[j], b[k])
  }

  /** One common stored hash pins its position and the entire history before it, field by field. */
  lemma {:induction false} StoredHashPinsHistory(seal: Seal, a: seq<AuditEvent>, b: seq<AuditEvent>, j: nat, k: nat)
    requires ChainValid(seal, a) && ChainValid(seal, b) && Binding(seal, a, b)
    requires j < |a| && k < |b| && a[j].eventHash == b[k].eventHash
    ensures j == k && a[..k + 1] == b[..k + 1]
    decreases k
  {
    assert LinkOk(seal, a, j) && LinkOk(seal, b, k);
    assert a[j] == b[k];
    if k > 0 {
      StoredHashPinsHistory(seal, a, b, j - 1, k - 1);
      assert a[..k + 1] == a[..k] + [a[k]] && b[..k + 1] == b[..k] + [b[k]];
    }
  }

  /** What recomputation cannot see: a truncated chain still verifies. */
  lemma TruncationVerifies(seal: Seal, a: seq<AuditEvent>, n: nat)
    requires ChainValid(seal, a) && n <= |a|
    ensures ChainValid(seal, a[..n])
  {
    forall i | 0 <= i < n ensures LinkOk(seal, a[..n], i) {
      assert LinkOk(seal, a, i);
    }
  }

  /** The stored hash of event `k` is one of the original chain's. */
  ghost predicate KeepsHash(a: seq<AuditEvent>, b: seq<AuditEvent>, k: nat)
    requires k < |b|
  {
    exists j :: 0 <= j < |a| && a[j].eventHash == b[k].eventHash
  }

  /**
   The exact boundary of tamper evidence: whatever is altered, reordered, inserted, repeated or deleted,
   a table that invents no stored hash verifies exactly when it is a prefix of the original chain.
   */
  lemma OnlyPrefixesVerify(seal: Seal, a: seq<AuditEvent>, b: seq<AuditEvent>)
    requires ChainValid(seal, a) && Binding(seal, a, b)
    requires forall k :: 0 <= k < |b| ==> KeepsHash(a, b, k)
    ensures ChainValid(seal, b) <==> b <= a
  {
    if b <= a {
      TruncationVerifies(seal, a, |b|);
      assert a[..|b|] == b;
    }
    if ChainValid(seal, b) && b != [] {
      var last := |b| - 1;
      assert KeepsHash(a, b, last);
      var j :| 0 <= j < |a| && a[j].eventHash == b[last].eventHash;
      StoredHashPinsHistory(seal, a, b, j, last);
      assert b[..last + 1] == b;
    }
  }

  /** While the stored hashes are kept, the only chain that verifies is the original one. */
  lemma KeptHashesAllowNoChange(seal: Seal, a: seq<AuditEvent>, b: seq<AuditEvent>)
    requires ChainValid(seal, a) && Binding(seal, a, b) && |a| == |b|
    requires forall k :: 0 <= k < |a| ==> a[k].eventHash == b[k].eventHash
    ensures ChainValid(seal, b) <==> a == b
  {
    forall k | 0 <= k < |b| ensures KeepsHash(a, b, k) {
      assert a[k].eventHash == b[k].eventHash;
    }
    OnlyPrefixesVerify(seal, a, b);
  }

  /** Altering any field of one event, its stored hash aside, makes verification fail. */
  lemma AlteredEventIsDetected(seal: Seal, a: seq<AuditEvent>, i: nat, altered: AuditEvent)
    requires ChainValid(seal, a) && i < |a| && altered != a[i] && altered.eventHash == a[i].eventHash
    requires Binding(seal, a, a[i := altered])
    ensures !ChainValid(seal, a[i := altered])
  {
    KeptHashesAllowNoChange(seal, a, a[i := altered]);
    assert a[i := altered][i] != a[i];
  }

  /**
   Moving a stored hash to another position makes verification fail, however the other fields are
   rewritten.  Swapping events, inserting before an event and deleting an interior event all do that.
   */
  lemma MovedHashIsDetected(seal: Seal, a: seq<AuditEvent>, b: seq<AuditEvent>, j: nat, k: nat)
    requires ChainValid(seal, a) && Binding(seal, a, b)
    requires j < |a| && k < |b| && j != k && b[k].eventHash == a[j].eventHash
    ensures !ChainValid(seal, b)
  {
    if ChainValid(seal, b) {
      StoredHashPinsHistory(seal, a, b, j, k);
    }
  }

  lemma InteriorDeletionIsDetected(seal: Seal, a: seq<AuditEvent>, b: seq<AuditEvent>, i: nat)
    requires ChainValid(seal, a) && Binding(seal, a, b) && i + 1 < |a| && |b| == |a| - 1
    requires forall k :: 0 <= k < i ==> b[k].eventHash == a[k].eventHash
    requires forall k :: i <= k < |b| ==> b[k].eventHash == a[k + 1].eventHash
    ensures !ChainValid(seal, b)
  {
    forall k | 0 <= k < |b| ensures KeepsHash(a, b, k) {
      if k < i {
        assert a[k].eventHash == b[k].eventHash;
      } else {
        assert a[k + 1].eventHash == b[k].eventHash;
      }
    }
    OnlyPrefixesVerify(seal, a, b);
    assert LinkOk(seal, a, i) && LinkOk(seal, a, i + 1) && b[i].eventHash == a[i + 1].eventHash;
    assert b[i] == a[i] ==> seal(a[i + 1]) == seal(b[i]);
  }

  lemma ReorderingIsDetected(seal: Seal, a: seq<AuditEvent>, b: seq<AuditEvent>, i: nat, j: nat)
    requires ChainValid(seal, a) && Binding(seal, a, b) && i < j < |a| && |b| == |a|
    requires b[i].eventHash == a[j].eventHash && b[j].eventHash == a[i].eventHash
    ensures !ChainValid(seal, b)
  {
    MovedHashIsDetected(seal, a, b, j, i);
  }
}
