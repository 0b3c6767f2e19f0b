/** The audit table as one object: the append and the verification as the service performs them. */
module AuditLog {
  import opened Tables
  import opened AuditChain
  import opened AuditEnvelope
  import opened AuditWriters

  ghost predicate HashTaken(rows: seq<AuditEvent>, event: AuditEvent) {
    exists i :: 0 <= i < |rows| && rows[i].eventHash == event.eventHash
  }

  class AuditTable {
    const hash: Hash
    var rows: seq<AuditEvent>

    constructor (hash: Hash)
      ensures this.hash == hash && rows == [] && Valid()
    {
      this.hash, rows := hash, [];
    }

    /** Every tenant's rows form a valid chain. */
    ghost predicate Valid()
      reads this
    {
      ChainsOk(Deployment(Sealer(hash), false, tenant => 0), rows)
    }

    /** The head query: the tenant's row with the largest sequence. */
    method ReadHead(tenant: string) returns (head: Option<AuditEvent>)
      ensures head == LastRow(rows, tenant)
    {
      head := None;
      var i := 0;
      while i < |rows|
        invariant 0 <= i <= |rows| && head == LastRow(rows[..i], tenant)
      {
        assert rows[..i + 1][..i] == rows[..i];
        if rows[i].tenant == tenant && (head.None? || head.value.sequence <= rows[i].sequence) {
          head := Some(rows[i]);
        }
        i := i + 1;
      }
      assert rows[..i] == rows;
    }

    /**
     Appends one event after the tenant's head, `payload` being canonical JSON text; `None` is a violated
     unique constraint, with nothing written.
     */
    method AppendAudit(tenant: string, request: string, action: string, payload: string)
      returns (appended: Option<AuditEvent>)
      requires Valid()
      modifies this
      ensures Valid()
      ensures appended.None? ==> rows == old(rows)
      ensures appended.None? ==>
                HashTaken(rows, NextEvent(Sealer(hash), Head(RowsOf(rows, tenant)), tenant, request, action, hash(payload)))
      ensures appended.Some? ==> rows == old(rows) + [appended.value]
      ensures appended.Some? ==>
                && appended.value.tenant == tenant && appended.value.request == request && appended.value.action == action
                && appended.value.payloadHash == hash(payload)
                && appended.value.sequence == |RowsOf(old(rows), tenant)| + 1
                && RowsOf(rows, tenant) == RowsOf(old(rows), tenant) + [appended.value]
    {
      ghost var deployment := Deployment(Sealer(hash), false, tenant => 0);
      var last := ReadHead(tenant);
      QueriesSeeTheChain(Sealer(hash), rows, tenant);
      var sequence := if last.None? then 1 else last.value.sequence + 1;
      var previousHash := if last.None? then GENESIS else last.value.eventHash;
      var event := AuditEvent(tenant, request, sequence, action, hash(payload), previousHash, "");
      event := event.(eventHash := hash(Preimage(event)));
      HeadIsLength(deployment, rows, tenant);
      assert event == NextEvent(Sealer(hash), Head(RowsOf(rows, tenant)), tenant, request, action, hash(payload));
      if Conflicts(rows, event) {
        OnlyHashesConflict(deployment, rows, event);
        return None;
      }
      ContinuesNow(deployment, rows, event);
      SealerIgnoresStoredHash(hash);
      CommitExtends(deployment, rows, event, |RowsOf(rows, tenant)|);
      RowsOfAppend(rows, event, tenant);
      rows := rows + [event];
      return Some(event);
    }

    /** Reads a tenant's rows in sequence order and recomputes the chain. */
    method VerifyTenant(tenant: string) returns (valid: bool)
      ensures valid <==> ChainValid(Sealer(hash), ChainQuery(rows, tenant))
      ensures Valid() ==> valid
    {
      var events: seq<AuditEvent> := [];
      var i := 0;
      while i < |rows|
        invariant 0 <= i <= |rows| && events == ChainQuery(rows[..i], tenant)
      {
        assert rows[..i + 1][..i] == rows[..i];
        if rows[i].tenant == tenant {
          events := InsertBySequence(rows[i], events);
        }
        i := i + 1;
      }
      assert rows[..i] == rows;
      if Valid() {
        QueriesSeeTheChain(Sealer(hash), rows, tenant);
      }
      valid := VerifyAuditChain(Sealer(hash), events);
    }
  }

  lemma HeadIsLength(d: Deployment, rows: seq<AuditEvent>, tenant: string)
    requires ChainsOk(d, rows)
    ensures var chain := RowsOf(rows, tenant); chain != [] ==> Head(chain).value.sequence == |chain|
  {
    var chain := RowsOf(rows, tenant);
    assert chain[..|chain|] == chain;
    HeadSequence(d.seal, chain, |chain|);
  }

  lemma ContinuesNow(d: Deployment, rows: seq<AuditEvent>, event: AuditEvent)
    requires event == NextEvent(d.seal, Head(RowsOf(rows, event.tenant)), event.tenant, event.request, event.action, event.payloadHash)
    ensures Continues(d, rows, event, |RowsOf(rows, event.tenant)|)
  {
    var chain := RowsOf(rows, event.tenant);
    assert chain[..|chain|] == chain;
  }

  /** An event continuing the current head can only meet a taken hash, never a taken sequence number. */
  lemma OnlyHashesConflict(d: Deployment, rows: seq<AuditEvent>, event: AuditEvent)
    requires ChainsOk(d, rows) && Conflicts(rows, event)
    requires event.sequence == |RowsOf(rows, event.tenant)| + 1
    ensures HashTaken(rows, event)
  {
    var i :| 0 <= i < |rows|
      && ((rows[i].tenant == event.tenant && rows[i].sequence == event.sequence) || rows[i].eventHash == event.eventHash);
    if rows[i].tenant == event.tenant {
      SequencesBelow(d.seal, rows, event.tenant, i);
    }
  }
}
