/**
 The concrete seal of an audit event: a hash of the canonical JSON text of its envelope.

 `Hash` stands for SHA-256 of the UTF-8 text in hexadecimal and stays uninterpreted.  Collision-freeness
 is assumed only of the texts that occur in the chains compared, so it is a satisfiable hypothesis.
 */
module AuditEnvelope {
  import opened CanonicalJson
  import opened AuditChain

  type Hash = string -> string

  /** The envelope dictionary, in the order the code writes it. */
  function Envelope(event: AuditEvent): seq<Member> {
    [("tenant_id", Text(event.tenant)), ("request_id", Text(event.request)), ("sequence", Number(event.sequence)),
     ("action", Text(event.action)), ("payload_hash", Text(event.payloadHash)), ("previous_hash", Text(event.previousHash))]
  }

  /** The text that is hashed. */
  function Preimage(event: AuditEvent): string {
    Canonical(Envelope(event))
  }

  lemma KeysInOrder()
    ensures KeyLess("action", "payload_hash") && KeyLess("payload_hash", "previous_hash")
    ensures !KeyLess("previous_hash", "payload_hash") && !KeyLess("sequence", "action")
    ensures KeyLess("sequence", "tenant_id") && !KeyLess("tenant_id", "action") && !KeyLess("request_id", "action")
    ensures !KeyLess("request_id", "payload_hash") && !KeyLess("request_id", "previous_hash")
    ensures KeyLess("request_id", "sequence") && !KeyLess("sequence", "payload_hash") && !KeyLess("sequence", "previous_hash")
    ensures !KeyLess("tenant_id", "payload_hash") && !KeyLess("tenant_id", "previous_hash")
    ensures !KeyLess("tenant_id", "request_id") && !KeyLess("tenant_id", "sequence")
  {
    assert "payload_hash"[1..][0] == 'a' && "previous_hash"[1..][0] == 'r';
  }

  /** The sorted envelope starts with the action and ends with the tenant. */
  lemma SortedEnvelope(event: AuditEvent)
    ensures SortKeys(Envelope(event))
         == [("action", Text(event.action)), ("payload_hash", Text(event.payloadHash)),
             ("previous_hash", Text(event.previousHash)), ("request_id", Text(event.request)),
             ("sequence", Number(event.sequence)), ("tenant_id", Text(event.tenant))]
  {
    KeysInOrder();
    var e := Envelope(event);
    assert SortKeys(e[6..]) == [];
    assert SortKeys(e[5..]) == [e[5]] by { assert e[5..][1..] == e[6..]; }
    assert SortKeys(e[4..]) == [e[4], e[5]] by { assert e[4..][1..] == e[5..]; }
    assert SortKeys(e[3..]) == [e[3], e[4], e[5]] by { assert e[3..][1..] == e[4..]; }
    InsertSequence(e);
    InsertRequest(e);
    InsertTenant(e);
    assert SortKeys(e[2..]) == [e[3], e[4], e[5], e[2]] by { assert e[2..][1..] == e[3..]; }
    assert SortKeys(e[1..]) == [e[3], e[4], e[5], e[1], e[2]] by { assert e[1..][1..] == e[2..]; }
    assert e[0..] == e;
    assert SortKeys(e) == [e[3], e[4], e[5], e[1], e[2], e[0]];
  }

  lemma InsertSequence(e: seq<Member>)
    requires |e| == 6 && e[2].0 == "sequence" && e[3].0 == "action" && e[4].0 == "payload_hash" && e[5].0 == "previous_hash"
    ensures InsertMember(e[2], [e[3], e[4], e[5]]) == [e[3], e[4], e[5], e[2]]
  {
    KeysInOrder();
    assert InsertMember(e[2], []) == [e[2]];
    assert [e[5]][1..] == [];
    assert InsertMember(e[2], [e[5]]) == [e[5], e[2]];
    assert [e[4], e[5]][1..] == [e[5]];
    assert InsertMember(e[2], [e[4], e[5]]) == [e[4], e[5], e[2]];
    assert [e[3], e[4], e[5]][1..] == [e[4], e[5]];
  }

  lemma InsertRequest(e: seq<Member>)
    requires |e| == 6 && e[1].0 == "request_id" && e[2].0 == "sequence"
    requires e[3].0 == "action" && e[4].0 == "payload_hash" && e[5].0 == "previous_hash"
    ensures InsertMember(e[1], [e[3], e[4], e[5], e[2]]) == [e[3], e[4], e[5], e[1], e[2]]
  {
    KeysInOrder();
    assert InsertMember(e[1], [e[2]]) == [e[1], e[2]];
    assert [e[5], e[2]][1..] == [e[2]];
    assert InsertMember(e[1], [e[5], e[2]]) == [e[5], e[1], e[2]];
    assert [e[4], e[5], e[2]][1..] == [e[5], e[2]];
    assert InsertMember(e[1], [e[4], e[5], e[2]]) == [e[4], e[5], e[1], e[2]];
    assert [e[3], e[4], e[5], e[2]][1..] == [e[4], e[5], e[2]];
  }

  lemma InsertTenant(e: seq<Member>)
    requires |e| == 6 && e[0].0 == "tenant_id" && e[1].0 == "request_id" && e[2].0 == "sequence"
    requires e[3].0 == "action" && e[4].0 == "payload_hash" && e[5].0 == "previous_hash"
    ensures InsertMember(e[0], [e[3], e[4], e[5], e[1], e[2]]) == [e[3], e[4], e[5], e[1], e[2], e[0]]
  {
    KeysInOrder();
    assert InsertMember(e[0], []) == [e[0]];
    assert [e[2]][1..] == [];
    assert InsertMember(e[0], [e[2]]) == [e[2], e[0]];
    assert [e[1], e[2]][1..] == [e[2]];
    assert InsertMember(e[0], [e[1], e[2]]) == [e[1], e[2], e[0]];
    assert [e[5], e[1], e[2]][1..] == [e[1], e[2]];
    assert InsertMember(e[0], [e[5], e[1], e[2]]) == [e[5], e[1], e[2], e[0]];
    assert [e[4], e[5], e[1], e[2]][1..] == [e[5], e[1], e[2]];
    assert InsertMember(e[0], [e[4], e[5], e[1], e[2]]) == [e[4], e[5], e[1], e[2], e[0]];
    assert [e[3], e[4], e[5], e[1], e[2]][1..] == [e[4], e[5], e[1], e[2]];
  }

  /** One member as text: a quoted key, a colon, the encoded value. */
  function Field(key: string, text: string): string {
    "\"" + key + "\"" + (":" + text)
  }

  /** A member whose key needs no escape. */
  lemma PlainMember(key: string, value: Json)
    requires forall i :: 0 <= i < |key| ==> key[i] as int >= 32 && key[i] != '"' && key[i] != '\\'
    ensures EncodeMember((key, value)) == Field(key, EncodeValue(value))
  {
    PlainTextIsKept(key);
    assert EncodeString(key) == "\"" + key + "\"";
  }

  lemma ActionField(value: Json)
    ensures EncodeMember(("action", value)) == Field("action", EncodeValue(value))
  {
    PlainMember("action", value);
  }

  lemma PayloadField(value: Json)
    ensures EncodeMember(("payload_hash", value)) == Field("payload_hash", EncodeValue(value))
  {
    PlainMember("payload_hash", value);
  }

  lemma PreviousField(value: Json)
    ensures EncodeMember(("previous_hash", value)) == Field("previous_hash", EncodeValue(value))
  {
    PlainMember("previous_hash", value);
  }

  lemma RequestField(value: Json)
    ensures EncodeMember(("request_id", value)) == Field("request_id", EncodeValue(value))
  {
    PlainMember("request_id", value);
  }

  lemma SequenceField(value: Json)
    ensures EncodeMember(("sequence", value)) == Field("sequence", EncodeValue(value))
  {
    PlainMember("sequence", value);
  }

  lemma TenantField(value: Json)
    ensures EncodeMember(("tenant_id", value)) == Field("tenant_id", EncodeValue(value))
  {
    PlainMember("tenant_id", value);
  }

  /** Six members as text. */
  lemma SixMembers(m: seq<Member>)
    requires |m| == 6
    ensures EncodeObject(m)
         == "{" + (EncodeMember(m[0]) + ("," + (EncodeMember(m[1]) + ("," + (EncodeMember(m[2]) + ("," + (EncodeMember(m[3])
            + ("," + (EncodeMember(m[4]) + ("," + (EncodeMember(m[5]) + "}")))))))))))
  {
    EncodedMembers(m[5], []);
    assert [m[5]] + [] == m[5..];
    EncodedMembers(m[4], m[5..]);
    assert [m[4]] + m[5..] == m[4..];
    EncodedMembers(m[3], m[4..]);
    assert [m[3]] + m[4..] == m[3..];
    EncodedMembers(m[2], m[3..]);
    assert [m[2]] + m[3..] == m[2..];
    EncodedMembers(m[1], m[2..]);
    assert [m[1]] + m[2..] == m[1..];
    EncodedMembers(m[0], m[1..]);
    assert [m[0]] + m[1..] == m;
  }

  /** The hashed text: sorted keys, compact separators, escaped strings and a decimal number. */
  lemma PreimageText(event: AuditEvent)
    ensures Preimage(event)
         == "{" + (Field("action", EncodeString(event.action))
            + ("," + (Field("payload_hash", EncodeString(event.payloadHash))
            + ("," + (Field("previous_hash", EncodeString(event.previousHash))
            + ("," + (Field("request_id", EncodeString(event.request))
            + ("," + (Field("sequence", EncodeInt(event.sequence))
            + ("," + (Field("tenant_id", EncodeString(event.tenant)) + "}")))))))))))
  {
    SortedEnvelope(event);
    SixMembers(SortKeys(Envelope(event)));
    ActionField(Text(event.action));
    PayloadField(Text(event.payloadHash));
    PreviousField(Text(event.previousHash));
    RequestField(Text(event.request));
    SequenceField(Number(event.sequence));
    TenantField(Text(event.tenant));
  }

  /** Two events have one pre-image exactly when all enveloped fields agree. */
  lemma PreimageIsInjective(a: AuditEvent, b: AuditEvent)
    ensures Preimage(a) == Preimage(b) <==> SameEnvelope(a, b)
  {
    ObjectRoundTrip(SortKeys(Envelope(a)));
    ObjectRoundTrip(SortKeys(Envelope(b)));
    SortedEnvelope(a);
    SortedEnvelope(b);
    if Preimage(a) == Preimage(b) {
      var x, y := SortKeys(Envelope(a)), SortKeys(Envelope(b));
      assert x == y;
      assert x[0] == y[0] && x[1] == y[1] && x[2] == y[2] && x[3] == y[3] && x[4] == y[4] && x[5] == y[5];
    }
  }

  // ---------------------------------------------------------------- the seal

  function Sealer(h: Hash): Seal {
    (event: AuditEvent) => h(Preimage(event))
  }

  /** No two different texts hashed in the two chains collide. */
  ghost predicate CollisionFree(h: Hash, a: seq<AuditEvent>, b: seq<AuditEvent>) {
    forall j, k :: 0 <= j < |a| && 0 <= k < |b| && h(Preimage(a[j])) == h(Preimage(b[k]))
                   ==> Preimage(a[j]) == Preimage(b[k])
  }

  lemma SealerIgnoresStoredHash(h: Hash)
    ensures IgnoresStoredHash(Sealer(h))
  {
    forall event: AuditEvent, stored: string ensures Sealer(h)(event.(eventHash := stored)) == Sealer(h)(event) {
      PreimageIsInjective(event.(eventHash := stored), event);
    }
  }

  lemma CollisionFreeBinds(h: Hash, a: seq<AuditEvent>, b: seq<AuditEvent>)
    requires CollisionFree(h, a, b)
    ensures Binding(Sealer(h), a, b)
  {
    forall j, k | 0 <= j < |a| && 0 <= k < |b| && Sealer(h)(a[j]) == Sealer(h)(b[k]) ensures SameEnvelope(a[j], b[k]) {
      PreimageIsInjective(a[j], b[k]);
    }
  }

  /** With a hash that does not collide on the two chains, one common stored hash pins all history up to it. */
  lemma TamperEvidence(h: Hash, a: seq<AuditEvent>, b: seq<AuditEvent>, j: nat, k: nat)
    requires ChainValid(Sealer(h), a) && ChainValid(Sealer(h), b) && CollisionFree(h, a, b)
    requires j < |a| && k < |b| && a[j].eventHash == b[k].eventHash
    ensures j == k && a[..k + 1] == b[..k + 1]
  {
    CollisionFreeBinds(h, a, b);
    StoredHashPinsHistory(Sealer(h), a, b, j, k);
  }

  /** With such a hash, a table that invents no stored hash verifies exactly when it is a prefix of the original. */
  lemma TamperBoundary(h: Hash, a: seq<AuditEvent>, b: seq<AuditEvent>)
    requires ChainValid(Sealer(h), a) && CollisionFree(h, a, b)
    requires forall k :: 0 <= k < |b| ==> KeepsHash(a, b, k)
    ensures ChainValid(Sealer(h), b) <==> b <= a
  {
    CollisionFreeBinds(h, a, b);
    OnlyPrefixesVerify(Sealer(h), a, b);
  }
}
