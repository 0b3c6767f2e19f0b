/**
 The canonical JSON text of flat objects: sorted keys, compact separators, strings escaped as section 7
 of RFC 8259 requires and otherwise left alone.  A decoder recovers the object, so the text is injective.
 */
module CanonicalJson {
  import opened Tables

  // ---------------------------------------------------------------- strings

  function HexDigit(d: nat): char
    requires d < 16
  {
    "0123456789abcdef"[d]
  }

  function HexValue(c: char): Option<nat> {
    if '0' <= c <= '9' then Some(c as int - '0' as int)
    else if 'a' <= c <= 'f' then Some(c as int - 'a' as int + 10)
    else None
  }

  /** Quote, backslash and control characters are escaped, the short forms first. */
  function EscapeChar(c: char): string {
    if c == '"' then "\\\""
    else if c == '\\' then "\\\\"
    else if c as int == 8 then "\\b"
    else if c as int == 9 then "\\t"
    else if c as int == 10 then "\\n"
    else if c as int == 12 then "\\f"
    else if c as int == 13 then "\\r"
    else if c as int < 32 then "\\u00" + [HexDigit(c as int / 16), HexDigit(c as int % 16)]
    else [c]
  }

  function EscapeAll(s: string): string {
    if s == "" then "" else EscapeChar(s[0]) + EscapeAll(s[1..])
  }

  function EncodeString(s: string): string {
    "\"" + EscapeAll(s) + "\""
  }

  /** The escapes are those of section 7 of RFC 8259 with the short forms first; other characters stay. */
  lemma EscapeForms(c: char)
    ensures c == '"' ==> EscapeChar(c) == ['\\', '"']
    ensures c == '\\' ==> EscapeChar(c) == ['\\', '\\']
    ensures c == '\n' ==> EscapeChar(c) == ['\\', 'n']
    ensures c == '\r' ==> EscapeChar(c) == ['\\', 'r']
    ensures c == '\t' ==> EscapeChar(c) == ['\\', 't']
    ensures c as int == 8 ==> EscapeChar(c) == ['\\', 'b']
    ensures c as int == 12 ==> EscapeChar(c) == ['\\', 'f']
    ensures c as int < 32 && c as int !in {8, 9, 10, 12, 13} ==>
              |EscapeChar(c)| == 6 && EscapeChar(c)[..4] == ['\\', 'u', '0', '0']
    ensures c as int >= 32 && c != '"' && c != '\\' ==> EscapeChar(c) == [c]
  {
  }

  /** No control character is left in a text. */
  lemma {:induction false} EscapedHasNoControl(s: string)
    ensures forall i :: 0 <= i < |EscapeAll(s)| ==> EscapeAll(s)[i] as int >= 32
  {
    if s != "" {
      EscapedHasNoControl(s[1..]);
    }
  }

  /** Text without quotes, backslashes and control characters is encoded as it is. */
  lemma {:induction false} PlainTextIsKept(s: string)
    requires forall i :: 0 <= i < |s| ==> s[i] as int >= 32 && s[i] != '"' && s[i] != '\\'
    ensures EscapeAll(s) == s
  {
    if s != "" {
      PlainTextIsKept(s[1..]);
      assert EscapeChar(s[0]) == [s[0]];
      assert s == [s[0]] + s[1..];
    }
  }

  /** Reads one possibly escaped character. */
  function DecodeChar(t: string): Option<(char, string)> {
    if t == "" then None
    else if t[0] != '\\' then Some((t[0], t[1..]))
    else if |t| < 2 then None
    else if t[1] == '"' then Some(('"', t[2..]))
    else if t[1] == '\\' then Some(('\\', t[2..]))
    else if t[1] == 'b' then Some((8 as char, t[2..]))
    else if t[1] == 't' then Some((9 as char, t[2..]))
    else if t[1] == 'n' then Some((10 as char, t[2..]))
    else if t[1] == 'f' then Some((12 as char, t[2..]))
    else if t[1] == 'r' then Some((13 as char, t[2..]))
    else if t[1] == 'u' && |t| >= 6 && t[2] == '0' && t[3] == '0' then
      match (HexValue(t[4]), HexValue(t[5]))
      case (Some(high), Some(low)) => Some(((high * 16 + low) as char, t[6..]))
      case _ => None
    else None
  }

  lemma CharRoundTrip(c: char, rest: string)
    ensures DecodeChar(EscapeChar(c) + rest) == Some((c, rest))
    ensures (EscapeChar(c) + rest)[0] != '"'
  {
    if c as int < 32 && c as int !in {8, 9, 10, 12, 13} {
      HexRoundTrip(c, rest);
    } else {
      var t := EscapeChar(c) + rest;
      assert t[|EscapeChar(c)|..] == rest;
    }
  }

  /** The long form of a control character. */
  lemma HexRoundTrip(c: char, rest: string)
    requires c as int < 32 && c as int !in {8, 9, 10, 12, 13}
    ensures DecodeChar(EscapeChar(c) + rest) == Some((c, rest))
    ensures (EscapeChar(c) + rest)[0] != '"'
  {
    var high, low := c as int / 16, c as int % 16;
    var t := EscapeChar(c) + rest;
    assert t[4] == HexDigit(high) && t[5] == HexDigit(low) && t[6..] == rest;
    HexValueOfDigit(high);
    HexValueOfDigit(low);
  }

  lemma HexValueOfDigit(d: nat)
    requires d < 16
    ensures HexValue(HexDigit(d)) == Some(d)
  {
  }

  /** Reads characters up to the closing quote. */
  function DecodeChars(t: string): (decoded: Option<(string, string)>)
    ensures decoded.Some? ==> |decoded.value.1| < |t|
    decreases |t|
  {
    if t == "" then None
    else if t[0] == '"' then Some(("", t[1..]))
    else
      match DecodeChar(t)
      case None => None
      case Some((c, rest)) =>
        if |rest| >= |t| then None
        else
          match DecodeChars(rest)
          case None => None
          case Some((s, after)) => Some(([c] + s, after))
  }

  lemma {:induction false} CharsRoundTrip(s: string, rest: string)
    ensures DecodeChars(EscapeAll(s) + ("\"" + rest)) == Some((s, rest))
    decreases |s|
  {
    if s == "" {
      assert EscapeAll(s) + ("\"" + rest) == "\"" + rest;
    } else {
      var tail := EscapeAll(s[1..]) + ("\"" + rest);
      assert EscapeAll(s) + ("\"" + rest) == EscapeChar(s[0]) + tail;
      CharRoundTrip(s[0], tail);
      CharsRoundTrip(s[1..], rest);
      assert [s[0]] + s[1..] == s;
    }
  }

  function DecodeString(t: string): (decoded: Option<(string, string)>)
    ensures decoded.Some? ==> |decoded.value.1| < |t|
  {
    if t == "" || t[0] != '"' then None else DecodeChars(t[1..])
  }

  lemma StringRoundTrip(s: string, rest: string)
    ensures DecodeString(EncodeString(s) + rest) == Some((s, rest))
  {
    CharsRoundTrip(s, rest);
    var t := EscapeAll(s) + ("\"" + rest);
    assert EncodeString(s) + rest == "\"" + t;
    assert ("\"" + t)[1..] == t;
  }

  // ---------------------------------------------------------------- integers

  predicate IsDigit(c: char) { '0' <= c <= '9' }

  function Digit(d: nat): char
    requires d < 10
  {
    "0123456789"[d]
  }

  function EncodeNat(n: nat): (text: string)
    ensures text != "" && IsDigit(text[0])
  {
    if n < 10 then [Digit(n)] else EncodeNat(n / 10) + [Digit(n % 10)]
  }

  function EncodeInt(n: int): string {
    if n < 0 then "-" + EncodeNat(-n) else EncodeNat(n)
  }

  /** Reads the longest run of digits. */
  function DecodeDigits(value: nat, t: string): (decoded: (nat, string))
    ensures |decoded.1| <= |t|
    decreases |t|
  {
    if t != "" && IsDigit(t[0]) then DecodeDigits(value * 10 + (t[0] as int - '0' as int), t[1..]) else (value, t)
  }

  lemma {:induction false} DigitsRoundTrip(n: nat, rest: string)
    ensures DecodeDigits(0, EncodeNat(n) + rest) == DecodeDigits(n, rest)
  {
    if n < 10 {
      assert (EncodeNat(n) + rest)[1..] == rest;
    } else {
      var last := [Digit(n % 10)] + rest;
      assert EncodeNat(n) + rest == EncodeNat(n / 10) + last;
      DigitsRoundTrip(n / 10, last);
      assert last[1..] == rest;
      assert DecodeDigits(n / 10, last) == DecodeDigits(n / 10 * 10 + n % 10, rest);
    }
  }

  function DecodeInt(t: string): (decoded: Option<(int, string)>)
    ensures decoded.Some? ==> |decoded.value.1| < |t|
  {
    if t == "" then None
    else if t[0] == '-' then
      if |t| < 2 || !IsDigit(t[1]) then None
      else
        var digits := DecodeDigits(0, t[1..]);
        var negated: int := 0 - digits.0;
        Some((negated, digits.1))
    else if IsDigit(t[0]) then
      var digits := DecodeDigits(t[0] as int - '0' as int, t[1..]);
      Some((digits.0, digits.1))
    else None
  }

  /** Text that reads as a natural number up to `rest`, with and without a sign before it. */
  lemma DigitsAsInt(text: string, n: nat, rest: string)
    requires text != "" && IsDigit(text[0]) && DecodeDigits(0, text) == (n, rest)
    ensures DecodeInt(text) == Some((n, rest))
    ensures DecodeInt("-" + text) == Some((0 - n, rest))
  {
    assert DecodeDigits(0, text) == DecodeDigits(text[0] as int - '0' as int, text[1..]);
    assert ("-" + text)[1..] == text;
  }

  lemma NaturalDigits(n: nat, rest: string)
    requires rest != "" && !IsDigit(rest[0])
    ensures EncodeNat(n) + rest != "" && IsDigit((EncodeNat(n) + rest)[0])
    ensures DecodeDigits(0, EncodeNat(n) + rest) == (n, rest)
  {
    DigitsRoundTrip(n, rest);
    assert (EncodeNat(n) + rest)[0] == EncodeNat(n)[0];
  }

  lemma IntRoundTrip(n: int, rest: string)
    requires rest != "" && !IsDigit(rest[0])
    ensures DecodeInt(EncodeInt(n) + rest) == Some((n, rest))
  {
    var magnitude: nat := if n < 0 then -n else n;
    NaturalDigits(magnitude, rest);
    DigitsAsInt(EncodeNat(magnitude) + rest, magnitude, rest);
    if n < 0 {
      assert EncodeInt(n) + rest == "-" + (EncodeNat(magnitude) + rest);
    }
  }

  // ---------------------------------------------------------------- objects

  datatype Json = Text(text: string) | Number(number: int)

  type Member = (string, Json)

  function EncodeValue(value: Json): string {
    match value
    case Text(text) => EncodeString(text)
    case Number(number) => EncodeInt(number)
  }

  function DecodeValue(t: string): (decoded: Option<(Json, string)>)
    ensures decoded.Some? ==> |decoded.value.1| < |t|
  {
    if t != "" && t[0] == '"' then
      match DecodeString(t)
      case None => None
      case Some((s, rest)) => Some((Text(s), rest))
    else
      match DecodeInt(t)
      case None => None
      case Some((n, rest)) => Some((Number(n), rest))
  }

  lemma ValueRoundTrip(value: Json, rest: string)
    requires rest != "" && !IsDigit(rest[0])
    ensures DecodeValue(EncodeValue(value) + rest) == Some((value, rest))
  {
    match value
    case Text(text) => StringRoundTrip(text, rest);
    case Number(number) => IntRoundTrip(number, rest);
  }

  function EncodeMember(member: Member): string {
    EncodeString(member.0) + (":" + EncodeValue(member.1))
  }

  function DecodeMember(t: string): (decoded: Option<(Member, string)>)
    ensures decoded.Some? ==> |decoded.value.1| < |t|
  {
    match DecodeString(t)
    case None => None
    case Some((key, rest)) =>
      if rest == "" || rest[0] != ':' then None
      else
        match DecodeValue(rest[1..])
        case None => None
        case Some((value, after)) => Some(((key, value), after))
  }

  lemma MemberRoundTrip(member: Member, rest: string)
    requires rest != "" && !IsDigit(rest[0])
    ensures DecodeMember(EncodeMember(member) + rest) == Some((member, rest))
  {
    var value := EncodeValue(member.1) + rest;
    assert EncodeMember(member) + rest == EncodeString(member.0) + (":" + value);
    StringRoundTrip(member.0, ":" + value);
    assert (":" + value)[1..] == value;
    ValueRoundTrip(member.1, rest);
  }

  function EncodeMembers(members: seq<Member>): string
    requires members != []
  {
    EncodeMember(members[0]) + (if |members| == 1 then "}" else "," + EncodeMembers(members[1..]))
  }

  function EncodeObject(members: seq<Member>): string
    requires members != []
  {
    "{" + EncodeMembers(members)
  }

  function DecodeMembers(t: string): Option<seq<Member>>
    decreases |t|
  {
    match DecodeMember(t)
    case None => None
    case Some((member, rest)) =>
      if rest == "}" then Some([member])
      else if rest == "" || rest[0] != ',' then None
      else
        match DecodeMembers(rest[1..])
        case None => None
        case Some(more) => Some([member] + more)
  }

  function DecodeObject(t: string): Option<seq<Member>> {
    if t == "" || t[0] != '{' then None else DecodeMembers(t[1..])
  }

  lemma {:induction false} MembersRoundTrip(members: seq<Member>)
    requires members != []
    ensures DecodeMembers(EncodeMembers(members)) == Some(members)
    decreases |members|
  {
    if |members| == 1 {
      LastMember(members[0]);
      assert members == [members[0]];
      assert EncodeMembers(members) == EncodeMember(members[0]) + "}";
    } else {
      MembersRoundTrip(members[1..]);
      NextMember(members[0], EncodeMembers(members[1..]), members[1..]);
      assert [members[0]] + members[1..] == members;
      assert EncodeMembers(members) == EncodeMember(members[0]) + ("," + EncodeMembers(members[1..]));
    }
  }

  lemma LastMember(member: Member)
    ensures DecodeMembers(EncodeMember(member) + "}") == Some([member])
  {
    MemberRoundTrip(member, "}");
  }

  lemma NextMember(member: Member, text: string, more: seq<Member>)
    requires DecodeMembers(text) == Some(more)
    ensures DecodeMembers(EncodeMember(member) + ("," + text)) == Some([member] + more)
  {
    MemberRoundTrip(member, "," + text);
    assert ("," + text)[1..] == text;
  }

  /** The decoder recovers every object from its text. */
  lemma ObjectRoundTrip(members: seq<Member>)
    requires members != []
    ensures DecodeObject(EncodeObject(members)) == Some(members)
  {
    MembersRoundTrip(members);
    assert EncodeObject(members)[1..] == EncodeMembers(members);
  }

  // ---------------------------------------------------------------- key order

  /** Code-point order on keys. */
  predicate KeyLess(a: string, b: string) {
    if b == "" then false
    else if a == "" then true
    else if a[0] != b[0] then a[0] < b[0]
    else KeyLess(a[1..], b[1..])
  }

  function InsertMember(member: Member, sorted: seq<Member>): seq<Member> {
    if sorted == [] || KeyLess(member.0, sorted[0].0) then [member] + sorted
    else [sorted[0]] + InsertMember(member, sorted[1..])
  }

  /** `sort_keys=True` on a dictionary given in insertion order. */
  function SortKeys(members: seq<Member>): (sorted: seq<Member>)
    ensures members != [] ==> sorted != []
  {
    if members == [] then [] else InsertMember(members[0], SortKeys(members[1..]))
  }

  /** Members are joined by commas and the last one closes the object. */
  lemma EncodedMembers(member: Member, more: seq<Member>)
    ensures EncodeMembers([member] + more) == EncodeMember(member) + (if more == [] then "}" else "," + EncodeMembers(more))
  {
    assert ([member] + more)[1..] == more;
  }

  function Canonical(members: seq<Member>): string
    requires members != []
  {
    EncodeObject(SortKeys(members))
  }
}
