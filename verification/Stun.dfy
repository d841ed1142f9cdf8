/**
 The TURN probe's message codec: STUN headers and attributes (sections 6 and 15 of
 RFC 5389) and the Allocate request (section 6.1 of RFC 5766).
 */
module Stun {
  import opened Base

  const TYPE_ALLOCATE := 0x0003
  const TYPE_ALLOCATE_SUCCESS := 0x0103
  const TYPE_ALLOCATE_ERROR := 0x0113

  const ATTR_USERNAME := 0x0006
  const ATTR_MESSAGE_INTEGRITY := 0x0008
  const ATTR_ERROR_CODE := 0x0009
  const ATTR_REALM := 0x0014
  const ATTR_NONCE := 0x0015
  const ATTR_REQUESTED_TRANSPORT := 0x0019

  const COOKIE: Bytes := [0x21, 0x12, 0xa4, 0x42]
  const PROTOCOL_UDP: Byte := 17

  type U16 = n: int | 0 <= n < 0x10000

  datatype Attribute = Attribute(kind: U16, value: Bytes)
  datatype Message = Message(kind: U16, transactionId: Bytes, attributes: map<U16, Bytes>)

  // ── Wire format ────────────────────────────────────────────────────

  function Big(n: U16): Bytes { [n / 256, n % 256] }

  function ReadU16(b: Bytes, i: nat): U16
    requires i + 2 <= |b|
  {
    (b[i] as int) * 256 + (b[i + 1] as int)
  }

  function PadLen(n: nat): nat { if n % 4 == 0 then 0 else 4 - n % 4 }

  /** The bytes an encoded attribute takes. */
  function Room(a: Attribute): nat { 4 + |a.value| + PadLen(|a.value|) }

  function Encoded(a: Attribute): (r: Bytes)
    requires |a.value| < 0x10000
    ensures |r| == Room(a)
  {
    Big(a.kind) + Big(|a.value|) + a.value + Zeros(PadLen(|a.value|))
  }

  function Header(kind: U16, length: U16, transactionId: Bytes): Bytes {
    Big(kind) + Big(length) + COOKIE + transactionId
  }

  predicate Fits(attrs: seq<Attribute>) { forall i :: 0 <= i < |attrs| ==> |attrs[i].value| < 0x10000 }

  function Body(attrs: seq<Attribute>): Bytes
    requires Fits(attrs)
  {
    if attrs == [] then [] else Encoded(attrs[0]) + Body(attrs[1..])
  }

  lemma BodySplits(attrs: seq<Attribute>)
    requires Fits(attrs) && attrs != []
    ensures Fits(attrs[1..]) && Body(attrs) == Encoded(attrs[0]) + Body(attrs[1..])
  {
  }

  lemma RoomAligned(a: Attribute)
    ensures Room(a) % 4 == 0
  {
  }

  lemma SumAligned(a: nat, b: nat)
    requires a % 4 == 0 && b % 4 == 0
    ensures (a + b) % 4 == 0
  {
  }

  lemma {:induction false} BodyAligned(attrs: seq<Attribute>)
    requires Fits(attrs)
    ensures |Body(attrs)| % 4 == 0
  {
    if attrs != [] {
      BodySplits(attrs);
      BodyAligned(attrs[1..]);
      RoomAligned(attrs[0]);
      SumAligned(Room(attrs[0]), |Body(attrs[1..])|);
    }
  }

  function Serialized(kind: U16, transactionId: Bytes, attrs: seq<Attribute>): Bytes
    requires Fits(attrs) && |Body(attrs)| < 0x10000
  {
    Header(kind, |Body(attrs)|, transactionId) + Body(attrs)
  }

  // ── Parser ─────────────────────────────────────────────────────────

  /** The attributes from `offset` on; a later one of the same type wins. The value
      may run past `end` as far as the buffer goes. */
  function ParsedFrom(buf: Bytes, offset: nat, end: nat, acc: map<U16, Bytes>): map<U16, Bytes>
    requires end <= |buf|
    decreases end - offset
  {
    if offset + 4 <= end then
      var length := ReadU16(buf, offset + 2);
      var value := buf[offset + 4..Min(offset + 4 + length, |buf|)];
      ParsedFrom(buf, offset + 4 + length + PadLen(length), end, acc[ReadU16(buf, offset) := value])
    else acc
  }

  function Parsed(buf: Bytes): Option<Message> {
    if |buf| < 20 || buf[4..8] != COOKIE then None
    else Some(Message(ReadU16(buf, 0), buf[8..20],
                      ParsedFrom(buf, 20, Min(|buf|, 20 + ReadU16(buf, 2)), map[])))
  }

  lemma ParsedOnce(buf: Bytes, o: nat, end: nat, acc: map<U16, Bytes>)
    requires o + 4 <= end <= |buf|
    ensures var length := ReadU16(buf, o + 2);
      ParsedFrom(buf, o, end, acc)
      == ParsedFrom(buf, o + 4 + length + PadLen(length), end,
                    acc[ReadU16(buf, o) := buf[o + 4..Min(o + 4 + length, |buf|)]])
  {
  }

  /** Total on arbitrary bytes: every read is in bounds and the loop ends. */
  method ParseStunMessage(buf: Bytes) returns (r: Option<Message>)
    ensures r == Parsed(buf)
  {
    if |buf| < 20 {
      return None;
    }
    var kind := ReadU16(buf, 0);
    var length := ReadU16(buf, 2);
    if buf[4..8] != COOKIE {
      return None;
    }
    var attributes: map<U16, Bytes> := map[];
    var offset: nat := 20;
    var end := Min(|buf|, 20 + (length as int));
    while offset + 4 <= end
      invariant 20 <= offset
      invariant ParsedFrom(buf, offset, end, attributes) == ParsedFrom(buf, 20, end, map[])
      decreases end - offset
    {
      ParsedOnce(buf, offset, end, attributes);
      var attrType := ReadU16(buf, offset);
      var attrLen := ReadU16(buf, offset + 2);
      attributes := attributes[attrType := buf[offset + 4..Min(offset + 4 + attrLen, |buf|)]];
      offset := offset + 4 + attrLen + PadLen(attrLen);
    }
    return Some(Message(kind, buf[8..20], attributes));
  }

  // ── Round trip ─────────────────────────────────────────────────────

  /** What an attribute list says about one type: its last value. */
  function LastValue(attrs: seq<Attribute>, kind: U16): Option<Bytes> {
    if attrs == [] then None
    else if attrs[|attrs| - 1].kind == kind then Some(attrs[|attrs| - 1].value)
    else LastValue(attrs[..|attrs| - 1], kind)
  }

  function Put(acc: map<U16, Bytes>, a: Attribute): map<U16, Bytes> { acc[a.kind := a.value] }

  function Collected(attrs: seq<Attribute>, acc: map<U16, Bytes>): map<U16, Bytes>
    decreases |attrs|
  {
    if attrs == [] then acc else Collected(attrs[1..], Put(acc, attrs[0]))
  }

  lemma {:induction false} CollectedAppend(attrs: seq<Attribute>, a: Attribute, acc: map<U16, Bytes>)
    ensures Collected(attrs + [a], acc) == Put(Collected(attrs, acc), a)
    decreases |attrs|
  {
    if attrs == [] {
      assert [a][1..] == [] && [] + [a] == [a];
    } else {
      assert (attrs + [a])[1..] == attrs[1..] + [a];
      CollectedAppend(attrs[1..], a, Put(acc, attrs[0]));
    }
  }

  lemma {:induction false} CollectedIsLast(attrs: seq<Attribute>, kind: U16)
    ensures kind in Collected(attrs, map[]) <==> LastValue(attrs, kind).Some?
    ensures kind in Collected(attrs, map[]) ==> Collected(attrs, map[])[kind] == LastValue(attrs, kind).value
  {
    if attrs != [] {
      var n := |attrs| - 1;
      assert attrs[..n] + [attrs[n]] == attrs;
      CollectedAppend(attrs[..n], attrs[n], map[]);
      CollectedIsLast(attrs[..n], kind);
    }
  }

  // ── Arbitrary bytes ────────────────────────────────────────────────

  /** The attribute at `o`: four bytes of header, then its value or what there is of it. */
  function AttributeOn(buf: Bytes, o: nat): Attribute
    requires o + 4 <= |buf|
  {
    var length, rest := ReadU16(buf, o + 2), buf[o + 4..];
    Attribute(ReadU16(buf, o), if length <= |rest| then rest[..length] else rest)
  }

  /** The next one starts after the value, rounded up to whole words. */
  function NextOn(buf: Bytes, o: nat): nat
    requires o + 4 <= |buf|
  {
    o + 4 + (ReadU16(buf, o + 2) + 3) / 4 * 4
  }

  /** The attributes that start between `o` and `end` on any bytes, in order. */
  function AttributesOn(buf: Bytes, o: nat, end: nat): seq<Attribute>
    requires end <= |buf|
    decreases end - o
  {
    if o + 4 > end then [] else [AttributeOn(buf, o)] + AttributesOn(buf, NextOn(buf, o), end)
  }

  lemma PaddedLength(n: nat)
    ensures n + PadLen(n) == (n + 3) / 4 * 4
  {
  }

  lemma ValueOn(buf: Bytes, o: nat, n: nat)
    requires o <= |buf|
    ensures buf[o..Min(o + n, |buf|)] == (if n <= |buf[o..]| then buf[o..][..n] else buf[o..])
  {
  }

  lemma CollectedHead(a: Attribute, more: seq<Attribute>, acc: map<U16, Bytes>)
    ensures Collected([a] + more, acc) == Collected(more, Put(acc, a))
  {
    assert ([a] + more)[1..] == more;
  }

  lemma OnStep(buf: Bytes, o: nat, end: nat, acc: map<U16, Bytes>)
    requires o + 4 <= end <= |buf|
    ensures ParsedFrom(buf, o, end, acc) == ParsedFrom(buf, NextOn(buf, o), end, Put(acc, AttributeOn(buf, o)))
  {
    ParsedOnce(buf, o, end, acc);
    ValueOn(buf, o + 4, ReadU16(buf, o + 2));
    PaddedLength(ReadU16(buf, o + 2));
  }

  lemma {:induction false} ParsedAreOn(buf: Bytes, o: nat, end: nat, acc: map<U16, Bytes>)
    requires end <= |buf|
    ensures ParsedFrom(buf, o, end, acc) == Collected(AttributesOn(buf, o, end), acc)
    decreases end - o
  {
    if o + 4 <= end {
      var a, next := AttributeOn(buf, o), NextOn(buf, o);
      OnStep(buf, o, end, acc);
      ParsedAreOn(buf, next, end, Put(acc, a));
      CollectedHead(a, AttributesOn(buf, next, end), acc);
    }
  }

  lemma CookieReads(buf: Bytes)
    requires |buf| >= 20
    ensures buf[4..8] == COOKIE <==> ReadU16(buf, 4) == 0x2112 && ReadU16(buf, 6) == 0xa442
  {
    var c := buf[4..8];
    assert c[0] == buf[4] && c[1] == buf[5] && c[2] == buf[6] && c[3] == buf[7];
  }

  lemma ParsedAttributes(buf: Bytes)
    requires Parsed(buf).Some?
    ensures Parsed(buf).value.attributes == Collected(AttributesOn(buf, 20, Min(|buf|, 20 + ReadU16(buf, 2))), map[])
  {
    ParsedAreOn(buf, 20, Min(|buf|, 20 + ReadU16(buf, 2)), map[]);
  }

  /** Bytes are read exactly if they hold a whole header with the magic cookie; of each type the
      message then has the last value on the bytes, truncated or not, and no others. */
  lemma AnyBytesParse(buf: Bytes, kind: U16)
    ensures Parsed(buf).Some? <==> |buf| >= 20 && ReadU16(buf, 4) == 0x2112 && ReadU16(buf, 6) == 0xa442
    ensures Parsed(buf).Some? ==>
      var m, on := Parsed(buf).value, AttributesOn(buf, 20, Min(|buf|, 20 + ReadU16(buf, 2)));
      && (kind in m.attributes <==> LastValue(on, kind).Some?)
      && (kind in m.attributes ==> LastValue(on, kind) == Some(m.attributes[kind]))
  {
    if |buf| >= 20 {
      CookieReads(buf);
    }
    if Parsed(buf).Some? {
      ParsedAttributes(buf);
      CollectedIsLast(AttributesOn(buf, 20, Min(|buf|, 20 + ReadU16(buf, 2))), kind);
    }
  }

  lemma BigRead(n: U16)
    ensures ReadU16(Big(n), 0) == n
  {
  }

  lemma CutAt(buf: Bytes, o: nat, front: Bytes, back: Bytes)
    requires o + |front| + |back| <= |buf| && buf[o..o + |front| + |back|] == front + back
    ensures buf[o..o + |front|] == front && buf[o + |front|..o + |front| + |back|] == back
  {
    var both := buf[o..o + |front| + |back|];
    assert both[..|front|] == buf[o..o + |front|];
    assert both[|front|..] == buf[o + |front|..o + |front| + |back|];
  }

  /** An attribute can be read at `o`. */
  ghost predicate Laid(buf: Bytes, o: nat, a: Attribute) {
    && o + Room(a) <= |buf| && |a.value| < 0x10000
    && ReadU16(buf, o) == a.kind && ReadU16(buf, o + 2) == |a.value| && buf[o + 4..o + 4 + |a.value|] == a.value
  }

  /** One encoded attribute at `o` in a buffer. */
  lemma ReadEncoded(buf: Bytes, o: nat, a: Attribute)
    requires |a.value| < 0x10000 && o + |Encoded(a)| <= |buf| && buf[o..o + |Encoded(a)|] == Encoded(a)
    ensures |Encoded(a)| == Room(a) && Laid(buf, o, a)
  {
    var e, cut := Encoded(a), buf[o..o + |Encoded(a)|];
    assert cut[0] == buf[o] && cut[1] == buf[o + 1] && cut[2] == buf[o + 2] && cut[3] == buf[o + 3];
    BigRead(a.kind);
    BigRead(|a.value|);
    assert e == Big(a.kind) + Big(|a.value|) + (a.value + Zeros(PadLen(|a.value|)));
    forall i | 0 <= i < |a.value| ensures buf[o + 4 + i] == a.value[i] {
      assert cut[4 + i] == e[4 + i];
    }
  }

  lemma ParseStep(buf: Bytes, o: nat, end: nat, a: Attribute, acc: map<U16, Bytes>)
    requires Laid(buf, o, a) && o + Room(a) <= end <= |buf|
    ensures ParsedFrom(buf, o, end, acc) == ParsedFrom(buf, o + Room(a), end, Put(acc, a))
  {
  }

  /** The attributes can be read one after another from `o` to `end`. */
  ghost predicate Fill(buf: Bytes, o: nat, end: nat, attrs: seq<Attribute>)
    decreases |attrs|
  {
    if attrs == [] then o == end <= |buf|
    else Laid(buf, o, attrs[0]) && o + Room(attrs[0]) <= end <= |buf| && Fill(buf, o + Room(attrs[0]), end, attrs[1..])
  }

  lemma FirstLaid(buf: Bytes, o: nat, a: Attribute, rest: Bytes, end: nat)
    requires |a.value| < 0x10000 && end == o + |Encoded(a) + rest| <= |buf| && buf[o..end] == Encoded(a) + rest
    ensures Laid(buf, o, a) && o + Room(a) + |rest| == end && buf[o + Room(a)..end] == rest
  {
    CutAt(buf, o, Encoded(a), rest);
    ReadEncoded(buf, o, a);
  }

  lemma FillStep(buf: Bytes, o: nat, end: nat, attrs: seq<Attribute>)
    requires attrs != [] && Laid(buf, o, attrs[0]) && o + Room(attrs[0]) <= end <= |buf|
    requires Fill(buf, o + Room(attrs[0]), end, attrs[1..])
    ensures Fill(buf, o, end, attrs)
  {
  }

  lemma BodyStarts(buf: Bytes, o: nat, end: nat, attrs: seq<Attribute>)
    requires Fits(attrs) && attrs != [] && end == o + |Body(attrs)| <= |buf| && buf[o..end] == Body(attrs)
    ensures Fits(attrs[1..]) && Laid(buf, o, attrs[0])
    ensures var next := o + Room(attrs[0]); next + |Body(attrs[1..])| == end && buf[next..end] == Body(attrs[1..])
  {
    BodySplits(attrs);
    FirstLaid(buf, o, attrs[0], Body(attrs[1..]), end);
  }

  lemma {:induction false} BodyFills(buf: Bytes, o: nat, end: nat, attrs: seq<Attribute>)
    requires Fits(attrs) && end == o + |Body(attrs)| <= |buf| && buf[o..end] == Body(attrs)
    ensures Fill(buf, o, end, attrs)
    decreases |attrs|
  {
    if attrs != [] {
      BodyStarts(buf, o, end, attrs);
      BodyFills(buf, o + Room(attrs[0]), end, attrs[1..]);
      FillStep(buf, o, end, attrs);
    }
  }

  lemma {:induction false} ParseFilled(buf: Bytes, o: nat, end: nat, attrs: seq<Attribute>, acc: map<U16, Bytes>)
    requires Fill(buf, o, end, attrs) && end <= |buf|
    ensures ParsedFrom(buf, o, end, acc) == Collected(attrs, acc)
    decreases |attrs|
  {
    if attrs != [] {
      ParseStep(buf, o, end, attrs[0], acc);
      ParseFilled(buf, o + Room(attrs[0]), end, attrs[1..], Put(acc, attrs[0]));
    }
  }

  /** A buffer starts with this header. */
  ghost predicate Starts(buf: Bytes, kind: U16, length: U16, transactionId: Bytes) {
    && |buf| >= 20 && ReadU16(buf, 0) == kind && ReadU16(buf, 2) == length
    && buf[4..8] == COOKIE && buf[8..20] == transactionId
  }

  lemma HeaderReads(kind: U16, length: U16, transactionId: Bytes, rest: Bytes)
    requires |transactionId| == 12
    ensures |Header(kind, length, transactionId)| == 20
    ensures Starts(Header(kind, length, transactionId) + rest, kind, length, transactionId)
  {
    BigRead(kind);
    BigRead(length);
  }

  lemma ParsedStart(buf: Bytes, kind: U16, length: U16, transactionId: Bytes)
    requires Starts(buf, kind, length, transactionId) && 20 + length <= |buf|
    ensures Parsed(buf) == Some(Message(kind, transactionId, ParsedFrom(buf, 20, 20 + length, map[])))
  {
    assert Min(|buf|, 20 + length) == 20 + length;
  }

  lemma Associates(a: Bytes, b: Bytes, c: Bytes)
    ensures a + b + c == a + (b + c)
    ensures (a + (b + c))[|a|..|a| + |b|] == b
  {
  }

  lemma ParsedSerialized(kind: U16, transactionId: Bytes, attrs: seq<Attribute>, junk: Bytes)
    requires |transactionId| == 12 && Fits(attrs) && |Body(attrs)| < 0x10000
    ensures Parsed(Serialized(kind, transactionId, attrs) + junk)
            == Some(Message(kind, transactionId, Collected(attrs, map[])))
  {
    var header, body := Header(kind, |Body(attrs)|, transactionId), Body(attrs);
    HeaderReads(kind, |body|, transactionId, body + junk);
    Associates(header, body, junk);
    ParsedBody(header + (body + junk), kind, transactionId, attrs, body);
  }

  lemma ParsedBody(buf: Bytes, kind: U16, transactionId: Bytes, attrs: seq<Attribute>, body: Bytes)
    requires Fits(attrs) && body == Body(attrs) && |body| < 0x10000 && 20 + |body| <= |buf|
    requires Starts(buf, kind, |body|, transactionId) && buf[20..20 + |body|] == body
    ensures Parsed(buf) == Some(Message(kind, transactionId, Collected(attrs, map[])))
  {
    ParsedStart(buf, kind, |body|, transactionId);
    BodyFills(buf, 20, 20 + |body|, attrs);
    ParseFilled(buf, 20, 20 + |body|, attrs, map[]);
  }

  /** Each type's last value. */
  ghost predicate LastValues(found: map<U16, Bytes>, attrs: seq<Attribute>) {
    forall k: U16 ::
      && (k in found <==> LastValue(attrs, k).Some?)
      && (k in found ==> found[k] == LastValue(attrs, k).value)
  }

  lemma CollectedAreLast(attrs: seq<Attribute>)
    ensures LastValues(Collected(attrs, map[]), attrs)
  {
    var found := Collected(attrs, map[]);
    forall k: U16
      ensures (k in found <==> LastValue(attrs, k).Some?) && (k in found ==> found[k] == LastValue(attrs, k).value)
    {
      CollectedIsLast(attrs, k);
    }
  }

  /** Parsing a serialised message, even with trailing bytes, gives back its type, its
      transaction id and, per attribute type, the last value; the header's length is
      the body's, a multiple of four. */
  lemma RoundTrip(kind: U16, transactionId: Bytes, attrs: seq<Attribute>, junk: Bytes)
    requires |transactionId| == 12 && Fits(attrs) && |Body(attrs)| < 0x10000
    ensures var wire := Serialized(kind, transactionId, attrs);
      && ReadU16(wire, 2) == |wire| - 20 == |Body(attrs)| && ReadU16(wire, 2) % 4 == 0
      && Parsed(wire + junk).Some?
      && var m := Parsed(wire + junk).value;
      && m.kind == kind && m.transactionId == transactionId && LastValues(m.attributes, attrs)
  {
    HeaderReads(kind, |Body(attrs)|, transactionId, Body(attrs));
    BodyAligned(attrs);
    ParsedSerialized(kind, transactionId, attrs, junk);
    CollectedAreLast(attrs);
  }

  // ── The Allocate request ───────────────────────────────────────────

  /** The keyed digest of the message and the long-term key, both opaque here. */
  type Mac = (Bytes, Bytes) -> Bytes
  type KeyOf = (Bytes, Bytes, Bytes) -> Bytes

  ghost predicate TwentyBytes(mac: Mac) { forall k, m :: |mac(k, m)| == 20 }

  function Optional(kind: U16, value: Bytes): seq<Attribute> {
    if value == [] then [] else [Attribute(kind, value)]
  }

  function RequestAttrs(username: Bytes, realm: Bytes, nonce: Bytes): seq<Attribute> {
    [Attribute(ATTR_REQUESTED_TRANSPORT, [PROTOCOL_UDP, 0, 0, 0])]
    + Optional(ATTR_USERNAME, username) + Optional(ATTR_REALM, realm) + Optional(ATTR_NONCE, nonce)
  }

  predicate Authenticated(username: Bytes, realm: Bytes, credential: Bytes) {
    credential != [] && realm != [] && username != []
  }

  /** A message followed by its MESSAGE-INTEGRITY attribute. */
  function Signed(message: Bytes, digest: Bytes): Bytes {
    message + (Big(ATTR_MESSAGE_INTEGRITY) + Big(20) + digest)
  }

  /** The request as the probe assembles it; None when a length does not fit the
      16-bit field it is written to, which the buffer writer refuses. */
  function AllocateRequest(transactionId: Bytes, username: Bytes, realm: Bytes, nonce: Bytes,
                           credential: Bytes, mac: Mac, keyOf: KeyOf): Option<Bytes> {
    var attrs := RequestAttrs(username, realm, nonce);
    if !Fits(attrs) then None
    else
      var body := Body(attrs);
      if Authenticated(username, realm, credential) then
        if |body| + 24 >= 0x10000 then None
        else
          var message := Header(TYPE_ALLOCATE, |body| + 24, transactionId) + body;
          Some(Signed(message, mac(keyOf(username, realm, credential), message)))
      else if |body| >= 0x10000 then None
      else Some(Header(TYPE_ALLOCATE, |body|, transactionId) + body)
  }

  lemma FitsAppend(attrs: seq<Attribute>, a: Attribute)
    requires Fits(attrs) && |a.value| < 0x10000
    ensures Fits(attrs + [a])
  {
  }

  lemma {:induction false} BodyAppend(attrs: seq<Attribute>, a: Attribute)
    requires Fits(attrs) && |a.value| < 0x10000
    ensures Fits(attrs + [a]) && Body(attrs + [a]) == Body(attrs) + Encoded(a)
  {
    FitsAppend(attrs, a);
    BodySplits(attrs + [a]);
    if attrs == [] {
      assert (attrs + [a])[1..] == [] && Body([]) == [];
      assert Encoded(a) + [] == [] + Encoded(a);
    } else {
      assert (attrs + [a])[1..] == attrs[1..] + [a];
      BodySplits(attrs);
      BodyAppend(attrs[1..], a);
      Associates(Encoded(attrs[0]), Body(attrs[1..]), Encoded(a));
    }
  }

  /** Fills a 20-byte header buffer. */
  method BuildStunHeader(kind: U16, length: U16, transactionId: Bytes) returns (header: array<Byte>)
    requires |transactionId| == 12
    ensures header[..] == Header(kind, length, transactionId)
  {
    header := new Byte[20](_ => 0);
    header[0], header[1] := kind / 256, kind % 256;
    header[2], header[3] := length / 256, length % 256;
    header[4], header[5], header[6], header[7] := 0x21, 0x12, 0xa4, 0x42;
    var i := 0;
    while i < 12
      invariant 0 <= i <= 12
      invariant header[..8] == Big(kind) + Big(length) + COOKIE
      invariant header[8..8 + i] == transactionId[..i]
    {
      header[8 + i] := transactionId[i];
      i := i + 1;
    }
    assert header[..] == header[..8] + header[8..20];
    assert transactionId[..12] == transactionId;
  }

  /** Appends one encoded attribute; refuses a value too long for its length field. */
  method PushAttr(body: Bytes, kind: U16, value: Bytes, ghost sofar: seq<Attribute>) returns (r: Option<Bytes>)
    requires Fits(sofar) && body == Body(sofar)
    ensures r.Some? <==> |value| < 0x10000
    ensures r.Some? ==> Fits(sofar + [Attribute(kind, value)]) && r.value == Body(sofar + [Attribute(kind, value)])
  {
    if |value| >= 0x10000 {
      return None;
    }
    BodyAppend(sofar, Attribute(kind, value));
    return Some(body + Encoded(Attribute(kind, value)));
  }

  method PushOptional(body: Bytes, kind: U16, value: Bytes, ghost sofar: seq<Attribute>) returns (r: Option<Bytes>)
    requires Fits(sofar) && body == Body(sofar)
    ensures r.Some? <==> Fits(sofar + Optional(kind, value))
    ensures r.Some? ==> r.value == Body(sofar + Optional(kind, value))
  {
    if value == [] {
      assert sofar + [] == sofar;
      return Some(body);
    }
    ghost var more := sofar + Optional(kind, value);
    assert more[|sofar|].value == value;
    r := PushAttr(body, kind, value, sofar);
  }

  method BuildAllocateRequest(transactionId: Bytes, username: Bytes, realm: Bytes, nonce: Bytes,
                              credential: Bytes, mac: Mac, keyOf: KeyOf) returns (r: Option<Bytes>)
    requires |transactionId| == 12
    ensures r == AllocateRequest(transactionId, username, realm, nonce, credential, mac, keyOf)
  {
    ghost var u, rl, n := Optional(ATTR_USERNAME, username), Optional(ATTR_REALM, realm), Optional(ATTR_NONCE, nonce);
    ghost var t := [Attribute(ATTR_REQUESTED_TRANSPORT, [PROTOCOL_UDP, 0, 0, 0])];
    ghost var all := RequestAttrs(username, realm, nonce);
    assert all == t + u + rl + n;
    PrefixFits(t + u + rl, n);
    PrefixFits(t + u, rl);
    var withTransport := PushAttr([], ATTR_REQUESTED_TRANSPORT, [PROTOCOL_UDP, 0, 0, 0], []);
    assert [] + t == t;
    var withUser := PushOptional(withTransport.value, ATTR_USERNAME, username, t);
    if withUser.None? { return None; }
    var withRealm := PushOptional(withUser.value, ATTR_REALM, realm, t + u);
    if withRealm.None? { return None; }
    var withNonce := PushOptional(withRealm.value, ATTR_NONCE, nonce, t + u + rl);
    if withNonce.None? { return None; }
    var body := withNonce.value;
    if credential != [] && realm != [] && username != [] {
      if |body| + 24 >= 0x10000 { return None; }
      var header := BuildStunHeader(TYPE_ALLOCATE, |body| + 24, transactionId);
      var message := header[..] + body;
      var integrity := Big(ATTR_MESSAGE_INTEGRITY) + Big(20) + mac(keyOf(username, realm, credential), message);
      return Some(message + integrity);
    } else {
      if |body| >= 0x10000 { return None; }
      var header := BuildStunHeader(TYPE_ALLOCATE, |body|, transactionId);
      return Some(header[..] + body);
    }
  }

  lemma PrefixFits(a: seq<Attribute>, b: seq<Attribute>)
    ensures Fits(a + b) ==> Fits(a)
  {
    if Fits(a + b) {
      forall i | 0 <= i < |a| ensures |a[i].value| < 0x10000 {
        assert (a + b)[i] == a[i];
      }
    }
  }

  lemma SignedReads(message: Bytes, digest: Bytes)
    requires |message| >= 20 && |digest| == 20
    ensures var wire, n := Signed(message, digest), |message|;
      && |wire| == n + 24 && wire[..n] == message && wire[n + 4..] == digest
      && ReadU16(wire, 2) == ReadU16(message, 2)
      && ReadU16(wire, n) == ATTR_MESSAGE_INTEGRITY && ReadU16(wire, n + 2) == 20
  {
  }

  /** The last attribute is MESSAGE-INTEGRITY: its digest covers every byte before it, and
      the header length within those bytes already counts it. */
  ghost predicate Covered(wire: Bytes, key: Bytes, mac: Mac) {
    && |wire| >= 44 && ReadU16(wire, 2) == |wire| - 20 && ReadU16(wire, 2) % 4 == 0
    && var n := |wire| - 24;
    && ReadU16(wire[..n], 2) == |wire| - 20
    && ReadU16(wire, n) == ATTR_MESSAGE_INTEGRITY && ReadU16(wire, n + 2) == 20
    && wire[n + 4..] == mac(key, wire[..n])
  }

  lemma SignedIsCovered(message: Bytes, key: Bytes, mac: Mac)
    requires TwentyBytes(mac) && |message| >= 20 && ReadU16(message, 2) == |message| + 4 && |message| % 4 == 0
    ensures Covered(Signed(message, mac(key, message)), key, mac)
  {
    SignedReads(message, mac(key, message));
  }

  lemma SignedRequestIsCovered(transactionId: Bytes, body: Bytes, key: Bytes, mac: Mac)
    requires TwentyBytes(mac) && |transactionId| == 12 && |body| + 24 < 0x10000 && |body| % 4 == 0
    ensures var message := Header(TYPE_ALLOCATE, |body| + 24, transactionId) + body;
      Covered(Signed(message, mac(key, message)), key, mac)
  {
    HeaderReads(TYPE_ALLOCATE, |body| + 24, transactionId, body);
    SignedIsCovered(Header(TYPE_ALLOCATE, |body| + 24, transactionId) + body, key, mac);
  }

  lemma IntegrityCoversTheMessage(transactionId: Bytes, username: Bytes, realm: Bytes, nonce: Bytes,
                                  credential: Bytes, mac: Mac, keyOf: KeyOf)
    requires TwentyBytes(mac) && |transactionId| == 12 && Authenticated(username, realm, credential)
    requires AllocateRequest(transactionId, username, realm, nonce, credential, mac, keyOf).Some?
    ensures Covered(AllocateRequest(transactionId, username, realm, nonce, credential, mac, keyOf).value,
                    keyOf(username, realm, credential), mac)
  {
    var attrs := RequestAttrs(username, realm, nonce);
    BodyAligned(attrs);
    SignedRequestIsCovered(transactionId, Body(attrs), keyOf(username, realm, credential), mac);
  }

  lemma DigestAttribute(digest: Bytes)
    requires |digest| == 20
    ensures Encoded(Attribute(ATTR_MESSAGE_INTEGRITY, digest)) == Big(ATTR_MESSAGE_INTEGRITY) + Big(20) + digest
  {
  }

  lemma SignedIsSerialized(transactionId: Bytes, attrs: seq<Attribute>, digest: Bytes)
    requires Fits(attrs) && |Body(attrs)| + 24 < 0x10000 && |digest| == 20
    ensures var a := Attribute(ATTR_MESSAGE_INTEGRITY, digest);
      && Fits(attrs + [a]) && |Body(attrs + [a])| == |Body(attrs)| + 24
      && Signed(Header(TYPE_ALLOCATE, |Body(attrs)| + 24, transactionId) + Body(attrs), digest)
         == Serialized(TYPE_ALLOCATE, transactionId, attrs + [a])
  {
    var a := Attribute(ATTR_MESSAGE_INTEGRITY, digest);
    BodyAppend(attrs, a);
    DigestAttribute(digest);
    Associates(Header(TYPE_ALLOCATE, |Body(attrs)| + 24, transactionId), Body(attrs), Encoded(a));
  }

  lemma SerializedParses(transactionId: Bytes, attrs: seq<Attribute>)
    requires |transactionId| == 12 && Fits(attrs) && |Body(attrs)| < 0x10000
    ensures Parsed(Serialized(TYPE_ALLOCATE, transactionId, attrs)).Some?
    ensures var m := Parsed(Serialized(TYPE_ALLOCATE, transactionId, attrs)).value;
      m.kind == TYPE_ALLOCATE && m.transactionId == transactionId && LastValues(m.attributes, attrs)
  {
    var wire := Serialized(TYPE_ALLOCATE, transactionId, attrs);
    RoundTrip(TYPE_ALLOCATE, transactionId, attrs, []);
    assert wire + [] == wire;
  }

  /** What a request says to whoever parses it. */
  ghost predicate Says(m: Message, transactionId: Bytes, username: Bytes, realm: Bytes, nonce: Bytes, signed: bool) {
    && m.kind == TYPE_ALLOCATE && m.transactionId == transactionId
    && Carries(m, ATTR_REQUESTED_TRANSPORT, [PROTOCOL_UDP, 0, 0, 0])
    && Carries(m, ATTR_USERNAME, username) && Carries(m, ATTR_REALM, realm) && Carries(m, ATTR_NONCE, nonce)
    && (ATTR_MESSAGE_INTEGRITY in m.attributes <==> signed)
  }

  lemma ValuesSay(m: Message, transactionId: Bytes, username: Bytes, realm: Bytes, nonce: Bytes, last: seq<Attribute>)
    requires m.kind == TYPE_ALLOCATE && m.transactionId == transactionId
    requires LastValues(m.attributes, RequestAttrs(username, realm, nonce) + last)
    requires |last| <= 1 && (last != [] ==> last[0].kind == ATTR_MESSAGE_INTEGRITY)
    ensures Says(m, transactionId, username, realm, nonce, last != [])
  {
    RequestValues(username, realm, nonce, last);
  }

  /** A server that parses the request finds exactly what the probe put in. */
  lemma RequestParses(transactionId: Bytes, username: Bytes, realm: Bytes, nonce: Bytes,
                      credential: Bytes, mac: Mac, keyOf: KeyOf)
    requires TwentyBytes(mac) && |transactionId| == 12
    requires AllocateRequest(transactionId, username, realm, nonce, credential, mac, keyOf).Some?
    ensures var wire := AllocateRequest(transactionId, username, realm, nonce, credential, mac, keyOf).value;
      && Parsed(wire).Some?
      && Says(Parsed(wire).value, transactionId, username, realm, nonce, Authenticated(username, realm, credential))
  {
    var attrs := RequestAttrs(username, realm, nonce);
    var wire := AllocateRequest(transactionId, username, realm, nonce, credential, mac, keyOf).value;
    if Authenticated(username, realm, credential) {
      var message := Header(TYPE_ALLOCATE, |Body(attrs)| + 24, transactionId) + Body(attrs);
      var a := Attribute(ATTR_MESSAGE_INTEGRITY, mac(keyOf(username, realm, credential), message));
      SignedIsSerialized(transactionId, attrs, a.value);
      SerializedParses(transactionId, attrs + [a]);
      ValuesSay(Parsed(wire).value, transactionId, username, realm, nonce, [a]);
    } else {
      SerializedParses(transactionId, attrs);
      assert attrs + [] == attrs;
      ValuesSay(Parsed(wire).value, transactionId, username, realm, nonce, []);
    }
  }

  predicate Carries(m: Message, kind: U16, value: Bytes) {
    if value == [] then kind !in m.attributes else kind in m.attributes && m.attributes[kind] == value
  }

  function Wanted(value: Bytes): Option<Bytes> { if value == [] then None else Some(value) }

  lemma LastAppend(attrs: seq<Attribute>, more: seq<Attribute>, kind: U16)
    requires |more| <= 1
    ensures LastValue(attrs + more, kind)
            == if more != [] && more[0].kind == kind then Some(more[0].value) else LastValue(attrs, kind)
  {
    if more == [] {
      assert attrs + more == attrs;
    } else {
      assert (attrs + more)[..|attrs|] == attrs;
    }
  }

  /** The last value of a type in five groups of at most one attribute each. */
  lemma GroupedValue(g1: seq<Attribute>, g2: seq<Attribute>, g3: seq<Attribute>, g4: seq<Attribute>,
                     g5: seq<Attribute>, k: U16)
    requires |g1| <= 1 && |g2| <= 1 && |g3| <= 1 && |g4| <= 1 && |g5| <= 1
    ensures LastValue(g1 + g2 + g3 + g4 + g5, k) ==
      if g5 != [] && g5[0].kind == k then Some(g5[0].value)
      else if g4 != [] && g4[0].kind == k then Some(g4[0].value)
      else if g3 != [] && g3[0].kind == k then Some(g3[0].value)
      else if g2 != [] && g2[0].kind == k then Some(g2[0].value)
      else if g1 != [] && g1[0].kind == k then Some(g1[0].value)
      else None
  {
    LastAppend([], g1, k);
    LastAppend(g1, g2, k);
    LastAppend(g1 + g2, g3, k);
    LastAppend(g1 + g2 + g3, g4, k);
    LastAppend(g1 + g2 + g3 + g4, g5, k);
    assert [] + g1 == g1;
  }

  lemma RequestValues(username: Bytes, realm: Bytes, nonce: Bytes, last: seq<Attribute>)
    requires |last| <= 1 && (last != [] ==> last[0].kind == ATTR_MESSAGE_INTEGRITY)
    ensures var all := RequestAttrs(username, realm, nonce) + last;
      && LastValue(all, ATTR_REQUESTED_TRANSPORT) == Some([PROTOCOL_UDP, 0, 0, 0])
      && LastValue(all, ATTR_USERNAME) == Wanted(username)
      && LastValue(all, ATTR_REALM) == Wanted(realm)
      && LastValue(all, ATTR_NONCE) == Wanted(nonce)
      && (LastValue(all, ATTR_MESSAGE_INTEGRITY).Some? <==> last != [])
  {
    var t := [Attribute(ATTR_REQUESTED_TRANSPORT, [PROTOCOL_UDP, 0, 0, 0])];
    var u, r, n := Optional(ATTR_USERNAME, username), Optional(ATTR_REALM, realm), Optional(ATTR_NONCE, nonce);
    GroupedValue(t, u, r, n, last, ATTR_REQUESTED_TRANSPORT);
    GroupedValue(t, u, r, n, last, ATTR_USERNAME);
    GroupedValue(t, u, r, n, last, ATTR_REALM);
    GroupedValue(t, u, r, n, last, ATTR_NONCE);
    GroupedValue(t, u, r, n, last, ATTR_MESSAGE_INTEGRITY);
  }

  // ── Error codes ────────────────────────────────────────────────────

  /** Class times 100 plus number (section 15.6 of RFC 5389). */
  function ErrorCodeFrom(attrs: map<U16, Bytes>): Option<nat> {
    if ATTR_ERROR_CODE !in attrs || |attrs[ATTR_ERROR_CODE]| < 4 then None
    else Some((attrs[ATTR_ERROR_CODE][2] as int) % 8 * 100 + (attrs[ATTR_ERROR_CODE][3] as int))
  }

  /** A standard code, sent with any reserved bits and reason phrase, is read back. */
  lemma ErrorCodeRoundTrip(code: nat, reserved: nat, reason: Bytes, attrs: map<U16, Bytes>)
    requires 300 <= code < 700 && reserved < 32
    requires ATTR_ERROR_CODE in attrs
    requires attrs[ATTR_ERROR_CODE] == [0, 0, reserved * 8 + code / 100, code % 100] + reason
    ensures ErrorCodeFrom(attrs) == Some(code)
  {
    assert (reserved * 8 + code / 100) % 8 == code / 100;
  }
}
