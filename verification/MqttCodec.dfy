/** The hand-written MQTT 3.1.1 codec of scripts/go/cloud-mqtt-test/main.go.

    A byte is an integer below 256, so `b & 127` is `b % 128`, `b & 128` is
    `b >= 128` and `b |= 0x80` on a 7-bit digit is `b + 128`. A connection is the
    finite sequence of bytes the peer sends before it closes. */
module MqttCodec {
  newtype byte = x: int | 0 <= x < 256

  type Bytes = seq<byte>

  const LIMIT: nat := 128 * 128 * 128 * 128

  datatype Packet = Packet(kind: byte, body: Bytes)

  datatype ReadResult =
    | Read(packet: Packet, rest: Bytes)
    | Malformed
    | Truncated

  datatype Decoded =
    | Publish(topic: Bytes, payload: Bytes)
    | Rejected
    | Panic

  // ---------------------------------------------------------------- lengths

  /** The remaining-length field of section 2.2.3 of MQTT 3.1.1: base-128 digits, least significant
      first, every digit but the last carrying the continuation bit. */
  ghost function LengthDigits(n: nat): (r: Bytes)
    ensures 1 <= |r|
  {
    if n < 128 then [n as byte] else [(n % 128 + 128) as byte] + LengthDigits(n / 128)
  }

  /** The encoder loop. */
  method RemainingLength(length: nat) returns (out: Bytes)
    ensures out == LengthDigits(length)
  {
    out := [];
    var n := length;
    while n >= 128
      invariant out + LengthDigits(n) == LengthDigits(length)
      decreases n
    {
      ghost var before := out;
      var digit := (n % 128 + 128) as byte;
      assert LengthDigits(n) == [digit] + LengthDigits(n / 128);
      n := n / 128;
      out := out + [digit];
      assert out + LengthDigits(n) == before + ([digit] + LengthDigits(n));
    }
    out := out + [n as byte];
  }

  datatype LengthResult = Length(value: nat, rest: Bytes) | BadLength | ShortLength

  /** The value with one more digit, at the given place. */
  function WithDigit(value: nat, digit: byte, place: nat): (r: nat) { value + digit as nat % 128 * place }

  /** The digit loop of the reader, as a function of the digits left, the place value
      of the next digit and the value so far. */
  ghost function ReadLength(s: Bytes, multiplier: nat, value: nat): (r: LengthResult)
    decreases |s|
  {
    if s == [] then ShortLength
    else
      var value' := WithDigit(value, s[0], multiplier);
      if s[0] < 128 then Length(value', s[1..])
      else if multiplier * 128 > 128 * 128 * 128 then BadLength
      else ReadLength(s[1..], multiplier * 128, value')
  }

  /** What one read takes from the stream. */
  ghost function ReadPacketSpec(s: Bytes): (r: ReadResult) {
    if s == [] then Truncated
    else match ReadLength(s[1..], 1, 0)
      case ShortLength => Truncated
      case BadLength => Malformed
      case Length(n, rest) =>
        if |rest| < n then Truncated else Read(Packet(s[0], rest[..n]), rest[n..])
  }

  /** One turn of the digit loop. */
  lemma ReadDigit(s: Bytes, pos: nat, multiplier: nat, value: nat)
    requires pos < |s|
    ensures ReadLength(s[pos..], multiplier, value) ==
            var value' := WithDigit(value, s[pos], multiplier);
            if s[pos] < 128 then Length(value', s[pos + 1..])
            else if multiplier * 128 > 128 * 128 * 128 then BadLength
            else ReadLength(s[pos + 1..], multiplier * 128, value')
  {
    assert s[pos..][1..] == s[pos + 1..];
  }

  method ReadPacket(s: Bytes) returns (r: ReadResult)
    ensures r == ReadPacketSpec(s)
  {
    if s == [] { return Truncated; }
    var first := s[0];
    var pos := 1;
    var multiplier: nat, remaining: nat := 1, 0;
    while true
      invariant 1 <= pos <= |s|
      invariant ReadLength(s[1..], 1, 0) == ReadLength(s[pos..], multiplier, remaining)
      decreases |s| - pos
    {
      if pos == |s| { return Truncated; }
      var digit := s[pos];
      ReadDigit(s, pos, multiplier, remaining);
      pos := pos + 1;
      remaining := WithDigit(remaining, digit, multiplier);
      if digit < 128 { break; }
      multiplier := multiplier * 128;
      if multiplier > 128 * 128 * 128 { return Malformed; }
    }
    assert ReadLength(s[1..], 1, 0) == Length(remaining, s[pos..]);
    if |s| - pos < remaining { return Truncated; }
    SliceTwice(s, pos, remaining);
    return Read(Packet(first, s[pos..pos + remaining]), s[pos + remaining..]);
  }

  lemma SliceTwice(s: Bytes, pos: nat, n: nat)
    requires pos + n <= |s|
    ensures s[pos..][..n] == s[pos..pos + n] && s[pos..][n..] == s[pos + n..]
  {
  }

  function Pow128(k: nat): (r: nat)
    ensures r >= 1
  {
    if k == 0 then 1 else 128 * Pow128(k - 1)
  }

  /** The number of digits: n takes at most k of them exactly when n < 128^k. */
  lemma {:induction false} DigitCount(n: nat, k: nat)
    requires k >= 1
    ensures |LengthDigits(n)| <= k <==> n < Pow128(k)
    decreases n
  {
    if n < 128 {
      assert Pow128(k) == 128 * Pow128(k - 1);
    } else if k == 1 {
      assert Pow128(1) == 128 * Pow128(0);
    } else {
      DigitCount(n / 128, k - 1);
      assert Pow128(k) == 128 * Pow128(k - 1);
      assert n / 128 < Pow128(k - 1) <==> n < 128 * Pow128(k - 1);
    }
  }

  /** The reader's digit loop run on the encoder's digits, from place k: it recovers the
      value when they fit in the places left and reports them malformed otherwise. */
  lemma {:induction false} LengthRoundTrip(n: nat, k: nat, value: nat, rest: Bytes)
    requires k <= 3
    ensures ReadLength(LengthDigits(n) + rest, Pow128(k), value)
         == if |LengthDigits(n)| <= 4 - k then Length(value + n * Pow128(k), rest) else BadLength
    decreases n
  {
    var s := LengthDigits(n) + rest;
    assert Pow128(3) == 128 * 128 * 128 by {
      assert Pow128(3) == 128 * Pow128(2) && Pow128(2) == 128 * Pow128(1) && Pow128(1) == 128 * Pow128(0);
    }
    if n < 128 {
      assert s[1..] == rest;
    } else {
      assert s[1..] == LengthDigits(n / 128) + rest;
      assert s[0] as nat % 128 == n % 128;
      if k == 3 {
        assert |LengthDigits(n)| > 1;
        assert Pow128(3) * 128 > 128 * 128 * 128;
      } else {
        SmallPlace(k);
        LengthRoundTrip(n / 128, k + 1, value + (n % 128) * Pow128(k), rest);
        Place(n, Pow128(k));
      }
    }
  }

  lemma SmallPlace(k: nat)
    requires k < 3
    ensures Pow128(k) * 128 == Pow128(k + 1) <= 128 * 128 * 128
  {
    assert Pow128(2) == 128 * Pow128(1) && Pow128(1) == 128 * Pow128(0);
    assert Pow128(3) == 128 * Pow128(2);
  }

  lemma Place(n: nat, p: nat)
    ensures (n % 128) * p + (n / 128) * (128 * p) == n * p
  {
    var q, r := n / 128, n % 128;
    assert n == 128 * q + r;
    assert (128 * q + r) * p == 128 * q * p + r * p;
    assert q * (128 * p) == 128 * q * p;
  }

  // ---------------------------------------------------------------- packets

  /** mqttWritePacket. */
  ghost function Encode(p: Packet): (r: Bytes) {
    [p.kind] + LengthDigits(|p.body|) + p.body
  }

  method WritePacket(kind: byte, body: Bytes) returns (packet: Bytes)
    ensures packet == Encode(Packet(kind, body))
  {
    var digits := RemainingLength(|body|);
    packet := [kind] + digits + body;
  }

  /** Four digits hold exactly the lengths below the limit. */
  lemma FourDigits(n: nat)
    ensures |LengthDigits(n)| <= 4 <==> n < LIMIT
  {
    DigitCount(n, 4);
    SmallPlace(0);
    SmallPlace(1);
    SmallPlace(2);
    assert Pow128(4) == 128 * Pow128(3);
  }

  /** The whole length field in front of anything. */
  lemma LengthReads(n: nat, rest: Bytes)
    ensures ReadLength(LengthDigits(n) + rest, 1, 0) == if n < LIMIT then Length(n, rest) else BadLength
  {
    LengthRoundTrip(n, 0, 0, rest);
    FourDigits(n);
    assert Pow128(0) == 1;
  }

  /** One packet written in front of anything is read back exactly, leaving exactly what
      followed; a body of 128^4 bytes or more is refused as malformed. */
  lemma PacketRoundTrip(p: Packet, rest: Bytes)
    ensures ReadPacketSpec(Encode(p) + rest)
         == if |p.body| < LIMIT then Read(p, rest) else Malformed
  {
    var s := Encode(p) + rest;
    var n := |p.body|;
    assert s[1..] == LengthDigits(n) + (p.body + rest);
    LengthReads(n, p.body + rest);
    assert (p.body + rest)[..n] == p.body && (p.body + rest)[n..] == rest;
  }

  ghost function EncodeAll(ps: seq<Packet>): (r: Bytes) {
    if ps == [] then [] else Encode(ps[0]) + EncodeAll(ps[1..])
  }

  datatype StreamResult = Packets(packets: seq<Packet>) | Broken(read: seq<Packet>)

  /** Reading packets until the stream is used up. */
  ghost function ReadAll(s: Bytes): (r: StreamResult)
    decreases |s|
  {
    if s == [] then Packets([])
    else match ReadPacketSpec(s)
      case Read(p, rest) =>
        ReadShrinks(s);
        (match ReadAll(rest)
         case Packets(ps) => Packets([p] + ps)
         case Broken(ps) => Broken([p] + ps))
      case _ => Broken([])
  }

  lemma {:induction false} LengthShrinks(s: Bytes, m: nat, v: nat)
    ensures ReadLength(s, m, v).Length? ==> |ReadLength(s, m, v).rest| < |s|
    decreases |s|
  {
    if s != [] && s[0] >= 128 && m * 128 <= 128 * 128 * 128 {
      LengthShrinks(s[1..], m * 128, WithDigit(v, s[0], m));
    }
  }

  lemma ReadShrinks(s: Bytes)
    ensures ReadPacketSpec(s).Read? ==> |ReadPacketSpec(s).rest| < |s|
  {
    if s != [] { LengthShrinks(s[1..], 1, 0); }
  }

  ghost predicate Small(ps: seq<Packet>) {
    forall i :: 0 <= i < |ps| ==> |ps[i].body| < LIMIT
  }

  /** The reader over one packet and whatever follows it. */
  lemma ReadFirst(p: Packet, rest: Bytes)
    ensures ReadAll(Encode(p) + rest) ==
            if |p.body| >= LIMIT then Broken([])
            else match ReadAll(rest)
                 case Packets(ps) => Packets([p] + ps)
                 case Broken(ps) => Broken([p] + ps)
  {
    PacketRoundTrip(p, rest);
    assert Encode(p) + rest != [];
  }

  lemma SmallTail(ps: seq<Packet>)
    requires ps != []
    ensures Small(ps) <==> |ps[0].body| < LIMIT && Small(ps[1..])
  {
    if |ps[0].body| < LIMIT && Small(ps[1..]) {
      forall i | 0 <= i < |ps| ensures |ps[i].body| < LIMIT {
        if i > 0 { assert ps[i] == ps[1..][i - 1]; }
      }
    }
  }

  /** Any sequence of packets written back to back is recovered by the reader if and only
      if every body is shorter than 128^4 bytes. */
  lemma {:induction false} StreamRoundTrip(ps: seq<Packet>)
    ensures ReadAll(EncodeAll(ps)) == Packets(ps) <==> Small(ps)
    decreases |ps|
  {
    if ps != [] {
      var tail := ps[1..];
      ReadFirst(ps[0], EncodeAll(tail));
      StreamRoundTrip(tail);
      SmallTail(ps);
      assert ps == [ps[0]] + tail;
      match ReadAll(EncodeAll(tail))
      case Broken(_) =>
      case Packets(qs) => assert ([ps[0]] + qs)[1..] == qs;
    }
  }

  /** A cut stream never yields a packet: a proper prefix of one encoded packet of legal
      size is reported truncated. */
  lemma CutPacket(p: Packet, k: nat)
    requires |p.body| < LIMIT
    requires k < |Encode(p)|
    ensures ReadPacketSpec(Encode(p)[..k]) == Truncated
  {
    var n := |p.body|;
    var digits := LengthDigits(n);
    FourDigits(n);
    if k == 0 {
    } else if k <= |digits| {
      assert Encode(p)[..k][1..] == digits[..k - 1];
      CutLength(n, 0, 0, k - 1);
    } else {
      var rest := p.body[..k - 1 - |digits|];
      assert Encode(p)[..k][1..] == digits + rest;
      LengthReads(n, rest);
    }
  }

  lemma {:induction false} CutLength(n: nat, k: nat, value: nat, cut: nat)
    requires k <= 3 && |LengthDigits(n)| <= 4 - k
    requires cut < |LengthDigits(n)|
    ensures ReadLength(LengthDigits(n)[..cut], Pow128(k), value) == ShortLength
    decreases n
  {
    if cut > 0 {
      var s := LengthDigits(n)[..cut];
      assert n >= 128;
      assert s[1..] == LengthDigits(n / 128)[..cut - 1];
      SmallPlace(k);
      CutLength(n / 128, k + 1, WithDigit(value, s[0], Pow128(k)), cut - 1);
    }
  }

  // ---------------------------------------------------------------- publish

  /** mqttString: two length bytes that keep only the low 16 bits, then the text. */
  function StringField(value: Bytes): (r: Bytes) {
    [(|value| / 256 % 256) as byte, (|value| % 256) as byte] + value
  }

  /** The body of mqttPublish (QoS 0) and of mqttPublishQoS1AndWaitPuback (QoS 1, where
      packet id 0 is replaced by 1). */
  function PublishBody(qos: nat, id: nat, topic: Bytes, payload: Bytes): (r: Bytes)
    requires id < 65536
  {
    var id' := if id == 0 then 1 else id;
    if qos == 0 then StringField(topic) + payload
    else StringField(topic) + [(id' / 256) as byte, (id' % 256) as byte] + payload
  }

  function PublishFlags(qos: nat): (r: byte) { if qos == 0 then 0 else 2 }

  /** The two length bytes hold the length modulo 2^16. */
  lemma TwoBytes(n: nat)
    ensures (n / 256 % 256) * 256 + n % 256 == n % 65536
  {
  }

  lemma BytesBack(hi: byte, lo: byte)
    ensures var n := hi as nat * 256 + lo as nat; n / 256 % 256 == hi as nat && n % 256 == lo as nat
  {
  }

  /** The length that the first two bytes announce. */
  function Announced(body: Bytes): (r: nat)
    requires |body| >= 2
  {
    body[0] as nat * 256 + body[1] as nat
  }

  lemma AnnouncedIs(topic: Bytes, rest: Bytes)
    ensures |StringField(topic) + rest| >= 2
    ensures Announced(StringField(topic) + rest) == |topic| % 65536
  {
    TwoBytes(|topic|);
  }

  /** mqttDecodePublish. Slicing past the end of the body panics in Go. */
  function DecodePublish(flags: byte, body: Bytes): (r: Decoded) {
    if |body| < 2 then Rejected
    else
      var topicEnd := 2 + Announced(body);
      if |body| < topicEnd then Rejected
      else
        var pos := if (flags / 2) % 4 > 0 then topicEnd + 2 else topicEnd;
        if pos > |body| then Panic else Publish(body[2..topicEnd], body[pos..])
  }

  /** A QoS 0 or QoS 1 publish decodes to its own topic and payload exactly when the topic
      is shorter than 65536 bytes. */
  lemma PublishRoundTrip(qos: nat, id: nat, topic: Bytes, payload: Bytes)
    requires qos <= 1 && id < 65536
    ensures DecodePublish(PublishFlags(qos), PublishBody(qos, id, topic, payload)) == Publish(topic, payload)
       <==> |topic| < 65536
  {
    if qos == 0 {
      PublishDecodes(0, topic, [], payload);
      assert topic + [] == topic && StringField(topic) + [] == StringField(topic);
    } else {
      var id' := if id == 0 then 1 else id;
      PublishDecodes(2, topic, [(id' / 256) as byte, (id' % 256) as byte], payload);
    }
  }

  /** Decoding a topic field, a packet id of the length the flags announce, and a payload. */
  lemma PublishDecodes(flags: byte, topic: Bytes, id: Bytes, payload: Bytes)
    requires |id| == if (flags / 2) % 4 > 0 then 2 else 0
    ensures DecodePublish(flags, StringField(topic) + id + payload) == Publish(topic, payload) <==> |topic| < 65536
  {
    var body := StringField(topic) + id + payload;
    var declared := |topic| % 65536;
    assert body == StringField(topic) + (id + payload);
    AnnouncedIs(topic, id + payload);
    if |topic| < 65536 {
      assert body[2..2 + declared] == topic;
      assert body[2 + declared + |id|..] == payload;
    } else {
      var d := DecodePublish(flags, body);
      assert d.Publish? ==> |d.topic| == declared < |topic|;
    }
  }

  /** A body that is one topic field and a tail too short to hold a packet id. */
  ghost predicate LacksPacketId(body: Bytes, topic: Bytes, tail: Bytes) {
    |topic| < 65536 && |tail| < 2 && body == StringField(topic) + tail
  }

  /** A body ends less than two bytes behind the topic it announces exactly when it is such a body. */
  lemma LacksExactly(body: Bytes)
    requires |body| >= 2
    ensures 0 <= |body| - 2 - Announced(body) < 2 <==> exists topic, tail :: LacksPacketId(body, topic, tail)
  {
    if 0 <= |body| - 2 - Announced(body) < 2 {
      var end := 2 + Announced(body);
      var topic, tail := body[2..end], body[end..];
      BytesBack(body[0], body[1]);
      assert body == StringField(topic) + tail;
      assert LacksPacketId(body, topic, tail);
    }
    forall topic, tail | LacksPacketId(body, topic, tail)
      ensures 0 <= |body| - 2 - Announced(body) < 2
    {
      AnnouncedIs(topic, tail);
    }
  }

  /** The decoder assumes that a packet id follows the topic when QoS > 0: it panics exactly when the
      body ends less than two bytes behind the topic it announces. */
  lemma PanicsExactly(flags: byte, body: Bytes)
    ensures DecodePublish(flags, body).Panic?
       <==> && (flags / 2) % 4 > 0 && |body| >= 2
            && var left := |body| - 2 - 256 * body[0] as int - body[1] as int; 0 <= left < 2
    ensures DecodePublish(flags, body).Panic?
       <==> (flags / 2) % 4 > 0 && exists topic, tail :: LacksPacketId(body, topic, tail)
  {
    if |body| >= 2 { LacksExactly(body); }
  }

  /** The shortest such packet, read off the wire: a QoS 1 publish (type byte 50) with an empty topic
      and nothing behind it. */
  lemma EmptyPublishPanics(rest: Bytes)
    ensures var r := ReadPacketSpec([50, 2, 0, 0] + rest);
            && r.Read? && r.rest == rest && r.packet.kind / 16 == 3
            && DecodePublish(r.packet.kind % 16, r.packet.body).Panic?
  {
    var p := Packet(50, [0, 0]);
    assert LengthDigits(2) == [2];
    assert Encode(p) + rest == [50, 2, 0, 0] + rest;
    PacketRoundTrip(p, rest);
    PanicsExactly(2, [0, 0]);
  }

  /** A whole conversation: publishes of legal size written to one connection are read and
      decoded in order, topics and payloads intact. */
  lemma PublishOverWire(qos: nat, id: nat, topic: Bytes, payload: Bytes, rest: Bytes)
    requires qos <= 1 && id < 65536 && |topic| < 65536
    requires |PublishBody(qos, id, topic, payload)| < LIMIT
    ensures var kind := (48 + PublishFlags(qos)) as byte;
            var r := ReadPacketSpec(Encode(Packet(kind, PublishBody(qos, id, topic, payload))) + rest);
            && r.Read? && r.rest == rest && r.packet.kind / 16 == 3
            && DecodePublish(r.packet.kind % 16, r.packet.body) == Publish(topic, payload)
  {
    var kind := (48 + PublishFlags(qos)) as byte;
    PacketRoundTrip(Packet(kind, PublishBody(qos, id, topic, payload)), rest);
    PublishRoundTrip(qos, id, topic, payload);
  }
}
