/**
 The MeshCore packet format (src/proto/packet.cpp): a header byte
 `0bVVPPPPRR`, optional transport codes, a packed path length, the path and the
 payload.
 */
module Packets {
  import opened Bytes

  const MAX_PATH := 64
  const MAX_PAYLOAD := 184
  const MAX_PACKET := 255

  // Route types.
  const TRANSPORT_FLOOD := 0
  const FLOOD := 1
  const DIRECT := 2
  const TRANSPORT_DIRECT := 3

  // Payload types the node gives a meaning to; 12 to 14 are reserved.
  const REQ := 0
  const RESPONSE := 1
  const TXT_MSG := 2
  const ACK := 3
  const ADVERT := 4
  const GRP_TXT := 5
  const GRP_DATA := 6
  const ANON_REQ := 7
  const PATH := 8
  const TRACE := 9
  const MULTIPART := 10
  const CONTROL := 11

  type RouteType = r: int | 0 <= r < 4
  type PayloadType = t: int | 0 <= t < 16
  type Code = c: int | 0 <= c < 65536

  /** One byte for a path of `len` bytes: how many hops in its low six bits, how
      wide each is above them. */
  function PackedLen(size: int, len: nat): Byte
    requires size > 0
  {
    (size - 1) % 4 * 64 + len / size % 64
  }

  datatype Packet = Packet(version: Byte, route: RouteType, kind: PayloadType,
                           code1: Code, code2: Code,
                           hashSize: Byte, path: ByteString, payload: ByteString) {
    predicate HasTransportCodes() {
      route == TRANSPORT_FLOOD || route == TRANSPORT_DIRECT
    }

    predicate IsFlood() {
      route == FLOOD || route == TRANSPORT_FLOOD
    }

    predicate IsDirect() {
      route == DIRECT || route == TRANSPORT_DIRECT
    }

    function HopCount(): nat {
      if hashSize == 0 then 0 else |path| / hashSize
    }

    function PackedPathLen(): Byte {
      PackedLen(if hashSize == 0 then 1 else hashSize, |path|)
    }

    /** Exactly what the wire format can hold. */
    predicate Valid() {
      && 1 <= hashSize <= 3
      && |path| <= MAX_PATH && |path| % hashSize == 0
      && HopCount() <= 63 && |payload| <= MAX_PAYLOAD
      && 2 + (if HasTransportCodes() then 4 else 0) + |path| + |payload| <= MAX_PACKET
    }

    /** One hop longer, or None when neither bytes nor hop count leave room. */
    function PushHop(hash: ByteString): Option<Packet> {
      if hashSize == 0 || |hash| < hashSize then None
      else if |path| + hashSize > MAX_PATH then None
      else if HopCount() >= 63 then None
      else Some(this.(path := path + hash[..hashSize]))
    }

    /** Whose turn it is on a direct route; empty at its end. */
    function FirstHop(): ByteString {
      if |path| < hashSize then [] else path[..hashSize]
    }

    function PopHop(): Packet {
      if |path| < hashSize then this.(path := []) else this.(path := path[hashSize..])
    }

    function Header(): Byte {
      (version as int) % 4 * 64 + (kind as int) * 4 + (route as int)
    }

    function Encode(): ByteString {
      [Header()]
      + (if HasTransportCodes() then U16(code1) + U16(code2) else [])
      + [PackedPathLen()] + path + payload
    }

    /** What the dedup hash covers: the type and the payload, not the path,
        except that a trace also mixes in its path length. */
    function DedupRegion(): ByteString {
      [kind] + (if kind == TRACE then U16(PackedPathLen()) else []) + payload
    }

    /** A transmitted packet carries transport codes only on transport routes. */
    function OnWire(): Packet {
      if HasTransportCodes() then this else this.(code1 := 0, code2 := 0)
    }
  }

  function Decode(raw: ByteString): Option<Packet> {
    var r0 := Read(raw);
    var header := r0.PeekU8();
    var r1 := r0.Skip(1);
    if !r1.ok then None else
    var route := header % 4;
    var kind := header / 4 % 16;
    var version := header / 64;
    if version > 0 then None else
    var transport := route == TRANSPORT_FLOOD || route == TRANSPORT_DIRECT;
    var code1 := if transport then r1.PeekU16() else 0;
    var r2 := if transport then r1.Skip(2) else r1;
    var code2 := if transport then r2.PeekU16() else 0;
    var r3 := if transport then r2.Skip(2) else r2;
    if !r3.ok then None else
    var pathLen := r3.PeekU8();
    var r4 := r3.Skip(1);
    if !r4.ok then None else
    var hops := pathLen % 64;
    var hashSize := pathLen / 64 + 1;
    if hashSize == 4 then None else
    var pathBytes := hops * hashSize;
    if pathBytes > MAX_PATH then None else
    var path := r4.View(pathBytes);
    var r5 := r4.Skip(pathBytes);
    if !r5.ok then None else
    var payload := r5.View(r5.Remaining());
    if payload == [] || |payload| > MAX_PAYLOAD then None else
    Some(Packet(version, route, kind, code1, code2, hashSize, path, payload))
  }

  lemma PackedPathLenParts(p: Packet)
    requires p.Valid()
    ensures p.PackedPathLen() % 64 == p.HopCount()
    ensures p.PackedPathLen() / 64 == p.hashSize - 1
    ensures p.HopCount() * p.hashSize == |p.path|
  {
    PackedLenParts(p.hashSize, |p.path|);
  }

  lemma PackedLenParts(size: nat, len: nat)
    requires 1 <= size <= 3 && len % size == 0 && len / size <= 63
    ensures PackedLen(size, len) % 64 == len / size && PackedLen(size, len) / 64 == size - 1
    ensures len / size * size == len
  {
    if size == 1 {
      assert len / size == len;
    } else if size == 2 {
      assert len / size == len / 2;
    } else {
      assert len / size == len / 3;
    }
  }

  /** Whatever a valid packet is encoded to fits a radio packet, so the
      scheduler's oversize branch cannot be reached. */
  lemma EncodedSize(p: Packet)
    ensures |p.Encode()| == 2 + (if p.HasTransportCodes() then 4 else 0) + |p.path| + |p.payload|
    ensures p.Valid() ==> |p.Encode()| <= MAX_PACKET
  {}

  lemma HeaderParts(h: Byte)
    ensures h as int == h / 64 * 64 + h / 4 % 16 * 4 + h % 4
  {}

  /** Where the fields of an accepted byte string lie in it. */
  lemma DecodedLayout(raw: ByteString)
    requires Decode(raw).Some?
    ensures var p := Decode(raw).value;
            var at := if p.HasTransportCodes() then 5 else 1;
            && at < |raw|
            && p.version == raw[0] / 64 == 0 && p.kind == raw[0] / 4 % 16 && p.route == raw[0] % 4
            && p.hashSize == raw[at] / 64 + 1 && p.hashSize <= 3
            && |p.path| == raw[at] as int % 64 * p.hashSize as int <= MAX_PATH
            && raw[at + 1..] == p.path + p.payload
            && 0 < |p.payload| <= MAX_PAYLOAD
            && (p.HasTransportCodes() ==>
                  p.code1 == Le16(raw[1], raw[2]) && p.code2 == Le16(raw[3], raw[4]))
            && p.OnWire() == p
  {}

  /** An accepted byte string is a valid packet that encodes back to it. */
  lemma {:induction false} AcceptedReencodes(raw: ByteString)
    requires Decode(raw).Some?
    ensures Decode(raw).value.Valid()
    ensures Decode(raw).value.Encode() == raw
    ensures Decode(raw).value.OnWire() == Decode(raw).value
  {
    var p := Decode(raw).value;
    var at := if p.HasTransportCodes() then 5 else 1;
    DecodedLayout(raw);
    DecodedNumbers(raw);
    if p.HasTransportCodes() {
      DecodedCodes(raw);
    }
    ThreeCuts(raw, at);
  }

  /** The two packed bytes come back, and the limits hold. */
  lemma {:induction false} DecodedNumbers(raw: ByteString)
    requires Decode(raw).Some?
    ensures var p := Decode(raw).value;
            var at := if p.HasTransportCodes() then 5 else 1;
            at < |raw| && p.Valid() && p.Header() == raw[0] && p.PackedPathLen() == raw[at]
  {
    var p := Decode(raw).value;
    var at := if p.HasTransportCodes() then 5 else 1;
    DecodedLayout(raw);
    HeaderParts(raw[0]);
    PackedBack(raw[at], p.hashSize, |p.path|);
  }

  /** The transport codes come back. */
  lemma {:induction false} DecodedCodes(raw: ByteString)
    requires Decode(raw).Some? && Decode(raw).value.HasTransportCodes()
    ensures var p := Decode(raw).value; |raw| > 5 && raw[1..5] == U16(p.code1) + U16(p.code2)
  {
    DecodedLayout(raw);
    U16Digits(raw[1], raw[2]);
    U16Digits(raw[3], raw[4]);
  }

  lemma ThreeCuts(raw: ByteString, at: nat)
    requires 0 < at < |raw|
    ensures raw == [raw[0]] + raw[1..at] + [raw[at]] + raw[at + 1..]
  {}

  /** A packed length byte gives back the length it was read as. */
  lemma PackedBack(b: Byte, size: nat, len: nat)
    requires size == b / 64 + 1 <= 3 && len == b as int % 64 * size
    ensures len % size == 0 && len / size == b % 64
    ensures (size - 1) % 4 * 64 + len / size % 64 == b
  {
    match size
    case 1 =>
    case 2 =>
    case 3 =>
  }

  /** A valid packet survives the wire exactly when it is version 0 and carries
      a payload, unused transport codes aside. */
  lemma {:induction false} SurvivesWire(p: Packet)
    requires p.Valid()
    ensures Decode(p.Encode()) == Some(p.OnWire()) <==> p.version == 0 && p.payload != []
  {
    if p.version == 0 && p.payload != [] {
      EncodedDecodes(p);
    } else if Decode(p.Encode()).Some? {
      var q := Decode(p.Encode()).value;
      assert q.payload != [] && q.version == 0;
    }
  }

  /** What each byte of an encoding is. */
  lemma EncodedBytes(p: Packet)
    ensures var raw := p.Encode();
            var at := if p.HasTransportCodes() then 5 else 1;
            && |raw| == at + 1 + |p.path| + |p.payload|
            && raw[0] == p.Header() && raw[at] == p.PackedPathLen() && raw[at + 1..] == p.path + p.payload
            && (p.HasTransportCodes() ==> raw[1..3] == U16(p.code1) && raw[3..5] == U16(p.code2))
  {}

  lemma HeaderHolds(p: Packet)
    requires p.version == 0
    ensures p.Header() % 4 == p.route && p.Header() / 4 % 16 == p.kind && p.Header() / 64 == 0
  {}

  lemma EncodedLayout(p: Packet)
    requires p.Valid() && p.version == 0
    ensures var raw := p.Encode();
            var at := if p.HasTransportCodes() then 5 else 1;
            && |raw| == at + 1 + |p.path| + |p.payload|
            && raw[0] % 4 == p.route && raw[0] / 4 % 16 == p.kind && raw[0] / 64 == 0
            && raw[at] % 64 == p.HopCount() && raw[at] / 64 == p.hashSize - 1
            && raw[at + 1..] == p.path + p.payload
            && (p.HasTransportCodes() ==>
                  p.code1 == Le16(raw[1], raw[2]) && p.code2 == Le16(raw[3], raw[4]))
  {
    PackedPathLenParts(p);
    HeaderHolds(p);
    EncodedBytes(p);
    if p.HasTransportCodes() {
      U16RoundTrip(p.code1);
      U16RoundTrip(p.code2);
      var raw := p.Encode();
      assert raw[1] == raw[1..3][0] && raw[2] == raw[1..3][1];
      assert raw[3] == raw[3..5][0] && raw[4] == raw[3..5][1];
    }
  }

  lemma LaidOutAccepted(raw: ByteString, hops: nat, size: nat)
    requires |raw| > 1 && raw[0] / 64 == 0 && size <= 3
    requires var at := if raw[0] % 4 == TRANSPORT_FLOOD || raw[0] % 4 == TRANSPORT_DIRECT then 5 else 1;
             && at < |raw| && raw[at] % 64 == hops && raw[at] / 64 + 1 == size
             && hops * size <= MAX_PATH
             && 0 < |raw| - at - 1 - hops * size <= MAX_PAYLOAD
    ensures Decode(raw).Some?
  {}

  lemma SameCut(a: ByteString, b: ByteString, c: ByteString, d: ByteString)
    requires a + b == c + d && |a| == |c|
    ensures a == c && b == d
  {
    assert a == (a + b)[..|a|] && b == (a + b)[|a|..];
    assert c == (c + d)[..|c|] && d == (c + d)[|c|..];
  }

  lemma {:induction false} EncodedDecodes(p: Packet)
    requires p.Valid() && p.version == 0 && p.payload != []
    ensures Decode(p.Encode()) == Some(p.OnWire())
  {
    var raw := p.Encode();
    EncodedLayout(p);
    PackedPathLenParts(p);
    LaidOutAccepted(raw, p.HopCount(), p.hashSize);
    DecodedLayout(raw);
    var q := Decode(raw).value;
    SameCut(p.path, p.payload, q.path, q.payload);
  }

  /** One hash more or less is one hop more or less. */
  lemma PathSteps(len: nat, size: nat)
    requires 1 <= size <= 3 && len % size == 0
    ensures (len + size) % size == 0 && (len + size) / size == len / size + 1
    ensures len > 0 ==> len >= size && (len - size) % size == 0 && (len - size) / size == len / size - 1
  {}

  /** Repeating or forwarding never makes a valid packet unsendable, and for
      every type but a trace it stays the same packet to the dedup table. */
  lemma HopsKeepValidity(p: Packet, hash: ByteString)
    requires p.Valid()
    ensures p.PopHop().Valid()
    ensures p.path != [] ==> p.FirstHop() + p.PopHop().path == p.path && |p.FirstHop()| == p.hashSize
    ensures p.PushHop(hash).Some? <==>
              |hash| >= p.hashSize && p.HopCount() < 63 && |p.path| + p.hashSize <= MAX_PATH
    ensures p.PushHop(hash).Some? ==>
              && p.PushHop(hash).value.Valid()
              && p.PushHop(hash).value.HopCount() == p.HopCount() + 1
              && p.PushHop(hash).value.path == p.path + hash[..p.hashSize]
    ensures p.kind != TRACE ==>
              && p.PopHop().DedupRegion() == p.DedupRegion()
              && (p.PushHop(hash).Some? ==> p.PushHop(hash).value.DedupRegion() == p.DedupRegion())
  {
    var size: nat := p.hashSize;
    PathSteps(|p.path|, size);
    if p.path != [] {
      var shorter := p.path[size..];
      assert p.path == p.path[..size] + shorter;
      assert p.PopHop() == p.(path := shorter) && |shorter| == |p.path| - size;
    }
    if p.PushHop(hash).Some? {
      assert |p.PushHop(hash).value.path| == |p.path| + size;
    }
  }

  /** The table of packets seen takes two packets for one exactly when they are of
      one type with one payload, and, for traces, as far along. */
  lemma {:induction false} RegionsTellApart(p: Packet, q: Packet)
    ensures p.DedupRegion() == q.DedupRegion() <==>
              p.kind == q.kind && p.payload == q.payload && (p.kind == TRACE ==> p.PackedPathLen() == q.PackedPathLen())
  {
    var a, b := p.DedupRegion(), q.DedupRegion();
    assert a[0] == p.kind && b[0] == q.kind;
    if p.kind == q.kind {
      if p.kind == TRACE {
        U16RoundTrip(p.PackedPathLen());
        U16RoundTrip(q.PackedPathLen());
        assert a[1..3] == U16(p.PackedPathLen()) && b[1..3] == U16(q.PackedPathLen());
        assert a[3..] == p.payload && b[3..] == q.payload;
      } else {
        assert a[1..] == p.payload && b[1..] == q.payload;
      }
    }
  }
}
