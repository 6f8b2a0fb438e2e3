/**
 Decrypted payload bodies (src/proto/payloads.cpp): text messages with the region
 their acknowledgement hash covers, and returned paths. Encryption pads with
 zeros, so a receiver sees every plaintext with some number of zeros appended.
 */
module Payloads {
  import opened Bytes
  import Packets

  const TEXT_HEADER := 5
  const SIGNED_PREFIX := 4

  const TXT_PLAIN := 0
  const TXT_CLI := 1
  const TXT_SIGNED := 2

  /** `extended` is only ever read from the wire; encoding does not write it. */
  datatype TextMessage = TextMessage(timestamp: int, kind: Byte, attempt: Byte, extended: Byte, text: ByteString) {
    function Flags(): Byte {
      (kind as int * 4 + attempt as int % 4) % 256
    }

    function Encode(): ByteString {
      U32(timestamp) + [Flags()] + text
    }
  }

  function Zeros(n: nat): (z: ByteString)
    ensures |z| == n && forall i :: 0 <= i < n ==> z[i] == 0
  {
    if n == 0 then [] else [0] + Zeros(n - 1)
  }

  /** Where a terminated string that starts at `from` ends: its first zero. */
  function StringEnd(b: ByteString, from: nat): (end: nat)
    requires from <= |b|
    ensures from <= end <= |b|
    ensures forall i :: from <= i < end ==> b[i] != 0
    ensures end < |b| ==> b[end] == 0
    decreases |b| - from
  {
    if from < |b| && b[from] != 0 then StringEnd(b, from + 1) else from
  }

  /** Where the text would begin were the plaintext long enough: a signed
      message carries four raw key bytes, zeros among them perhaps, before it. */
  function TextStart(plaintext: ByteString): nat {
    if |plaintext| >= TEXT_HEADER && plaintext[4] / 4 == TXT_SIGNED then TEXT_HEADER + SIGNED_PREFIX
    else TEXT_HEADER
  }

  function TextOffset(plaintext: ByteString): (at: nat)
    ensures at <= |plaintext|
  {
    if TextStart(plaintext) < |plaintext| then TextStart(plaintext) else |plaintext|
  }

  /** The part of a plaintext that identifies it to an acknowledgement. */
  function AckRegion(plaintext: ByteString): ByteString {
    if |plaintext| <= TEXT_HEADER then plaintext
    else plaintext[..StringEnd(plaintext, TextOffset(plaintext))]
  }

  function ExtendedAttempt(plaintext: ByteString): Byte {
    var after := |AckRegion(plaintext)| + 1;
    if after < |plaintext| then plaintext[after] else 0
  }

  function DecodeText(plaintext: ByteString): Option<TextMessage> {
    var r := Read(plaintext);
    var timestamp := r.PeekU32();
    var r1 := r.Skip(4);
    var flags := r1.PeekU8();
    var r2 := r1.Skip(1);
    if !r2.ok then None else
    var rest := r2.View(r2.Remaining());
    var end := StringEnd(rest, TextOffset(plaintext) - TEXT_HEADER);
    Some(TextMessage(timestamp, flags / 4, flags % 4,
                     if end + 1 < |rest| then rest[end + 1] else 0, rest[..end]))
  }

  /** The scan of `ack_hashed_region`: everything up to the first zero at or
      after the start of the text. */
  method AckHashedRegion(plaintext: ByteString) returns (region: ByteString)
    ensures region == AckRegion(plaintext)
    ensures region <= plaintext
    ensures |plaintext| > TEXT_HEADER ==>
              && TextOffset(plaintext) <= |region|
              && (forall i :: TextOffset(plaintext) <= i < |region| ==> plaintext[i] != 0)
              && (|region| < |plaintext| ==> plaintext[|region|] == 0)
  {
    if |plaintext| <= TEXT_HEADER {
      return plaintext;
    }
    var end := TextOffset(plaintext);
    while end < |plaintext| && plaintext[end] != 0
      invariant TextOffset(plaintext) <= end <= |plaintext|
      invariant StringEnd(plaintext, end) == StringEnd(plaintext, TextOffset(plaintext))
      invariant forall i :: TextOffset(plaintext) <= i < end ==> plaintext[i] != 0
    {
      end := end + 1;
    }
    return plaintext[..end];
  }

  method DecodeTextMessage(plaintext: ByteString) returns (m: Option<TextMessage>)
    ensures m == DecodeText(plaintext)
    ensures m.Some? <==> |plaintext| >= TEXT_HEADER
  {
    var r := Read(plaintext);
    var timestamp := r.PeekU32();
    r := r.Skip(4);
    var flags := r.PeekU8();
    r := r.Skip(1);
    if !r.ok {
      return None;
    }
    var rest := r.View(r.Remaining());
    var start := TextOffset(plaintext) - TEXT_HEADER;
    var end := start;
    while end < |rest| && rest[end] != 0
      invariant start <= end <= |rest|
      invariant StringEnd(rest, end) == StringEnd(rest, start)
    {
      end := end + 1;
    }
    return Some(TextMessage(timestamp, flags / 4, flags % 4,
                            if end + 1 < |rest| then rest[end + 1] else 0, rest[..end]));
  }

  lemma {:induction false} StringEndInSuffix(b: ByteString, cut: nat, from: nat)
    requires cut <= from <= |b|
    ensures StringEnd(b[cut..], from - cut) + cut == StringEnd(b, from)
    decreases |b| - from
  {
    if from < |b| && b[from] != 0 {
      StringEndInSuffix(b, cut, from + 1);
    }
  }

  /** Where the parts of a decoded text lie in it. */
  lemma {:induction false} DecodedParts(p: ByteString)
    requires |p| >= TEXT_HEADER
    ensures var end := StringEnd(p, TextOffset(p));
            && TEXT_HEADER <= end && DecodeText(p).Some?
            && var m := DecodeText(p).value;
               && m.timestamp == Le32(p[0], p[1], p[2], p[3]) && m.kind == p[4] / 4 && m.attempt == p[4] % 4
               && m.text == p[TEXT_HEADER..end]
               && m.extended == if end + 1 < |p| then p[end + 1] else 0
  {
    var rest := p[TEXT_HEADER..];
    StringEndInSuffix(p, TEXT_HEADER, TextOffset(p));
    var end := StringEnd(rest, TextOffset(p) - TEXT_HEADER);
    assert rest[..end] == p[TEXT_HEADER..TEXT_HEADER + end];
    assert Read(p).Skip(4).Skip(1).View(|rest|) == rest;
  }

  lemma FlagsSplit(m: TextMessage, flags: Byte)
    requires m.kind == flags / 4 && m.attempt == flags % 4
    ensures m.Flags() == flags
  {}

  /** Decoding a text and encoding it again gives exactly the bytes its
      acknowledgement covers, and the two readings of the extended attempt
      byte agree. */
  lemma {:induction false} ReencodingIsAckRegion(p: ByteString)
    requires |p| >= TEXT_HEADER
    ensures DecodeText(p).Some?
    ensures DecodeText(p).value.Encode() == AckRegion(p)
    ensures DecodeText(p).value.extended == ExtendedAttempt(p)
  {
    var m := DecodeText(p).value;
    var end := StringEnd(p, TextOffset(p));
    DecodedParts(p);
    FlagsSplit(m, p[4]);
    U32Digits(p[0], p[1], p[2], p[3]);
    assert p[..end] == [p[0], p[1], p[2], p[3]] + [p[4]] + p[TEXT_HEADER..end];
    assert |p| == TEXT_HEADER ==> AckRegion(p) == p[..end];
  }

  lemma {:induction false} StringEndPadded(p: ByteString, n: nat, from: nat)
    requires from <= |p|
    ensures StringEnd(p + Zeros(n), from) == StringEnd(p, from)
    decreases |p| - from
  {
    if from < |p| && p[from] != 0 {
      StringEndPadded(p, n, from + 1);
    }
  }

  /** Padding leaves the region alone exactly when the plaintext reaches the
      place its text starts: byte 9 of a signed message, byte 5 of any other. */
  lemma {:induction false} PaddingLeavesRegion(p: ByteString, n: nat)
    requires n > 0
    ensures AckRegion(p + Zeros(n)) == AckRegion(p) <==> |p| >= TextStart(p)
  {
    var padded := p + Zeros(n);
    if |p| >= TEXT_HEADER {
      assert padded[4] == p[4];
      if |p| >= TextStart(p) {
        StringEndPadded(p, n, TextStart(p));
        var end := StringEnd(p, TextStart(p));
        assert padded[..end] == p[..end];
        assert |p| == TEXT_HEADER ==> AckRegion(p) == p[..end];
      } else {
        assert |AckRegion(p)| == |p|;
        assert |AckRegion(padded)| > |p|;
      }
    } else {
      assert |AckRegion(padded)| > |p|;
    }
  }

  /** Plain messages are acknowledged against the author's key, signed ones
      against the recipient's; each end picks from what it holds. */
  function SenderKey(kind: Byte, own: ByteString, recipient: ByteString): ByteString {
    if kind == TXT_SIGNED then recipient else own
  }

  function ReceiverKey(kind: Byte, own: ByteString, author: ByteString): ByteString {
    if kind == TXT_SIGNED then own else author
  }

  /** What either end feeds the acknowledgement hash. */
  function AckInput(plaintext: ByteString, key: ByteString): ByteString {
    AckRegion(plaintext) + key
  }

  /** Both ends hash the same bytes for every message the flags byte can carry,
      however much padding the cipher added: the acknowledgement matches. */
  lemma {:induction false} EndsAgreeOnAck(m: TextMessage, author: ByteString, recipient: ByteString, n: nat)
    requires 0 <= m.timestamp < 0x1_0000_0000 && m.kind < 64
    requires m.kind == TXT_SIGNED ==> |m.text| >= SIGNED_PREFIX
    ensures var sent := m.Encode();
            var received := sent + Zeros(n);
            && DecodeText(received).Some?
            && DecodeText(received).value.kind == m.kind
            && DecodeText(received).value.timestamp == m.timestamp
            && AckInput(received, ReceiverKey(DecodeText(received).value.kind, recipient, author))
               == AckInput(sent, SenderKey(m.kind, author, recipient))
  {
    var sent := m.Encode();
    var received := sent + Zeros(n);
    assert received[4] == sent[4] == m.Flags();
    assert m.Flags() / 4 == m.kind;
    U32RoundTrip(m.timestamp);
    assert forall i :: 0 <= i < 4 ==> received[i] == U32(m.timestamp)[i];
    if n > 0 {
      PaddingLeavesRegion(sent, n);
    } else {
      assert received == sent;
    }
  }

  // ---- Returned paths --------------------------------------------------

  datatype PathReturn = PathReturn(path: ByteString, hashSize: Byte, hasExtra: bool, extraType: Byte, extra: ByteString) {
    function Encode(): ByteString {
      [Packets.PackedLen(if hashSize == 0 then 1 else hashSize, |path|)] + path
      + (if hasExtra then [extraType % 16] + extra else [])
    }
  }

  function DecodePath(plaintext: ByteString): Option<PathReturn> {
    var r := Read(plaintext);
    var pathLen := r.PeekU8();
    var r1 := r.Skip(1);
    if !r1.ok then None else
    var hashSize := pathLen / 64 + 1;
    if hashSize == 4 then None else
    var n := pathLen as int % 64 * hashSize as int;
    var path := r1.View(n);
    var r2 := r1.Skip(n);
    if !r2.ok || |path| > Packets.MAX_PATH then None
    else if r2.Has(1) then
      var r3 := r2.Skip(1);
      Some(PathReturn(path, hashSize, true, r2.PeekU8() % 16, r3.View(r3.Remaining())))
    else Some(PathReturn(path, hashSize, false, 0, []))
  }

  /** A returned path is taken exactly when its hashes are one to three bytes wide and
      all of it, at most 64 bytes, is there. */
  lemma DecodesPathIff(p: ByteString)
    ensures DecodePath(p).Some? <==>
              p != [] && p[0] / 64 < 3 && p[0] as int % 64 * (p[0] / 64 + 1) as int <= 64
              && 1 + p[0] as int % 64 * (p[0] / 64 + 1) as int <= |p|
    ensures DecodePath(p).Some? ==>
              var ret := DecodePath(p).value;
              1 <= ret.hashSize <= 3 && |ret.path| == p[0] as int % 64 * ret.hashSize as int && ret.extraType < 16
  {}

  /** A returned path survives encryption's padding: the route comes back as
      given, and padding only ever lengthens what rides along. */
  lemma {:induction false} PathReturnSurvivesPadding(ret: PathReturn, n: nat)
    requires 1 <= ret.hashSize <= 3 && |ret.path| <= Packets.MAX_PATH && |ret.path| / ret.hashSize <= 63
    requires |ret.path| % ret.hashSize == 0 && ret.hasExtra && ret.extraType < 16
    ensures DecodePath(ret.Encode() + Zeros(n)) == Some(ret.(extra := ret.extra + Zeros(n)))
  {
    var raw := ret.Encode() + Zeros(n);
    Packets.PackedLenParts(ret.hashSize, |ret.path|);
    assert raw[0] == Packets.PackedLen(ret.hashSize, |ret.path|);
    assert raw[1..1 + |ret.path|] == ret.path;
    assert raw[1 + |ret.path|] == ret.extraType;
    assert raw[2 + |ret.path|..] == ret.extra + Zeros(n);
    var got := DecodePath(raw).value;
    assert got.path == ret.path;
    assert got.extra == raw[2 + |ret.path|..|raw|];
    assert got.extraType == ret.extraType;
    assert got.hashSize == ret.hashSize && got.hasExtra;
    assert got == ret.(extra := ret.extra + Zeros(n));
  }
}
