/**
 The companion protocol's framing (src/companion/frames.cpp): a start marker, a
 little-endian length and that many bytes, read incrementally from a byte stream
 that may start in the middle of anything.
 */
module Frames {
  import opened Bytes

  const TO_DEVICE: Byte := 60
  const TO_APP: Byte := 62
  const MAX_FRAME := 8192

  predicate Marker(b: Byte) {
    b == TO_DEVICE || b == TO_APP
  }

  /** The first start marker from `i` on, or the end. */
  function MarkerFrom(buf: ByteString, i: nat): (n: nat)
    requires i <= |buf|
    ensures i <= n <= |buf|
    decreases |buf| - i
  {
    if i < |buf| && !Marker(buf[i]) then MarkerFrom(buf, i + 1) else i
  }

  /** It is the only position with no marker before it that is one, or the end. */
  lemma {:induction false} MarkerFromIs(buf: ByteString, i: nat, n: nat)
    requires i <= |buf|
    ensures n == MarkerFrom(buf, i) <==>
              i <= n <= |buf| && (forall k :: i <= k < n ==> !Marker(buf[k])) && (n < |buf| ==> Marker(buf[n]))
    decreases |buf| - i
  {
    if i < |buf| && !Marker(buf[i]) {
      MarkerFromIs(buf, i + 1, n);
    }
  }

  /** The length field of a frame that starts at `i`. */
  function LengthAt(buf: ByteString, i: nat): nat
    requires i + 3 <= |buf|
  {
    Le16(buf[i + 1], buf[i + 2])
  }

  predicate Nonsense(buf: ByteString, i: nat) {
    i + 3 <= |buf| && LengthAt(buf, i) > MAX_FRAME
  }

  /** Resynchronisation: where the next frame starts once junk, and markers
      followed by a nonsense length, are passed over. */
  function Sync(buf: ByteString, i: nat): (p: nat)
    requires i <= |buf|
    ensures i <= p <= |buf| && !Nonsense(buf, p)
    decreases |buf| - i
  {
    var m := MarkerFrom(buf, i);
    if Nonsense(buf, m) then Sync(buf, m + 1) else m
  }

  datatype Step = Waiting(rest: ByteString) | Frame(frame: ByteString, rest: ByteString)

  predicate Complete(buf: ByteString, p: nat) {
    p + 3 <= |buf| && p + 3 + LengthAt(buf, p) <= |buf|
  }

  /** The frame that starts at `p`, if all of it is there. */
  function Extract(buf: ByteString, p: nat): Step
    requires p <= |buf|
  {
    if !Complete(buf, p) then Waiting(buf[p..])
    else Frame(buf[p + 3..p + 3 + LengthAt(buf, p)], buf[p + 3 + LengthAt(buf, p)..])
  }

  /** What one call of `next` yields and leaves in the buffer. */
  function Next(buf: ByteString): (s: Step)
    ensures s.Frame? ==> |s.rest| < |buf| && |s.frame| <= MAX_FRAME
    ensures s.Waiting? ==> |s.rest| <= MAX_FRAME + 2
  {
    Extract(buf, Sync(buf, 0))
  }

  datatype Drained = Drained(frames: seq<ByteString>, rest: ByteString)

  /** Calling `next` until it has nothing more to give. */
  function Drain(buf: ByteString): Drained
    decreases |buf|
  {
    match Next(buf)
    case Waiting(rest) => Drained([], rest)
    case Frame(frame, rest) =>
      var d := Drain(rest);
      Drained([frame] + d.frames, d.rest)
  }

  class FrameReader {
    var buf: ByteString

    constructor ()
      ensures buf == []
    {
      buf := [];
    }

    method Feed(data: ByteString)
      modifies this
      ensures buf == old(buf) + data
    {
      buf := buf + data;
    }

    method SkipJunk()
      modifies this
      ensures buf == old(buf)[MarkerFrom(old(buf), 0)..]
    {
      var start := 0;
      while start < |buf| && !Marker(buf[start])
        invariant start <= |buf| && buf == old(buf)
        invariant MarkerFrom(buf, start) == MarkerFrom(buf, 0)
      {
        start := start + 1;
      }
      buf := buf[start..];
    }

    /** The length field, once marker and length are there. */
    method PeekLength() returns (len: Option<nat>)
      ensures len == if |buf| >= 3 then Some(LengthAt(buf, 0)) else None
    {
      var r := Read(buf).Skip(1);
      var n := r.PeekU16();
      r := r.Skip(2);
      return if r.ok then Some(n) else None;
    }

    method ReadBody(len: nat) returns (frame: Option<ByteString>)
      requires |buf| >= 3 && len == LengthAt(buf, 0)
      modifies this
      ensures (if frame.None? then Waiting(buf) else Frame(frame.value, buf)) == Extract(old(buf), 0)
    {
      assert buf[0..] == buf;
      var r := Read(buf).Skip(3);
      var body := r.View(len);
      r := r.Skip(len);
      if !r.ok {
        return None;
      }
      buf := buf[3 + len..];
      return Some(body);
    }

    method Take() returns (frame: Option<ByteString>)
      modifies this
      ensures (if frame.None? then Waiting(buf) else Frame(frame.value, buf)) == Next(old(buf))
    {
      while true
        invariant Next(buf) == Next(old(buf))
        decreases |buf|
      {
        NextSkips(buf);
        SkipJunk();
        AlignedNext(buf);
        var len := PeekLength();
        if len.None? {
          assert buf[0..] == buf;
          return None;
        }
        if len.value > MAX_FRAME {
          buf := buf[1..];
          continue;
        }
        frame := ReadBody(len.value);
        return;
      }
    }
  }

  /** A start byte, the low 16 bits of the size, and the payload. */
  function Framed(start: Byte, payload: ByteString): ByteString {
    [start] + U16(|payload|) + payload
  }

  /** `frame_response`: what goes to the app. */
  function Response(payload: ByteString): ByteString {
    Framed(62, payload)
  }

  // ---- Chunking --------------------------------------------------------

  lemma MarkerFromLater(buf: ByteString, i: nat, k: nat)
    requires i <= |buf| && i <= k <= MarkerFrom(buf, i)
    ensures MarkerFrom(buf, k) == MarkerFrom(buf, i)
  {
    MarkerFromIs(buf, i, MarkerFrom(buf, i));
    MarkerFromIs(buf, k, MarkerFrom(buf, i));
  }

  lemma MarkerFromMore(a: ByteString, b: ByteString, i: nat)
    requires i <= |a|
    ensures MarkerFrom(a, i) < |a| ==> MarkerFrom(a + b, i) == MarkerFrom(a, i)
    ensures MarkerFrom(a, i) == |a| ==> MarkerFrom(a + b, i) >= |a|
  {
    var n := MarkerFrom(a, i);
    MarkerFromIs(a, i, n);
    MarkerFromIs(a + b, i, n);
    MarkerFromIs(a + b, i, MarkerFrom(a + b, i));
    assert forall k :: 0 <= k < |a| ==> (a + b)[k] == a[k];
  }

  /** Synchronising with more bytes resumes where it stood with fewer. */
  lemma {:induction false} SyncOfMore(a: ByteString, b: ByteString, i: nat)
    requires i <= |a|
    ensures Sync(a + b, i) == Sync(a + b, Sync(a, i))
    decreases |a| - i
  {
    var m := MarkerFrom(a, i);
    MarkerFromMore(a, b, i);
    if Nonsense(a, m) {
      assert LengthAt(a + b, m) == LengthAt(a, m);
      SyncOfMore(a, b, m + 1);
    } else {
      MarkerFromLater(a + b, i, m);
    }
  }

  /** Positions are relative: dropping what was passed over changes nothing. */
  lemma {:induction false} SyncOfSuffix(buf: ByteString, cut: nat, i: nat)
    requires cut <= i <= |buf|
    ensures Sync(buf[cut..], i - cut) + cut == Sync(buf, i)
    decreases |buf| - i
  {
    var t := buf[cut..];
    var m := MarkerFrom(buf, i);
    var n := MarkerFrom(t, i - cut);
    assert n + cut == m by {
      MarkerFromIs(buf, i, m);
      MarkerFromIs(t, i - cut, m - cut);
      assert forall k :: 0 <= k < |t| ==> t[k] == buf[k + cut];
    }
    assert m + 3 <= |buf| ==> LengthAt(t, n) == LengthAt(buf, m);
    if Nonsense(buf, m) {
      SyncOfSuffix(buf, cut, m + 1);
    }
  }

  /** More bytes never change a frame already complete, and a wait picks up
      where it left off. */
  lemma {:induction false} NextOfMore(a: ByteString, b: ByteString)
    ensures match Next(a)
            case Frame(f, rest) => Next(a + b) == Frame(f, rest + b)
            case Waiting(rest) => Next(a + b) == Next(rest + b)
  {
    var p := Sync(a, 0);
    SyncOfMore(a, b, 0);
    if Complete(a, p) {
      SyncStays(a, b, p);
      ExtractOfMore(a, b, p);
    } else {
      WaitOfMore(a, b, p);
    }
  }

  lemma ExtractOfMore(a: ByteString, b: ByteString, p: nat)
    requires Complete(a, p)
    ensures Extract(a, p).Frame? && Extract(a + b, p) == Frame(Extract(a, p).frame, Extract(a, p).rest + b)
  {
    var n := LengthAt(a, p);
    assert LengthAt(a + b, p) == n;
    assert (a + b)[p + 3..p + 3 + n] == a[p + 3..p + 3 + n];
    assert (a + b)[p + 3 + n..] == a[p + 3 + n..] + b;
  }

  lemma {:induction false} WaitOfMore(a: ByteString, b: ByteString, p: nat)
    requires p <= |a| && Sync(a + b, 0) == Sync(a + b, p)
    ensures Next(a + b) == Next(a[p..] + b)
  {
    assert (a + b)[p..] == a[p..] + b;
    SyncOfSuffix(a + b, p, p);
    ExtractShift(a + b, p, Sync(a + b, 0));
  }

  lemma SyncStays(a: ByteString, b: ByteString, p: nat)
    requires p == Sync(a, 0) && Complete(a, p)
    ensures Sync(a + b, p) == p
  {
    SyncIsMarker(a, 0);
    assert (a + b)[p] == a[p];
    assert LengthAt(a + b, p) == LengthAt(a, p);
  }

  lemma SyncIsMarker(buf: ByteString, i: nat)
    requires i <= |buf|
    ensures Sync(buf, i) < |buf| ==> Marker(buf[Sync(buf, i)])
    decreases |buf| - i
  {
    var m := MarkerFrom(buf, i);
    MarkerFromIs(buf, i, m);
    if Nonsense(buf, m) {
      SyncIsMarker(buf, m + 1);
    }
  }

  lemma {:induction false} ExtractShift(buf: ByteString, cut: nat, p: nat)
    requires cut <= p <= |buf|
    ensures Extract(buf[cut..], p - cut) == Extract(buf, p)
  {
    var t := buf[cut..];
    if p + 3 <= |buf| {
      var n := LengthAt(buf, p);
      assert LengthAt(t, p - cut) == n;
      if p + 3 + n <= |buf| {
        assert t[p - cut + 3..p - cut + 3 + n] == buf[p + 3..p + 3 + n];
        assert t[p - cut + 3 + n..] == buf[p + 3 + n..];
      }
    }
    assert t[p - cut..] == buf[p..];
  }

  lemma NextSkips(buf: ByteString)
    ensures var b := buf[MarkerFrom(buf, 0)..];
            Next(b) == Next(buf) && (b != [] ==> Marker(b[0]))
  {
    var m := MarkerFrom(buf, 0);
    MarkerFromIs(buf, 0, m);
    MarkerFromLater(buf, 0, m);
    SyncOfSuffix(buf, m, m);
    ExtractShift(buf, m, Sync(buf, 0));
  }

  lemma {:induction false} AlignedNext(buf: ByteString)
    requires buf != [] ==> Marker(buf[0])
    ensures Nonsense(buf, 0) ==> Next(buf[1..]) == Next(buf)
    ensures !Nonsense(buf, 0) ==> Next(buf) == Extract(buf, 0)
  {
    assert MarkerFrom(buf, 0) == 0;
    if Nonsense(buf, 0) {
      NonsenseSkipped(buf);
    }
  }

  lemma {:induction false} NonsenseSkipped(buf: ByteString)
    requires Nonsense(buf, 0) && MarkerFrom(buf, 0) == 0
    ensures Next(buf[1..]) == Next(buf)
  {
    var p := Sync(buf, 1);
    assert Sync(buf, 0) == p;
    SyncOfSuffix(buf, 1, 1);
    assert Sync(buf[1..], 0) == p - 1;
    ExtractShift(buf, 1, p);
  }

  lemma DrainSame(a: ByteString, b: ByteString)
    requires Next(a) == Next(b)
    ensures Drain(a) == Drain(b)
  {}

  lemma DrainFrame(a: ByteString, f: ByteString, rest: ByteString)
    requires Next(a) == Frame(f, rest)
    ensures Drain(a) == Drained([f] + Drain(rest).frames, Drain(rest).rest)
  {}

  /** `e` drained after `d` was: the frames of both, and what `e` left. */
  function Then(d: Drained, e: Drained): Drained {
    Drained(d.frames + e.frames, e.rest)
  }

  lemma {:induction false} DrainOfMore(a: ByteString, b: ByteString)
    ensures Drain(a + b) == Then(Drain(a), Drain(Drain(a).rest + b))
    decreases |a|
  {
    NextOfMore(a, b);
    match Next(a)
    case Waiting(rest) =>
      DrainSame(a + b, rest + b);
    case Frame(f, rest) =>
      DrainFrame(a, f, rest);
      DrainFrame(a + b, f, rest + b);
      DrainOfMore(rest, b);
      FrameFirst(f, Drain(rest), Drain(Drain(rest).rest + b));
  }

  lemma FrameFirst(f: ByteString, d: Drained, e: Drained)
    ensures Drained([f] + Then(d, e).frames, Then(d, e).rest) == Then(Drained([f] + d.frames, d.rest), e)
  {}

  /** Reading chunk by chunk, draining after each. */
  function Receive(drain: ByteString -> Drained, d: Drained, chunks: seq<ByteString>): Drained
    decreases |chunks|
  {
    if chunks == [] then d else Receive(drain, Then(d, drain(d.rest + chunks[0])), chunks[1..])
  }

  function Flatten(chunks: seq<ByteString>): ByteString {
    if chunks == [] then [] else chunks[0] + Flatten(chunks[1..])
  }

  ghost predicate Resumes(drain: ByteString -> Drained) {
    forall a: ByteString, b: ByteString :: drain(a + b) == Then(drain(a), drain(drain(a).rest + b))
  }

  lemma {:induction false} ResumingIgnoresChunks(drain: ByteString -> Drained, sofar: ByteString, chunks: seq<ByteString>)
    requires Resumes(drain)
    ensures Receive(drain, drain(sofar), chunks) == drain(sofar + Flatten(chunks))
    decreases |chunks|
  {
    if chunks == [] {
      assert sofar + [] == sofar;
    } else {
      ResumingIgnoresChunks(drain, sofar + chunks[0], chunks[1..]);
      assert sofar + Flatten(chunks) == (sofar + chunks[0]) + Flatten(chunks[1..]);
    }
  }

  /** However a stream is cut into reads, the frames and what is left in the
      buffer are those of reading it all at once. */
  lemma {:induction false} ChunkingDoesNotMatter(chunks: seq<ByteString>)
    ensures Receive(Drain, Drain([]), chunks) == Drain(Flatten(chunks))
  {
    forall a: ByteString, b: ByteString ensures Drain(a + b) == Then(Drain(a), Drain(Drain(a).rest + b)) {
      DrainOfMore(a, b);
    }
    ResumingIgnoresChunks(Drain, [], chunks);
    assert [] + Flatten(chunks) == Flatten(chunks);
  }

  /** A drained buffer is never more than a frame in progress. */
  lemma {:induction false} DrainedIsSmall(buf: ByteString)
    ensures |Drain(buf).rest| <= MAX_FRAME + 2
    ensures forall i :: 0 <= i < |Drain(buf).frames| ==> |Drain(buf).frames[i]| <= MAX_FRAME
    decreases |buf|
  {
    if Next(buf).Frame? {
      DrainedIsSmall(Next(buf).rest);
    }
  }

  /** A frame in either direction, `<` or `>`, with what lies before it in the
      stream: bytes that start no frame. */
  datatype Piece = Piece(junk: ByteString, start: Byte, payload: ByteString) {
    predicate Valid() {
      start in {60, 62} && forall i :: 0 <= i < |junk| ==> junk[i] !in {60, 62}
    }

    function Bytes(): ByteString {
      junk + Framed(start, payload)
    }
  }

  function Stream(pieces: seq<Piece>): ByteString {
    if pieces == [] then [] else pieces[0].Bytes() + Stream(pieces[1..])
  }

  function Payloads(pieces: seq<Piece>): (r: seq<ByteString>)
    ensures |r| == |pieces| && forall i :: 0 <= i < |r| ==> r[i] == pieces[i].payload
  {
    seq(|pieces|, i requires 0 <= i < |pieces| => pieces[i].payload)
  }

  /** A frame in either direction is read whole, whatever junk comes before it and
      whatever follows. */
  lemma {:induction false} FrameReadsBack(p: Piece, more: ByteString)
    requires p.Valid() && |p.payload| <= MAX_FRAME
    ensures Next(p.Bytes() + more) == Frame(p.payload, more)
  {
    var b, n := p.Bytes() + more, |p.junk|;
    U16RoundTrip(|p.payload|);
    assert forall i :: 0 <= i < n ==> b[i] == p.junk[i];
    assert b[n] == p.start && b[n + 1] == U16(|p.payload|)[0] && b[n + 2] == U16(|p.payload|)[1];
    MarkerFromIs(b, 0, n);
    assert Sync(b, 0) == n;
    assert b[n + 3..n + 3 + |p.payload|] == p.payload && b[n + 3 + |p.payload|..] == more;
  }

  /** A stream of frames, to the app or to the device and with junk between, reads
      back as its payloads exactly when each is within the maximum frame size. */
  lemma {:induction false} FramesRoundTrip(pieces: seq<Piece>)
    requires forall i :: 0 <= i < |pieces| ==> pieces[i].Valid()
    ensures Drain(Stream(pieces)) == Drained(Payloads(pieces), []) <==>
              forall i :: 0 <= i < |pieces| ==> |pieces[i].payload| <= MAX_FRAME
  {
    DrainedIsSmall(Stream(pieces));
    if forall i :: 0 <= i < |pieces| ==> |pieces[i].payload| <= MAX_FRAME {
      FramesReadBack(pieces);
    }
  }

  lemma {:induction false} FramesReadBack(pieces: seq<Piece>)
    requires forall i :: 0 <= i < |pieces| ==> pieces[i].Valid() && |pieces[i].payload| <= MAX_FRAME
    ensures Drain(Stream(pieces)) == Drained(Payloads(pieces), [])
    decreases |pieces|
  {
    if pieces == [] {
      NothingDrains();
    } else {
      assert Stream(pieces) == pieces[0].Bytes() + Stream(pieces[1..]);
      FramesReadBack(pieces[1..]);
      OneMoreReadsBack(pieces[0], Stream(pieces[1..]), Payloads(pieces[1..]));
      assert Payloads(pieces) == [pieces[0].payload] + Payloads(pieces[1..]);
    }
  }

  lemma NothingDrains()
    ensures Drain([]) == Drained([], [])
  {}

  lemma OneMoreReadsBack(p: Piece, stream: ByteString, frames: seq<ByteString>)
    requires p.Valid() && |p.payload| <= MAX_FRAME && Drain(stream) == Drained(frames, [])
    ensures Drain(p.Bytes() + stream) == Drained([p.payload] + frames, [])
  {
    FrameReadsBack(p, stream);
    DrainFrame(p.Bytes() + stream, p.payload, stream);
  }

  /** What the daemon frames for the app is such a piece. */
  lemma ResponseReadsBack(payload: ByteString, more: ByteString)
    requires |payload| <= MAX_FRAME
    ensures Next(Response(payload) + more) == Frame(payload, more)
  {
    var p := Piece([], 62, payload);
    assert p.Bytes() == Response(payload);
    FrameReadsBack(p, more);
  }
}
