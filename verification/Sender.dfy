/**
 Reliable delivery (src/mesh/sender.cpp) on top of the transmit scheduler: a text
 is attempted up to four times, each retry armed from the scheduler's result for
 the previous attempt. The scheduler's callbacks only arm a retry timer and never
 re-enter it, so each step here hands over the new results once the scheduler
 call that produced them returns.
 */
module Sender {
  import opened Bytes
  import Search
  import opened Packets
  import opened Payloads
  import opened Scheduler
  import SP = SchedulerProofs

  const MAX_ATTEMPTS := 4
  const PRIORITY_DIRECT := 3

  /** `usable` is whether the key yields a shared secret. */
  datatype Contact = Contact(pubkey: ByteString, usable: bool, pathKnown: bool, outPath: ByteString)

  /** Our key, sealing a plaintext for a contact, and the hashes: of an
      acknowledgement, of a packet seen and of a message delivered. */
  datatype Crypto = Crypto(own: ByteString, seal: (ByteString, ByteString) -> ByteString,
                           ackHash: ByteString -> ByteString, dedup: ByteString -> int, identity: ByteString -> int)

  datatype Pending = Pending(id: nat, ackHash: ByteString, accepted: seq<ByteString>, dest: ByteString,
                             text: ByteString, kind: Byte, timestamp: int, attempt: Byte, timer: Option<nat>) {
    predicate SameMessage(dest': ByteString, text': ByteString, kind': Byte, timestamp': int) {
      dest == dest' && timestamp == timestamp' && kind == kind' && text == text'
    }

    function Plaintext(): ByteString {
      TextMessage(timestamp, kind, attempt, 0, text).Encode()
    }
  }

  /** History: one attempt handed to the scheduler, for the contact as it then was. */
  datatype Attempted = Attempted(id: nat, number: nat, to: Contact, packet: Packet, hash: ByteString)

  datatype Outbox = Outbox(limit: nat, pending: seq<Pending>, nextId: nat, attempts: seq<Attempted>)

  datatype Stack = Stack(d: Scheduler.State, s: Outbox)

  datatype SendError = NoSharedSecret | PendingFull | TooLong

  function Delay(attempt: Byte): nat {
    if attempt == 0 then 8_000 else if attempt == 1 then 16_000 else 32_000
  }

  /** Along the known path unless flooding is forced; by flooding otherwise. */
  function RouteTo(p: Packet, to: Contact, forceFlood: bool): Packet {
    if to.pathKnown && !forceFlood then p.(route := DIRECT, path := to.outPath, hashSize := 1)
    else p.(route := FLOOD, path := [])
  }

  function Index(pending: seq<Pending>, id: nat): nat {
    Search.First(pending, (p: Pending) => p.id == id)
  }

  function Erase(pending: seq<Pending>, id: nat): seq<Pending> {
    if pending == [] then []
    else if pending[0].id == id then Erase(pending[1..], id)
    else [pending[0]] + Erase(pending[1..], id)
  }

  function Drop(s: Outbox, id: nat): Outbox {
    s.(pending := Erase(s.pending, id))
  }

  /** The retry delay runs from the transmission, and a packet that never went
      out advances on the next pass of the loop. */
  function OnTxResult(s: Outbox, id: nat, transmitted: bool, now: nat): Outbox {
    var i := Index(s.pending, id);
    if i == |s.pending| then s else
      var p := s.pending[i];
      s.(pending := s.pending[i := p.(timer := Some(now + if transmitted then Delay(p.attempt) else 1))])
  }

  function Deliver(s: Outbox, results: seq<Result>, now: nat): Outbox {
    if results == [] then s else
      var before := Deliver(s, results[..|results| - 1], now);
      var r := results[|results| - 1];
      if r.op == 0 then before else OnTxResult(before, r.op, r.transmitted, now)
  }

  /** The scheduler moves to `d`, and the results it produced are handed over. */
  function Moved(st: Stack, d: Scheduler.State, now: nat): Stack {
    Stack(d, if |st.d.resolved| <= |d.resolved| then Deliver(st.s, SP.News(st.d, d), now) else st.s)
  }

  function AttemptPacket(c: Crypto, p: Pending, to: Contact, forceFlood: bool): Packet {
    RouteTo(Packet(0, FLOOD, TXT_MSG, 0, 0, 1, [], c.seal(to.pubkey, p.Plaintext())), to, forceFlood)
  }

  function AttemptHash(c: Crypto, p: Pending, to: Contact): ByteString {
    c.ackHash(AckInput(p.Plaintext(), SenderKey(p.kind, c.own, to.pubkey)))
  }

  /** The entry with its current attempt's hash added to those that end it;
      attempt 0 also sets the hash its caller was given. */
  function Noted(c: Crypto, p: Pending, to: Contact): Pending {
    var h := AttemptHash(c, p, to);
    p.(ackHash := if p.attempt == 0 then h else p.ackHash, accepted := p.accepted + [h])
  }

  predicate Sendable(c: Crypto, p: Pending, to: Contact, forceFlood: bool) {
    to.usable && AttemptPacket(c, p, to, forceFlood).Valid()
  }

  function AttemptEvent(c: Crypto, p: Pending, to: Contact, forceFlood: bool, e: Env): SP.Event {
    var packet := AttemptPacket(c, p, to, forceFlood);
    SP.Sends(packet, c.dedup(packet.DedupRegion()), PRIORITY_DIRECT, 0, p.id, e)
  }

  /** One attempt for the registered operation `id`, dropped if it cannot be
      sealed or does not fit. */
  function SendAttempt(st: Stack, c: Crypto, id: nat, to: Contact, forceFlood: bool, e: Env): Stack {
    var i := Index(st.s.pending, id);
    if i == |st.s.pending| then st else
    var p := st.s.pending[i];
    if !to.usable then st.(s := Drop(st.s, id)) else
    var ev := AttemptEvent(c, p, to, forceFlood, e);
    var d := SP.Step(st.d, ev);
    if !Sendable(c, p, to, forceFlood) then Stack(d, Drop(st.s, id)) else
    var note := Attempted(id, p.attempt, to, ev.packet, AttemptHash(c, p, to));
    var s := st.s.(pending := st.s.pending[i := Noted(c, p, to)], attempts := st.s.attempts + [note]);
    Moved(Stack(st.d, s), d, e.now)
  }

  function Fresh(id: nat, to: Contact, text: ByteString, kind: Byte, timestamp: int): Pending {
    Pending(id, [], [], to.pubkey, text, kind, timestamp, 0, None)
  }

  function Duplicate(pending: seq<Pending>, to: Contact, text: ByteString, kind: Byte, timestamp: int): nat {
    Search.First(pending, (p: Pending) => p.SameMessage(to.pubkey, text, kind, timestamp))
  }

  /** Whether a send is turned away or joined to one already waiting. */
  predicate Registers(s: Outbox, to: Contact, text: ByteString, kind: Byte, timestamp: int) {
    && kind != TXT_CLI
    && Duplicate(s.pending, to, text, kind, timestamp) == |s.pending|
    && |s.pending| < s.limit
  }

  /** A new entry at the back, under the next id. */
  function Register(st: Stack, p: Pending): Stack {
    st.(s := st.s.(pending := st.s.pending + [p], nextId := st.s.nextId + 1))
  }

  function SendText(st: Stack, c: Crypto, to: Contact, text: ByteString, kind: Byte, timestamp: int, e: Env): Stack {
    if kind == TXT_CLI then
      if !to.usable then st
      else Moved(st, SP.Step(st.d, AttemptEvent(c, Fresh(0, to, text, kind, timestamp), to, false, e)), e.now)
    else if !Registers(st.s, to, text, kind, timestamp) then st
    else
      var p := Fresh(st.s.nextId, to, text, kind, timestamp);
      SendAttempt(Register(st, p), c, p.id, to, false, e)
  }

  /** The retry timer of the entry at `i` has fired. */
  function Bump(st: Stack, i: nat): Stack
    requires i < |st.s.pending| && st.s.pending[i].attempt < MAX_ATTEMPTS
  {
    var p := st.s.pending[i];
    st.(s := st.s.(pending := st.s.pending[i := p.(attempt := p.attempt + 1, timer := None)]))
  }

  /** No two attempts look alike, so the mesh does not take one for the other. */
  lemma AttemptsDiffer(p: Pending, a: Byte, b: Byte)
    requires a < MAX_ATTEMPTS && b < MAX_ATTEMPTS && a != b
    ensures p.(attempt := a).Plaintext()[4] != p.(attempt := b).Plaintext()[4]
    ensures p.(attempt := a).Plaintext() != p.(attempt := b).Plaintext()
  {
    var first, second := TextMessage(p.timestamp, p.kind, a, 0, p.text), TextMessage(p.timestamp, p.kind, b, 0, p.text);
    assert first.Encode()[4] == first.Flags() && second.Encode()[4] == second.Flags();
  }

  lemma BumpKeepsIndex(st: Stack, i: nat)
    requires i < |st.s.pending| && st.s.pending[i].attempt < MAX_ATTEMPTS
    requires i == Index(st.s.pending, st.s.pending[i].id)
    ensures Index(Bump(st, i).s.pending, st.s.pending[i].id) == i
  {
    var pending := Bump(st, i).s.pending;
    var k := Index(pending, pending[i].id);
    assert k <= i && pending[k].id == st.s.pending[k].id;
  }

  function OnRetry(st: Stack, c: Crypto, id: nat, to: Option<Contact>, e: Env): Stack {
    var i := Index(st.s.pending, id);
    if i == |st.s.pending| then st else
    var p := st.s.pending[i];
    if p.attempt >= MAX_ATTEMPTS - 1 || to.None? then st.(s := Drop(st.s, id)) else
    SendAttempt(Bump(st, i), c, id, to.value, p.attempt + 1 == MAX_ATTEMPTS - 1, e)
  }

  /** The first operation that accepts the hash, or the length if none. */
  function Answered(pending: seq<Pending>, hash: ByteString): nat {
    Search.First(pending, (p: Pending) => hash in p.accepted)
  }

  function Complete(s: Outbox, hash: ByteString): Outbox {
    var i := Answered(s.pending, hash);
    if i == |s.pending| then s else s.(pending := s.pending[..i] + s.pending[i + 1..])
  }

  datatype Outcome = Sent(hash: ByteString) | Failed(error: SendError)

  /** What an attempt reports to its caller. */
  function AttemptOutcome(c: Crypto, p: Pending, to: Contact, forceFlood: bool): Outcome {
    if !to.usable then Failed(NoSharedSecret)
    else if !Sendable(c, p, to, forceFlood) then Failed(TooLong)
    else Sent(AttemptHash(c, p, to))
  }

  function SendOutcome(s: Outbox, c: Crypto, to: Contact, text: ByteString, kind: Byte, timestamp: int): Outcome {
    var twin := Duplicate(s.pending, to, text, kind, timestamp);
    if kind != TXT_CLI && twin < |s.pending| then Sent(s.pending[twin].ackHash)
    else if kind != TXT_CLI && |s.pending| >= s.limit then Failed(PendingFull)
    else AttemptOutcome(c, Fresh(if kind == TXT_CLI then 0 else s.nextId, to, text, kind, timestamp), to, false)
  }
}
