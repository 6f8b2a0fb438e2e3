/**
 What a node does with a packet it hears for the first time (src/mesh/node.cpp):
 deliver and answer what is addressed to it, and relay the rest when relaying is
 on. Opening an envelope, sealing one and hashing are answers from outside.
 */
module Nodes {
  import opened Bytes
  import opened Packets
  import opened Payloads
  import opened Sender
  import Inbox
  import DedupTable

  const PRIORITY_ACK := 1
  const PRIORITY_REPEAT := 5
  const PRIORITY_ADVERT := 6
  const RETURN_PATH_RETRY := 3_000
  const ACK_HASH := 4
  const NO_EXTRA := 15

  datatype Config = Config(repeat: bool, maxHops: Byte)

  /** `inside` is the contact whose key opened the envelope, with the plaintext;
      `victim` the entry a full delivered table would give up. `advert` and `request`
      are whether those handlers pass the packet on; `snr` and the random bytes
      and delays are as drawn; `saved` whether the message store could commit. */
  datatype Env = Env(now: nat, inside: Option<(ByteString, ByteString)>, victim: int, saved: bool,
                     random: Byte, dummy: ByteString, delay: nat, advert: bool, request: bool,
                     snr: Inbox.Small, snrByte: Byte)

  datatype State = State(contacts: map<ByteString, Contact>, ops: Outbox, delivered: DedupTable.Table, box: Inbox.State)

  datatype Role = Reply | Relay

  datatype Out = Out(role: Role, packet: Packet, priority: Byte, delay: nat)

  /** The new state, what is queued, and whether a flooded packet goes on. */
  datatype Outcome = Outcome(s: State, outs: seq<Out>, forward: bool)

  /** An envelope carries two hashes, a two-byte MAC and some ciphertext. */
  predicate IsEnvelope(payload: ByteString) {
    |payload| >= 5
  }

  function OwnId(c: Crypto): Byte {
    if c.own == [] then 0 else c.own[0]
  }

  // ---- Relaying --------------------------------------------------------

  function MaybeRepeat(cfg: Config, own: ByteString, p: Packet, e: Env): seq<Out> {
    if !cfg.repeat || !p.IsFlood() || p.HopCount() >= cfg.maxHops as int then []
    else match p.PushHop(own)
      case None => []
      case Some(out) => [Out(Relay, out, PRIORITY_REPEAT, 100 + e.random as int * 4)]
  }

  function ForwardDirect(cfg: Config, own: ByteString, p: Packet, e: Env): seq<Out> {
    var next := p.FirstHop();
    if !cfg.repeat || next == [] || next != Take(own, |next|) || p.kind == MULTIPART then []
    else [Out(Relay, p.PopHop(), PRIORITY_ACK, if p.kind == ACK then 0 else e.delay)]
  }

  /** A trace goes to the node its payload's route names next, and collects the
      signal it was heard at. */
  function ForwardTrace(cfg: Config, own: ByteString, p: Packet, e: Env): seq<Out> {
    if !cfg.repeat || |p.payload| <= 9 || p.hashSize != 1 || |p.path| >= MAX_PATH then [] else
    var width := [1, 2, 4, 8][p.payload[8] % 4];
    var at := 9 + |p.path| * width;
    if at + width > |p.payload| || p.payload[at..at + width] != Take(own, width) then []
    else [Out(Relay, p.(path := p.path + [e.snrByte]), PRIORITY_ADVERT, e.delay)]
  }

  // ---- Answering -------------------------------------------------------

  /** A sealed PATH for `to` holding the hops `inbound` collected, in the order
      collected, and the acknowledgement if any; flooded unless `via` is given. */
  function PathReturnTo(c: Crypto, to: Contact, inbound: Packet, ack: ByteString,
                        via: Option<(ByteString, Byte)>, delay: nat, e: Env): seq<Out>
  {
    if !to.usable then [] else
    var ret := PathReturn(inbound.path, inbound.hashSize, true,
                          if ack != [] then ACK else NO_EXTRA, if ack != [] then ack else e.dummy);
    var p := Packet(0, FLOOD, PATH, 0, 0, 1, [], c.seal(to.pubkey, ret.Encode()));
    [Out(Reply, if via.Some? then p.(route := DIRECT, path := via.value.0, hashSize := via.value.1) else p,
         PRIORITY_ACK, delay)]
  }

  function AckPayload(hash: ByteString, extended: Byte, random: Byte): ByteString {
    Take(hash, ACK_HASH) + [extended, random]
  }

  function AckFor(c: Crypto, from: Contact, kind: Byte, plaintext: ByteString, e: Env): ByteString {
    if kind == TXT_CLI then []
    else AckPayload(c.ackHash(AckInput(plaintext, ReceiverKey(kind, c.own, from.pubkey))),
                    ExtendedAttempt(plaintext), e.random)
  }

  /** The packed path length for a flood, 0xFF for a direct packet. */
  function CompanionPathLen(p: Packet): Byte {
    if p.IsFlood() then p.PackedPathLen() else 255
  }

  /** What the user reads: a signed message's text less its key prefix. */
  function Body(m: TextMessage): ByteString {
    if m.kind == TXT_SIGNED then (if |m.text| >= SIGNED_PREFIX then m.text[SIGNED_PREFIX..] else []) else m.text
  }

  function ToStore(m: TextMessage, from: Contact, p: Packet, e: Env): Inbox.Message {
    Inbox.Message(false, from.pubkey, 0, m.timestamp % 0x1_0000_0000, m.kind, e.snr, CompanionPathLen(p), Body(m))
  }

  /** Everything that makes a message a different one; not its attempt number. */
  function Identity(from: Contact, m: TextMessage): ByteString {
    from.pubkey + U32(m.timestamp % 0x1_0000_0000) + [m.kind] + m.text
  }

  /** A message heard for the first time is committed; a retry of it is not. */
  function Delivered(c: Crypto, s: State, m: TextMessage, from: Contact, p: Packet, e: Env): State {
    var key := c.identity(Identity(from, m));
    var table := DedupTable.Sight(s.delivered, key, e.now, DedupTable.DELIVERED, e.victim);
    if DedupTable.Live(s.delivered, key, e.now) then s.(delivered := table)
    else s.(delivered := table, box := Inbox.Store(s.box, ToStore(m, from, p, e), e.saved))
  }

  function HandleText(c: Crypto, s: State, p: Packet, e: Env): Outcome {
    if !IsEnvelope(p.payload) then Outcome(s, [], false)
    else if p.payload[0] != OwnId(c) || e.inside.None? || e.inside.value.0 !in s.contacts then Outcome(s, [], true)
    else
      var from := s.contacts[e.inside.value.0];
      var plaintext := e.inside.value.1;
      var m := DecodeText(plaintext);
      if m.None? || m.value.kind !in {TXT_PLAIN, TXT_CLI, TXT_SIGNED} then Outcome(s, [], false) else
      var ack := AckFor(c, from, m.value.kind, plaintext, e);
      var s1 := Delivered(c, s, m.value, from, p, e);
      if p.IsFlood() then Outcome(s1, PathReturnTo(c, from, p, ack, None, 0, e), false)
      else if ack == [] then Outcome(s1, [], false)
      else
        var reply := RouteTo(Packet(0, FLOOD, ACK, 0, 0, 1, [], ack), from, false);
        Outcome(s1, [Out(Reply, reply, PRIORITY_ACK, 0)], false)
  }

  function HandleAck(c: Crypto, s: State, p: Packet, e: Env): Outcome {
    if |p.payload| < ACK_HASH then Outcome(s, [], false) else
    var hash := p.payload[..ACK_HASH];
    var i := Answered(s.ops.pending, hash);
    if i == |s.ops.pending| then Outcome(s, [], true) else
    var dest := s.ops.pending[i].dest;
    var s1 := s.(ops := Complete(s.ops, hash));
    if p.IsFlood() && dest in s.contacts && s.contacts[dest].pathKnown then
      var to := s.contacts[dest];
      Outcome(s1, PathReturnTo(c, to, p, [], Some((to.outPath, 1)), RETURN_PATH_RETRY, e), false)
    else Outcome(s1, [], false)
  }

  /** The acknowledgement inside a returned path, if it carries one. */
  function InnerAck(ret: PathReturn): Option<ByteString> {
    if ret.hasExtra && ret.extraType == ACK && |ret.extra| >= ACK_HASH then Some(ret.extra[..ACK_HASH]) else None
  }

  /** A route with one-byte hashes is taken; wider ones cannot be addressed. */
  function LearnPath(s: State, from: Contact, ret: PathReturn): State {
    var s1 := if ret.hashSize == 1
              then s.(contacts := s.contacts[from.pubkey := from.(pathKnown := true, outPath := ret.path)]) else s;
    var ack := InnerAck(ret);
    if ack.Some? then s1.(ops := Complete(s1.ops, ack.value)) else s1
  }

  function HandlePath(c: Crypto, s: State, p: Packet, e: Env): Outcome {
    if !IsEnvelope(p.payload) then Outcome(s, [], false)
    else if p.payload[0] != OwnId(c) || e.inside.None? || e.inside.value.0 !in s.contacts then Outcome(s, [], true)
    else
      var from := s.contacts[e.inside.value.0];
      var ret := DecodePath(e.inside.value.1);
      if ret.None? then Outcome(s, [], true) else
      Outcome(LearnPath(s, from, ret.value),
              if p.IsFlood() then PathReturnTo(c, from, p, [], Some((ret.value.path, ret.value.hashSize)), 0, e) else [],
              false)
  }

  // ---- Dispatch --------------------------------------------------------

  /** What the handler for the packet's type makes of it. */
  function Handle(c: Crypto, s: State, p: Packet, e: Env): Outcome {
    if p.kind == TXT_MSG then HandleText(c, s, p, e)
    else if p.kind == ACK then HandleAck(c, s, p, e)
    else if p.kind == PATH then HandlePath(c, s, p, e)
    else Outcome(s, [], (p.kind == ADVERT && e.advert) || p.kind == GRP_TXT || p.kind == GRP_DATA
                        || (p.kind in {REQ, RESPONSE, ANON_REQ} && e.request))
  }

  function OnPacket(cfg: Config, c: Crypto, s: State, p: Packet, e: Env): Outcome {
    if p.IsDirect() && p.kind == TRACE then Outcome(s, ForwardTrace(cfg, c.own, p, e), false)
    else if p.IsDirect() && p.kind == CONTROL && p.payload != [] && p.payload[0] >= 128 then Outcome(s, [], false)
    else if p.IsDirect() && p.HopCount() > 0 then
      // On its way to another node, though an ack may end an operation of ours.
      var h := if p.kind == ACK then HandleAck(c, s, p, e) else Outcome(s, [], true);
      Outcome(h.s, h.outs + (if h.forward then ForwardDirect(cfg, c.own, p, e) else []), false)
    else
      var h := Handle(c, s, p, e);
      Outcome(h.s, h.outs + (if h.forward then MaybeRepeat(cfg, c.own, p, e) else []), h.forward)
  }

  // ---- The node itself -------------------------------------------------

  class Node {
    const cfg: Config
    const crypto: Crypto
    var contacts: map<ByteString, Contact>
    var ops: Outbox
    var delivered: DedupTable.Table
    var box: Inbox.State

    ghost function Model(): State
      reads this
    {
      State(contacts, ops, delivered, box)
    }

    constructor (cfg: Config, crypto: Crypto, s: State)
      ensures Model() == s && this.cfg == cfg && this.crypto == crypto
    {
      this.cfg, this.crypto := cfg, crypto;
      contacts, ops, delivered, box := s.contacts, s.ops, s.delivered, s.box;
    }

    /** The contact an envelope addressed to us was opened with, if any. */
    method Open(p: Packet, e: Env) returns (from: Option<Contact>)
      requires IsEnvelope(p.payload)
      ensures from == if p.payload[0] != OwnId(crypto) || e.inside.None? || e.inside.value.0 !in contacts then None
                      else Some(contacts[e.inside.value.0])
    {
      if p.payload[0] != OwnId(crypto) || e.inside.None? || e.inside.value.0 !in contacts {
        return None;
      }
      return Some(contacts[e.inside.value.0]);
    }

    method DeliverText(m: TextMessage, from: Contact, p: Packet, e: Env)
      modifies this
      ensures Model() == Delivered(crypto, old(Model()), m, from, p, e)
    {
      var first;
      delivered, first := DedupTable.FirstDelivery(delivered, crypto.identity(Identity(from, m)), e.now, e.victim);
      if first {
        box := Inbox.Store(box, ToStore(m, from, p, e), e.saved);
      }
    }

    method OnText(p: Packet, e: Env) returns (outs: seq<Out>, forward: bool)
      modifies this
      ensures Outcome(Model(), outs, forward) == HandleText(crypto, old(Model()), p, e)
    {
      if !IsEnvelope(p.payload) {
        return [], false;
      }
      var from := Open(p, e);
      if from.None? {
        return [], true;
      }
      var plaintext := e.inside.value.1;
      var m := DecodeTextMessage(plaintext);
      if m.None? || (m.value.kind != TXT_PLAIN && m.value.kind != TXT_CLI && m.value.kind != TXT_SIGNED) {
        return [], false;
      }
      DeliverText(m.value, from.value, p, e);
      var ack := AckFor(crypto, from.value, m.value.kind, plaintext, e);
      if p.IsFlood() {
        return PathReturnTo(crypto, from.value, p, ack, None, 0, e), false;
      }
      if ack == [] {
        return [], false;
      }
      var reply := RouteTo(Packet(0, FLOOD, ACK, 0, 0, 1, [], ack), from.value, false);
      return [Out(Reply, reply, PRIORITY_ACK, 0)], false;
    }

    method OnAck(p: Packet, e: Env) returns (outs: seq<Out>, forward: bool)
      modifies this`ops
      ensures Outcome(Model(), outs, forward) == HandleAck(crypto, old(Model()), p, e)
    {
      if |p.payload| < ACK_HASH {
        return [], false;
      }
      var hash := p.payload[..ACK_HASH];
      var i := Answered(ops.pending, hash);
      if i == |ops.pending| {
        return [], true;
      }
      var dest := ops.pending[i].dest;
      ops := Complete(ops, hash);
      if p.IsFlood() && dest in contacts && contacts[dest].pathKnown {
        var to := contacts[dest];
        return PathReturnTo(crypto, to, p, [], Some((to.outPath, 1)), RETURN_PATH_RETRY, e), false;
      }
      return [], false;
    }

    method OnPath(p: Packet, e: Env) returns (outs: seq<Out>, forward: bool)
      modifies this
      ensures Outcome(Model(), outs, forward) == HandlePath(crypto, old(Model()), p, e)
    {
      if !IsEnvelope(p.payload) {
        return [], false;
      }
      var from := Open(p, e);
      if from.None? {
        return [], true;
      }
      var ret := DecodePath(e.inside.value.1);
      if ret.None? {
        return [], true;
      }
      if ret.value.hashSize == 1 {
        contacts := contacts[from.value.pubkey := from.value.(pathKnown := true, outPath := ret.value.path)];
      }
      var ack := InnerAck(ret.value);
      if ack.Some? {
        ops := Complete(ops, ack.value);
      }
      if p.IsFlood() {
        return PathReturnTo(crypto, from.value, p, [], Some((ret.value.path, ret.value.hashSize)), 0, e), false;
      }
      return [], false;
    }

    method Receive(p: Packet, e: Env) returns (outs: seq<Out>)
      modifies this
      ensures Model() == OnPacket(cfg, crypto, old(Model()), p, e).s
      ensures outs == OnPacket(cfg, crypto, old(Model()), p, e).outs
    {
      if p.IsDirect() && p.kind == TRACE {
        return ForwardTrace(cfg, crypto.own, p, e);
      }
      if p.IsDirect() && p.kind == CONTROL && p.payload != [] && p.payload[0] >= 128 {
        return [];
      }
      if p.IsDirect() && p.HopCount() > 0 {
        var forward := true;
        outs := [];
        if p.kind == ACK {
          outs, forward := OnAck(p, e);
        }
        return outs + if forward then ForwardDirect(cfg, crypto.own, p, e) else [];
      }
      var forward;
      if p.kind == TXT_MSG {
        outs, forward := OnText(p, e);
      } else if p.kind == ACK {
        outs, forward := OnAck(p, e);
      } else if p.kind == PATH {
        outs, forward := OnPath(p, e);
      } else {
        outs := [];
        forward := (p.kind == ADVERT && e.advert) || p.kind == GRP_TXT || p.kind == GRP_DATA
                   || (p.kind in {REQ, RESPONSE, ANON_REQ} && e.request);
      }
      return outs + if forward then MaybeRepeat(cfg, crypto.own, p, e) else [];
    }
  }

  // ---- Replies terminate -----------------------------------------------

  /** Texts rank above flooded paths and acks, those above everything else. */
  function Rank(p: Packet): nat {
    if p.kind == TXT_MSG then 2
    else if p.IsFlood() && (p.kind == PATH || p.kind == ACK) then 1
    else 0
  }

  function Replies(outs: seq<Out>): nat {
    if outs == [] then 0 else (if outs[0].role == Reply then 1 else 0) + Replies(outs[1..])
  }

  lemma HandleReplies(c: Crypto, s: State, p: Packet, e: Env)
    ensures var h := Handle(c, s, p, e);
            && |h.outs| <= 1
            && (forall o :: o in h.outs ==> o.role == Reply && Rank(o.packet) < Rank(p))
            && (h.forward ==> h.outs == [])
  {}

  lemma AckReplies(c: Crypto, s: State, p: Packet, e: Env)
    ensures var h := HandleAck(c, s, p, e);
            && |h.outs| <= 1 && (h.forward ==> h.outs == [])
            && (p.IsDirect() ==> h.outs == [])
  {}

  /** Every packet heard triggers at most one packet queued in response, either a
      reply of strictly lower rank or a relayed copy of the same rank, type and
      payload. */
  lemma {:induction false} AtMostOneAnswer(cfg: Config, c: Crypto, s: State, p: Packet, e: Env)
    ensures var outs := OnPacket(cfg, c, s, p, e).outs;
            && |outs| <= 1
            && forall o :: o in outs ==>
                 if o.role == Reply then Rank(o.packet) < Rank(p)
                 else Rank(o.packet) == Rank(p) && o.packet.kind == p.kind && o.packet.payload == p.payload
                      && (o.packet.IsFlood() <==> p.IsFlood())
  {
    HandleReplies(c, s, p, e);
    AckReplies(c, s, p, e);
  }

  /** `q` is a reply some node, in some state, makes on hearing `p`. */
  ghost predicate Answers(p: Packet, q: Packet) {
    exists cfg: Config, c: Crypto, s: State, e: Env, o: Out ::
      o in OnPacket(cfg, c, s, p, e).outs && o.role == Reply && o.packet == q
  }

  /** `q` is a copy of `p` as relays pass it on: other path, same packet. */
  predicate Copy(p: Packet, q: Packet) {
    p.kind == q.kind && p.payload == q.payload && (p.IsFlood() <==> q.IsFlood())
  }

  /** Each packet after the first answers a copy of the one before it. */
  ghost predicate Exchange(packets: seq<Packet>) {
    forall i :: 0 < i < |packets| ==> exists q :: Copy(packets[i - 1], q) && Answers(q, packets[i])
  }

  lemma {:induction false} ExchangeDescends(packets: seq<Packet>, i: nat)
    requires Exchange(packets) && i < |packets|
    ensures Rank(packets[i]) + i <= 2
    decreases i
  {
    if i > 0 {
      ExchangeDescends(packets, i - 1);
      var q :| Copy(packets[i - 1], q) && Answers(q, packets[i]);
      var cfg: Config, c: Crypto, s: State, e: Env, o: Out :|
        o in OnPacket(cfg, c, s, q, e).outs && o.role == Reply && o.packet == packets[i];
      AtMostOneAnswer(cfg, c, s, q, e);
    }
  }

  /** No two nodes can answer each other for ever: whatever nodes take part and
      whatever their states, an exchange of automatic replies ends after two. */
  lemma RepliesTerminate(packets: seq<Packet>)
    requires Exchange(packets)
    ensures |packets| <= 3
  {
    if |packets| > 3 {
      ExchangeDescends(packets, 3);
    }
  }

  // ---- Retries are delivered once --------------------------------------

  /** Two attempts at one message decode to it alike, attempt numbers aside. */
  lemma {:induction false} AttemptsDecodeAlike(m: TextMessage, a: Byte, n: nat)
    requires m.kind < 64
    ensures var one, two := DecodeText(m.Encode() + Zeros(n)), DecodeText(m.(attempt := a).Encode() + Zeros(n));
            one.Some? && two.Some? && one.value.kind == m.kind
            && two.value == one.value.(attempt := two.value.attempt)
  {
    var p, q := m.Encode() + Zeros(n), m.(attempt := a).Encode() + Zeros(n);
    assert p[4] == m.Flags() && q[4] == m.(attempt := a).Flags();
    assert p[4] / 4 == m.kind == q[4] / 4;
    assert forall i :: 0 <= i < |p| && i != 4 ==> p[i] == q[i];
    SameButAttempt(p, q);
  }

  lemma {:induction false} SameButAttempt(p: ByteString, q: ByteString)
    requires |p| == |q| >= TEXT_HEADER && p[4] / 4 == q[4] / 4
    requires forall i :: 0 <= i < |p| && i != 4 ==> p[i] == q[i]
    ensures DecodeText(p).Some? && DecodeText(q).Some? && DecodeText(p).value.kind == p[4] / 4
    ensures DecodeText(q).value == DecodeText(p).value.(attempt := DecodeText(q).value.attempt)
  {
    DecodedParts(p);
    DecodedParts(q);
    var at := TextOffset(p);
    assert at == TextOffset(q);
    SameTailSameEnd(p, q, at);
    var end := StringEnd(p, at);
    SameStretch(p, q, TEXT_HEADER, end);
  }

  lemma SameStretch(p: ByteString, q: ByteString, from: nat, end: nat)
    requires |p| == |q| && from <= end <= |p| && forall i :: from <= i < |p| ==> p[i] == q[i]
    ensures p[from..end] == q[from..end]
  {}

  lemma {:induction false} SameTailSameEnd(p: ByteString, q: ByteString, at: nat)
    requires |p| == |q| && at <= |p| && forall i :: at <= i < |p| ==> p[i] == q[i]
    ensures StringEnd(p, at) == StringEnd(q, at)
    decreases |p| - at
  {
    if at < |p| && p[at] != 0 {
      SameTailSameEnd(p, q, at + 1);
    }
  }

  /** The packet holds, for this node, `plaintext` from the contact `key`. */
  predicate Holds(c: Crypto, s: State, p: Packet, e: Env, key: ByteString, plaintext: ByteString) {
    && p.kind == TXT_MSG && (p.IsDirect() ==> p.HopCount() == 0)
    && IsEnvelope(p.payload) && p.payload[0] == OwnId(c)
    && key in s.contacts && e.inside == Some((key, plaintext))
  }

  lemma TextIsHandled(cfg: Config, c: Crypto, s: State, p: Packet, e: Env, key: ByteString, plaintext: ByteString)
    requires Holds(c, s, p, e, key, plaintext) && DecodeText(plaintext).Some?
    requires DecodeText(plaintext).value.kind in {TXT_PLAIN, TXT_CLI, TXT_SIGNED}
    ensures var m, r := DecodeText(plaintext).value, OnPacket(cfg, c, s, p, e);
            && r.s == Delivered(c, s, m, s.contacts[key], p, e)
            && (m.kind != TXT_CLI && s.contacts[key].usable ==>
                  |r.outs| == 1 && r.outs[0].role == Reply && r.outs[0].packet.kind in {ACK, PATH})
  {}

  /** In any state of the node, an attempt at a message is answered, and it is
      stored exactly when no attempt at it is in the delivered table: the attempt
      number, and how it came, make no difference to either. */
  lemma {:induction false} RetryIsAckedNotStored(cfg: Config, c: Crypto, s: State, q: Packet, f: Env,
                                                 m: TextMessage, a: Byte, n: nat, key: ByteString)
    requires m.kind in {TXT_PLAIN, TXT_CLI, TXT_SIGNED}
    requires Holds(c, s, q, f, key, m.(attempt := a).Encode() + Zeros(n))
    ensures DecodeText(m.Encode() + Zeros(n)).Some?
    ensures var r, first := OnPacket(cfg, c, s, q, f), DecodeText(m.Encode() + Zeros(n)).value;
            && r.s.box == (if DedupTable.Live(s.delivered, c.identity(Identity(s.contacts[key], first)), f.now) then s.box
                           else Inbox.Store(s.box, ToStore(first, s.contacts[key], q, f), f.saved))
            && (m.kind != TXT_CLI && s.contacts[key].usable ==>
                  |r.outs| == 1 && r.outs[0].role == Reply && r.outs[0].packet.kind in {ACK, PATH})
  {
    AttemptsDecodeAlike(m, a, n);
    TextIsHandled(cfg, c, s, q, f, key, m.(attempt := a).Encode() + Zeros(n));
  }

  // ---- The acknowledgement comes home ----------------------------------

  /** What the recipient hashes for an attempt is what its author noted: the
      acknowledgement begins with a hash the operation accepts. */
  lemma {:induction false} AckMatchesAttempt(author: Crypto, recipient: Crypto, op: Pending, to: Contact, from: Contact,
                                             n: nat, e: Env)
    requires author.ackHash == recipient.ackHash && to.pubkey == recipient.own && from.pubkey == author.own
    requires |AttemptHash(author, op, to)| == ACK_HASH
    requires 0 <= op.timestamp < 0x1_0000_0000 && op.kind < 64 && op.kind != TXT_CLI
    requires op.kind == TXT_SIGNED ==> |op.text| >= SIGNED_PREFIX
    ensures var ack := AckFor(recipient, from, op.kind, op.Plaintext() + Zeros(n), e);
            |ack| >= ACK_HASH && ack[..ACK_HASH] == AttemptHash(author, op, to)
  {
    var m := TextMessage(op.timestamp, op.kind, op.attempt, 0, op.text);
    EndsAgreeOnAck(m, author.own, recipient.own, n);
  }

  /** The reader opens what the writer sealed for it: an envelope to its own
      address, holding the plaintext with the cipher's padding. */
  ghost predicate Opens(reader: Crypto, writer: Crypto, payload: ByteString, e: Env) {
    && IsEnvelope(payload) && payload[0] == OwnId(reader)
    && forall plain: ByteString :: payload == writer.seal(reader.own, plain) ==>
         e.inside.Some? && e.inside.value.0 == writer.own && Padded(e.inside.value.1, plain)
  }

  ghost predicate Padded(opening: ByteString, plain: ByteString) {
    exists n: nat :: opening == plain + Zeros(n)
  }

  /** The contact is known under its own key, which yields a shared secret. */
  predicate Knows(s: State, key: ByteString) {
    key in s.contacts && s.contacts[key].pubkey == key && s.contacts[key].usable
  }

  /** A text that both ends can acknowledge: plain, or signed with its prefix. */
  predicate Ackable(op: Pending) {
    && 0 <= op.timestamp < 0x1_0000_0000 && op.kind in {TXT_PLAIN, TXT_SIGNED}
    && (op.kind == TXT_SIGNED ==> |op.text| >= SIGNED_PREFIX)
  }

  /** The returned path carries an acknowledgement with this hash. */
  predicate Acks(ret: PathReturn, hash: ByteString) {
    ret.hasExtra && ret.extraType == 3 && |ret.extra| >= ACK_HASH && ret.extra[..ACK_HASH] == hash
  }

  /** What the recipient sends back holds the author's hash: in an ACK packet, or in
      a PATH sealed for the author beside the path the flood came by. */
  ghost predicate Acknowledges(q: Packet, a: Packet, author: Crypto, recipient: Crypto, back: Contact, hash: ByteString) {
    if q.IsFlood() then
      && a.IsFlood() && a.kind == PATH && a.path == [] && a.hashSize == 1
      && exists ret: PathReturn ::
           && a.payload == recipient.seal(author.own, ret.Encode()) && Acks(ret, hash)
           && ret.path == q.path && ret.hashSize == q.hashSize
    else
      && a.kind == ACK && |a.payload| >= ACK_HASH && a.payload[..ACK_HASH] == hash
      && (a.IsDirect() <==> back.pathKnown) && (a.IsDirect() ==> a.path == back.outPath && a.hashSize == 1)
  }

  /** From the recipient's own handling of an attempt that reached it, in whatever
      state it is: exactly one reply, and it acknowledges that attempt. */
  lemma {:induction false} RecipientAcknowledges(cfg: Config, author: Crypto, recipient: Crypto, s: State, op: Pending, to: Contact,
                                                 forceFlood: bool, q: Packet, e: Env)
    requires author.ackHash == recipient.ackHash && to.pubkey == recipient.own && Ackable(op)
    requires |AttemptHash(author, op, to)| == ACK_HASH && Knows(s, author.own)
    requires q.kind == TXT_MSG && q.payload == AttemptPacket(author, op, to, forceFlood).payload
    requires (q.IsDirect() ==> q.HopCount() == 0) && Opens(recipient, author, q.payload, e)
    ensures var outs := OnPacket(cfg, recipient, s, q, e).outs;
            && |outs| == 1 && outs[0].role == Reply
            && Acknowledges(q, outs[0].packet, author, recipient, s.contacts[author.own], AttemptHash(author, op, to))
  {
    assert q.payload == author.seal(recipient.own, op.Plaintext());
    assert Padded(e.inside.value.1, op.Plaintext());
    var n: nat :| e.inside.value.1 == op.Plaintext() + Zeros(n);
    var hash, from := AttemptHash(author, op, to), s.contacts[author.own];
    AckMatchesAttempt(author, recipient, op, to, from, n, e);
    AttemptDecodes(op, n);
    TextIsAnswered(cfg, recipient, s, q, e, author.own, e.inside.value.1);
    var ack := AckFor(recipient, from, op.kind, e.inside.value.1, e);
    if q.IsFlood() {
      var ret := PathReturn(q.path, q.hashSize, true, ACK, ack);
      assert Acks(ret, hash);
    }
  }

  lemma AttemptDecodes(op: Pending, n: nat)
    requires Ackable(op)
    ensures DecodeText(op.Plaintext() + Zeros(n)).Some? && DecodeText(op.Plaintext() + Zeros(n)).value.kind == op.kind
  {
    EndsAgreeOnAck(TextMessage(op.timestamp, op.kind, op.attempt, 0, op.text), [], [], n);
  }

  /** The one reply to a text that is acknowledged. */
  lemma TextIsAnswered(cfg: Config, c: Crypto, s: State, p: Packet, e: Env, key: ByteString, plaintext: ByteString)
    requires Holds(c, s, p, e, key, plaintext) && s.contacts[key].usable && DecodeText(plaintext).Some?
    requires DecodeText(plaintext).value.kind in {TXT_PLAIN, TXT_SIGNED}
    ensures var outs, from := OnPacket(cfg, c, s, p, e).outs, s.contacts[key];
            var ack := AckFor(c, from, DecodeText(plaintext).value.kind, plaintext, e);
            && |outs| == 1 && outs[0].role == Reply
            && outs[0].packet ==
                 if p.IsFlood() then
                   Packet(0, FLOOD, PATH, 0, 0, 1, [], c.seal(from.pubkey, PathReturn(p.path, p.hashSize, true, ACK, ack).Encode()))
                 else if from.pathKnown then Packet(0, DIRECT, ACK, 0, 0, 1, from.outPath, ack)
                 else Packet(0, FLOOD, ACK, 0, 0, 1, [], ack)
  {}

  /** The author ends the operation an acknowledgement is for, however it comes. */
  lemma {:induction false} AuthorCompletes(cfg: Config, author: Crypto, recipient: Crypto, s: State, hash: ByteString, i: nat,
                                           q: Packet, a: Packet, contact: Contact, back: Packet, f: Env)
    requires q.Valid() && |hash| == ACK_HASH && Acknowledges(q, a, author, recipient, contact, hash)
    requires i < |s.ops.pending|
    requires forall j :: 0 <= j < |s.ops.pending| ==> (hash in s.ops.pending[j].accepted <==> j == i)
    requires back.kind == a.kind && back.payload == a.payload
    requires back.kind == PATH ==> (back.IsDirect() ==> back.HopCount() == 0) && Opens(author, recipient, back.payload, f)
    requires recipient.own in s.contacts
    ensures OnPacket(cfg, author, s, back, f).s.ops.pending == s.ops.pending[..i] + s.ops.pending[i + 1..]
  {
    CompletesOne(s.ops, hash, i);
    if q.IsFlood() {
      SealedAckCompletes(cfg, author, recipient, s, hash, q, a, contact, back, f);
    } else {
      AckCompletes(cfg, author, s, back, f);
    }
  }

  lemma CompletesOne(ops: Outbox, hash: ByteString, i: nat)
    requires i < |ops.pending|
    requires forall j :: 0 <= j < |ops.pending| ==> (hash in ops.pending[j].accepted <==> j == i)
    ensures Complete(ops, hash).pending == ops.pending[..i] + ops.pending[i + 1..]
  {
    var k := Answered(ops.pending, hash);
    assert hash in ops.pending[i].accepted && k <= i;
    assert hash in ops.pending[k].accepted;
  }

  /** Nothing else ends an operation: only an ack, or an ack inside a path returned by
      a contact. */
  lemma {:induction false} OnlyAcksEnd(cfg: Config, c: Crypto, s: State, p: Packet, e: Env)
    requires OnPacket(cfg, c, s, p, e).s.ops != s.ops
    ensures || (p.kind == ACK && |p.payload| >= 4)
            || (&& p.kind == PATH && e.inside.Some? && e.inside.value.0 in s.contacts && DecodePath(e.inside.value.1).Some?
                && var ret := DecodePath(e.inside.value.1).value; ret.hasExtra && ret.extraType == 3 && |ret.extra| >= 4)
  {}

  lemma {:induction false} SealedAckCompletes(cfg: Config, author: Crypto, recipient: Crypto, s: State, hash: ByteString,
                                              q: Packet, a: Packet, contact: Contact, back: Packet, f: Env)
    requires q.Valid() && q.IsFlood() && Acknowledges(q, a, author, recipient, contact, hash)
    requires back.kind == PATH && back.payload == a.payload && recipient.own in s.contacts
    requires (back.IsDirect() ==> back.HopCount() == 0) && Opens(author, recipient, back.payload, f)
    ensures OnPacket(cfg, author, s, back, f).s.ops == Complete(s.ops, hash)
  {
    var ret: PathReturn :|
      && a.payload == recipient.seal(author.own, ret.Encode()) && Acks(ret, hash)
      && ret.path == q.path && ret.hashSize == q.hashSize;
    assert Padded(f.inside.value.1, ret.Encode());
    var n: nat :| f.inside.value.1 == ret.Encode() + Zeros(n);
    PathReturnSurvivesPadding(ret, n);
    var got := ret.(extra := ret.extra + Zeros(n));
    assert got.extra[..ACK_HASH] == hash;
    PathCompletes(cfg, author, s, back, f, got);
  }

  lemma AckCompletes(cfg: Config, c: Crypto, s: State, p: Packet, f: Env)
    requires p.kind == ACK && |p.payload| >= ACK_HASH
    ensures OnPacket(cfg, c, s, p, f).s.ops == Complete(s.ops, p.payload[..ACK_HASH])
  {}

  lemma PathCompletes(cfg: Config, c: Crypto, s: State, p: Packet, f: Env, ret: PathReturn)
    requires p.kind == PATH && (p.IsDirect() ==> p.HopCount() == 0) && IsEnvelope(p.payload) && p.payload[0] == OwnId(c)
    requires f.inside.Some? && f.inside.value.0 in s.contacts && DecodePath(f.inside.value.1) == Some(ret)
    requires ret.hasExtra && ret.extraType == 3 && |ret.extra| >= ACK_HASH
    ensures OnPacket(cfg, c, s, p, f).s.ops == Complete(s.ops, ret.extra[..ACK_HASH])
  {}

  /** An acknowledged attempt ends its operation: the recipient's own answer to any
      attempt of it, heard back by the author, removes just that operation when no
      other accepts the same hash. */
  lemma {:induction false} AckEndsOperation(authorCfg: Config, author: Crypto, s: State, i: nat, to: Contact, forceFlood: bool,
                                            recipientCfg: Config, recipient: Crypto, t: State, q: Packet, e: Env,
                                            back: Packet, f: Env)
    requires author.ackHash == recipient.ackHash && to.pubkey == recipient.own && i < |s.ops.pending|
    requires var op := s.ops.pending[i];
             && Ackable(op) && |AttemptHash(author, op, to)| == ACK_HASH && Knows(t, author.own)
             && (forall j :: 0 <= j < |s.ops.pending| ==> (AttemptHash(author, op, to) in s.ops.pending[j].accepted <==> j == i))
             && q.Valid() && q.kind == TXT_MSG && q.payload == AttemptPacket(author, op, to, forceFlood).payload
    requires (q.IsDirect() ==> q.HopCount() == 0) && Opens(recipient, author, q.payload, e)
    requires |OnPacket(recipientCfg, recipient, t, q, e).outs| == 1 ==>
               var a := OnPacket(recipientCfg, recipient, t, q, e).outs[0].packet;
               back.kind == a.kind && back.payload == a.payload
    requires back.kind == PATH ==> (back.IsDirect() ==> back.HopCount() == 0) && Opens(author, recipient, back.payload, f)
    requires recipient.own in s.contacts
    ensures OnPacket(authorCfg, author, s, back, f).s.ops.pending == s.ops.pending[..i] + s.ops.pending[i + 1..]
  {
    var op := s.ops.pending[i];
    RecipientAcknowledges(recipientCfg, author, recipient, t, op, to, forceFlood, q, e);
    AuthorCompletes(authorCfg, author, recipient, s, AttemptHash(author, op, to), i, q,
                    OnPacket(recipientCfg, recipient, t, q, e).outs[0].packet, t.contacts[author.own], back, f);
  }

  // ---- Answers to a returned path --------------------------------------

  /** A flooded PATH is answered with a PATH along the very route it gave, hashes as
      wide as it gave them, that returns the path it came by; a direct one is not
      answered at all. */
  lemma {:induction false} PathIsAnsweredAlongItself(cfg: Config, c: Crypto, s: State, p: Packet, e: Env)
    requires p.kind == PATH && (p.IsDirect() ==> p.HopCount() == 0) && IsEnvelope(p.payload) && p.payload[0] == OwnId(c)
    requires e.inside.Some? && Knows(s, e.inside.value.0) && DecodePath(e.inside.value.1).Some?
    ensures var outs, ret := OnPacket(cfg, c, s, p, e).outs, DecodePath(e.inside.value.1).value;
            if p.IsFlood() then
              && |outs| == 1 && outs[0].role == Reply && outs[0].packet.kind == PATH && outs[0].packet.IsDirect()
              && outs[0].packet.path == ret.path && outs[0].packet.hashSize == ret.hashSize
              && outs[0].packet.payload ==
                   c.seal(e.inside.value.0, PathReturn(p.path, p.hashSize, true, 15, e.dummy).Encode())
            else outs == []
  {}

  // ---- What a node learns, keeps and sends -------------------------------

  /** A returned path with one-byte hashes becomes the contact's route; any other,
      and every other contact, leaves the contacts as they were. */
  lemma {:induction false} PathIsLearnt(cfg: Config, c: Crypto, s: State, p: Packet, e: Env, key: ByteString)
    requires p.kind == PATH && (p.IsDirect() ==> p.HopCount() == 0) && IsEnvelope(p.payload) && p.payload[0] == OwnId(c)
    requires e.inside.Some? && Knows(s, e.inside.value.0) && DecodePath(e.inside.value.1).Some?
    ensures var after, ret := OnPacket(cfg, c, s, p, e).s.contacts, DecodePath(e.inside.value.1).value;
            && after.Keys == s.contacts.Keys
            && (key in after ==>
                  if key == e.inside.value.0 && ret.hashSize == 1
                  then after[key] == s.contacts[key].(pathKnown := true, outPath := ret.path)
                  else after[key] == s.contacts[key])
  {}

  /** An ack of ours that came by flood, from a contact with a route, is answered 3 s
      later along that route with the path the ack came by; no other ack is. */
  lemma {:induction false} FloodedAckIsAnswered(cfg: Config, c: Crypto, s: State, p: Packet, e: Env)
    requires p.kind == ACK && |p.payload| >= ACK_HASH && Answered(s.ops.pending, p.payload[..ACK_HASH]) < |s.ops.pending|
    ensures var dest := s.ops.pending[Answered(s.ops.pending, p.payload[..ACK_HASH])].dest;
            var outs := OnPacket(cfg, c, s, p, e).outs;
            if p.IsFlood() && dest in s.contacts && s.contacts[dest].pathKnown && s.contacts[dest].usable then
              && |outs| == 1 && outs[0].role == Reply && outs[0].delay == 3_000
              && outs[0].packet.kind == PATH && outs[0].packet.IsDirect()
              && outs[0].packet.path == s.contacts[dest].outPath && outs[0].packet.hashSize == 1
              && outs[0].packet.payload ==
                   c.seal(s.contacts[dest].pubkey, PathReturn(p.path, p.hashSize, true, 15, e.dummy).Encode())
            else outs == []
  {
    AckReplies(c, s, p, e);
  }

  /** When and how urgently a node sends: replies first and at once, or 3 s later to
      an ack; routed traffic as urgently, acks without delay; floods of others later
      and staggered over a second; traces last. */
  lemma {:induction false} OutsAreTimed(cfg: Config, c: Crypto, s: State, p: Packet, e: Env)
    ensures forall o :: o in OnPacket(cfg, c, s, p, e).outs ==>
              if o.role == Reply then o.priority == 1 && o.delay == (if p.kind == ACK then 3_000 else 0)
              else if p.IsFlood() then o.priority == 5 && 100 <= o.delay <= 1_120
              else if p.kind == TRACE then o.priority == 6
              else o.priority == 1 && (p.kind == ACK ==> o.delay == 0)
  {
    HandleReplies(c, s, p, e);
    AckReplies(c, s, p, e);
  }

  /** The six bytes of an acknowledgement: four of hash, the attempt number a sender
      wrote past its text, and one at random. */
  lemma AckIsSixBytes(c: Crypto, from: Contact, kind: Byte, plaintext: ByteString, e: Env)
    requires kind != TXT_CLI
    requires |c.ackHash(AckInput(plaintext, ReceiverKey(kind, c.own, from.pubkey)))| == 4
    ensures var ack := AckFor(c, from, kind, plaintext, e);
            && |ack| == 6 && ack[4] == DecodedExtended(plaintext) && ack[5] == e.random
            && ack[..4] == c.ackHash(AckInput(plaintext, ReceiverKey(kind, c.own, from.pubkey)))
  {
    if |plaintext| >= TEXT_HEADER {
      ReencodingIsAckRegion(plaintext);
    }
  }

  function DecodedExtended(plaintext: ByteString): Byte {
    if DecodeText(plaintext).Some? then DecodeText(plaintext).value.extended else 0
  }

  /** The user reads what the author wrote: a text without zeros comes out of the
      store as it went in, and a signed one without its four bytes of key. */
  lemma {:induction false} UserReadsText(prefix: ByteString, text: ByteString, timestamp: int, kind: Byte, attempt: Byte, n: nat)
    requires kind in {TXT_PLAIN, TXT_CLI, TXT_SIGNED} && |prefix| == (if kind == TXT_SIGNED then 4 else 0)
    requires 0 <= timestamp < 0x1_0000_0000 && forall i :: 0 <= i < |text| ==> text[i] != 0
    ensures var got := DecodeText(TextMessage(timestamp, kind, attempt, 0, prefix + text).Encode() + Zeros(n));
            got.Some? && got.value.timestamp == timestamp && got.value.kind == kind && Body(got.value) == text
  {
    var m := TextMessage(timestamp, kind, attempt, 0, prefix + text);
    HeaderOnWire(m, n);
    U32RoundTrip(timestamp);
    TextInPlace(m.Encode() + Zeros(n), |prefix|, |m.text|);
  }

  /** How a text that ends where the zeros begin is decoded. */
  lemma {:induction false} TextInPlace(p: ByteString, skip: nat, length: nat)
    requires TEXT_HEADER + length <= |p| && skip <= length && (p[4] / 4 == TXT_SIGNED <==> skip == SIGNED_PREFIX) && skip in {0, SIGNED_PREFIX}
    requires forall i :: TEXT_HEADER + skip <= i < |p| ==> (p[i] == 0 <==> TEXT_HEADER + length <= i)
    ensures var got := DecodeText(p);
            && got.Some? && got.value.timestamp == Le32(p[0], p[1], p[2], p[3]) && got.value.kind == p[4] / 4
            && Body(got.value) == p[TEXT_HEADER + skip..TEXT_HEADER + length]
  {
    DecodedParts(p);
    TextEnds(p, TEXT_HEADER + skip, TEXT_HEADER + length);
  }

  lemma HeaderOnWire(m: TextMessage, n: nat)
    requires m.kind < 64
    ensures var p := m.Encode() + Zeros(n);
            && |p| == TEXT_HEADER + |m.text| + n && p[..4] == U32(m.timestamp) && p[4] / 4 == m.kind
            && (forall i :: TEXT_HEADER <= i < TEXT_HEADER + |m.text| ==> p[i] == m.text[i - TEXT_HEADER])
            && forall i :: TEXT_HEADER + |m.text| <= i < |p| ==> p[i] == 0
  {
    var p := m.Encode() + Zeros(n);
    assert p[..4] == U32(m.timestamp) && p[4] == m.Flags();
    assert p[TEXT_HEADER..TEXT_HEADER + |m.text|] == m.text;
  }

  lemma {:induction false} TextEnds(p: ByteString, at: nat, end: nat)
    requires at <= end <= |p| && (forall i :: at <= i < end ==> p[i] != 0) && (end < |p| ==> p[end] == 0)
    ensures StringEnd(p, at) == end
    decreases end - at
  {
    if at < end {
      TextEnds(p, at + 1, end);
    }
  }

  /** What is kept beside the text: the hop count and hash width of a flood, or 255
      for a direct packet, and how strong it came. */
  lemma StoredSignal(m: TextMessage, from: Contact, p: Packet, e: Env)
    requires p.Valid()
    ensures var x := ToStore(m, from, p, e);
            && x.snr == e.snr && !x.isChannel && x.channel == 0 && x.kind == m.kind
            && if p.IsFlood() then x.pathLen % 64 == p.HopCount() && x.pathLen / 64 + 1 == p.hashSize else x.pathLen == 255
  {
    PackedPathLenParts(p);
  }
}
