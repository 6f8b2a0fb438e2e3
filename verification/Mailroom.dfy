/**
 From the air to the disk and back: a node that receives, stores, answers, hands
 mail to its app, sweeps its tables and crashes. An acknowledgement is a promise
 that survives crashes, and a text is stored once however often it is retried.
 */
module Mailroom {
  import opened Bytes
  import opened Packets
  import opened Payloads
  import opened Sender
  import opened Nodes
  import Inbox
  import DedupTable

  /** The text a packet delivers to this node, with the contact it is from. */
  function Reading(c: Crypto, s: State, p: Packet, e: Env): Option<(Contact, TextMessage)> {
    if p.kind != TXT_MSG || (p.IsDirect() && p.HopCount() > 0) || !IsEnvelope(p.payload) || p.payload[0] != OwnId(c)
       || e.inside.None? || e.inside.value.0 !in s.contacts then None else
    var m := DecodeText(e.inside.value.1);
    if m.None? || m.value.kind !in {TXT_PLAIN, TXT_CLI, TXT_SIGNED} then None
    else Some((s.contacts[e.inside.value.0], m.value))
  }

  function KeyOf(c: Crypto, t: (Contact, TextMessage)): int {
    c.identity(Identity(t.0, t.1))
  }

  /** Every stored contact has a whole public key. */
  predicate Keyed(contacts: map<ByteString, Contact>) {
    forall k :: k in contacts ==> |contacts[k].pubkey| == Inbox.PUBKEY
  }

  /** Receiving changes the store and the delivered table for a text that reads,
      and for nothing else; only such a text draws a reply among texts. */
  lemma {:induction false} ReceivingStores(cfg: Config, c: Crypto, s: State, p: Packet, e: Env)
    ensures var t, r := Reading(c, s, p, e), OnPacket(cfg, c, s, p, e);
            if t.Some? then r.s == Delivered(c, s, t.value.1, t.value.0, p, e)
            else r.s.box == s.box && r.s.delivered == s.delivered
                 && (p.kind == TXT_MSG ==> forall o :: o in r.outs ==> o.role == Relay)
  {
    if p.kind != TXT_MSG || (p.IsDirect() && p.HopCount() > 0) {
      OthersStoreNothing(cfg, c, s, p, e);
    }
  }

  lemma OthersStoreNothing(cfg: Config, c: Crypto, s: State, p: Packet, e: Env)
    requires p.kind != TXT_MSG || (p.IsDirect() && p.HopCount() > 0)
    ensures var r := OnPacket(cfg, c, s, p, e);
            && r.s.box == s.box && r.s.delivered == s.delivered
            && (p.kind == TXT_MSG ==> forall o :: o in r.outs ==> o.role == Relay)
  {}

  lemma ReceivingKeepsKeys(cfg: Config, c: Crypto, s: State, p: Packet, e: Env)
    requires Keyed(s.contacts)
    ensures Keyed(OnPacket(cfg, c, s, p, e).s.contacts)
  {}

  // ---- Stored once -----------------------------------------------------

  datatype Event = Hears(p: Packet, e: Env) | Sweeps(at: nat) | Collects

  function NodeStep(cfg: Config, c: Crypto, s: State, ev: Event): State {
    match ev
    case Hears(p, e) => OnPacket(cfg, c, s, p, e).s
    case Sweeps(at) => s.(delivered := DedupTable.Expire(s.delivered, at))
    case Collects => s.(box := Inbox.Pop(s.box))
  }

  /** The delivered table's part in the run. */
  function Sightings(cfg: Config, c: Crypto, s: State, run: seq<Event>): seq<DedupTable.Event>
    decreases |run|
  {
    if run == [] then [] else
      var rest := Sightings(cfg, c, NodeStep(cfg, c, s, run[0]), run[1..]);
      match run[0]
      case Hears(p, e) =>
        var t := Reading(c, s, p, e);
        if t.None? then rest else [DedupTable.Sighting(KeyOf(c, t.value), e.now, e.victim)] + rest
      case Sweeps(at) => [DedupTable.Sweeping(at)] + rest
      case Collects => rest
  }

  /** Messages that ever entered the store and were not yet collected. */
  function Taken(s: State): nat {
    |s.box.messages| + s.box.dropped
  }

  /** For each text heard, whether the store took it. */
  function Stored(cfg: Config, c: Crypto, s: State, run: seq<Event>): seq<bool>
    decreases |run|
  {
    if run == [] then [] else
      var after := NodeStep(cfg, c, s, run[0]);
      var rest := Stored(cfg, c, after, run[1..]);
      if run[0].Hears? && Reading(c, s, run[0].p, run[0].e).Some? then [Taken(after) > Taken(s)] + rest else rest
  }

  function Not(flags: seq<bool>): (r: seq<bool>)
    ensures |r| == |flags|
  {
    seq(|flags|, i requires 0 <= i < |flags| => !flags[i])
  }

  lemma NotCons(b: bool, rest: seq<bool>)
    ensures Not([b] + rest) == [!b] + Not(rest)
  {}

  lemma {:induction false} StoreTakes(cfg: Config, c: Crypto, s: State, p: Packet, e: Env)
    ensures var t, after := Reading(c, s, p, e), OnPacket(cfg, c, s, p, e).s;
            if t.None? then Taken(after) == Taken(s) && after.delivered == s.delivered
            else
              var key := KeyOf(c, t.value);
              && (Taken(after) > Taken(s) <==> !DedupTable.Live(s.delivered, key, e.now))
              && after.delivered == DedupTable.Sight(s.delivered, key, e.now, DedupTable.DELIVERED, e.victim)
  {
    ReceivingStores(cfg, c, s, p, e);
  }

  lemma {:induction false} StoredIsUnseen(cfg: Config, c: Crypto, s: State, run: seq<Event>)
    ensures Stored(cfg, c, s, run)
            == Not(DedupTable.Answers(s.delivered, DedupTable.DELIVERED, Sightings(cfg, c, s, run)))
    decreases |run|
  {
    if run != [] {
      var after := NodeStep(cfg, c, s, run[0]);
      var rest := Sightings(cfg, c, after, run[1..]);
      StoredIsUnseen(cfg, c, after, run[1..]);
      match run[0]
      case Hears(p, e) =>
        StoreTakes(cfg, c, s, p, e);
        var t := Reading(c, s, p, e);
        if t.Some? {
          var key := KeyOf(c, t.value);
          assert ([DedupTable.Sighting(key, e.now, e.victim)] + rest)[1..] == rest;
          NotCons(DedupTable.Live(s.delivered, key, e.now),
                  DedupTable.Answers(after.delivered, DedupTable.DELIVERED, rest));
        }
      case Sweeps(at) =>
        assert ([DedupTable.Sweeping(at)] + rest)[1..] == rest;
      case Collects =>
    }
  }

  /** Over every run of a node, whatever else it hears: a text is stored exactly
      when no copy of it, of any attempt number, came in the 300 s before. The
      sweeps must be less than 2^31 ms apart and fewer than 512 texts be live. */
  lemma StoredOncePer300Seconds(cfg: Config, c: Crypto, s: State, run: seq<Event>, last: map<int, nat>, now: nat, swept: nat)
    requires DedupTable.Tracks(s.delivered, last, DedupTable.DELIVERED_TTL, now, swept)
    requires DedupTable.Paced(last, DedupTable.DELIVERED, now, swept, Sightings(cfg, c, s, run))
    ensures Stored(cfg, c, s, run) == Not(DedupTable.Reference(last, DedupTable.DELIVERED_TTL, Sightings(cfg, c, s, run)))
  {
    StoredIsUnseen(cfg, c, s, run);
    DedupTable.RefinesUnboundedTime(s.delivered, last, DedupTable.DELIVERED, now, swept, Sightings(cfg, c, s, run));
  }

  // ---- Acked mail survives ---------------------------------------------

  /** An answer decided on and not yet queued; `about` is the place of the text it
      acknowledges among all ever stored, and that text's identity. */
  datatype Answer = Answer(out: Out, about: Option<(nat, ByteString)>)

  /** History: the store's, where each text in the delivered table was filed and
      under what identity, and the texts acknowledged, less what a crash lost. */
  datatype Desk = Desk(node: State, h: Inbox.History, filed: map<int, (nat, ByteString)>, due: seq<Answer>,
                       acked: map<nat, ByteString>)

  datatype Happening =
    | Receives(p: Packet, e: Env)
    | Answers
    | Pops
    | Flushes(replaced: bool)
    | Sweeping(at: nat)
    | Crashes(contacts: map<ByteString, Contact>)

  /** A stored message is the text with this identity. */
  predicate Describes(id: ByteString, x: Inbox.Message) {
    && |id| >= Inbox.PUBKEY + 5 && !x.isChannel
    && x.sender == id[..Inbox.PUBKEY] && U32(x.timestamp) == id[Inbox.PUBKEY..Inbox.PUBKEY + 4]
    && x.kind == id[Inbox.PUBKEY + 4]
    && x.text == Body(TextMessage(0, x.kind, 0, 0, id[Inbox.PUBKEY + 5..]))
  }

  function Attach(outs: seq<Out>, about: Option<(nat, ByteString)>): (r: seq<Answer>)
    ensures |r| == |outs| && forall i :: 0 <= i < |r| ==> r[i] == Answer(outs[i], about)
  {
    seq(|outs|, i requires 0 <= i < |outs| => Answer(outs[i], about))
  }

  function Receive(cfg: Config, c: Crypto, d: Desk, p: Packet, e: Env): Desk {
    var r := OnPacket(cfg, c, d.node, p, e);
    var t := Reading(c, d.node, p, e);
    if t.None? then d.(node := r.s, due := d.due + Attach(r.outs, None)) else
    var key, id := KeyOf(c, t.value), Identity(t.value.0, t.value.1);
    if DedupTable.Live(d.node.delivered, key, e.now) then
      d.(node := r.s, due := d.due + Attach(r.outs, if key in d.filed then Some((d.filed[key].0, id)) else None))
    else
      var x := ToStore(t.value.1, t.value.0, p, e);
      d.(node := r.s, h := Inbox.Step(d.h, Inbox.Stores(x, e.saved)), filed := d.filed[key := (|d.h.all|, id)],
         due := d.due + Attach(r.outs, Some((|d.h.all|, id))))
  }

  /** The first answer due is queued, and the text it is about acknowledged. */
  function AnswerNext(d: Desk): Desk {
    if d.due == [] then d else
      var about := d.due[0].about;
      d.(due := d.due[1..],
         acked := if about.Some? && d.due[0].out.role == Reply
                  then d.acked[about.value.0 := about.value.1] else d.acked)
  }

  function WithStore(d: Desk, h: Inbox.History): Desk {
    d.(h := h, node := d.node.(box := h.box))
  }

  /** A crash can come at any point between these, also between storing a text
      and answering it. What is in memory is gone; contacts are read back. */
  function Step(cfg: Config, c: Crypto, d: Desk, ev: Happening): Desk {
    match ev
    case Receives(p, e) => Receive(cfg, c, d, p, e)
    case Answers => AnswerNext(d)
    case Pops => WithStore(d, Inbox.Step(d.h, Inbox.Pops))
    case Flushes(replaced) => WithStore(d, Inbox.Step(d.h, Inbox.Flushes(replaced)))
    case Sweeping(at) => d.(node := d.node.(delivered := DedupTable.Expire(d.node.delivered, at)))
    case Crashes(contacts) =>
      var h := Inbox.Step(d.h, Inbox.Crashes);
      Desk(State(contacts, Outbox(d.node.ops.limit, [], 1, []), map[], h.box), h, map[], [],
           map i | i in d.acked && i < d.h.upto :: d.acked[i])
  }

  /** Contacts are read back with whole keys, and the hash of a text read is not
      by chance that of a different text on file. */
  predicate Sane(c: Crypto, d: Desk, ev: Happening) {
    match ev
    case Receives(p, e) => Distinct(c, d, Reading(c, d.node, p, e))
    case Crashes(contacts) => Keyed(contacts)
    case _ => true
  }

  predicate Distinct(c: Crypto, d: Desk, t: Option<(Contact, TextMessage)>) {
    t.Some? && KeyOf(c, t.value) in d.filed ==> d.filed[KeyOf(c, t.value)].1 == Identity(t.value.0, t.value.1)
  }

  function Run(cfg: Config, c: Crypto, d: Desk, run: seq<Happening>): Desk {
    if run == [] then d else Step(cfg, c, Run(cfg, c, d, run[..|run| - 1]), run[|run| - 1])
  }

  predicate SaneRun(cfg: Config, c: Crypto, d: Desk, run: seq<Happening>) {
    run != [] ==>
      var before := run[..|run| - 1];
      SaneRun(cfg, c, d, before) && Sane(c, Run(cfg, c, d, before), run[|run| - 1])
  }

  /** What is filed under a key is the text it is the key of. */
  predicate Filed(d: Desk, key: int) {
    key in d.filed ==>
      && d.filed[key].0 < |d.h.all|
      && Describes(d.filed[key].1, d.h.all[d.filed[key].0])
  }

  predicate Refers(d: Desk, about: Option<(nat, ByteString)>) {
    about.Some? ==> about.value.0 < |d.h.all| && Describes(about.value.1, d.h.all[about.value.0])
  }

  /** An acknowledged text was stored as the text that was acknowledged. */
  predicate Safe(d: Desk, i: nat) {
    i in d.acked ==> i < |d.h.all| && Describes(d.acked[i], d.h.all[i])
  }

  ghost predicate Kept(d: Desk) {
    && Inbox.Durable(d.h) && d.h.box == d.node.box && Keyed(d.node.contacts)
    && d.node.delivered.Keys <= d.filed.Keys
    && (forall key :: Filed(d, key))
    && (forall k :: 0 <= k < |d.due| ==> Refers(d, d.due[k].about))
    && (forall i :: Safe(d, i))
  }

  lemma StoredIsDescribed(m: TextMessage, from: Contact, p: Packet, e: Env)
    requires |from.pubkey| == Inbox.PUBKEY
    ensures Describes(Identity(from, m), ToStore(m, from, p, e)) && Inbox.Storable(ToStore(m, from, p, e))
  {
    var id := Identity(from, m);
    var ts := U32(m.timestamp % 0x1_0000_0000);
    assert id[..Inbox.PUBKEY] == from.pubkey && id[Inbox.PUBKEY..Inbox.PUBKEY + 4] == ts;
    assert id[Inbox.PUBKEY + 4] == m.kind && id[Inbox.PUBKEY + 5..] == m.text;
  }

  /** The history only grows: what was at a place stays there. */
  predicate Grows(h: Inbox.History, g: Inbox.History) {
    |h.all| <= |g.all| && g.all[..|h.all|] == h.all && h.upto <= g.upto <= |g.all|
  }

  lemma GrowthKeeps(d: Desk, g: Inbox.History)
    requires Kept(d) && Grows(d.h, g)
    ensures forall key :: Filed(d.(h := g), key)
    ensures forall k :: 0 <= k < |d.due| ==> Refers(d.(h := g), d.due[k].about)
    ensures forall i :: Safe(d.(h := g), i)
  {
    assert forall i :: 0 <= i < |d.h.all| ==> g.all[i] == g.all[..|d.h.all|][i];
    assert forall key :: Filed(d, key) ==> Filed(d.(h := g), key);
    assert forall i :: Safe(d, i) ==> Safe(d.(h := g), i);
    forall k | 0 <= k < |d.due| ensures Refers(d.(h := g), d.due[k].about) {
      assert Refers(d, d.due[k].about);
    }
  }

  lemma {:induction false} StoreGrows(h: Inbox.History, x: Inbox.Message, saved: bool)
    requires Inbox.Durable(h) && Inbox.Storable(x)
    ensures var g := Inbox.Step(h, Inbox.Stores(x, saved));
            && Inbox.Durable(g) && Grows(h, g) && |g.all| == |h.all| + 1 && g.all[|h.all|] == x
            && g.box == Inbox.Store(h.box, x, saved) && (saved ==> g.upto == |g.all|)
  {
    Inbox.StepKeeps(h, Inbox.Stores(x, saved));
  }

  lemma SightKeys(t: DedupTable.Table, key: int, now: nat, victim: int)
    ensures DedupTable.Sight(t, key, now, DedupTable.DELIVERED, victim).Keys <= t.Keys + {key}
  {}

  /** Answers about `about` join those due. */
  lemma AttachKeeps(d: Desk, outs: seq<Out>, about: Option<(nat, ByteString)>)
    requires forall k :: 0 <= k < |d.due| ==> Refers(d, d.due[k].about)
    requires Refers(d, about)
    ensures var due := d.due + Attach(outs, about); forall k :: 0 <= k < |due| ==> Refers(d, due[k].about)
  {}

  lemma {:induction false} OtherPacketKeeps(cfg: Config, c: Crypto, d: Desk, p: Packet, e: Env)
    requires Kept(d) && Reading(c, d.node, p, e).None?
    ensures Kept(Receive(cfg, c, d, p, e))
  {
    var r := OnPacket(cfg, c, d.node, p, e);
    var after := Receive(cfg, c, d, p, e);
    ReceivingStores(cfg, c, d.node, p, e);
    ReceivingKeepsKeys(cfg, c, d.node, p, e);
    AttachKeeps(d, r.outs, None);
    SameHistory(d, after);
  }

  lemma {:induction false} RepeatKeeps(cfg: Config, c: Crypto, d: Desk, p: Packet, e: Env)
    requires Kept(d) && Reading(c, d.node, p, e).Some? && Distinct(c, d, Reading(c, d.node, p, e))
    requires DedupTable.Live(d.node.delivered, KeyOf(c, Reading(c, d.node, p, e).value), e.now)
    ensures Kept(Receive(cfg, c, d, p, e))
  {
    var t := Reading(c, d.node, p, e).value;
    var key, id := KeyOf(c, t), Identity(t.0, t.1);
    var r := OnPacket(cfg, c, d.node, p, e);
    var after := Receive(cfg, c, d, p, e);
    ReceivingStores(cfg, c, d.node, p, e);
    SightKeys(d.node.delivered, key, e.now, e.victim);
    assert key in d.node.delivered.Keys && key in d.filed.Keys && Filed(d, key);
    AttachKeeps(d, r.outs, Some((d.filed[key].0, id)));
    SameHistory(d, after);
  }

  lemma {:induction false} NewTextKeeps(cfg: Config, c: Crypto, d: Desk, p: Packet, e: Env)
    requires Kept(d) && Reading(c, d.node, p, e).Some?
    requires !DedupTable.Live(d.node.delivered, KeyOf(c, Reading(c, d.node, p, e).value), e.now)
    ensures Kept(Receive(cfg, c, d, p, e))
  {
    var t := Reading(c, d.node, p, e).value;
    var key, id := KeyOf(c, t), Identity(t.0, t.1);
    var x := ToStore(t.1, t.0, p, e);
    var r := OnPacket(cfg, c, d.node, p, e);
    var after := Receive(cfg, c, d, p, e);
    ReceivingStores(cfg, c, d.node, p, e);
    SightKeys(d.node.delivered, key, e.now, e.victim);
    StoredIsDescribed(t.1, t.0, p, e);
    StoreGrows(d.h, x, e.saved);
    FilingKeeps(d, after.h, key, id);
    var filed := d.(h := after.h, filed := after.filed);
    AttachKeeps(filed, r.outs, Some((|d.h.all|, id)));
    SameHistory(filed, after);
  }

  /** The next message stored is filed under its key. */
  lemma {:induction false} FilingKeeps(d: Desk, g: Inbox.History, key: int, id: ByteString)
    requires Kept(d) && Grows(d.h, g) && |g.all| == |d.h.all| + 1 && Describes(id, g.all[|d.h.all|])
    ensures var after := d.(h := g, filed := d.filed[key := (|d.h.all|, id)]);
            && (forall k :: Filed(after, k)) && (forall i :: Safe(after, i))
            && forall k :: 0 <= k < |d.due| ==> Refers(after, d.due[k].about)
  {
    GrowthKeeps(d, g);
    var grown := d.(h := g);
    var after := d.(h := g, filed := d.filed[key := (|d.h.all|, id)]);
    assert forall k :: Filed(grown, k) ==> Filed(after, k);
    assert forall i :: Safe(grown, i) ==> Safe(after, i);
    assert forall about :: Refers(grown, about) ==> Refers(after, about);
  }

  /** What is on file, safe or referred to depends on the history alone. */
  lemma SameHistory(a: Desk, b: Desk)
    requires a.h == b.h && a.filed == b.filed && a.acked == b.acked
    ensures forall key :: Filed(a, key) <==> Filed(b, key)
    ensures forall i :: Safe(a, i) <==> Safe(b, i)
    ensures forall about :: Refers(a, about) <==> Refers(b, about)
  {}

  lemma {:induction false} AnswerKeeps(d: Desk)
    requires Kept(d)
    ensures Kept(AnswerNext(d))
  {
    if d.due != [] {
      var after := AnswerNext(d);
      assert Refers(d, d.due[0].about);
      assert forall k :: 0 <= k < |after.due| ==> after.due[k] == d.due[k + 1];
      assert forall key :: Filed(d, key) ==> Filed(after, key);
      assert forall i :: Safe(d, i) ==> Safe(after, i);
      assert forall about :: Refers(d, about) ==> Refers(after, about);
    }
  }

  lemma {:induction false} StoreEventKeeps(d: Desk, ev: Inbox.Event)
    requires Kept(d) && (ev.Pops? || ev.Flushes?)
    ensures Kept(WithStore(d, Inbox.Step(d.h, ev)))
  {
    var g := Inbox.Step(d.h, ev);
    var after := WithStore(d, g);
    Inbox.StepKeeps(d.h, ev);
    assert g.all[..|d.h.all|] == d.h.all;
    GrowthKeeps(d, g);
    var grown := d.(h := g);
    SameHistory(grown, after);
  }

  /** A crash cuts the history back to what is on disk, which holds every text
      that was acknowledged. */
  lemma {:induction false} CrashKeeps(cfg: Config, c: Crypto, d: Desk, contacts: map<ByteString, Contact>)
    requires Kept(d) && Keyed(contacts)
    ensures Kept(Step(cfg, c, d, Crashes(contacts)))
  {
    var after := Step(cfg, c, d, Crashes(contacts));
    Inbox.StepKeeps(d.h, Inbox.Crashes);
    assert after.h.all == d.h.all[..d.h.upto] && after.h.upto == d.h.upto;
    forall i ensures Safe(after, i) {
      assert Safe(d, i);
    }
  }

  lemma {:induction false} StepKeeps(cfg: Config, c: Crypto, d: Desk, ev: Happening)
    requires Kept(d) && Sane(c, d, ev)
    ensures Kept(Step(cfg, c, d, ev))
  {
    match ev
    case Receives(p, e) =>
      var t := Reading(c, d.node, p, e);
      if t.None? {
        OtherPacketKeeps(cfg, c, d, p, e);
      } else if DedupTable.Live(d.node.delivered, KeyOf(c, t.value), e.now) {
        RepeatKeeps(cfg, c, d, p, e);
      } else {
        NewTextKeeps(cfg, c, d, p, e);
      }
    case Answers => AnswerKeeps(d);
    case Pops => StoreEventKeeps(d, Inbox.Pops);
    case Flushes(replaced) => StoreEventKeeps(d, Inbox.Flushes(replaced));
    case Sweeping(at) => SweepKeeps(cfg, c, d, at);
    case Crashes(contacts) => CrashKeeps(cfg, c, d, contacts);
  }

  lemma SweepKeeps(cfg: Config, c: Crypto, d: Desk, at: nat)
    requires Kept(d)
    ensures Kept(Step(cfg, c, d, Sweeping(at)))
  {
    var after := Step(cfg, c, d, Sweeping(at));
    SameHistory(d, after);
  }

  lemma {:induction false} RunKeeps(cfg: Config, c: Crypto, d: Desk, run: seq<Happening>)
    requires Kept(d) && SaneRun(cfg, c, d, run)
    ensures Kept(Run(cfg, c, d, run))
    decreases |run|
  {
    if run != [] {
      RunKeeps(cfg, c, d, run[..|run| - 1]);
      StepKeeps(cfg, c, Run(cfg, c, d, run[..|run| - 1]), run[|run| - 1]);
    }
  }

  /** What an acknowledgement is worth, over every run of receiving, answering,
      collecting, flushing, failed saves and crashes at any point between: a text
      that was acknowledged, and neither collected nor pushed out by newer mail,
      is in the store when it is opened again, as that text and in its order, if
      and only if it had reached the disk. */
  lemma {:induction false} AckedMailSurvives(cfg: Config, c: Crypto, d: Desk, run: seq<Happening>)
    requires Kept(d) && SaneRun(cfg, c, d, run)
    ensures var after := Run(cfg, c, d, run);
            forall i :: i in after.acked && after.h.front <= i ==>
              i < |after.h.all| && Describes(after.acked[i], after.h.all[i])
              && (Inbox.Reloaded(after.h, i) <==> i < after.h.upto)
  {
    RunKeeps(cfg, c, d, run);
    var after := Run(cfg, c, d, run);
    forall i | i in after.acked && after.h.front <= i
      ensures i < |after.h.all| && Describes(after.acked[i], after.h.all[i])
              && (Inbox.Reloaded(after.h, i) <==> i < after.h.upto)
    {
      assert Safe(after, i);
      Inbox.ReloadedIff(after.h, i);
    }
  }

  /** And every reply to a text is such an acknowledgement, be it to the first copy
      or to a retry; on disk already if its store committed. */
  lemma {:induction false} RepliesAcknowledge(cfg: Config, c: Crypto, d: Desk, p: Packet, e: Env)
    requires Kept(d) && Sane(c, d, Receives(p, e)) && p.kind == TXT_MSG && d.due == []
    requires exists o :: o in OnPacket(cfg, c, d.node, p, e).outs && o.role == Reply
    ensures var t := Reading(c, d.node, p, e);
            var after := Receive(cfg, c, d, p, e);
            && t.Some? && |after.due| == 1 && after.due[0].about.Some?
            && var (i, id) := after.due[0].about.value;
               && id == Identity(t.value.0, t.value.1)
               && (!DedupTable.Live(d.node.delivered, KeyOf(c, t.value), e.now) && e.saved ==> i < after.h.upto)
               && i in AnswerNext(after).acked && AnswerNext(after).acked[i] == id
  {
    OneReply(cfg, c, d, p, e);
    var t := Reading(c, d.node, p, e).value;
    var key := KeyOf(c, t);
    if DedupTable.Live(d.node.delivered, key, e.now) {
      assert key in d.node.delivered.Keys && key in d.filed.Keys;
    }
  }

  /** Only a text that reads draws a reply, and then nothing else. */
  lemma {:induction false} OneReply(cfg: Config, c: Crypto, d: Desk, p: Packet, e: Env)
    requires p.kind == TXT_MSG && exists o :: o in OnPacket(cfg, c, d.node, p, e).outs && o.role == Reply
    ensures var outs := OnPacket(cfg, c, d.node, p, e).outs;
            Reading(c, d.node, p, e).Some? && |outs| == 1 && outs[0].role == Reply
  {
    ReceivingStores(cfg, c, d.node, p, e);
    AtMostOneAnswer(cfg, c, d.node, p, e);
  }

  // ---- When an acknowledged text reaches the disk ------------------------

  /** The text is new to the delivered table, and so goes to the store. */
  predicate IsNew(c: Crypto, d: Desk, p: Packet, e: Env) {
    var t := Reading(c, d.node, p, e);
    t.Some? && !DedupTable.Live(d.node.delivered, KeyOf(c, t.value), e.now)
  }

  /** The event writes the whole store to the file. */
  predicate Commits(c: Crypto, d: Desk, ev: Happening) {
    match ev
    case Receives(p, e) => IsNew(c, d, p, e) && e.saved
    case Flushes(replaced) => replaced && d.h.box.dirty
    case _ => false
  }

  predicate CommittedSince(cfg: Config, c: Crypto, d: Desk, run: seq<Happening>) {
    run != [] &&
      var before := run[..|run| - 1];
      CommittedSince(cfg, c, d, before) || Commits(c, Run(cfg, c, d, before), run[|run| - 1])
  }

  predicate NoCrash(run: seq<Happening>) {
    forall i :: 0 <= i < |run| ==> !run[i].Crashes?
  }

  lemma {:induction false} StepCommits(cfg: Config, c: Crypto, d: Desk, ev: Happening)
    requires Kept(d) && !ev.Crashes?
    ensures var g := Step(cfg, c, d, ev).h;
            && |d.h.all| <= |g.all| && g.upto == if Commits(c, d, ev) then |g.all| else d.h.upto
  {
    match ev
    case Receives(p, e) =>
      if IsNew(c, d, p, e) {
        var t := Reading(c, d.node, p, e).value;
        Inbox.StepCommits(d.h, Inbox.Stores(ToStore(t.1, t.0, p, e), e.saved));
      }
    case Pops => Inbox.StepCommits(d.h, Inbox.Pops);
    case Flushes(replaced) => Inbox.StepCommits(d.h, Inbox.Flushes(replaced));
    case _ =>
  }

  lemma {:induction false} CommittedIff(cfg: Config, c: Crypto, d: Desk, run: seq<Happening>, i: nat)
    requires Kept(d) && SaneRun(cfg, c, d, run) && NoCrash(run) && i < |d.h.all|
    ensures Kept(Run(cfg, c, d, run)) && i < |Run(cfg, c, d, run).h.all|
    ensures i < Run(cfg, c, d, run).h.upto <==> i < d.h.upto || CommittedSince(cfg, c, d, run)
    decreases |run|
  {
    if run != [] {
      var before := run[..|run| - 1];
      CommittedIff(cfg, c, d, before, i);
      StepKeeps(cfg, c, Run(cfg, c, d, before), run[|run| - 1]);
      StepCommits(cfg, c, Run(cfg, c, d, before), run[|run| - 1]);
    }
  }

  /** A text heard for the first time, whatever its answer, and then anything short
      of a crash: while it waits to be collected, it is in the store when that is
      opened again if and only if its own save, or a later save, succeeded. */
  lemma {:induction false} ReceivedSurvivesIff(cfg: Config, c: Crypto, d: Desk, p: Packet, e: Env, run: seq<Happening>)
    requires Kept(d) && Sane(c, d, Receives(p, e)) && IsNew(c, d, p, e)
    requires SaneRun(cfg, c, Receive(cfg, c, d, p, e), run) && NoCrash(run)
    ensures var received := Receive(cfg, c, d, p, e);
            var after, i := Run(cfg, c, received, run).h, |d.h.all|;
            && i < |after.all|
            && (after.front <= i ==> (Inbox.Reloaded(after, i) <==> e.saved || CommittedSince(cfg, c, received, run)))
  {
    var received := Receive(cfg, c, d, p, e);
    StepKeeps(cfg, c, d, Receives(p, e));
    StepCommits(cfg, c, d, Receives(p, e));
    ReceivedGoesLast(cfg, c, d, p, e);
    CommittedIff(cfg, c, received, run, |d.h.all|);
    var after := Run(cfg, c, received, run).h;
    if after.front <= |d.h.all| {
      Inbox.ReloadedIff(after, |d.h.all|);
    }
  }

  lemma ReceivedGoesLast(cfg: Config, c: Crypto, d: Desk, p: Packet, e: Env)
    requires IsNew(c, d, p, e)
    ensures |Receive(cfg, c, d, p, e).h.all| == |d.h.all| + 1
  {}

  /** So an acknowledged text can be lost. Whenever one is new and its save fails,
      it is acknowledged all the same; and a crash then leaves the store exactly as
      if the text had never come. */
  lemma {:induction false} AckedCanBeLost(cfg: Config, c: Crypto, d: Desk, p: Packet, e: Env, contacts: map<ByteString, Contact>)
    requires Kept(d) && Sane(c, d, Receives(p, e)) && IsNew(c, d, p, e) && !e.saved && d.due == [] && Keyed(contacts)
    requires exists o :: o in OnPacket(cfg, c, d.node, p, e).outs && o.role == Reply
    ensures var answered := AnswerNext(Receive(cfg, c, d, p, e));
            var crashed := Step(cfg, c, answered, Crashes(contacts));
            && |d.h.all| in answered.acked && |d.h.all| !in crashed.acked
            && crashed.node.box == Step(cfg, c, d, Crashes(contacts)).node.box
  {
    RepliesAcknowledge(cfg, c, d, p, e);
    var answered := AnswerNext(Receive(cfg, c, d, p, e));
    StepCommits(cfg, c, d, Receives(p, e));
    assert answered.h.upto == d.h.upto;
    assert answered.h.box.file == d.h.box.file && answered.h.box.limit == d.h.box.limit
           && answered.h.box.hasPath == d.h.box.hasPath;
  }

  lemma EmptyIsKept(contacts: map<ByteString, Contact>, ops: Outbox, limit: nat)
    requires Keyed(contacts)
    ensures var box := Inbox.State(limit, true, [], 0, false, None);
            Kept(Desk(State(contacts, ops, map[], box), Inbox.History(box, [], 0, 0, 0, {}), map[], [], map[]))
  {
    Inbox.EmptyIsDurable(limit);
  }
}
