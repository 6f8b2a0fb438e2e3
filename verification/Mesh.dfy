/**
 Many nodes and one packet: who hears which transmission, when and in what order
 is arbitrary, transmissions may be lost, and any node may drop instead of relay.
 Floods die out on every topology, and on a chain of relays a learned route is
 travelled by exactly the relays it was learned from.
 */
module Mesh {
  import opened Bytes
  import opened Packets
  import opened Payloads
  import opened DedupTable
  import opened Nodes
  import Sender

  datatype Relayer = Relayer(cfg: Config, own: ByteString)

  /** The types a relay floods on; the others are never flood-routed. */
  predicate FloodRouted(kind: PayloadType) {
    kind in {ADVERT, TXT_MSG, ACK, PATH, GRP_TXT, GRP_DATA, REQ, RESPONSE, ANON_REQ}
  }

  /** A control packet for direct neighbours only. */
  predicate ZeroHop(p: Packet) {
    p.kind == CONTROL && p.payload != [] && p.payload[0] >= 128
  }

  /** Routed by its path, as everything is but a direct trace. */
  predicate Routed(p: Packet) {
    p.IsDirect() ==> p.kind != TRACE
  }

  /** What a node sends on for a packet it relays, delays aside. */
  function Hop(n: Relayer, p: Packet): Option<Packet> {
    if p.IsFlood() then
      if !n.cfg.repeat || !FloodRouted(p.kind) || p.HopCount() >= n.cfg.maxHops as int then None else p.PushHop(n.own)
    else
      if !n.cfg.repeat || p.FirstHop() == [] || p.FirstHop() != Take(n.own, |p.FirstHop()|)
         || p.kind == MULTIPART || ZeroHop(p) then None
      else Some(p.PopHop())
  }

  /** The envelope is addressed to another node, or no contact opens it. */
  predicate ForOthers(c: Sender.Crypto, s: Nodes.State, p: Packet, e: Env)
    requires p.payload != []
  {
    p.payload[0] != OwnId(c) || e.inside.None? || e.inside.value.0 !in s.contacts
  }

  /** The ack answers nothing this node sent. */
  predicate Unclaimed(s: Nodes.State, p: Packet) {
    |p.payload| >= ACK_HASH && forall op :: op in s.ops.pending ==> p.payload[..ACK_HASH] !in op.accepted
  }

  /** What the packet holds is not for this node, or for others as well. */
  predicate PassesOn(c: Sender.Crypto, s: Nodes.State, p: Packet, e: Env) {
    if p.IsDirect() then p.kind == ACK ==> Unclaimed(s, p)
    else if p.kind == TXT_MSG then |p.payload| >= 5 && ForOthers(c, s, p, e)
    else if p.kind == PATH then
      |p.payload| >= 5 && (ForOthers(c, s, p, e) || DecodePath(e.inside.value.1).None?)
    else if p.kind == ACK then Unclaimed(s, p)
    else if p.kind == ADVERT then e.advert
    else p.kind in {REQ, RESPONSE, ANON_REQ} ==> e.request
  }

  lemma UnclaimedIsUnanswered(s: Nodes.State, p: Packet)
    requires |p.payload| >= ACK_HASH
    ensures Unclaimed(s, p) <==> Sender.Answered(s.ops.pending, p.payload[..ACK_HASH]) == |s.ops.pending|
  {
    var i := Sender.Answered(s.ops.pending, p.payload[..ACK_HASH]);
    if i < |s.ops.pending| {
      assert s.ops.pending[i] in s.ops.pending;
    }
  }

  /** Whatever its state, a node relays a packet exactly when the packet passes it
      by and `Hop` has something to send, and then sends just that. */
  lemma {:induction false} NodesRelayExactly(n: Relayer, c: Sender.Crypto, s: Nodes.State, p: Packet, e: Env)
    requires c.own == n.own && Routed(p)
    ensures var outs := OnPacket(n.cfg, c, s, p, e).outs;
            if PassesOn(c, s, p, e) && Hop(n, p).Some?
            then |outs| == 1 && outs[0].role == Relay && outs[0].packet == Hop(n, p).value
            else forall o :: o in outs ==> o.role != Relay
  {
    if p.kind == ACK && |p.payload| >= ACK_HASH {
      UnclaimedIsUnanswered(s, p);
    }
    if p.IsFlood() {
      FloodRelayedExactly(n, c, s, p, e);
    } else {
      DirectRelayedExactly(n, c, s, p, e);
    }
  }

  lemma {:induction false} DirectRelayedExactly(n: Relayer, c: Sender.Crypto, s: Nodes.State, p: Packet, e: Env)
    requires c.own == n.own && !p.IsFlood() && p.kind != TRACE
    requires p.kind == ACK && |p.payload| >= ACK_HASH ==>
               (Unclaimed(s, p) <==> Sender.Answered(s.ops.pending, p.payload[..ACK_HASH]) == |s.ops.pending|)
    ensures var outs := OnPacket(n.cfg, c, s, p, e).outs;
            if PassesOn(c, s, p, e) && Hop(n, p).Some?
            then |outs| == 1 && outs[0].role == Relay && outs[0].packet == Hop(n, p).value
            else forall o :: o in outs ==> o.role != Relay
  {
    if ZeroHop(p) {
      assert OnPacket(n.cfg, c, s, p, e).outs == [];
    } else if p.HopCount() == 0 {
      HandleReplies(c, s, p, e);
      assert p.FirstHop() == [];
    } else if p.kind == ACK {
      AckReplies(c, s, p, e);
    } else {
      assert OnPacket(n.cfg, c, s, p, e).outs == ForwardDirect(n.cfg, c.own, p, e);
    }
  }

  lemma {:induction false} FloodRelayedExactly(n: Relayer, c: Sender.Crypto, s: Nodes.State, p: Packet, e: Env)
    requires c.own == n.own && p.IsFlood()
    requires p.kind == ACK && |p.payload| >= ACK_HASH ==>
               (Unclaimed(s, p) <==> Sender.Answered(s.ops.pending, p.payload[..ACK_HASH]) == |s.ops.pending|)
    ensures var outs := OnPacket(n.cfg, c, s, p, e).outs;
            if PassesOn(c, s, p, e) && Hop(n, p).Some?
            then |outs| == 1 && outs[0].role == Relay && outs[0].packet == Hop(n, p).value
            else forall o :: o in outs ==> o.role != Relay
  {
    HandleReplies(c, s, p, e);
    assert FloodRouted(p.kind) ==> (Handle(c, s, p, e).forward <==> PassesOn(c, s, p, e));
  }

  lemma HopKeeps(n: Relayer, p: Packet)
    requires p.Valid() && Routed(p) && Hop(n, p).Some?
    ensures var q := Hop(n, p).value;
            && q.Valid() && q.kind == p.kind && q.payload == p.payload && q.route == p.route
            && q.hashSize == p.hashSize && q.DedupRegion() == p.DedupRegion()
            && (p.IsFlood() ==> q.HopCount() == p.HopCount() + 1 && q.HopCount() <= n.cfg.maxHops as int && q.HopCount() <= 63
                                && q.path == p.path + n.own[..p.hashSize])
  {
    HopsKeepValidity(p, n.own);
  }

  // ---- Any topology ----------------------------------------------------

  datatype Copy = Copy(node: nat, packet: Packet)

  /** Per node: its table of packets seen and when it last heard this one. */
  datatype Net = Net(seen: seq<Table>, heard: seq<Option<nat>>, copies: seq<Copy>)

  datatype Event =
    | Hears(copy: nat, who: nat, at: nat, drop: bool)
    | Sweeps(who: nat, at: nat)
    | Sees(who: nat, key: int, at: nat)

  predicate InRange(net: Net, nodes: seq<Relayer>, ev: Event) {
    && |net.seen| == |net.heard| == |nodes| && ev.who < |nodes|
    && (ev.Hears? ==> ev.copy < |net.copies|)
  }

  function Step(net: Net, nodes: seq<Relayer>, hash: ByteString -> int, ev: Event): Net
    requires InRange(net, nodes, ev)
  {
    match ev
    case Hears(i, who, at, drop) =>
      var p := net.copies[i].packet;
      var key := hash(p.DedupRegion());
      var isNew := !Live(net.seen[who], key, at);
      var hop := Hop(nodes[who], p);
      Net(net.seen[who := Sight(net.seen[who], key, at, SEEN, 0)], net.heard[who := Some(at)],
          if isNew && !drop && hop.Some? then net.copies + [Copy(who, hop.value)] else net.copies)
    case Sweeps(who, at) => net.(seen := net.seen[who := Expire(net.seen[who], at)])
    case Sees(who, key, at) => net.(seen := net.seen[who := Sight(net.seen[who], key, at, SEEN, 0)])
  }

  /** Time moves forward, and each node's sightings of the packet are less than
      the table's lifetime apart. */
  predicate Close(net: Net, now: nat, ev: Event)
    requires ev.who < |net.heard|
  {
    && now <= ev.at
    && (ev.Hears? && net.heard[ev.who].Some? ==> ev.at - net.heard[ev.who].value < SEEN_TTL)
  }

  function Run(net: Net, nodes: seq<Relayer>, hash: ByteString -> int, run: seq<Event>): (r: Option<Net>)
    ensures r.Some? ==> |r.value.seen| == |net.seen| && |r.value.heard| == |net.heard|
  {
    if run == [] then Some(net) else
      var before := Run(net, nodes, hash, run[..|run| - 1]);
      if before.None? || !InRange(before.value, nodes, run[|run| - 1]) then None
      else Some(Step(before.value, nodes, hash, run[|run| - 1]))
  }

  function TimeAfter(now: nat, run: seq<Event>): nat {
    if run == [] then now else run[|run| - 1].at
  }

  /** A run in which every event makes sense and follows closely on the last. */
  predicate Legal(net: Net, nodes: seq<Relayer>, hash: ByteString -> int, now: nat, run: seq<Event>) {
    run != [] ==>
      var before := run[..|run| - 1];
      && Legal(net, nodes, hash, now, before)
      && Run(net, nodes, hash, run).Some?
      && InRange(Run(net, nodes, hash, before).value, nodes, run[|run| - 1])
      && Close(Run(net, nodes, hash, before).value, TimeAfter(now, before), run[|run| - 1])
  }

  /** The net when `origin` has just sent `p`: sending marks it seen. The nodes
      come with whatever tables earlier traffic left them. */
  function Launched(tables: seq<Table>, origin: nat, p: Packet, hash: ByteString -> int, now: nat): Net
    requires origin < |tables|
  {
    Net(tables[origin := Sight(tables[origin], hash(p.DedupRegion()), now, SEEN, 0)],
        seq(|tables|, i => if i == origin then Some(now) else None), [Copy(origin, p)])
  }

  /** A node that heard the packet less than a lifetime ago still knows it. */
  predicate Remembers(net: Net, key: int, now: nat, i: nat)
    requires i < |net.heard| && i < |net.seen|
  {
    net.heard[i].Some? ==>
      net.heard[i].value <= now &&
      (now - net.heard[i].value < SEEN_TTL ==>
         key in net.seen[i] && net.heard[i].value + SEEN_TTL <= net.seen[i][key] <= now + SEEN_TTL)
  }

  predicate Sized(net: Net, nodes: seq<Relayer>) {
    |net.seen| == |net.heard| == |nodes|
  }

  predicate CopyOf(c: Copy, p: Packet, nodes: seq<Relayer>) {
    && c.node < |nodes| && c.packet.Valid() && c.packet.kind == p.kind && c.packet.payload == p.payload
    && c.packet.route == p.route && c.packet.DedupRegion() == p.DedupRegion() && c.packet.hashSize == p.hashSize
  }

  /** Copies are of the one packet, no node made two, and every node that made
      one, or heard one, knows it. */
  ghost predicate Flooding(net: Net, nodes: seq<Relayer>, hash: ByteString -> int, p: Packet, now: nat) {
    && Sized(net, nodes) && net.copies != []
    && (forall i :: 0 <= i < |nodes| ==> Remembers(net, hash(p.DedupRegion()), now, i))
    && (forall j :: 0 <= j < |net.copies| ==> CopyOf(net.copies[j], p, nodes) && net.heard[net.copies[j].node].Some?)
    && (forall j, k :: 0 <= j < k < |net.copies| ==> net.copies[j].node != net.copies[k].node)
    && (forall j :: 0 < j < |net.copies| && p.IsFlood() ==>
          net.copies[j].packet.HopCount() <= 63
          && net.copies[j].packet.HopCount() <= nodes[net.copies[j].node].cfg.maxHops as int)
  }

  lemma RemembersAfter(net: Net, nodes: seq<Relayer>, hash: ByteString -> int, key: int, now: nat, ev: Event)
    requires InRange(net, nodes, ev) && Close(net, now, ev)
    requires ev.Hears? ==> hash(net.copies[ev.copy].packet.DedupRegion()) == key
    requires forall i :: 0 <= i < |nodes| ==> Remembers(net, key, now, i)
    ensures var r := Step(net, nodes, hash, ev);
            Sized(r, nodes) && forall i :: 0 <= i < |nodes| ==> Remembers(r, key, ev.at, i)
  {
    var r := Step(net, nodes, hash, ev);
    forall i | 0 <= i < |nodes| ensures Remembers(r, key, ev.at, i) {
      assert Remembers(net, key, now, i);
    }
  }

  /** A node that has heard the packet takes every further copy for a repeat. */
  lemma HeardIsRepeat(net: Net, key: int, now: nat, at: nat, who: nat)
    requires who < |net.heard| && who < |net.seen| && Remembers(net, key, now, who) && now <= at
    requires net.heard[who].Some? && at - net.heard[who].value < SEEN_TTL
    ensures Live(net.seen[who], key, at)
  {}

  lemma {:induction false} StepFloods(net: Net, nodes: seq<Relayer>, hash: ByteString -> int, p: Packet, now: nat, ev: Event)
    requires Flooding(net, nodes, hash, p, now) && Routed(p)
    requires InRange(net, nodes, ev) && Close(net, now, ev)
    ensures Flooding(Step(net, nodes, hash, ev), nodes, hash, p, ev.at)
  {
    var key := hash(p.DedupRegion());
    if ev.Hears? {
      assert CopyOf(net.copies[ev.copy], p, nodes);
      HearingAdds(net, nodes, hash, p, now, ev);
    }
    RemembersAfter(net, nodes, hash, key, now, ev);
  }

  /** A hearing adds no copy, or a node's first and one hop more. */
  lemma {:induction false} HearingAdds(net: Net, nodes: seq<Relayer>, hash: ByteString -> int, p: Packet, now: nat, ev: Event)
    requires Flooding(net, nodes, hash, p, now) && Routed(p) && ev.Hears?
    requires InRange(net, nodes, ev) && Close(net, now, ev)
    ensures var r := Step(net, nodes, hash, ev);
            r.copies == net.copies
            || (net.heard[ev.who].None? && |r.copies| == |net.copies| + 1 && r.copies[..|net.copies|] == net.copies
                && var c := r.copies[|net.copies|];
                   && c.node == ev.who && CopyOf(c, p, nodes)
                   && (p.IsFlood() ==> c.packet.HopCount() <= 63 && c.packet.HopCount() <= nodes[ev.who].cfg.maxHops as int))
  {
    var q := net.copies[ev.copy].packet;
    assert CopyOf(net.copies[ev.copy], p, nodes) && Remembers(net, hash(p.DedupRegion()), now, ev.who);
    if net.heard[ev.who].Some? {
      HeardIsRepeat(net, hash(p.DedupRegion()), now, ev.at, ev.who);
    } else if Hop(nodes[ev.who], q).Some? {
      HopKeeps(nodes[ev.who], q);
    }
  }

  lemma {:induction false} RunFloods(net: Net, nodes: seq<Relayer>, hash: ByteString -> int, p: Packet, now: nat, run: seq<Event>)
    requires Flooding(net, nodes, hash, p, now) && Routed(p) && Legal(net, nodes, hash, now, run)
    ensures Run(net, nodes, hash, run).Some?
    ensures Flooding(Run(net, nodes, hash, run).value, nodes, hash, p, TimeAfter(now, run))
    decreases |run|
  {
    if run != [] {
      var before := run[..|run| - 1];
      RunFloods(net, nodes, hash, p, now, before);
      StepFloods(Run(net, nodes, hash, before).value, nodes, hash, p, TimeAfter(now, before), run[|run| - 1]);
    }
  }

  lemma LaunchedFloods(nodes: seq<Relayer>, tables: seq<Table>, origin: nat, p: Packet, hash: ByteString -> int, now: nat)
    requires origin < |tables| == |nodes| && p.Valid()
    ensures Flooding(Launched(tables, origin, p, hash, now), nodes, hash, p, now)
  {}

  function Senders(copies: seq<Copy>): set<nat> {
    set j | 0 <= j < |copies| :: copies[j].node
  }

  lemma {:induction false} DistinctSenders(copies: seq<Copy>)
    requires forall j, k :: 0 <= j < k < |copies| ==> copies[j].node != copies[k].node
    ensures |Senders(copies)| == |copies|
    decreases |copies|
  {
    if copies != [] {
      var rest := copies[..|copies| - 1];
      var last := copies[|copies| - 1];
      DistinctSenders(rest);
      assert Senders(copies) == Senders(rest) + {last.node} by {
        assert forall j :: 0 <= j < |rest| ==> rest[j] == copies[j];
      }
      assert last.node !in Senders(rest);
    } else {
      assert Senders(copies) == {};
    }
  }

  lemma BoundedSet(s: set<nat>, n: nat)
    requires forall x :: x in s ==> x < n
    ensures |s| <= n
    decreases n
  {
    if n == 0 {
      assert s == {};
    } else {
      BoundedSet(s - {n - 1}, n - 1);
    }
  }

  /** Floods die out on every topology: whatever the nodes saw before, and however
      a packet's copies are heard and lost, n nodes cause at most n transmissions of it, all with its type and
      payload, and none past 63 hops or its relay's own limit. */
  lemma {:induction false} FloodDiesOut(nodes: seq<Relayer>, tables: seq<Table>, origin: nat, p: Packet,
                                        hash: ByteString -> int, now: nat, run: seq<Event>)
    requires origin < |tables| == |nodes| && p.Valid() && Routed(p)
    requires Legal(Launched(tables, origin, p, hash, now), nodes, hash, now, run)
    ensures var r := Run(Launched(tables, origin, p, hash, now), nodes, hash, run);
            r.Some? && |r.value.copies| <= |nodes| && Flooding(r.value, nodes, hash, p, TimeAfter(now, run))
  {
    var net := Launched(tables, origin, p, hash, now);
    LaunchedFloods(nodes, tables, origin, p, hash, now);
    RunFloods(net, nodes, hash, p, now, run);
    var copies := Run(net, nodes, hash, run).value.copies;
    DistinctSenders(copies);
    BoundedSet(Senders(copies), |nodes|);
  }

  // ---- What the tables hold afterwards -----------------------------------

  /** The packet is on record until `until` at least. */
  predicate Knows(t: Table, key: int, until: nat, now: nat) {
    key in t && until <= t[key] <= now + SEEN_TTL
  }

  lemma SightKnows(t: Table, key: int, until: nat, now: nat, other: int, at: nat)
    requires Knows(t, key, until, now) && now <= at
    ensures Knows(Sight(t, other, at, SEEN, 0), key, until, at)
    ensures at < until ==> Knows(Expire(t, at), key, until, at) && Live(t, key, at)
  {}

  /** Nothing that happens before then takes it off the record. */
  lemma {:induction false} RunKnows(net: Net, nodes: seq<Relayer>, hash: ByteString -> int, now: nat, run: seq<Event>,
                                    key: int, i: nat, until: nat)
    requires Legal(net, nodes, hash, now, run) && i < |net.seen| && Knows(net.seen[i], key, until, now)
    requires TimeAfter(now, run) < until
    ensures Run(net, nodes, hash, run).Some? && now <= TimeAfter(now, run)
    ensures Knows(Run(net, nodes, hash, run).value.seen[i], key, until, TimeAfter(now, run))
    decreases |run|
  {
    if run != [] {
      var before, ev := run[..|run| - 1], run[|run| - 1];
      var t := TimeAfter(now, before);
      assert t <= ev.at;
      RunKnows(net, nodes, hash, now, before, key, i, until);
      var mid := Run(net, nodes, hash, before).value;
      var other := match ev
        case Hears(copy, _, _, _) => hash(mid.copies[copy].packet.DedupRegion())
        case Sweeps(_, _) => key
        case Sees(_, k, _) => k;
      SightKnows(mid.seen[i], key, until, t, other, ev.at);
    }
  }
}
