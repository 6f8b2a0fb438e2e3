/**
 Learned routes are sound: on a chain of relays that hear only their neighbours,
 the path a flooded text collects is returned to its author, and a packet sent
 along it is forwarded by exactly the relays it was learned from, in their order.
 Node 0 is the author, the last node the recipient.
 */
module Chain {
  import opened Bytes
  import opened Packets
  import opened Payloads
  import Nodes
  import DedupTable
  import opened Mesh
  import Sender

  /** At least the two ends, with identities to hash. */
  predicate IsChain(nodes: seq<Relayer>) {
    |nodes| >= 2 && forall i :: 0 <= i < |nodes| ==> nodes[i].own != []
  }

  /** The one-byte hashes of the first `j` relays. */
  function Route(nodes: seq<Relayer>, j: nat): (r: ByteString)
    requires IsChain(nodes) && j < |nodes|
  {
    seq(j, i requires 0 <= i < j => nodes[i + 1].own[0])
  }

  lemma RouteGrows(nodes: seq<Relayer>, j: nat)
    requires IsChain(nodes) && j + 1 < |nodes|
    ensures Route(nodes, j + 1) == Route(nodes, j) + nodes[j + 1].own[..1]
  {}

  predicate Adjacent(net: Net, ev: Event) {
    ev.Hears? && ev.copy < |net.copies| ==>
      var sender := net.copies[ev.copy].node;
      ev.who == sender + 1 || sender == ev.who + 1
  }

  /** Every hearing in the run is between neighbours. */
  predicate Neighbours(net: Net, nodes: seq<Relayer>, hash: ByteString -> int, run: seq<Event>) {
    run != [] ==>
      var before := Run(net, nodes, hash, run[..|run| - 1]);
      Neighbours(net, nodes, hash, run[..|run| - 1]) && (before.Some? ==> Adjacent(before.value, run[|run| - 1]))
  }

  /** Node j's copy of `p`: a flood has collected the relays up to it, a direct
      packet has shed them. */
  predicate Along(nodes: seq<Relayer>, p: Packet, c: Copy, j: nat)
    requires IsChain(nodes) && j < |nodes|
  {
    && c.node == j
    && c.packet == p.(path := c.packet.path)
    && if p.IsFlood() then c.packet.path == p.path + Route(nodes, j) else p.path == Route(nodes, j) + c.packet.path
  }

  /** Copies spread outward one relay at a time. */
  ghost predicate Spreading(net: Net, nodes: seq<Relayer>, p: Packet)
    requires IsChain(nodes)
  {
    && |net.copies| <= |nodes| == |net.heard|
    && (forall j :: 0 <= j < |net.copies| ==> Along(nodes, p, net.copies[j], j))
    && (forall j :: 0 < j < |net.copies| ==> nodes[j].cfg.repeat)
    && (forall i :: 0 <= i < |nodes| && net.heard[i].Some? ==> i <= |net.copies|)
  }

  lemma HopGoesAlong(nodes: seq<Relayer>, p: Packet, c: Copy, j: nat)
    requires IsChain(nodes) && j + 1 < |nodes| && Along(nodes, p, c, j)
    requires p.hashSize == 1 && Routed(p) && Hop(nodes[j + 1], c.packet).Some?
    ensures Along(nodes, p, Copy(j + 1, Hop(nodes[j + 1], c.packet).value), j + 1)
    ensures nodes[j + 1].cfg.repeat
  {
    RouteGrows(nodes, j);
    var own := nodes[j + 1].own;
    if !p.IsFlood() {
      assert c.packet.path == c.packet.FirstHop() + c.packet.PopHop().path;
      assert c.packet.FirstHop() == own[..1];
    }
  }

  lemma {:induction false} StepSpreads(net: Net, nodes: seq<Relayer>, hash: ByteString -> int, p: Packet, now: nat, ev: Event)
    requires IsChain(nodes) && p.hashSize == 1 && Routed(p)
    requires Flooding(net, nodes, hash, p, now) && Spreading(net, nodes, p)
    requires InRange(net, nodes, ev) && Close(net, now, ev) && Adjacent(net, ev)
    ensures Spreading(Step(net, nodes, hash, ev), nodes, p)
  {
    if ev.Hears? {
      FirstHearing(net, nodes, hash, p, now, ev);
      if net.heard[ev.who].Some? {
        assert CopyOf(net.copies[ev.copy], p, nodes) && Remembers(net, hash(p.DedupRegion()), now, ev.who);
        HeardIsRepeat(net, hash(p.DedupRegion()), now, ev.at, ev.who);
      } else {
        FirstSpreads(net, nodes, hash, p, ev);
      }
    }
  }

  lemma {:induction false} FirstSpreads(net: Net, nodes: seq<Relayer>, hash: ByteString -> int, p: Packet, ev: Event)
    requires IsChain(nodes) && p.hashSize == 1 && Routed(p) && Spreading(net, nodes, p)
    requires ev.Hears? && InRange(net, nodes, ev) && ev.who == |net.copies| == ev.copy + 1
    ensures Spreading(Step(net, nodes, hash, ev), nodes, p)
  {
    var c := net.copies[ev.copy];
    assert Along(nodes, p, c, ev.copy);
    if Hop(nodes[ev.who], c.packet).Some? {
      HopGoesAlong(nodes, p, c, ev.copy);
    }
  }

  /** The only node that can hear the packet for the first time is the next. */
  lemma FirstHearing(net: Net, nodes: seq<Relayer>, hash: ByteString -> int, p: Packet, now: nat, ev: Event)
    requires IsChain(nodes) && Flooding(net, nodes, hash, p, now) && Spreading(net, nodes, p)
    requires ev.Hears? && InRange(net, nodes, ev) && Adjacent(net, ev)
    ensures net.heard[ev.who].None? ==> ev.who == |net.copies| == ev.copy + 1
  {
    assert Along(nodes, p, net.copies[ev.copy], ev.copy);
    assert ev.who < |net.copies| ==> Along(nodes, p, net.copies[ev.who], ev.who) && net.heard[net.copies[ev.who].node].Some?;
  }

  lemma {:induction false} RunSpreads(nodes: seq<Relayer>, tables: seq<DedupTable.Table>, hash: ByteString -> int, p: Packet, now: nat,
                                      run: seq<Event>)
    requires IsChain(nodes) && |tables| == |nodes| && p.Valid() && p.hashSize == 1 && Routed(p)
    requires Legal(Launched(tables, 0, p, hash, now), nodes, hash, now, run)
    requires Neighbours(Launched(tables, 0, p, hash, now), nodes, hash, run)
    ensures var r := Run(Launched(tables, 0, p, hash, now), nodes, hash, run);
            r.Some? && Spreading(r.value, nodes, p) && Flooding(r.value, nodes, hash, p, TimeAfter(now, run))
    decreases |run|
  {
    var net := Launched(tables, 0, p, hash, now);
    FloodDiesOut(nodes, tables, 0, p, hash, now, run);
    if run == [] {
      assert Route(nodes, 0) == [];
    } else {
      var before := run[..|run| - 1];
      RunSpreads(nodes, tables, hash, p, now, before);
      StepSpreads(Run(net, nodes, hash, before).value, nodes, hash, p, TimeAfter(now, before), run[|run| - 1]);
    }
  }

  /** The run ends with the recipient hearing `q`, a copy of the `p` that the
      author sent at `now`. */
  ghost predicate Reaches(nodes: seq<Relayer>, tables: seq<DedupTable.Table>, hash: ByteString -> int, now: nat, p: Packet,
                          run: seq<Event>, q: Packet)
  {
    && IsChain(nodes) && |tables| == |nodes| && run != []
    && Legal(Launched(tables, 0, p, hash, now), nodes, hash, now, run)
    && Neighbours(Launched(tables, 0, p, hash, now), nodes, hash, run)
    && var before := Run(Launched(tables, 0, p, hash, now), nodes, hash, run[..|run| - 1]);
       var last := run[|run| - 1];
       && before.Some? && last.Hears? && last.who == |nodes| - 1 && last.copy < |before.value.copies|
       && q == before.value.copies[last.copy].packet
  }

  function Relays(nodes: seq<Relayer>): nat
    requires IsChain(nodes)
  {
    |nodes| - 2
  }

  function InOrder(n: nat): seq<nat> {
    seq(n, j => j)
  }

  /** Those whose transmissions, one each and in this order, have been made. */
  function Transmitters(net: Net): seq<nat> {
    seq(|net.copies|, j requires 0 <= j < |net.copies| => net.copies[j].node)
  }

  /** What the recipient hears went through every relay once, in order: a flood
      lists them all, a direct packet has all of them taken off its path. */
  lemma {:induction false} HeardThroughAll(nodes: seq<Relayer>, tables: seq<DedupTable.Table>, hash: ByteString -> int, now: nat,
                                           p: Packet, run: seq<Event>, q: Packet)
    requires Reaches(nodes, tables, hash, now, p, run, q) && p.Valid() && p.hashSize == 1 && Routed(p)
    ensures q.Valid() && q == p.(path := q.path)
    ensures if p.IsFlood() then q.path == p.path + Route(nodes, Relays(nodes))
            else p.path == Route(nodes, Relays(nodes)) + q.path
    ensures forall j :: 0 < j <= Relays(nodes) ==> nodes[j].cfg.repeat
    ensures var net := Run(Launched(tables, 0, p, hash, now), nodes, hash, run[..|run| - 1]).value;
            && InOrder(|nodes| - 1) <= Transmitters(net) <= InOrder(|nodes|)
            && (p.IsDirect() && |p.path| == Relays(nodes) ==> Transmitters(net) == InOrder(|nodes| - 1))
  {
    var before := run[..|run| - 1];
    var net := Run(Launched(tables, 0, p, hash, now), nodes, hash, before).value;
    RunSpreads(nodes, tables, hash, p, now, before);
    var last := run[|run| - 1];
    assert Along(nodes, p, net.copies[last.copy], last.copy) && CopyOf(net.copies[last.copy], p, nodes);
    assert last.copy == Relays(nodes);
    SpreadInOrder(net, nodes, p);
  }

  /** Once the last relay has made its copy, all have, in order; and past it only
      a flood, or a direct packet with more of a path, goes on. */
  lemma {:induction false} SpreadInOrder(net: Net, nodes: seq<Relayer>, p: Packet)
    requires IsChain(nodes) && Spreading(net, nodes, p) && |net.copies| > Relays(nodes)
    ensures InOrder(|nodes| - 1) <= Transmitters(net) <= InOrder(|nodes|)
    ensures p.IsDirect() && |p.path| == Relays(nodes) ==> Transmitters(net) == InOrder(|nodes| - 1)
  {
    assert forall j :: 0 <= j < |net.copies| ==> Along(nodes, p, net.copies[j], j);
    assert |net.copies| == |nodes| ==> Along(nodes, p, net.copies[|nodes| - 1], |nodes| - 1);
  }

  // ---- The learned route is travelled ------------------------------------

  /** A node's keys, state and surroundings when it hears the packet. */
  datatype Station = Station(c: Sender.Crypto, s: Nodes.State, e: Nodes.Env)

  /** The relay takes part under its own key, and the packet passes it by. */
  predicate Carries(n: Relayer, at: Station, p: Packet) {
    at.c.own == n.own && PassesOn(at.c, at.s, p, at.e)
  }

  predicate AllCarry(nodes: seq<Relayer>, stations: seq<Station>, p: Packet)
    requires IsChain(nodes)
  {
    && |stations| == |nodes|
    && forall j :: 0 < j <= Relays(nodes) ==> Carries(nodes[j], stations[j], p)
  }

  /** A relay that hears the packet for the first time does what its node does:
      the copy it makes, if any, is the one packet `OnPacket` has it relay. */
  ghost predicate Acts(net: Net, nodes: seq<Relayer>, stations: seq<Station>, hash: ByteString -> int, ev: Event)
    requires |stations| == |nodes| && InRange(net, nodes, ev)
  {
    ev.Hears? && 0 < ev.who && ev.who + 1 < |nodes| ==>
      var p, at := net.copies[ev.copy].packet, stations[ev.who];
      var outs := Nodes.OnPacket(nodes[ev.who].cfg, at.c, at.s, p, at.e).outs;
      !DedupTable.Live(net.seen[ev.who], hash(p.DedupRegion()), ev.at) ==>
        if ev.drop then forall o :: o in outs ==> o.role != Nodes.Relay
        else |outs| == 1 && outs[0].role == Nodes.Relay
             && Step(net, nodes, hash, ev).copies == net.copies + [Copy(ev.who, outs[0].packet)]
  }

  /** Every relay in the run acts as its node does. */
  ghost predicate Driven(net: Net, nodes: seq<Relayer>, stations: seq<Station>, hash: ByteString -> int, run: seq<Event>)
    requires |stations| == |nodes|
  {
    run != [] ==>
      var before := Run(net, nodes, hash, run[..|run| - 1]);
      && Driven(net, nodes, stations, hash, run[..|run| - 1])
      && (before.Some? && InRange(before.value, nodes, run[|run| - 1]) ==>
            Acts(before.value, nodes, stations, hash, run[|run| - 1]))
  }

  /** Each of the first `n` nodes is heard by the next at once and nothing is
      lost; the recipient, after `k` relays, keeps what it hears. */
  function Undisturbed(k: nat, n: nat, now: nat): seq<Event> {
    seq(n, i requires 0 <= i => Hears(i, i + 1, now, i >= k))
  }

  lemma UndisturbedGrows(k: nat, m: nat, now: nat)
    ensures Undisturbed(k, m + 1, now) == Undisturbed(k, m, now) + [Hears(m, m + 1, now, m >= k)]
  {}

  /** What gets through: a direct packet along the chain's own route, or a flood
      that no relay's hop limit stops, nor the path's size. */
  predicate Passable(nodes: seq<Relayer>, p: Packet)
    requires IsChain(nodes)
  {
    && p.Valid() && p.hashSize == 1 && Routed(p)
    && (forall j :: 0 < j <= Relays(nodes) ==> nodes[j].cfg.repeat)
    && if p.IsFlood() then
         && FloodRouted(p.kind) && |p.path| + Relays(nodes) <= 63
         && forall j :: 0 < j <= Relays(nodes) ==> |p.path| + j <= nodes[j].cfg.maxHops as int
       else p.kind != MULTIPART && !ZeroHop(p) && p.path == Route(nodes, Relays(nodes))
  }

  /** No relay among the first `m` has the packet on record. */
  predicate Unseen(tables: seq<DedupTable.Table>, key: int, now: nat, m: nat)
    requires m < |tables|
  {
    forall j :: 0 < j <= m ==> !DedupTable.Live(tables[j], key, now)
  }

  /** After m hops of an undisturbed packet; further on nothing has happened yet. */
  ghost predicate Advanced(net: Net, nodes: seq<Relayer>, tables: seq<DedupTable.Table>, p: Packet, m: nat)
    requires IsChain(nodes) && |tables| == |nodes|
  {
    && Sized(net, nodes) && Spreading(net, nodes, p) && |net.copies| == m + 1
    && forall i :: m < i < |nodes| ==> net.heard[i].None? && net.seen[i] == tables[i]
  }

  lemma HopPasses(nodes: seq<Relayer>, p: Packet, c: Copy, m: nat)
    requires IsChain(nodes) && m < Relays(nodes) && Passable(nodes, p) && Along(nodes, p, c, m)
    ensures Hop(nodes[m + 1], c.packet).Some?
  {
    var q := c.packet;
    if !p.IsFlood() {
      assert q.path[0] == p.path[m] == nodes[m + 1].own[0];
      assert q.FirstHop() == Take(nodes[m + 1].own, 1);
    }
  }

  /** The next relay adds its copy exactly when it has not the packet on record. */
  lemma {:induction false} UndisturbedStep(net: Net, nodes: seq<Relayer>, tables: seq<DedupTable.Table>,
                                           hash: ByteString -> int, p: Packet, now: nat, m: nat)
    requires IsChain(nodes) && |tables| == |nodes| && m < Relays(nodes) && Passable(nodes, p)
    requires Advanced(net, nodes, tables, p, m) && Flooding(net, nodes, hash, p, now)
    ensures var r := Step(net, nodes, hash, Hears(m, m + 1, now, false));
            if DedupTable.Live(tables[m + 1], hash(p.DedupRegion()), now) then |r.copies| == m + 1
            else Advanced(r, nodes, tables, p, m + 1)
  {
    var c := net.copies[m];
    assert Along(nodes, p, c, m) && CopyOf(c, p, nodes);
    HopPasses(nodes, p, c, m);
    StepSpreads(net, nodes, hash, p, now, Hears(m, m + 1, now, false));
  }

  /** The node itself relays the packet at that step. */
  lemma {:induction false} UndisturbedActs(net: Net, nodes: seq<Relayer>, tables: seq<DedupTable.Table>, stations: seq<Station>,
                                           hash: ByteString -> int, p: Packet, now: nat, m: nat)
    requires IsChain(nodes) && |tables| == |nodes| && m < Relays(nodes)
    requires Passable(nodes, p) && AllCarry(nodes, stations, p) && Advanced(net, nodes, tables, p, m)
    ensures InRange(net, nodes, Hears(m, m + 1, now, false))
    ensures Acts(net, nodes, stations, hash, Hears(m, m + 1, now, false))
  {
    var c := net.copies[m];
    assert Along(nodes, p, c, m);
    HopPasses(nodes, p, c, m);
    var at := stations[m + 1];
    assert Carries(nodes[m + 1], at, p) && PassesOn(at.c, at.s, c.packet, at.e);
    NodesRelayExactly(nodes[m + 1], at.c, at.s, c.packet, at.e);
  }

  /** The undisturbed run so far: possible, driven by the nodes, and m hops on. */
  ghost predicate Proceeds(nodes: seq<Relayer>, tables: seq<DedupTable.Table>, stations: seq<Station>,
                           hash: ByteString -> int, p: Packet, now: nat, m: nat)
    requires IsChain(nodes) && |stations| == |tables| == |nodes|
  {
    var start := Launched(tables, 0, p, hash, now);
    var run := Undisturbed(Relays(nodes), m, now);
    && Legal(start, nodes, hash, now, run) && Neighbours(start, nodes, hash, run)
    && Driven(start, nodes, stations, hash, run)
    && Run(start, nodes, hash, run).Some? && Advanced(Run(start, nodes, hash, run).value, nodes, tables, p, m)
  }

  lemma UndisturbedStarts(nodes: seq<Relayer>, tables: seq<DedupTable.Table>, stations: seq<Station>,
                          hash: ByteString -> int, p: Packet, now: nat)
    requires IsChain(nodes) && Passable(nodes, p) && |stations| == |tables| == |nodes|
    ensures Proceeds(nodes, tables, stations, hash, p, now, 0)
  {
    RunSpreads(nodes, tables, hash, p, now, []);
    assert Undisturbed(Relays(nodes), 0, now) == [];
  }

  /** One event further, whatever the relay makes of it. */
  lemma {:induction false} UndisturbedExtends(nodes: seq<Relayer>, tables: seq<DedupTable.Table>, stations: seq<Station>,
                                              hash: ByteString -> int, p: Packet, now: nat, m: nat)
    requires IsChain(nodes) && |tables| == |nodes| && m < Relays(nodes)
    requires Passable(nodes, p) && AllCarry(nodes, stations, p) && Proceeds(nodes, tables, stations, hash, p, now, m)
    ensures var start := Launched(tables, 0, p, hash, now);
            var before := Undisturbed(Relays(nodes), m, now);
            var run := before + [Hears(m, m + 1, now, false)];
            var net := Run(start, nodes, hash, before).value;
            && InRange(net, nodes, Hears(m, m + 1, now, false)) && Flooding(net, nodes, hash, p, now)
            && Run(start, nodes, hash, run) == Some(Step(net, nodes, hash, Hears(m, m + 1, now, false)))
            && Legal(start, nodes, hash, now, run) && Neighbours(start, nodes, hash, run)
            && Driven(start, nodes, stations, hash, run)
  {
    var start := Launched(tables, 0, p, hash, now);
    var before := Undisturbed(Relays(nodes), m, now);
    var ev := Hears(m, m + 1, now, false);
    UndisturbedFloods(nodes, tables, stations, hash, p, now, m);
    var net := Run(start, nodes, hash, before).value;
    UndisturbedHearing(net, nodes, tables, p, now, m, false);
    AlwaysAt(Relays(nodes), now, m);
    UndisturbedActs(net, nodes, tables, stations, hash, p, now, m);
    OneMore(start, nodes, stations, hash, now, before, ev);
  }

  lemma UndisturbedFloods(nodes: seq<Relayer>, tables: seq<DedupTable.Table>, stations: seq<Station>,
                          hash: ByteString -> int, p: Packet, now: nat, m: nat)
    requires IsChain(nodes) && |stations| == |tables| == |nodes| && Passable(nodes, p)
    requires Proceeds(nodes, tables, stations, hash, p, now, m)
    ensures Flooding(Run(Launched(tables, 0, p, hash, now), nodes, hash, Undisturbed(Relays(nodes), m, now)).value,
                     nodes, hash, p, now)
  {
    RunSpreads(nodes, tables, hash, p, now, Undisturbed(Relays(nodes), m, now));
    AlwaysAt(Relays(nodes), now, m);
  }

  lemma {:induction false} UndisturbedGoesOn(nodes: seq<Relayer>, tables: seq<DedupTable.Table>, stations: seq<Station>,
                                             hash: ByteString -> int, p: Packet, now: nat, m: nat)
    requires IsChain(nodes) && |tables| == |nodes| && m < Relays(nodes)
    requires Passable(nodes, p) && AllCarry(nodes, stations, p) && Proceeds(nodes, tables, stations, hash, p, now, m)
    requires !DedupTable.Live(tables[m + 1], hash(p.DedupRegion()), now)
    ensures Proceeds(nodes, tables, stations, hash, p, now, m + 1)
  {
    UndisturbedExtends(nodes, tables, stations, hash, p, now, m);
    UndisturbedGrows(Relays(nodes), m, now);
    var net := Run(Launched(tables, 0, p, hash, now), nodes, hash, Undisturbed(Relays(nodes), m, now)).value;
    UndisturbedStep(net, nodes, tables, hash, p, now, m);
  }

  /** A relay that has it on record leaves nothing for the next to hear. */
  lemma {:induction false} UndisturbedStops(nodes: seq<Relayer>, tables: seq<DedupTable.Table>, stations: seq<Station>,
                                            hash: ByteString -> int, p: Packet, now: nat, m: nat)
    requires IsChain(nodes) && |tables| == |nodes| && m < Relays(nodes)
    requires Passable(nodes, p) && AllCarry(nodes, stations, p) && Proceeds(nodes, tables, stations, hash, p, now, m)
    requires DedupTable.Live(tables[m + 1], hash(p.DedupRegion()), now)
    ensures Run(Launched(tables, 0, p, hash, now), nodes, hash, Undisturbed(Relays(nodes), m + 2, now)).None?
  {
    UndisturbedExtends(nodes, tables, stations, hash, p, now, m);
    UndisturbedGrows(Relays(nodes), m, now);
    var start := Launched(tables, 0, p, hash, now);
    var net := Run(start, nodes, hash, Undisturbed(Relays(nodes), m, now)).value;
    UndisturbedStep(net, nodes, tables, hash, p, now, m);
    if Run(start, nodes, hash, Undisturbed(Relays(nodes), m + 2, now)).Some? {
      RunMinusOne(start, nodes, hash, Relays(nodes), now, m + 1);
    }
  }

  lemma {:induction false} UndisturbedAdvances(nodes: seq<Relayer>, tables: seq<DedupTable.Table>, stations: seq<Station>,
                                               hash: ByteString -> int, p: Packet, now: nat, m: nat)
    requires IsChain(nodes) && |tables| == |nodes| && m <= Relays(nodes)
    requires Passable(nodes, p) && AllCarry(nodes, stations, p) && Unseen(tables, hash(p.DedupRegion()), now, m)
    ensures Proceeds(nodes, tables, stations, hash, p, now, m)
    decreases m
  {
    if m == 0 {
      UndisturbedStarts(nodes, tables, stations, hash, p, now);
    } else {
      UndisturbedAdvances(nodes, tables, stations, hash, p, now, m - 1);
      UndisturbedGoesOn(nodes, tables, stations, hash, p, now, m - 1);
    }
  }

  /** A relay that could be heard had not the packet on record. */
  lemma {:induction false} RelayedMeansUnseen(nodes: seq<Relayer>, tables: seq<DedupTable.Table>, stations: seq<Station>,
                                              hash: ByteString -> int, p: Packet, now: nat, m: nat)
    requires IsChain(nodes) && |tables| == |nodes| && m < Relays(nodes)
    requires Passable(nodes, p) && AllCarry(nodes, stations, p) && Unseen(tables, hash(p.DedupRegion()), now, m)
    requires Run(Launched(tables, 0, p, hash, now), nodes, hash, Undisturbed(Relays(nodes), m + 2, now)).Some?
    ensures Unseen(tables, hash(p.DedupRegion()), now, m + 1)
  {
    UndisturbedAdvances(nodes, tables, stations, hash, p, now, m);
    if DedupTable.Live(tables[m + 1], hash(p.DedupRegion()), now) {
      UndisturbedStops(nodes, tables, stations, hash, p, now, m);
    }
  }

  /** Once the m-th relay's copy is heard, none up to it had it on record. */
  lemma {:induction false} HeardMeansUnseen(nodes: seq<Relayer>, tables: seq<DedupTable.Table>, stations: seq<Station>,
                                            hash: ByteString -> int, p: Packet, now: nat, m: nat, n: nat)
    requires IsChain(nodes) && |tables| == |nodes| && m <= Relays(nodes) && n == m + 1
    requires Passable(nodes, p) && AllCarry(nodes, stations, p)
    requires Run(Launched(tables, 0, p, hash, now), nodes, hash, Undisturbed(Relays(nodes), n, now)).Some?
    ensures Unseen(tables, hash(p.DedupRegion()), now, m)
    decreases m
  {
    if m > 0 {
      RunMinusOne(Launched(tables, 0, p, hash, now), nodes, hash, Relays(nodes), now, m);
      HeardMeansUnseen(nodes, tables, stations, hash, p, now, m - 1, m);
      RelayedMeansUnseen(nodes, tables, stations, hash, p, now, m - 1);
    }
  }

  /** The m-th hearing needs the m-th copy to have been made. */
  lemma RunMinusOne(start: Net, nodes: seq<Relayer>, hash: ByteString -> int, k: nat, now: nat, m: nat)
    requires Run(start, nodes, hash, Undisturbed(k, m + 1, now)).Some?
    ensures Run(start, nodes, hash, Undisturbed(k, m, now)).Some?
    ensures m < |Run(start, nodes, hash, Undisturbed(k, m, now)).value.copies|
  {
    var run := Undisturbed(k, m + 1, now);
    assert run[..|run| - 1] == Undisturbed(k, m, now) && run[|run| - 1] == Hears(m, m + 1, now, m >= k);
  }

  /** A run goes on with an event that fits. */
  lemma OneMore(start: Net, nodes: seq<Relayer>, stations: seq<Station>, hash: ByteString -> int, now: nat,
                before: seq<Event>, ev: Event)
    requires |stations| == |nodes| && Legal(start, nodes, hash, now, before) && Run(start, nodes, hash, before).Some?
    requires Neighbours(start, nodes, hash, before) && Driven(start, nodes, stations, hash, before)
    requires var net := Run(start, nodes, hash, before).value;
             && InRange(net, nodes, ev) && Close(net, TimeAfter(now, before), ev) && Adjacent(net, ev)
             && Acts(net, nodes, stations, hash, ev)
    ensures var run := before + [ev];
            && Run(start, nodes, hash, run) == Some(Step(Run(start, nodes, hash, before).value, nodes, hash, ev))
            && Legal(start, nodes, hash, now, run) && Neighbours(start, nodes, hash, run)
            && Driven(start, nodes, stations, hash, run)
  {
    var run := before + [ev];
    assert run[..|run| - 1] == before && run[|run| - 1] == ev;
  }

  lemma AlwaysAt(k: nat, now: nat, m: nat)
    ensures TimeAfter(now, Undisturbed(k, m, now)) == now
  {}

  lemma UndisturbedHearing(net: Net, nodes: seq<Relayer>, tables: seq<DedupTable.Table>, p: Packet, now: nat, m: nat, drop: bool)
    requires IsChain(nodes) && |tables| == |nodes| && m <= Relays(nodes) && Advanced(net, nodes, tables, p, m)
    ensures var ev := Hears(m, m + 1, now, drop);
            InRange(net, nodes, ev) && Close(net, now, ev) && Adjacent(net, ev)
  {
    assert Along(nodes, p, net.copies[m], m);
  }

  /** How a packet arrives: a flood lists every relay, a direct one has its path
      used up. */
  function Arrived(nodes: seq<Relayer>, p: Packet): Packet
    requires IsChain(nodes)
  {
    p.(path := if p.IsFlood() then p.path + Route(nodes, Relays(nodes)) else [])
  }

  /** The recipient hears `p` in the run, each relay step of which is what that
      relay's node does, and takes it for new unless it had it on record. */
  ghost predicate Delivers(nodes: seq<Relayer>, tables: seq<DedupTable.Table>, stations: seq<Station>,
                           hash: ByteString -> int, now: nat, p: Packet, run: seq<Event>)
    requires IsChain(nodes)
  {
    && Reaches(nodes, tables, hash, now, p, run, Arrived(nodes, p)) && |stations| == |nodes|
    && var start := Launched(tables, 0, p, hash, now);
       var last, key := |nodes| - 1, hash(p.DedupRegion());
       && Driven(start, nodes, stations, hash, run)
       && (DedupTable.Live(Run(start, nodes, hash, run[..|run| - 1]).value.seen[last], key, now)
           <==> DedupTable.Live(tables[last], key, now))
  }

  /** When nothing is lost, what can get through does, exactly when no relay has
      the packet on record from the last 60 s. */
  lemma {:induction false} UndisturbedArrivesIff(nodes: seq<Relayer>, tables: seq<DedupTable.Table>, stations: seq<Station>,
                                                 hash: ByteString -> int, p: Packet, now: nat)
    requires IsChain(nodes) && |tables| == |nodes| && Passable(nodes, p) && AllCarry(nodes, stations, p)
    ensures Delivers(nodes, tables, stations, hash, now, p, Undisturbed(Relays(nodes), |nodes| - 1, now))
            <==> Unseen(tables, hash(p.DedupRegion()), now, Relays(nodes))
    ensures !Unseen(tables, hash(p.DedupRegion()), now, Relays(nodes)) ==>
              Run(Launched(tables, 0, p, hash, now), nodes, hash, Undisturbed(Relays(nodes), |nodes| - 1, now)).None?
  {
    var m := Relays(nodes);
    if Unseen(tables, hash(p.DedupRegion()), now, m) {
      UndisturbedDelivers(nodes, tables, stations, hash, p, now);
    } else if Run(Launched(tables, 0, p, hash, now), nodes, hash, Undisturbed(m, m + 1, now)).Some? {
      HeardMeansUnseen(nodes, tables, stations, hash, p, now, m, m + 1);
    }
  }

  lemma {:induction false} UndisturbedDelivers(nodes: seq<Relayer>, tables: seq<DedupTable.Table>, stations: seq<Station>,
                                               hash: ByteString -> int, p: Packet, now: nat)
    requires IsChain(nodes) && |tables| == |nodes| && Passable(nodes, p) && AllCarry(nodes, stations, p)
    requires Unseen(tables, hash(p.DedupRegion()), now, Relays(nodes))
    ensures Delivers(nodes, tables, stations, hash, now, p, Undisturbed(Relays(nodes), |nodes| - 1, now))
  {
    var m := Relays(nodes);
    var start := Launched(tables, 0, p, hash, now);
    var before, ev := Undisturbed(m, m, now), Hears(m, m + 1, now, true);
    var run := Undisturbed(m, m + 1, now);
    assert run == before + [ev] && run[..|run| - 1] == before;
    UndisturbedAdvances(nodes, tables, stations, hash, p, now, m);
    var net := Run(start, nodes, hash, before).value;
    assert Along(nodes, p, net.copies[m], m);
    AlwaysAt(m, now, m);
    UndisturbedHearing(net, nodes, tables, p, now, m, true);
    OneMore(start, nodes, stations, hash, now, before, ev);
  }

  // ---- The route is learned ----------------------------------------------

  /** The recipient's answer to a flooded text carries the path it came by. */
  lemma {:induction false} RecipientReturnsPath(cfg: Nodes.Config, c: Sender.Crypto, s: Nodes.State, q: Packet, e: Nodes.Env,
                                                o: Nodes.Out)
    requires q.kind == TXT_MSG && q.IsFlood()
    requires o in Nodes.OnPacket(cfg, c, s, q, e).outs && o.role == Nodes.Reply
    ensures o.packet.IsFlood() && o.packet.kind == PATH && o.packet.hashSize == 1 && o.packet.path == []
    ensures e.inside.Some? && e.inside.value.0 in s.contacts
    ensures exists ret: PathReturn ::
              && o.packet.payload == c.seal(s.contacts[e.inside.value.0].pubkey, ret.Encode())
              && ret.path == q.path && ret.hashSize == q.hashSize && ret.hasExtra && ret.extraType < 16
  {
    var from := s.contacts[e.inside.value.0];
    var m := DecodeText(e.inside.value.1).value;
    var ack := Nodes.AckFor(c, from, m.kind, e.inside.value.1, e);
    var ret := PathReturn(q.path, q.hashSize, true, if ack != [] then ACK else Nodes.NO_EXTRA,
                          if ack != [] then ack else e.dummy);
    assert o.packet.payload == c.seal(from.pubkey, ret.Encode());
  }

  /** The author takes the returned path for its contact. */
  lemma {:induction false} AuthorLearnsPath(cfg: Nodes.Config, author: Sender.Crypto, recipient: Sender.Crypto, s: Nodes.State,
                                            back: Packet, e: Nodes.Env, ret: PathReturn)
    requires back.kind == PATH && back.IsFlood() && Nodes.Opens(author, recipient, back.payload, e)
    requires recipient.own in s.contacts && s.contacts[recipient.own].pubkey == recipient.own
    requires back.payload == recipient.seal(author.own, ret.Encode())
    requires ret.hashSize == 1 && |ret.path| <= 63 && ret.hasExtra && ret.extraType < 16
    ensures var after := Nodes.OnPacket(cfg, author, s, back, e).s.contacts;
            recipient.own in after && after[recipient.own].pathKnown && after[recipient.own].outPath == ret.path
  {
    assert Nodes.Padded(e.inside.value.1, ret.Encode());
    var n: nat :| e.inside.value.1 == ret.Encode() + Zeros(n);
    PathReturnSurvivesPadding(ret, n);
  }

  /** One packet's way over the mesh: what the nodes had on record when it was
      sent, and what happened then. */
  datatype Trip = Trip(tables: seq<DedupTable.Table>, packet: Packet, sent: nat, run: seq<Event>)

  /** The mesh at the end of a trip that was possible. */
  function Ended(nodes: seq<Relayer>, hash: ByteString -> int, origin: nat, t: Trip): Option<Net> {
    if |t.tables| == |nodes| && origin < |nodes| then Run(Launched(t.tables, origin, t.packet, hash, t.sent), nodes, hash, t.run)
    else None
  }

  /** The second trip starts from the records the first one left, and after it. */
  predicate Follows(nodes: seq<Relayer>, hash: ByteString -> int, origin: nat, first: Trip, second: Trip) {
    var net := Ended(nodes, hash, origin, first);
    net.Some? && second.tables == net.value.seen && TimeAfter(first.sent, first.run) <= second.sent
  }

  /** A text the author flooded reaches the recipient as `heard`. */
  ghost predicate Flooded(nodes: seq<Relayer>, hash: ByteString -> int, t: Trip, heard: Packet) {
    && t.packet.Valid() && t.packet.kind == TXT_MSG && t.packet.IsFlood() && t.packet.path == [] && t.packet.hashSize == 1
    && Reaches(nodes, t.tables, hash, t.sent, t.packet, t.run, heard)
  }

  /** The recipient answers `heard` to the author. */
  ghost predicate Answered(cfg: Nodes.Config, author: Sender.Crypto, recipient: Sender.Crypto, s: Nodes.State, e: Nodes.Env,
                           heard: Packet, answer: Nodes.Out)
  {
    && answer in Nodes.OnPacket(cfg, recipient, s, heard, e).outs && answer.role == Nodes.Reply
    && e.inside.Some? && e.inside.value.0 in s.contacts && s.contacts[e.inside.value.0].pubkey == author.own
  }

  /** Some node's copy of the recipient's answer, on its way over the mesh by any
      hearings at all. */
  ghost predicate Returned(nodes: seq<Relayer>, hash: ByteString -> int, t: Trip, back: Copy)
    requires IsChain(nodes)
  {
    && t.packet.Valid() && |t.tables| == |nodes|
    && Legal(Launched(t.tables, |nodes| - 1, t.packet, hash, t.sent), nodes, hash, t.sent, t.run)
    && Ended(nodes, hash, |nodes| - 1, t).Some? && back in Ended(nodes, hash, |nodes| - 1, t).value.copies
  }

  lemma {:induction false} ReturnedIsCopy(nodes: seq<Relayer>, hash: ByteString -> int, t: Trip, back: Copy)
    requires IsChain(nodes) && Returned(nodes, hash, t, back) && t.packet.kind != TRACE
    ensures CopyOf(back, t.packet, nodes)
  {
    FloodDiesOut(nodes, t.tables, |nodes| - 1, t.packet, hash, t.sent, t.run);
  }

  /** What the author learns is the chain's route. */
  lemma {:induction false} AuthorLearnsRoute(
      nodes: seq<Relayer>, author: Sender.Crypto, recipient: Sender.Crypto, out: Trip, heard: Packet,
      recipientState: Nodes.State, recipientEnv: Nodes.Env, answer: Nodes.Out,
      home: Trip, back: Copy, authorState: Nodes.State, authorEnv: Nodes.Env)
    requires Flooded(nodes, author.dedup, out, heard)
    requires Answered(nodes[|nodes| - 1].cfg, author, recipient, recipientState, recipientEnv, heard, answer)
    requires home.packet == answer.packet && Returned(nodes, author.dedup, home, back)
    requires Nodes.Opens(author, recipient, back.packet.payload, authorEnv)
    requires recipient.own in authorState.contacts && authorState.contacts[recipient.own].pubkey == recipient.own
    ensures heard.path == Route(nodes, Relays(nodes))
    ensures var contacts := Nodes.OnPacket(nodes[0].cfg, author, authorState, back.packet, authorEnv).s.contacts;
            && recipient.own in contacts && contacts[recipient.own].pathKnown
            && contacts[recipient.own].outPath == Route(nodes, Relays(nodes))
  {
    HeardThroughAll(nodes, out.tables, author.dedup, out.sent, out.packet, out.run, heard);
    assert heard.path == Route(nodes, Relays(nodes));
    RecipientReturnsPath(nodes[|nodes| - 1].cfg, recipient, recipientState, heard, recipientEnv, answer);
    var ret: PathReturn :|
      && answer.packet.payload == recipient.seal(author.own, ret.Encode())
      && ret.path == heard.path && ret.hashSize == heard.hashSize && ret.hasExtra && ret.extraType < 16;
    ReturnedIsCopy(nodes, author.dedup, home, back);
    AuthorLearnsPath(nodes[0].cfg, author, recipient, authorState, back.packet, authorEnv, ret);
  }

  /** Of a kind that relays pass on, for these relays. */
  predicate Relayable(nodes: seq<Relayer>, stations: seq<Station>, p: Packet)
    requires IsChain(nodes)
  {
    p.kind != MULTIPART && !ZeroHop(p) && AllCarry(nodes, stations, p)
  }

  /** A packet sent along the route the flood listed is forwarded by exactly the
      relays the flood went through, once each and in the same order, and reaches
      the recipient with an empty path. Undisturbed, and of a kind that is passed
      on, it does reach it exactly when no relay has it on record. */
  lemma {:induction false} RouteIsTravelled(nodes: seq<Relayer>, hash: ByteString -> int, out: Trip, heard: Packet,
                                            tables: seq<DedupTable.Table>, direct: Packet, stations: seq<Station>, later: nat,
                                            again: seq<Event>, got: Packet)
    requires Flooded(nodes, hash, out, heard) && |tables| == |nodes|
    requires direct.Valid() && direct.IsDirect() && direct.hashSize == 1 && Routed(direct) && direct.path == heard.path
    ensures Relayable(nodes, stations, direct) ==>
              (Delivers(nodes, tables, stations, hash, later, direct, Undisturbed(Relays(nodes), |nodes| - 1, later))
               <==> Unseen(tables, hash(direct.DedupRegion()), later, Relays(nodes)))
    ensures Reaches(nodes, tables, hash, later, direct, again, got) ==>
              && got == direct.(path := [])
              && Transmitters(Run(Launched(tables, 0, direct, hash, later), nodes, hash, again[..|again| - 1]).value)
                 == InOrder(|nodes| - 1)
  {
    HeardThroughAll(nodes, out.tables, hash, out.sent, out.packet, out.run, heard);
    assert heard.path == Route(nodes, Relays(nodes));
    if Relayable(nodes, stations, direct) {
      UndisturbedArrivesIff(nodes, tables, stations, hash, direct, later);
    }
    if Reaches(nodes, tables, hash, later, direct, again, got) {
      HeardThroughAll(nodes, tables, hash, later, direct, again, got);
    }
  }

  /** The whole exchange, on one mesh whose records carry over: a text is flooded
      and reaches the recipient, its answer comes back over the mesh by any way at
      all, and the author's next packet to the recipient takes the chain's relays,
      all of them, once, in order; it gets there unless one has it on record. */
  lemma {:induction false} LearnedRouteIsSound(
      nodes: seq<Relayer>, author: Sender.Crypto, recipient: Sender.Crypto, out: Trip, heard: Packet,
      recipientState: Nodes.State, recipientEnv: Nodes.Env, answer: Nodes.Out,
      home: Trip, back: Copy, authorState: Nodes.State, authorEnv: Nodes.Env,
      next: Packet, stations: seq<Station>, later: nat, again: seq<Event>, got: Packet)
    requires Flooded(nodes, author.dedup, out, heard)
    requires Answered(nodes[|nodes| - 1].cfg, author, recipient, recipientState, recipientEnv, heard, answer)
    requires home.packet == answer.packet && Follows(nodes, author.dedup, 0, out, home)
    requires Returned(nodes, author.dedup, home, back)
    requires Nodes.Opens(author, recipient, back.packet.payload, authorEnv)
    requires recipient.own in authorState.contacts && authorState.contacts[recipient.own].pubkey == recipient.own
    requires next.Valid() && next.kind != TRACE
    ensures var contacts := Nodes.OnPacket(nodes[0].cfg, author, authorState, back.packet, authorEnv).s.contacts;
            var tables := Ended(nodes, author.dedup, |nodes| - 1, home).value.seen;
            && recipient.own in contacts
            && var direct := Sender.RouteTo(next, contacts[recipient.own], false);
               && direct.IsDirect() && direct.path == heard.path == Route(nodes, Relays(nodes))
               && |tables| == |nodes| && direct.DedupRegion() == next.DedupRegion()
               && (Relayable(nodes, stations, direct) ==>
                     (Delivers(nodes, tables, stations, author.dedup, later, direct,
                               Undisturbed(Relays(nodes), |nodes| - 1, later))
                      <==> Unseen(tables, author.dedup(next.DedupRegion()), later, Relays(nodes))))
               && (Reaches(nodes, tables, author.dedup, later, direct, again, got) ==>
                     && got == direct.(path := [])
                     && Transmitters(Run(Launched(tables, 0, direct, author.dedup, later), nodes, author.dedup,
                                         again[..|again| - 1]).value) == InOrder(|nodes| - 1))
  {
    AuthorLearnsRoute(nodes, author, recipient, out, heard, recipientState, recipientEnv, answer,
                      home, back, authorState, authorEnv);
    var contacts := Nodes.OnPacket(nodes[0].cfg, author, authorState, back.packet, authorEnv).s.contacts;
    var direct := Sender.RouteTo(next, contacts[recipient.own], false);
    var tables := Ended(nodes, author.dedup, |nodes| - 1, home).value.seen;
    HeardThroughAll(nodes, out.tables, author.dedup, out.sent, out.packet, out.run, heard);
    RouteIsTravelled(nodes, author.dedup, out, heard, tables, direct, stations, later, again, got);
  }

  // ---- The same text again -----------------------------------------------

  /** After the flood and the answer, every node past the author has the text on
      record for 60 s from when it last heard it. */
  lemma {:induction false} FloodIsOnRecord(nodes: seq<Relayer>, hash: ByteString -> int, out: Trip, heard: Packet, home: Trip,
                                           j: nat, later: nat)
    requires Flooded(nodes, hash, out, heard) && Follows(nodes, hash, 0, out, home) && 0 < j < |nodes|
    requires Legal(Launched(home.tables, |nodes| - 1, home.packet, hash, home.sent), nodes, hash, home.sent, home.run)
    requires TimeAfter(home.sent, home.run) <= later
    ensures Ended(nodes, hash, 0, out).value.heard[j].Some?
    ensures later - Ended(nodes, hash, 0, out).value.heard[j].value < DedupTable.SEEN_TTL ==>
              Ended(nodes, hash, |nodes| - 1, home).Some?
              && DedupTable.Live(Ended(nodes, hash, |nodes| - 1, home).value.seen[j], hash(out.packet.DedupRegion()), later)
  {
    var key := hash(out.packet.DedupRegion());
    var net := Ended(nodes, hash, 0, out).value;
    var before := out.run[..|out.run| - 1];
    RunSpreads(nodes, out.tables, hash, out.packet, out.sent, before);
    RunSpreads(nodes, out.tables, hash, out.packet, out.sent, out.run);
    HeardByAll(nodes, hash, out, heard, j);
    var now := TimeAfter(out.sent, out.run);
    var until := net.heard[j].value + DedupTable.SEEN_TTL;
    if later < until {
      assert Remembers(net, key, now, j);
      var start := Launched(home.tables, |nodes| - 1, home.packet, hash, home.sent);
      LegalTime(start, nodes, hash, home.sent, home.run);
      SightKnows(net.seen[j], key, until, now, hash(home.packet.DedupRegion()), home.sent);
      assert Knows(start.seen[j], key, until, home.sent);
      RunKnows(start, nodes, hash, home.sent, home.run, key, j, until);
      SightKnows(Ended(nodes, hash, |nodes| - 1, home).value.seen[j], key, until, TimeAfter(home.sent, home.run), key, later);
    }
  }

  lemma {:induction false} LegalTime(net: Net, nodes: seq<Relayer>, hash: ByteString -> int, now: nat, run: seq<Event>)
    requires Legal(net, nodes, hash, now, run)
    ensures now <= TimeAfter(now, run)
    decreases |run|
  {
    if run != [] {
      LegalTime(net, nodes, hash, now, run[..|run| - 1]);
    }
  }

  lemma {:induction false} HeardByAll(nodes: seq<Relayer>, hash: ByteString -> int, out: Trip, heard: Packet, j: nat)
    requires Flooded(nodes, hash, out, heard) && 0 < j < |nodes|
    ensures Ended(nodes, hash, 0, out).Some? && Ended(nodes, hash, 0, out).value.heard[j].Some?
  {
    var before := out.run[..|out.run| - 1];
    var last := out.run[|out.run| - 1];
    RunSpreads(nodes, out.tables, hash, out.packet, out.sent, before);
    var mid := Run(Launched(out.tables, 0, out.packet, hash, out.sent), nodes, hash, before).value;
    assert Along(nodes, out.packet, mid.copies[last.copy], last.copy);
    assert last.copy == Relays(nodes);
    if j < |nodes| - 1 {
      assert Along(nodes, out.packet, mid.copies[j], j) && mid.heard[mid.copies[j].node].Some?;
    }
  }

  /** So a text sent again within 60 s stops at the first relay, and a recipient
      next to the author takes it for a repeat. */
  lemma {:induction false} ResentTextIsDropped(nodes: seq<Relayer>, hash: ByteString -> int, out: Trip, heard: Packet, home: Trip,
                                               direct: Packet, stations: seq<Station>, later: nat)
    requires Flooded(nodes, hash, out, heard) && Follows(nodes, hash, 0, out, home)
    requires Legal(Launched(home.tables, |nodes| - 1, home.packet, hash, home.sent), nodes, hash, home.sent, home.run)
    requires TimeAfter(home.sent, home.run) <= later
    requires direct.Valid() && direct.IsDirect() && direct.hashSize == 1 && direct.path == heard.path
    requires direct.DedupRegion() == out.packet.DedupRegion() && direct.kind == TXT_MSG && AllCarry(nodes, stations, direct)
    requires Ended(nodes, hash, 0, out).value.heard[1].Some?
    requires later - Ended(nodes, hash, 0, out).value.heard[1].value < DedupTable.SEEN_TTL
    ensures Ended(nodes, hash, |nodes| - 1, home).Some?
    ensures var tables := Ended(nodes, hash, |nodes| - 1, home).value.seen;
            if Relays(nodes) == 0 then DedupTable.Live(tables[1], hash(direct.DedupRegion()), later)
            else !Delivers(nodes, tables, stations, hash, later, direct, Undisturbed(Relays(nodes), |nodes| - 1, later))
  {
    FloodIsOnRecord(nodes, hash, out, heard, home, 1, later);
    var tables := Ended(nodes, hash, |nodes| - 1, home).value.seen;
    RouteIsTravelled(nodes, hash, out, heard, tables, direct, stations, later, [], direct);
  }
}
