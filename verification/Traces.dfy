/**
 Traces (src/mesh/node.cpp): a trace follows the route in its payload, whatever its
 path says, and brings back what each hop heard it at.
 */
module Traces {
  import opened Bytes
  import opened Packets
  import opened Nodes
  import Sender

  /** A node on the route when the trace comes by. */
  datatype Stop = Stop(cfg: Config, c: Sender.Crypto, s: State, e: Env)

  predicate Relays(stop: Stop) {
    stop.cfg.repeat && |stop.c.own| >= 8
  }

  /** The first `w` bytes of each key. */
  function RouteOf(stops: seq<Stop>, w: nat): ByteString {
    if stops == [] then [] else Take(stops[0].c.own, w) + RouteOf(stops[1..], w)
  }

  /** What each stop heard the trace at. */
  function Readings(stops: seq<Stop>): (r: ByteString)
    ensures |r| == |stops|
  {
    seq(|stops|, i requires 0 <= i < |stops| => stops[i].e.snrByte)
  }

  /** A trace just sent along the stops: nine bytes of header whose last says how
      wide the hashes are, then the route. */
  predicate Sent(p: Packet, stops: seq<Stop>, w: nat, head: ByteString) {
    && p.IsDirect() && p.kind == TRACE && p.hashSize == 1 && p.path == []
    && |head| == 9 && w == [1, 2, 4, 8][head[8] % 4] && p.payload == head + RouteOf(stops, w)
  }

  /** What a stop sends on, if just one packet. */
  function Sends(stop: Stop, p: Packet): Option<Packet> {
    var outs := OnPacket(stop.cfg, stop.c, stop.s, p, stop.e).outs;
    if |outs| == 1 then Some(outs[0].packet) else None
  }

  /** What the first `k` stops make of it, one after the other. */
  function After(stops: seq<Stop>, p: Packet, k: nat): Option<Packet>
    requires k <= |stops|
  {
    if k == 0 then Some(p) else
      var before := After(stops, p, k - 1);
      if before.None? then None else Sends(stops[k - 1], before.value)
  }

  lemma {:induction false} RouteLength(stops: seq<Stop>, w: nat)
    requires w <= 8 && forall i :: 0 <= i < |stops| ==> Relays(stops[i])
    ensures |RouteOf(stops, w)| == |stops| * w
    decreases |stops|
  {
    if stops != [] {
      RouteLength(stops[1..], w);
      assert |stops| * w == (|stops| - 1) * w + w;
    }
  }

  /** Where the k-th stop's hash is. */
  lemma {:induction false} Segment(stops: seq<Stop>, w: nat, k: nat)
    requires w <= 8 && k < |stops| && forall i :: 0 <= i < |stops| ==> Relays(stops[i])
    ensures 0 <= k * w && k * w + w <= |RouteOf(stops, w)|
    ensures RouteOf(stops, w)[k * w..k * w + w] == Take(stops[k].c.own, w)
    decreases k
  {
    var first, rest := Take(stops[0].c.own, w), RouteOf(stops[1..], w);
    if k == 0 {
      assert (first + rest)[..w] == first;
    } else {
      Segment(stops[1..], w, k - 1);
      assert k * w == w + (k - 1) * w;
      Shifted(first, rest, (k - 1) * w, w);
    }
  }

  lemma Shifted(a: ByteString, b: ByteString, at: nat, w: nat)
    requires at + w <= |b|
    ensures (a + b)[|a| + at..|a| + at + w] == b[at..at + w]
  {}

  /** What follows `k` readings in the payload: the next stop's hash, or nothing. */
  lemma {:induction false} NextOnRoute(stops: seq<Stop>, w: nat, head: ByteString, k: nat)
    requires 1 <= w <= 8 && k <= |stops| && |head| == 9 && forall i :: 0 <= i < |stops| ==> Relays(stops[i])
    ensures var payload := head + RouteOf(stops, w);
            var at := 9 + k * w;
            if k < |stops| then 9 < at + w <= |payload| && payload[at..at + w] == Take(stops[k].c.own, w)
            else at == |payload|
  {
    RouteLength(stops, w);
    if k < |stops| {
      Segment(stops, w, k);
      Shifted(head, RouteOf(stops, w), k * w, w);
    }
  }

  /** A node sends the trace on exactly when it relays and the route names it next,
      with its reading added and nothing else changed. */
  lemma {:induction false} NamedNextRelays(stops: seq<Stop>, w: nat, head: ByteString, p: Packet, q: Packet, stop: Stop, k: nat)
    requires Sent(p, stops, w, head) && (forall i :: 0 <= i < |stops| ==> Relays(stops[i])) && |stops| <= MAX_PATH
    requires k <= |stops| && q == p.(path := q.path) && |q.path| == k
    ensures var outs := OnPacket(stop.cfg, stop.c, stop.s, q, stop.e).outs;
            if stop.cfg.repeat && k < |stops| && Take(stop.c.own, w) == Take(stops[k].c.own, w)
            then |outs| == 1 && outs[0].role == Relay && outs[0].packet == q.(path := q.path + [stop.e.snrByte])
            else outs == []
  {
    NextOnRoute(stops, w, head, k);
    var at := 9 + k * w;
    assert OnPacket(stop.cfg, stop.c, stop.s, q, stop.e).outs == ForwardTrace(stop.cfg, stop.c.own, q, stop.e);
    if k < |stops| {
      assert q.payload[at..at + w] == Take(stops[k].c.own, w);
    } else {
      assert at + w > |q.payload|;
    }
  }

  lemma {:induction false} StopAddsReading(stops: seq<Stop>, w: nat, head: ByteString, p: Packet, k: nat)
    requires Sent(p, stops, w, head) && (forall i :: 0 <= i < |stops| ==> Relays(stops[i])) && k < |stops| <= MAX_PATH
    ensures Sends(stops[k], p.(path := Readings(stops)[..k])) == Some(p.(path := Readings(stops)[..k + 1]))
  {
    NamedNextRelays(stops, w, head, p, p.(path := Readings(stops)[..k]), stops[k], k);
    assert Readings(stops)[..k + 1] == Readings(stops)[..k] + [stops[k].e.snrByte];
  }

  /** A trace visits the nodes of its route in order, gathering the readings of all. */
  lemma {:induction false} TraceVisitsRoute(stops: seq<Stop>, w: nat, head: ByteString, p: Packet, k: nat)
    requires Sent(p, stops, w, head) && (forall i :: 0 <= i < |stops| ==> Relays(stops[i])) && k <= |stops| <= MAX_PATH
    ensures After(stops, p, k) == Some(p.(path := Readings(stops)[..k]))
    decreases k
  {
    if k > 0 {
      TraceVisitsRoute(stops, w, head, p, k - 1);
      StopAddsReading(stops, w, head, p, k - 1);
    }
  }

  /** At the end of its route no node sends it any further. */
  lemma {:induction false} TraceStops(stops: seq<Stop>, w: nat, head: ByteString, p: Packet, any: Stop)
    requires Sent(p, stops, w, head) && (forall i :: 0 <= i < |stops| ==> Relays(stops[i])) && |stops| <= MAX_PATH
    ensures OnPacket(any.cfg, any.c, any.s, p.(path := Readings(stops)), any.e).outs == []
  {
    NamedNextRelays(stops, w, head, p, p.(path := Readings(stops)), any, |stops|);
  }
}
