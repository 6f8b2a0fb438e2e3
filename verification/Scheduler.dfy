/**
 The transmit scheduler (src/mesh/dispatcher.cpp): a bounded priority queue with
 expiry and per-packet backoff, held back by a radio that is down, a spent
 airtime budget or a busy channel, and driven by one pump timer. This module says
 what each step does; `SchedulerProofs` says what every run of them keeps.
 */
module Scheduler {
  import opened Clock
  import opened Bytes
  import opened Packets
  import opened AirtimeBudget
  import DedupTable

  const EXPIRY_PER_PRIORITY := 10_000
  const JITTER := 400
  const BUSY_RETRY := 60
  const BUSY_JITTER := 60
  const BUSY_MAX := 4_000
  const DOWN_RECHECK := 1_000
  const DUTY_RECHECK := 30_000
  const REFUSED_RETRY := 20

  /** `op` names the operation whose callback the packet carries; 0 is none. */
  datatype Queued = Queued(packet: Packet, priority: Byte, expiry: nat, notBefore: nat, seqno: nat, op: nat)

  /** One packet's fate: accepted by the radio, or dropped before that. */
  datatype Result = Result(seqno: nat, op: nat, transmitted: bool)

  /** What the radio and the random source answer during one step. */
  datatype Env = Env(now: nat, ready: bool, hasFrequency: bool, airtime: nat,
                     channelBusy: bool, random: Byte, accepts: bool)

  /** `inFlight` is the radio's side: the airtime computed for the packet it
      accepted and has not reported done. `resolved` and `log` are history: the
      results delivered and the airtime reported so far. */
  datatype State = State(
    limit: nat, queue: seq<Queued>, nextSeq: nat, pump: Option<nat>, busySince: Option<nat>,
    percent: real, spent: seq<Entry>, seen: DedupTable.Table, txTotal: nat, txDropped: nat,
    inFlight: Option<nat>, resolved: seq<Result>, log: seq<Entry>)

  function Initial(limit: nat, percent: real): State {
    State(if limit < 1 then 1 else limit, [], 0, None, None, percent, [], map[], 0, 0, None, [], [])
  }

  // ---- Queue order -----------------------------------------------------

  /** The comparator the queue is kept by, on the wrapping clock. */
  predicate Before(a: Queued, b: Queued) {
    if a.priority != b.priority then a.priority < b.priority
    else if Unsigned(a.expiry - b.expiry) != 0 then Gap(a.expiry, b.expiry) < 0
    else a.seqno < b.seqno
  }

  function Middle(lo: nat, hi: nat): (mid: nat)
    requires lo < hi
    ensures lo <= mid < hi
  {
    lo + (hi - lo) / 2
  }

  /** `std::upper_bound`: halving, whatever order the range is really in. */
  function UpperBound(queue: seq<Queued>, q: Queued, lo: nat, hi: nat): (pos: nat)
    requires lo <= hi <= |queue|
    ensures lo <= pos <= hi
    decreases hi - lo
  {
    if lo == hi then lo else
      var mid := Middle(lo, hi);
      if Before(q, queue[mid]) then UpperBound(queue, q, lo, mid) else UpperBound(queue, q, mid + 1, hi)
  }

  function Insert(queue: seq<Queued>, q: Queued): seq<Queued> {
    var pos := UpperBound(queue, q, 0, |queue|);
    queue[..pos] + [q] + queue[pos..]
  }

  function Remove(queue: seq<Queued>, i: nat): seq<Queued>
    requires i < |queue|
  {
    queue[..i] + queue[i + 1..]
  }

  ghost predicate Fit(queue: seq<Queued>) {
    forall q :: q in queue ==> q.packet.Valid()
  }

  /** Whether `a` is dropped rather than `b`: less urgent, or as urgent and older. */
  predicate Worse(a: Queued, b: Queued) {
    a.priority > b.priority || (a.priority == b.priority && a.seqno < b.seqno)
  }

  function Victim(queue: seq<Queued>): (v: nat)
    requires queue != []
    ensures v < |queue|
  {
    if |queue| == 1 then 0 else
      var v := Victim(queue[..|queue| - 1]);
      if Worse(queue[|queue| - 1], queue[v]) then |queue| - 1 else v
  }

  /** How many entries at the front have expired. */
  function Expired(queue: seq<Queued>, now: nat): (k: nat)
    ensures k <= |queue|
  {
    if queue == [] || Gap(queue[0].expiry, now) > 0 then 0 else 1 + Expired(queue[1..], now)
  }

  /** The first entry whose backoff has elapsed, or the length if none. */
  function FirstReady(queue: seq<Queued>, now: nat): (i: nat)
    ensures i <= |queue|
  {
    if queue == [] || Gap(queue[0].notBefore, now) <= 0 then 0 else 1 + FirstReady(queue[1..], now)
  }

  function Soonest(queue: seq<Queued>, now: nat): int
    requires queue != []
  {
    var last := Gap(queue[|queue| - 1].notBefore, now);
    if |queue| == 1 then last else
      var rest := Soonest(queue[..|queue| - 1], now);
      if last < rest then last else rest
  }

  function Settle(q: Queued, transmitted: bool): Result {
    Result(q.seqno, q.op, transmitted)
  }

  function Failures(queue: seq<Queued>): (r: seq<Result>)
    ensures |r| == |queue|
  {
    if queue == [] then [] else [Settle(queue[0], false)] + Failures(queue[1..])
  }

  // ---- Steps -----------------------------------------------------------

  /** An armed pump that wakes no later than asked is kept. */
  function Schedule(s: State, now: nat, delay: nat): State {
    if s.pump.Some? && Gap(now + delay, s.pump.value) >= 0 then s
    else s.(pump := Some(now + delay))
  }

  function DropExpired(s: State, now: nat): State {
    var k := Expired(s.queue, now);
    s.(queue := s.queue[k..], resolved := s.resolved + Failures(s.queue[..k]), txDropped := s.txDropped + k)
  }

  function BusyStart(s: State, now: nat): nat {
    if s.busySince.Some? then s.busySince.value else now
  }

  /** `busy_since_ms_`, where a stored reading of zero means unset. */
  function Stamp(t: nat): Option<nat> {
    if Unsigned(t) == 0 then None else Some(t)
  }

  predicate Defers(s: State, e: Env) {
    e.channelBusy && Unsigned(e.now - BusyStart(s, e.now)) < BUSY_MAX
  }

  /** The radio took the packet at `i`, or refused it and it goes to the front. */
  function Transmit(s: State, e: Env, i: nat): State
    requires i < |s.queue|
  {
    var q := s.queue[i];
    if e.accepts then
      s.(queue := Remove(s.queue, i), inFlight := Some(e.airtime), txTotal := s.txTotal + 1,
         resolved := s.resolved + [Settle(q, true)])
    else
      Schedule(s.(queue := [q] + Remove(s.queue, i)), e.now, REFUSED_RETRY)
  }

  function Attempt(s: State, e: Env, i: nat): State
    requires i < |s.queue|
  {
    var wait := Wait(s.spent, s.percent, e.now, e.airtime);
    var s1 := s.(spent := AfterWait(s.spent, s.percent, e.now));
    if wait > 0 then Schedule(s1, e.now, if wait < DUTY_RECHECK then wait else DUTY_RECHECK)
    else if Defers(s1, e) then
      Schedule(s1.(busySince := Stamp(BusyStart(s1, e.now))), e.now, BUSY_RETRY + e.random as int % BUSY_JITTER)
    else Transmit(s1.(busySince := None), e, i)
  }

  function Choose(s: State, e: Env): State {
    if s.queue == [] then s
    else if !e.ready || !e.hasFrequency then Schedule(s, e.now, DOWN_RECHECK)
    else
      var i := FirstReady(s.queue, e.now);
      if i == |s.queue| then
        var soonest := Soonest(s.queue, e.now);
        Schedule(s, e.now, if soonest > 0 then soonest else 1)
      else Attempt(s, e, i)
  }

  function Pump(s: State, e: Env): State {
    if s.queue == [] || s.inFlight.Some? then s else Choose(DropExpired(s, e.now), e)
  }

  function Inserted(s: State, q: Queued): State {
    s.(queue := Insert(s.queue, q), nextSeq := s.nextSeq + 1)
  }

  function DropVictim(s: State): State
    requires s.queue != []
  {
    var v := Victim(s.queue);
    s.(queue := Remove(s.queue, v), txDropped := s.txDropped + 1,
       resolved := s.resolved + [Settle(s.queue[v], false)])
  }

  function Enqueue(s: State, q: Queued): State {
    var s1 := Inserted(s, q);
    if |s1.queue| <= s.limit then s1 else DropVictim(s1)
  }

  function Receive(s: State, key: int, now: nat): State {
    s.(seen := DedupTable.Sight(s.seen, key, now, DedupTable.SEEN, 0))
  }

  /** The queue entry a packet gets on arrival. */
  function Arriving(s: State, p: Packet, priority: Byte, delay: nat, op: nat, now: nat): Queued {
    Queued(p, priority, now + EXPIRY_PER_PRIORITY * priority as int, now + delay, s.nextSeq, op)
  }

  /** The packet enters the table of those seen and takes its place in the queue. */
  function Accept(s: State, p: Packet, key: int, priority: Byte, delay: nat, op: nat, now: nat): State {
    Enqueue(Receive(s, key, now), Arriving(s, p, priority, delay, op, now))
  }

  function Send(s: State, p: Packet, key: int, priority: Byte, delay: nat, op: nat, e: Env): State {
    if !p.Valid() then s.(txDropped := s.txDropped + 1)
    else Pump(Accept(s, p, key, priority, delay, op, e.now), e)
  }

  function PumpFires(s: State, e: Env): State {
    Pump(s.(pump := None), e)
  }

  function TxDone(s: State, now: nat, airtime: nat, random: Byte): State {
    var s1 := s.(inFlight := None, log := s.log + [Entry(now, airtime)],
                 spent := Prune(s.spent, now) + [Entry(now, airtime)]);
    Schedule(s1, now, 1 + random as int * JITTER / 255)
  }

  function Reconfigure(s: State, percent: real, e: Env): State {
    Pump(s.(percent := percent), e)
  }

  function SweepSeen(s: State, now: nat): State {
    s.(seen := DedupTable.Expire(s.seen, now))
  }

  lemma AcceptFits(s: State, p: Packet, key: int, priority: Byte, delay: nat, op: nat, now: nat)
    requires Fit(s.queue) && p.Valid()
    ensures Fit(Accept(s, p, key, priority, delay, op, now).queue)
  {
    var q := Arriving(s, p, priority, delay, op, now);
    InsertFits(s.queue, q);
    var queue := Insert(s.queue, q);
    RemoveFits(queue, Victim(queue));
  }

  lemma InsertFits(queue: seq<Queued>, q: Queued)
    requires Fit(queue) && q.packet.Valid()
    ensures Insert(queue, q) != [] && Fit(Insert(queue, q))
  {}

  lemma RemoveFits(queue: seq<Queued>, i: nat)
    requires Fit(queue) && i < |queue|
    ensures Fit(Remove(queue, i))
  {}

  lemma PumpFits(s: State, e: Env)
    requires Fit(s.queue)
    ensures Fit(Pump(s, e).queue)
  {}

  /** Dropping the expired front is dropping its first entry, then the rest. */
  lemma DropsFirst(s: State, now: nat)
    requires s.queue != [] && Gap(s.queue[0].expiry, now) <= 0
    ensures DropExpired(s, now) == DropExpired(s.(queue := s.queue[1..], txDropped := s.txDropped + 1,
                                                  resolved := s.resolved + [Settle(s.queue[0], false)]), now)
  {
    var k := Expired(s.queue[1..], now);
    assert s.queue[..k + 1] == [s.queue[0]] + s.queue[1..][..k] && s.queue[k + 1..] == s.queue[1..][k..];
    assert ([s.queue[0]] + s.queue[1..][..k])[1..] == s.queue[1..][..k];
    var rest := Failures(s.queue[1..][..k]);
    assert s.resolved + ([Settle(s.queue[0], false)] + rest) == s.resolved + [Settle(s.queue[0], false)] + rest;
  }
}
