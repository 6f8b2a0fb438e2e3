/**
 What every run of the transmit scheduler keeps, for any traffic, any clock and
 any answers from the radio: each packet queued gets exactly one result and the
 queue is never left without a wake-up.
 */
module SchedulerProofs {
  import opened Clock
  import opened Bytes
  import opened Packets
  import opened AirtimeBudget
  import opened Scheduler

  datatype Event =
    | Sends(packet: Packet, key: int, priority: Byte, delay: nat, op: nat, env: Env)
    | PumpTimer(env: Env)
    | Done(now: nat, airtime: nat, random: Byte)
    | Reconfigures(percent: real, env: Env)
    | Hears(key: int, now: nat)
    | Sweeps(now: nat)

  function At(ev: Event): nat {
    match ev
    case Sends(_, _, _, _, _, e) => e.now
    case PumpTimer(e) => e.now
    case Done(now, _, _) => now
    case Reconfigures(_, e) => e.now
    case Hears(_, now) => now
    case Sweeps(now) => now
  }

  function Step(s: State, ev: Event): State {
    match ev
    case Sends(p, key, priority, delay, op, e) => Send(s, p, key, priority, delay, op, e)
    case PumpTimer(e) => PumpFires(s, e)
    case Done(now, airtime, random) => TxDone(s, now, airtime, random)
    case Reconfigures(percent, e) => Reconfigure(s, percent, e)
    case Hears(key, now) => Receive(s, key, now)
    case Sweeps(now) => SweepSeen(s, now)
  }

  /** Time never goes back, only an armed timer fires, and the radio reports
      done only what it accepted. */
  predicate Enabled(s: State, now: nat, ev: Event) {
    && now <= At(ev)
    && (ev.PumpTimer? ==> s.pump.Some? && s.pump.value <= At(ev))
    && (ev.Done? ==> s.inFlight.Some?)
  }

  function Run(s: State, run: seq<Event>): State {
    if run == [] then s else Step(Run(s, run[..|run| - 1]), run[|run| - 1])
  }

  function TimeAfter(now: nat, run: seq<Event>): nat {
    if run == [] then now else At(run[|run| - 1])
  }

  predicate Legal(s: State, now: nat, run: seq<Event>) {
    run != [] ==>
      var before := run[..|run| - 1];
      Legal(s, now, before) && Enabled(Run(s, before), TimeAfter(now, before), run[|run| - 1])
  }

  // ---- Exactly one result ----------------------------------------------

  /** Packets are counted by sequence number, or by the operation they serve. */
  datatype Key = BySeq(n: nat) | ByOp(id: nat)

  predicate Match(seqno: nat, op: nat, k: Key) {
    match k
    case BySeq(n) => seqno == n
    case ByOp(id) => op == id
  }

  function HitsQ(queue: seq<Queued>, k: Key): nat {
    if queue == [] then 0 else (if Match(queue[0].seqno, queue[0].op, k) then 1 else 0) + HitsQ(queue[1..], k)
  }

  function HitsR(results: seq<Result>, k: Key): nat {
    if results == [] then 0 else (if Match(results[0].seqno, results[0].op, k) then 1 else 0) + HitsR(results[1..], k)
  }

  lemma HitsQConcat(a: seq<Queued>, b: seq<Queued>, k: Key)
    ensures HitsQ(a + b, k) == HitsQ(a, k) + HitsQ(b, k)
  {
    if a == [] {
      assert a + b == b;
    } else {
      assert (a + b)[1..] == a[1..] + b;
      HitsQConcat(a[1..], b, k);
    }
  }

  lemma HitsRConcat(a: seq<Result>, b: seq<Result>, k: Key)
    ensures HitsR(a + b, k) == HitsR(a, k) + HitsR(b, k)
  {
    if a == [] {
      assert a + b == b;
    } else {
      assert (a + b)[1..] == a[1..] + b;
      HitsRConcat(a[1..], b, k);
    }
  }

  lemma HitsFailures(queue: seq<Queued>, k: Key)
    ensures HitsR(Failures(queue), k) == HitsQ(queue, k)
  {
    if queue != [] {
      assert ([Settle(queue[0], false)] + Failures(queue[1..]))[1..] == Failures(queue[1..]);
    }
  }

  lemma HitsRemove(queue: seq<Queued>, i: nat, k: Key)
    requires i < |queue|
    ensures HitsQ(queue, k) == HitsQ(Remove(queue, i), k) + HitsQ([queue[i]], k)
  {
    assert queue == queue[..i] + ([queue[i]] + queue[i + 1..]);
    HitsQConcat(queue[..i], [queue[i]] + queue[i + 1..], k);
    HitsQConcat([queue[i]], queue[i + 1..], k);
    HitsQConcat(queue[..i], queue[i + 1..], k);
  }

  lemma HitsInsert(queue: seq<Queued>, q: Queued, k: Key)
    ensures HitsQ(Insert(queue, q), k) == HitsQ(queue, k) + HitsQ([q], k)
  {
    var pos := UpperBound(queue, q, 0, |queue|);
    var r := Insert(queue, q);
    HitsRemove(r, pos, k);
    assert Remove(r, pos) == queue && r[pos] == q;
  }

  function News(s: State, after: State): seq<Result>
    requires |s.resolved| <= |after.resolved|
  {
    after.resolved[|s.resolved|..]
  }

  /** What leaves the queue is exactly what gets a result. */
  ghost predicate Settles(s: State, after: State, k: Key) {
    && |s.resolved| <= |after.resolved| && after.resolved[..|s.resolved|] == s.resolved
    && HitsQ(s.queue, k) == HitsQ(after.queue, k) + HitsR(News(s, after), k)
  }

  lemma Suffixes(a: seq<Result>, b: seq<Result>, c: seq<Result>)
    requires |a| <= |b| <= |c| && b[..|a|] == a && c[..|b|] == b
    ensures c[..|a|] == a && c[|a|..] == b[|a|..] + c[|b|..]
  {
    assert c == b + c[|b|..];
  }

  lemma SettlesTrans(a: State, b: State, c: State, k: Key)
    requires Settles(a, b, k) && Settles(b, c, k)
    ensures Settles(a, c, k)
  {
    Suffixes(a.resolved, b.resolved, c.resolved);
    HitsRConcat(News(a, b), News(b, c), k);
  }

  lemma DropExpiredSettles(s: State, now: nat, k: Key)
    ensures Settles(s, DropExpired(s, now), k)
  {
    var n := Expired(s.queue, now);
    assert s.queue == s.queue[..n] + s.queue[n..];
    HitsQConcat(s.queue[..n], s.queue[n..], k);
    HitsFailures(s.queue[..n], k);
    assert News(s, DropExpired(s, now)) == Failures(s.queue[..n]);
  }

  lemma TransmitSettles(s: State, e: Env, i: nat, k: Key)
    requires i < |s.queue|
    ensures Settles(s, Transmit(s, e, i), k)
  {
    HitsRemove(s.queue, i, k);
    var after := Transmit(s, e, i);
    if e.accepts {
      assert News(s, after) == [Settle(s.queue[i], true)];
    } else {
      HitsQConcat([s.queue[i]], Remove(s.queue, i), k);
      assert News(s, after) == [];
    }
  }

  lemma ChooseSettles(s: State, e: Env, k: Key)
    ensures Settles(s, Choose(s, e), k)
  {
    var i := FirstReady(s.queue, e.now);
    if s.queue != [] && e.ready && e.hasFrequency && i < |s.queue| {
      var s1 := s.(spent := AfterWait(s.spent, s.percent, e.now), busySince := None);
      TransmitSettles(s1, e, i, k);
    }
  }

  lemma PumpSettles(s: State, e: Env, k: Key)
    ensures Settles(s, Pump(s, e), k)
  {
    if s.queue != [] && s.inFlight.None? {
      var s1 := DropExpired(s, e.now);
      DropExpiredSettles(s, e.now, k);
      ChooseSettles(s1, e, k);
      SettlesTrans(s, s1, Choose(s1, e), k);
    }
  }

  lemma AcceptSettles(s: State, p: Packet, key: int, priority: Byte, delay: nat, op: nat, now: nat, k: Key)
    ensures var after := Accept(s, p, key, priority, delay, op, now);
            && |s.resolved| <= |after.resolved| && after.resolved[..|s.resolved|] == s.resolved
            && HitsQ(s.queue, k) + (if Match(s.nextSeq, op, k) then 1 else 0)
               == HitsQ(after.queue, k) + HitsR(News(s, after), k)
  {
    var q := Arriving(s, p, priority, delay, op, now);
    var queue := Insert(s.queue, q);
    HitsInsert(s.queue, q, k);
    var after := Accept(s, p, key, priority, delay, op, now);
    if |queue| > s.limit {
      var v := Victim(queue);
      HitsRemove(queue, v, k);
      assert News(s, after) == [Settle(queue[v], false)];
    } else {
      assert News(s, after) == [];
    }
  }

  predicate Issues(s: State, ev: Event, k: Key) {
    ev.Sends? && ev.packet.Valid() && Match(s.nextSeq, ev.op, k)
  }

  lemma SendConserves(s: State, p: Packet, key: int, priority: Byte, delay: nat, op: nat, e: Env, k: Key)
    requires p.Valid()
    ensures var after := Send(s, p, key, priority, delay, op, e);
            && |s.resolved| <= |after.resolved| && after.resolved[..|s.resolved|] == s.resolved
            && HitsQ(s.queue, k) + (if Match(s.nextSeq, op, k) then 1 else 0)
               == HitsQ(after.queue, k) + HitsR(News(s, after), k)
  {
    var mid := Accept(s, p, key, priority, delay, op, e.now);
    var after := Pump(mid, e);
    AcceptSettles(s, p, key, priority, delay, op, e.now, k);
    PumpSettles(mid, e, k);
    Suffixes(s.resolved, mid.resolved, after.resolved);
    HitsRConcat(News(s, mid), News(mid, after), k);
  }

  /** Conservation in one step: queued before, plus what was just queued, is
      queued after plus given a result. */
  lemma {:induction false} StepConserves(s: State, ev: Event, k: Key)
    ensures |s.resolved| <= |Step(s, ev).resolved| && Step(s, ev).resolved[..|s.resolved|] == s.resolved
    ensures HitsQ(s.queue, k) + (if Issues(s, ev, k) then 1 else 0)
         == HitsQ(Step(s, ev).queue, k) + HitsR(News(s, Step(s, ev)), k)
  {
    match ev
    case Sends(p, key, priority, delay, op, e) =>
      if p.Valid() {
        SendConserves(s, p, key, priority, delay, op, e, k);
      }
    case PumpTimer(e) => PumpSettles(s.(pump := None), e, k);
    case Reconfigures(percent, e) => PumpSettles(s.(percent := percent), e, k);
    case _ =>
  }

  // ---- What is queued is what was asked for --------------------------------

  lemma PumpKeepsEntries(s: State, e: Env)
    ensures forall q :: q in Pump(s, e).queue ==> q in s.queue
  {
    if s.queue != [] && s.inFlight.None? {
      var k := Expired(s.queue, e.now);
      assert forall q :: q in s.queue[k..] ==> q in s.queue;
      ChooseKeepsEntries(DropExpired(s, e.now), e);
    }
  }

  lemma ChooseKeepsEntries(s: State, e: Env)
    ensures forall q :: q in Choose(s, e).queue ==> q in s.queue
  {
    var i := FirstReady(s.queue, e.now);
    if i < |s.queue| {
      assert forall q :: q in Remove(s.queue, i) ==> q in s.queue;
    }
  }

  lemma AcceptAdds(s: State, p: Packet, key: int, priority: Byte, delay: nat, op: nat, now: nat)
    ensures forall q :: q in Accept(s, p, key, priority, delay, op, now).queue ==>
              q in s.queue || q == Arriving(s, p, priority, delay, op, now)
  {
    var a := Arriving(s, p, priority, delay, op, now);
    var queue := Insert(s.queue, a);
    assert forall q :: q in queue ==> q in s.queue || q == a;
    if queue != [] {
      assert forall q :: q in Remove(queue, Victim(queue)) ==> q in queue;
    }
  }

  /** The entry a send asks for: its packet, urgency and operation, not before the
      delay is over, and worth ten seconds per step of priority. */
  predicate AskedBy(q: Queued, ev: Event) {
    && ev.Sends? && q.packet == ev.packet && q.priority == ev.priority && q.op == ev.op
    && q.notBefore == ev.env.now + ev.delay && q.expiry == ev.env.now + 10_000 * ev.priority as int
  }

  /** An event leaves in the queue what was there and what it asked for, unchanged. */
  lemma {:induction false} EntriesComeFrom(s: State, ev: Event)
    ensures forall q :: q in Step(s, ev).queue ==> q in s.queue || AskedBy(q, ev)
  {
    match ev
    case Sends(p, key, priority, delay, op, e) =>
      if p.Valid() {
        AcceptAdds(s, p, key, priority, delay, op, e.now);
        PumpKeepsEntries(Accept(s, p, key, priority, delay, op, e.now), e);
      }
    case PumpTimer(e) => PumpKeepsEntries(s.(pump := None), e);
    case Reconfigures(percent, e) => PumpKeepsEntries(s.(percent := percent), e);
    case _ =>
  }

  predicate AskedIn(q: Queued, run: seq<Event>) {
    exists k :: 0 <= k < |run| && AskedBy(q, run[k])
  }

  /** Over every run, what waits is what some send asked for, as it asked. */
  lemma {:induction false} QueuedAsAsked(s: State, run: seq<Event>)
    requires s.queue == []
    ensures forall q :: q in Run(s, run).queue ==> AskedIn(q, run)
    decreases |run|
  {
    if run != [] {
      var before := run[..|run| - 1];
      QueuedAsAsked(s, before);
      EntriesComeFrom(Run(s, before), run[|run| - 1]);
      forall q | q in Run(s, run).queue ensures AskedIn(q, run) {
        if q in Run(s, before).queue {
          var k :| 0 <= k < |before| && AskedBy(q, before[k]);
          assert AskedBy(q, run[k]);
        } else {
          assert AskedBy(q, run[|run| - 1]);
        }
      }
    }
  }

  /** With room in the queue a packet is queued and nothing is given up for it. */
  lemma {:induction false} RoomMeansKept(s: State, p: Packet, key: int, priority: Byte, delay: nat, op: nat, now: nat)
    requires |s.queue| < s.limit
    ensures var after := Accept(s, p, key, priority, delay, op, now);
            && after.resolved == s.resolved && after.txDropped == s.txDropped && |after.queue| == |s.queue| + 1
            && (forall q :: q in s.queue ==> q in after.queue)
            && (exists q :: q in after.queue && q.packet == p && q.seqno == s.nextSeq && q.op == op)
  {
    var a := Arriving(s, p, priority, delay, op, now);
    var pos := UpperBound(s.queue, a, 0, |s.queue|);
    var queue := Insert(s.queue, a);
    assert queue[pos] == a && a in queue;
    assert s.queue == s.queue[..pos] + s.queue[pos..];
  }

  /** What a pump drops has expired, from the front on, and it drops all of that. */
  lemma {:induction false} OnlyExpiredIsDropped(queue: seq<Queued>, now: nat)
    ensures var k := Expired(queue, now);
            && (forall j :: 0 <= j < k ==> Gap(queue[j].expiry, now) <= 0)
            && (k < |queue| ==> Gap(queue[k].expiry, now) > 0)
    decreases |queue|
  {
    if queue != [] && Gap(queue[0].expiry, now) <= 0 {
      OnlyExpiredIsDropped(queue[1..], now);
    }
  }

  // ---- Counting ------------------------------------------------------------

  function Sent(results: seq<Result>): nat {
    if results == [] then 0
    else Sent(results[..|results| - 1]) + (if results[|results| - 1].transmitted then 1 else 0)
  }

  lemma SentConcat(a: seq<Result>, b: seq<Result>)
    ensures Sent(a + b) == Sent(a) + Sent(b)
  {
    if b == [] {
      assert a + b == a;
    } else {
      assert (a + b)[..|a + b| - 1] == a + b[..|b| - 1];
      SentConcat(a, b[..|b| - 1]);
    }
  }

  lemma NoneSent(results: seq<Result>)
    requires forall r :: r in results ==> !r.transmitted
    ensures Sent(results) == 0
  {}

  lemma FailuresAreFailures(queue: seq<Queued>)
    ensures forall r :: r in Failures(queue) ==> !r.transmitted
  {}

  function OnAir(s: State): nat {
    if s.inFlight.Some? then 1 else 0
  }

  /** A packet is waiting only for something that will happen: the end of the
      transmission in progress, or an armed timer. */
  predicate Awake(s: State) {
    s.queue != [] ==> s.inFlight.Some? || s.pump.Some?
  }

  /** The counts: every sequence number issued is queued or resolved, every
      acceptance by the radio is on the air or was reported done. */
  predicate Counted(s: State) {
    && s.nextSeq == |s.queue| + |s.resolved|
    && s.txTotal == Sent(s.resolved) == |s.log| + OnAir(s)
    && s.txDropped >= |s.resolved| - s.txTotal
  }

  ghost predicate Accounted(s: State) {
    forall n: nat :: HitsQ(s.queue, BySeq(n)) + HitsR(s.resolved, BySeq(n)) == if n < s.nextSeq then 1 else 0
  }

  ghost predicate Sound(s: State) {
    && Fit(s.queue) && 1 <= s.limit && |s.queue| <= s.limit
    && Awake(s) && Counted(s) && Accounted(s)
  }

  lemma DropExpiredCounts(s: State, now: nat)
    requires s.inFlight.None?
    ensures var d := DropExpired(s, now);
            && |d.queue| + |d.resolved| == |s.queue| + |s.resolved| && |d.queue| <= |s.queue|
            && Sent(d.resolved) == Sent(s.resolved)
            && d.txDropped - s.txDropped == |d.resolved| - |s.resolved|
  {
    var k := Expired(s.queue, now);
    FailuresAreFailures(s.queue[..k]);
    NoneSent(Failures(s.queue[..k]));
    SentConcat(s.resolved, Failures(s.queue[..k]));
  }

  /** What one pump does to the counts, and that it never leaves a waiting
      queue without a wake-up. */
  lemma ChooseCounts(s: State, e: Env)
    requires s.inFlight.None?
    ensures var c := Choose(s, e);
            && c.limit == s.limit && c.nextSeq == s.nextSeq && c.log == s.log && c.percent == s.percent
            && |c.queue| + |c.resolved| == |s.queue| + |s.resolved| && |c.queue| <= |s.queue|
            && c.txTotal == s.txTotal + OnAir(c) && c.txDropped == s.txDropped
            && Sent(c.resolved) == Sent(s.resolved) + OnAir(c)
            && |c.resolved| == |s.resolved| + OnAir(c)
            && Awake(c)
  {
    var i := FirstReady(s.queue, e.now);
    if s.queue != [] && i < |s.queue| && e.accepts {
      SentConcat(s.resolved, [Settle(s.queue[i], true)]);
    }
  }

  lemma PumpCounts(s: State, e: Env)
    requires s.inFlight.None?
    ensures var c := Pump(s, e);
            && c.limit == s.limit && c.nextSeq == s.nextSeq && c.log == s.log && c.percent == s.percent
            && |c.queue| + |c.resolved| == |s.queue| + |s.resolved| && |c.queue| <= |s.queue|
            && c.txTotal == s.txTotal + OnAir(c)
            && Sent(c.resolved) == Sent(s.resolved) + OnAir(c)
            && c.txDropped - s.txDropped == |c.resolved| - |s.resolved| - OnAir(c)
            && Awake(c)
  {
    if s.queue != [] {
      DropExpiredCounts(s, e.now);
      ChooseCounts(DropExpired(s, e.now), e);
    }
  }

  lemma AcceptCounts(s: State, p: Packet, key: int, priority: Byte, delay: nat, op: nat, now: nat)
    requires 1 <= s.limit && |s.queue| <= s.limit
    ensures var a := Accept(s, p, key, priority, delay, op, now);
            && a.limit == s.limit && a.nextSeq == s.nextSeq + 1 && a.log == s.log && a.percent == s.percent
            && a.inFlight == s.inFlight && a.pump == s.pump && a.txTotal == s.txTotal && a.spent == s.spent
            && |a.queue| + |a.resolved| == |s.queue| + |s.resolved| + 1 && |a.queue| <= s.limit
            && Sent(a.resolved) == Sent(s.resolved)
            && a.txDropped - s.txDropped == |a.resolved| - |s.resolved|
  {
    var q := Arriving(s, p, priority, delay, op, now);
    var queue := Insert(s.queue, q);
    if |queue| > s.limit {
      SentConcat(s.resolved, [Settle(queue[Victim(queue)], false)]);
    }
  }

  lemma {:induction false} StepAccounts(s: State, ev: Event)
    requires Accounted(s)
    requires Step(s, ev).nextSeq == s.nextSeq + if ev.Sends? && ev.packet.Valid() then 1 else 0
    ensures Accounted(Step(s, ev))
  {
    var after := Step(s, ev);
    forall n: nat ensures HitsQ(after.queue, BySeq(n)) + HitsR(after.resolved, BySeq(n)) == if n < after.nextSeq then 1 else 0 {
      StepConserves(s, ev, BySeq(n));
      assert after.resolved == s.resolved + News(s, after);
      HitsRConcat(s.resolved, News(s, after), BySeq(n));
      assert HitsQ(s.queue, BySeq(n)) + HitsR(s.resolved, BySeq(n)) == if n < s.nextSeq then 1 else 0;
    }
  }

  lemma StepCounts(s: State, ev: Event, now: nat)
    requires Sound(s) && Enabled(s, now, ev)
    ensures var after := Step(s, ev);
            && Fit(after.queue) && after.limit == s.limit && |after.queue| <= s.limit
            && Awake(after) && Counted(after)
            && after.nextSeq == s.nextSeq + (if ev.Sends? && ev.packet.Valid() then 1 else 0)
            && |after.queue| + after.txTotal + after.txDropped
               == |s.queue| + s.txTotal + s.txDropped + if ev.Sends? then 1 else 0
  {
    match ev
    case Sends(p, key, priority, delay, op, e) =>
      if p.Valid() {
        var mid := Accept(s, p, key, priority, delay, op, e.now);
        AcceptCounts(s, p, key, priority, delay, op, e.now);
        AcceptFits(s, p, key, priority, delay, op, e.now);
        if mid.inFlight.None? {
          PumpCounts(mid, e);
          PumpFits(mid, e);
        }
      }
    case PumpTimer(e) =>
      if s.inFlight.None? {
        PumpCounts(s.(pump := None), e);
        PumpFits(s.(pump := None), e);
      }
    case Reconfigures(percent, e) =>
      if s.inFlight.None? {
        PumpCounts(s.(percent := percent), e);
        PumpFits(s.(percent := percent), e);
      }
    case _ =>
  }

  lemma StepIsSound(s: State, now: nat, ev: Event)
    requires Sound(s) && Enabled(s, now, ev)
    ensures Sound(Step(s, ev))
  {
    StepCounts(s, ev, now);
    StepAccounts(s, ev);
  }

  /** Exactly-once results, conservation, the queue bound and no lost wake-up,
      after every event of every run. */
  lemma {:induction false} RunsAreSound(s: State, now: nat, run: seq<Event>)
    requires Sound(s) && Legal(s, now, run)
    ensures Sound(Run(s, run))
  {
    if run != [] {
      var before := run[..|run| - 1];
      var ev := run[|run| - 1];
      RunsAreSound(s, now, before);
      StepIsSound(Run(s, before), TimeAfter(now, before), ev);
    }
  }

  function Asked(run: seq<Event>): nat {
    if run == [] then 0 else Asked(run[..|run| - 1]) + if run[|run| - 1].Sends? then 1 else 0
  }

  /** Every packet ever offered is waiting, was taken by the radio or was dropped,
      and the two counters say how many of each. */
  lemma {:induction false} EverySendIsCounted(s: State, now: nat, run: seq<Event>)
    requires Sound(s) && Legal(s, now, run)
    ensures var after := Run(s, run);
            |after.queue| + after.txTotal + after.txDropped == |s.queue| + s.txTotal + s.txDropped + Asked(run)
    decreases |run|
  {
    if run != [] {
      var before := run[..|run| - 1];
      EverySendIsCounted(s, now, before);
      RunsAreSound(s, now, before);
      StepCounts(Run(s, before), run[|run| - 1], TimeAfter(now, before));
    }
  }

  lemma InitialIsSound(limit: nat, percent: real)
    ensures Sound(Initial(limit, percent))
  {}
}
