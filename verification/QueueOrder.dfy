/**
 Queue discipline: the queue is kept by (priority, expiry, sequence number), the
 entry dropped for room is the oldest of the least urgent, and the packet sent is
 the most urgent one whose backoff has elapsed.
 */
module QueueOrder {
  import opened Clock
  import opened Bytes
  import opened Packets
  import opened Scheduler
  import opened SchedulerProofs

  /** The intended order, on unbounded time. */
  predicate Less(a: Queued, b: Queued) {
    || a.priority < b.priority
    || (a.priority == b.priority && a.expiry < b.expiry)
    || (a.priority == b.priority && a.expiry == b.expiry && a.seqno < b.seqno)
  }

  predicate Sorted(queue: seq<Queued>) {
    forall i, j :: 0 <= i < j < |queue| ==> Less(queue[i], queue[j])
  }

  /** Every entry as urgent as `q` was queued no later and, by the wrapped
      clock, does not read as later either: none has waited 2^31 ms. */
  predicate Placeable(queue: seq<Queued>, q: Queued) {
    forall i :: 0 <= i < |queue| ==> Reads(queue[i], q)
  }

  predicate Reads(e: Queued, q: Queued) {
    e.priority == q.priority ==> e.expiry <= q.expiry && Gap(q.expiry, e.expiry) >= 0
  }

  predicate Older(queue: seq<Queued>, seqno: nat) {
    forall i :: 0 <= i < |queue| ==> queue[i].seqno < seqno
  }

  lemma BeforeIsLess(q: Queued, e: Queued)
    requires Reads(e, q) && e.seqno < q.seqno
    ensures Before(q, e) <==> Less(q, e)
    ensures Less(q, e) <==> !Less(e, q)
  {}

  lemma LessUpTo(queue: seq<Queued>, q: Queued, mid: nat)
    requires Sorted(queue) && mid < |queue| && Less(queue[mid], q)
    ensures forall i :: 0 <= i <= mid ==> Less(queue[i], q)
  {
    forall i | 0 <= i < mid ensures Less(queue[i], q) {
      assert Less(queue[i], queue[mid]);
    }
  }

  lemma GreaterFrom(queue: seq<Queued>, q: Queued, mid: nat)
    requires Sorted(queue) && mid < |queue| && Less(q, queue[mid])
    ensures forall i :: mid <= i < |queue| ==> Less(q, queue[i])
  {
    forall i | mid < i < |queue| ensures Less(q, queue[i]) {
      assert Less(queue[mid], queue[i]);
    }
  }

  /** What lies below `from` sorts before `q`, what lies at `to` or above after. */
  predicate Splits(queue: seq<Queued>, q: Queued, from: nat, to: nat) {
    && (forall i :: 0 <= i < from && i < |queue| ==> Less(queue[i], q))
    && (forall i :: to <= i < |queue| ==> Less(q, queue[i]))
  }

  lemma {:induction false} UpperBoundSplits(queue: seq<Queued>, q: Queued, lo: nat, hi: nat)
    requires lo <= hi <= |queue| && Sorted(queue) && Placeable(queue, q) && Older(queue, q.seqno)
    requires Splits(queue, q, lo, hi)
    ensures var pos := UpperBound(queue, q, lo, hi); Splits(queue, q, pos, pos)
    decreases hi - lo
  {
    if lo < hi {
      var mid := Middle(lo, hi);
      assert queue[mid].seqno < q.seqno && Reads(queue[mid], q);
      BeforeIsLess(q, queue[mid]);
      if Before(q, queue[mid]) {
        GreaterFrom(queue, q, mid);
        UpperBoundSplits(queue, q, lo, mid);
      } else {
        LessUpTo(queue, q, mid);
        UpperBoundSplits(queue, q, mid + 1, hi);
      }
    }
  }

  lemma InsertSorts(queue: seq<Queued>, q: Queued)
    requires Sorted(queue) && Placeable(queue, q) && Older(queue, q.seqno)
    ensures Sorted(Insert(queue, q)) && Older(Insert(queue, q), q.seqno + 1)
  {
    UpperBoundSplits(queue, q, 0, |queue|);
    SpliceSorts(queue, q, UpperBound(queue, q, 0, |queue|));
  }

  lemma SpliceSorts(queue: seq<Queued>, q: Queued, pos: nat)
    requires Sorted(queue) && Older(queue, q.seqno) && pos <= |queue| && Splits(queue, q, pos, pos)
    ensures var r := queue[..pos] + [q] + queue[pos..]; Sorted(r) && Older(r, q.seqno + 1)
  {
    var r := queue[..pos] + [q] + queue[pos..];
    assert forall i :: 0 <= i < |r| ==> r[i] == if i < pos then queue[i] else if i == pos then q else queue[i - 1];
  }

  /** With one entry of its urgency waiting, a new one is put in order exactly
      when the wrapped clock does not read the old one's expiry as the later. */
  lemma StaleEntryUnsorts(e: Queued, q: Queued)
    requires e.priority == q.priority && e.expiry <= q.expiry && e.seqno < q.seqno
    ensures Sorted(Insert([e], q)) <==> Gap(q.expiry, e.expiry) >= 0
  {
    InsertOne(e, q);
    SortedPair(e, q);
    SortedPair(q, e);
    ZeroReadsZero(q.expiry - e.expiry);
  }

  lemma SortedPair(a: Queued, b: Queued)
    ensures Sorted([a, b]) <==> Less(a, b)
  {
    assert [a, b][0] == a && [a, b][1] == b;
  }

  lemma InsertOne(e: Queued, q: Queued)
    ensures Insert([e], q) == if Before(q, e) then [q, e] else [e, q]
  {
    assert Middle(0, 1) == 0;
    assert UpperBound([e], q, 0, 1) == if Before(q, e) then 0 else 1;
  }

  lemma {:induction false} ZeroReadsZero(d: nat)
    ensures Unsigned(d) == 0 ==> Signed(d) == 0
  {
    UnsignedIsWrap(d);
    SignedIsCongruent(d);
  }

  lemma RemoveSorts(queue: seq<Queued>, i: nat, seqno: nat)
    requires Sorted(queue) && i < |queue| && Older(queue, seqno)
    ensures Sorted(Remove(queue, i)) && Older(Remove(queue, i), seqno)
  {}

  /** A refused packet goes back to the front, which keeps the order exactly
      when the front is where it came from. */
  lemma RefusalKeepsOrder(queue: seq<Queued>, i: nat)
    requires Sorted(queue) && i < |queue|
    ensures Sorted([queue[i]] + Remove(queue, i)) <==> i == 0
  {
    var r := [queue[i]] + Remove(queue, i);
    if i == 0 {
      assert r == queue;
    } else {
      assert r[1] == queue[0] && Less(queue[0], queue[i]);
      assert !Less(r[0], r[1]);
    }
  }

  /** The victim is the oldest entry of the least urgent class. */
  lemma {:induction false} VictimIsOldestLeastUrgent(queue: seq<Queued>)
    requires queue != []
    ensures var v := queue[Victim(queue)];
            forall i :: 0 <= i < |queue| ==>
              && queue[i].priority <= v.priority
              && (queue[i].priority == v.priority ==> v.seqno <= queue[i].seqno)
  {
    if |queue| > 1 {
      VictimIsOldestLeastUrgent(queue[..|queue| - 1]);
    }
  }

  // ---- Sorted in every run ---------------------------------------------

  /** No entry expires later than one of its urgency queued now. */
  ghost predicate Timely(queue: seq<Queued>, now: nat) {
    forall q :: q in queue ==> q.expiry <= now + EXPIRY_PER_PRIORITY * q.priority as int
  }

  ghost predicate InOrder(s: State, now: nat) {
    Sorted(s.queue) && Older(s.queue, s.nextSeq) && Timely(s.queue, now)
  }

  lemma TailInOrder(s: State, now: nat)
    requires InOrder(s, now)
    ensures InOrder(DropExpired(s, now), now)
  {
    var k := Expired(s.queue, now);
    assert forall q :: q in s.queue[k..] ==> q in s.queue;
  }

  lemma AttemptInOrder(s: State, e: Env, i: nat)
    requires InOrder(s, e.now) && e.accepts && i < |s.queue|
    ensures InOrder(Attempt(s, e, i), e.now)
  {
    RemoveSorts(s.queue, i, s.nextSeq);
    assert forall q :: q in Remove(s.queue, i) ==> q in s.queue;
  }

  lemma {:induction false} PumpInOrder(s: State, e: Env)
    requires InOrder(s, e.now) && e.accepts
    ensures InOrder(Pump(s, e), e.now)
  {
    if s.queue != [] && s.inFlight.None? {
      var d := DropExpired(s, e.now);
      TailInOrder(s, e.now);
      var i := FirstReady(d.queue, e.now);
      if i < |d.queue| {
        AttemptInOrder(d, e, i);
      }
    }
  }

  /** By the wrapped clock, no entry as urgent as `q` expires after it. */
  predicate ReadsInOrder(queue: seq<Queued>, q: Queued) {
    forall i :: 0 <= i < |queue| && queue[i].priority == q.priority ==> Gap(q.expiry, queue[i].expiry) >= 0
  }

  lemma {:induction false} AcceptInOrder(s: State, p: Packet, key: int, priority: Byte, delay: nat, op: nat, now: nat)
    requires InOrder(s, now) && ReadsInOrder(s.queue, Arriving(s, p, priority, delay, op, now))
    ensures InOrder(Accept(s, p, key, priority, delay, op, now), now)
  {
    var q := Arriving(s, p, priority, delay, op, now);
    EnqueueInOrder(Receive(s, key, now), q, now);
  }

  lemma EnqueueInOrder(s: State, q: Queued, now: nat)
    requires InOrder(s, now) && ReadsInOrder(s.queue, q) && q.seqno == s.nextSeq
    requires q.expiry == now + EXPIRY_PER_PRIORITY * q.priority as int
    ensures InOrder(Enqueue(s, q), now)
  {
    ArrivingIsPlaceable(s, q, now);
    InsertedInOrder(s, q, now);
    VictimLeavesOrder(Inserted(s, q), now);
  }

  lemma InsertedInOrder(s: State, q: Queued, now: nat)
    requires InOrder(s, now) && Placeable(s.queue, q) && q.seqno == s.nextSeq
    requires q.expiry == now + EXPIRY_PER_PRIORITY * q.priority as int
    ensures InOrder(Inserted(s, q), now) && Inserted(s, q).queue != []
  {
    InsertSorts(s.queue, q);
    assert forall x :: x in Insert(s.queue, q) ==> x == q || x in s.queue;
  }

  lemma VictimLeavesOrder(s: State, now: nat)
    requires InOrder(s, now) && s.queue != []
    ensures InOrder(DropVictim(s), now)
  {
    RemoveSorts(s.queue, Victim(s.queue), s.nextSeq);
    assert forall x :: x in Remove(s.queue, Victim(s.queue)) ==> x in s.queue;
  }

  lemma ArrivingIsPlaceable(s: State, q: Queued, now: nat)
    requires InOrder(s, now) && ReadsInOrder(s.queue, q)
    requires q.expiry == now + EXPIRY_PER_PRIORITY * q.priority as int
    ensures Placeable(s.queue, q)
  {
    forall i | 0 <= i < |s.queue| ensures Reads(s.queue[i], q) {
      assert s.queue[i] in s.queue;
    }
  }

  /** The radio refuses nothing it was offered, and a packet is only added while
      none of its urgency has waited so long that it reads as the newer. */
  predicate Smooth(s: State, ev: Event) {
    match ev
    case Sends(p, _, priority, delay, op, e) => e.accepts && ReadsInOrder(s.queue, Arriving(s, p, priority, delay, op, e.now))
    case PumpTimer(e) => e.accepts
    case Reconfigures(_, e) => e.accepts
    case _ => true
  }

  predicate SmoothRun(s: State, run: seq<Event>) {
    run != [] ==>
      var before := run[..|run| - 1];
      SmoothRun(s, before) && Smooth(Run(s, before), run[|run| - 1])
  }

  lemma StepInOrder(s: State, now: nat, ev: Event)
    requires InOrder(s, now) && now <= At(ev) && Smooth(s, ev)
    ensures InOrder(Step(s, ev), At(ev))
  {
    match ev
    case Sends(p, key, priority, delay, op, e) =>
      if p.Valid() {
        AcceptInOrder(s, p, key, priority, delay, op, e.now);
        PumpInOrder(Accept(s, p, key, priority, delay, op, e.now), e);
      }
    case PumpTimer(e) => PumpInOrder(s.(pump := None), e);
    case Reconfigures(percent, e) => PumpInOrder(s.(percent := percent), e);
    case _ =>
  }

  lemma {:induction false} QueueStaysSorted(s: State, now: nat, run: seq<Event>)
    requires InOrder(s, now) && Legal(s, now, run) && SmoothRun(s, run)
    ensures InOrder(Run(s, run), TimeAfter(now, run))
  {
    if run != [] {
      var before := run[..|run| - 1];
      QueueStaysSorted(s, now, before);
      StepInOrder(Run(s, before), TimeAfter(now, before), run[|run| - 1]);
    }
  }

  // ---- What is sent ----------------------------------------------------

  lemma FirstReadyIsFirst(queue: seq<Queued>, now: nat)
    ensures var i := FirstReady(queue, now);
            && (forall j :: 0 <= j < i ==> Gap(queue[j].notBefore, now) > 0)
            && (i < |queue| ==> Gap(queue[i].notBefore, now) <= 0)
  {
    if queue != [] && Gap(queue[0].notBefore, now) > 0 {
      FirstReadyIsFirst(queue[1..], now);
    }
  }

  lemma FrontIsFresh(queue: seq<Queued>, now: nat)
    ensures var k := Expired(queue, now);
            k < |queue| ==> Gap(queue[k].expiry, now) > 0
  {}

  /** `at` is the entry a pump put on the air: it left the queue and was
      reported transmitted. */
  predicate Transmitted(s: State, e: Env, at: nat) {
    var rest := DropExpired(s, e.now);
    && at < |rest.queue|
    && Pump(s, e).queue == Remove(rest.queue, at)
    && Pump(s, e).resolved == rest.resolved + [Settle(rest.queue[at], true)]
  }

  /** A pump that starts a transmission sends the most urgent entry whose
      backoff has elapsed; one past its expiry only if every entry ahead of it,
      the front one included, is still in backoff. */
  lemma {:induction false} SendsMostUrgentReady(s: State, e: Env) returns (at: nat)
    requires s.inFlight.None? && Pump(s, e).inFlight.Some?
    ensures Transmitted(s, e, at)
    ensures var queue := DropExpired(s, e.now).queue;
            && Gap(queue[at].notBefore, e.now) <= 0
            && (forall j :: 0 <= j < at ==> Gap(queue[j].notBefore, e.now) > 0)
            && (Sorted(queue) ==> forall j :: 0 <= j < |queue| && Gap(queue[j].notBefore, e.now) <= 0 ==>
                                    j == at || Less(queue[at], queue[j]))
            && (Gap(queue[at].expiry, e.now) <= 0 ==> at > 0 && Gap(queue[0].notBefore, e.now) > 0)
  {
    var queue := DropExpired(s, e.now).queue;
    at := FirstReady(queue, e.now);
    FirstReadyIsFirst(queue, e.now);
    FrontIsFresh(s.queue, e.now);
  }

  // ---- Sent as asked ------------------------------------------------------

  /** `q` was put on the air at `now`, its delay over by the wrapped clock. */
  predicate PutOnAir(after: State, q: Queued, now: nat) {
    && after.inFlight.Some? && after.resolved != []
    && after.resolved[|after.resolved| - 1] == Settle(q, true)
    && Gap(q.notBefore, now) <= 0
  }

  lemma {:induction false} PumpSendsQueued(s: State, e: Env) returns (q: Queued)
    requires s.inFlight.None? && Pump(s, e).inFlight.Some?
    ensures q in s.queue && PutOnAir(Pump(s, e), q, e.now)
  {
    var at := SendsMostUrgentReady(s, e);
    var rest := DropExpired(s, e.now);
    q := rest.queue[at];
    assert q in s.queue[Expired(s.queue, e.now)..];
  }

  /** Over every run, a packet that goes on the air is one that some send asked for,
      and goes when the delay asked for is over, not before. */
  lemma {:induction false} SentAsAsked(s: State, now: nat, run: seq<Event>) returns (q: Queued)
    requires s.queue == [] && Legal(s, now, run) && run != []
    requires Run(s, run[..|run| - 1]).inFlight.None? && Run(s, run).inFlight.Some?
    ensures AskedIn(q, run) && PutOnAir(Run(s, run), q, At(run[|run| - 1]))
    ensures q.notBefore - At(run[|run| - 1]) < HALF ==> q.notBefore <= At(run[|run| - 1])
  {
    var before, ev := Run(s, run[..|run| - 1]), run[|run| - 1];
    QueuedAsAsked(s, run[..|run| - 1]);
    match ev {
      case Sends(p, key, priority, delay, op, e) =>
        q := PumpSendsQueued(Accept(before, p, key, priority, delay, op, e.now), e);
        AcceptAdds(before, p, key, priority, delay, op, e.now);
      case PumpTimer(e) => q := PumpSendsQueued(before.(pump := None), e);
      case Reconfigures(percent, e) => q := PumpSendsQueued(before.(percent := percent), e);
    }
    if q in before.queue {
      var k :| 0 <= k < |run| - 1 && AskedBy(q, run[..|run| - 1][k]);
      assert AskedBy(q, run[k]);
    } else {
      assert AskedBy(q, ev);
    }
  }
}
