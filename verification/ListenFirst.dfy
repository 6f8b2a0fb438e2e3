/**
 Listening before transmitting (src/mesh/dispatcher.cpp): a busy channel holds a
 packet back for four seconds from the first busy reading, and no longer.
 */
module ListenFirst {
  import opened Clock
  import opened Bytes
  import opened AirtimeBudget
  import opened Scheduler
  import opened SchedulerProofs

  const PATIENCE := 4_000

  /** Nothing stands in the way of a packet but perhaps the channel: one is left
      whose backoff is over, the radio is up and the budget has room. */
  predicate Cleared(s: State, e: Env) {
    && s.queue != [] && s.inFlight.None?
    && var d := DropExpired(s, e.now);
       && e.ready && e.hasFrequency && FirstReady(d.queue, e.now) < |d.queue|
       && Wait(s.spent, s.percent, e.now, e.airtime) == 0
  }

  /** The channel reads busy, and has for less than the four seconds as far as is
      remembered. */
  predicate Patient(s: State, e: Env) {
    e.channelBusy && (s.busySince.None? || Unsigned(e.now - s.busySince.value) < PATIENCE)
  }

  /** When the scheduler began to find the channel busy: now, unless remembered. */
  function Since(s: State, now: nat): nat {
    if s.busySince.Some? then s.busySince.value else now
  }

  /** A busy channel holds a packet back: nothing goes on the air, nothing leaves
      the queue but what expired, the start of the busy stretch is remembered, and
      the next try comes 60 to 119 ms later unless one was due before. */
  lemma {:induction false} BusyHoldsBack(s: State, e: Env)
    requires Cleared(s, e) && Patient(s, e)
    ensures var after := Pump(s, e);
            && after.inFlight.None? && after.queue == DropExpired(s, e.now).queue && after.txTotal == s.txTotal
            && after.busySince == (if Unsigned(Since(s, e.now)) == 0 then None else Some(Since(s, e.now)))
            && after.pump.Some?
            && (after.pump == s.pump || 60 <= after.pump.value - e.now <= 119)
            && (s.pump.None? ==> 60 <= after.pump.value - e.now <= 119)
  {}

  /** And only that: once the channel reads free, or four seconds have gone by, the
      first packet whose backoff is over is handed to the radio, and the stretch is
      forgotten. */
  lemma {:induction false} ClearedIsOffered(s: State, e: Env)
    requires Cleared(s, e) && !Patient(s, e)
    ensures var d, after := DropExpired(s, e.now), Pump(s, e);
            var q := d.queue[FirstReady(d.queue, e.now)];
            && after.busySince.None?
            && if e.accepts then after.inFlight == Some(e.airtime) && after.resolved == d.resolved + [Settle(q, true)]
               else after.inFlight.None? && |after.queue| == |d.queue| && after.queue[0] == q
  {}

  /** A packet goes on the air exactly when it is cleared, the channel does not
      call for patience and the radio takes it. */
  lemma {:induction false} OnAirIff(s: State, e: Env)
    requires s.inFlight.None?
    ensures Pump(s, e).inFlight.Some? <==> Cleared(s, e) && !Patient(s, e) && e.accepts
  {
    if Cleared(s, e) {
      if Patient(s, e) {
        BusyHoldsBack(s, e);
      } else {
        ClearedIsOffered(s, e);
      }
    }
  }

  // ---- Over a busy stretch -------------------------------------------------

  /** Whatever reading of the channel the event makes says busy. */
  predicate HearsBusy(ev: Event) {
    match ev
    case Sends(_, _, _, _, _, e) => e.channelBusy
    case PumpTimer(e) => e.channelBusy
    case Reconfigures(_, e) => e.channelBusy
    case _ => true
  }

  /** Nothing on the air, and no busy reading remembered from before `from`. */
  predicate Waiting(s: State, from: nat, now: nat) {
    s.inFlight.None? && (s.busySince.Some? ==> from <= s.busySince.value <= now)
  }

  lemma {:induction false} PumpWaits(s: State, e: Env, from: nat)
    requires Waiting(s, from, e.now) && e.channelBusy && from <= e.now < from + PATIENCE
    ensures Waiting(Pump(s, e), from, e.now)
  {
    OnAirIff(s, e);
    if Cleared(s, e) {
      BusyHoldsBack(s, e);
    }
  }

  lemma {:induction false} StepWaits(s: State, now: nat, ev: Event, from: nat)
    requires Waiting(s, from, now) && from <= now && Enabled(s, now, ev) && HearsBusy(ev) && At(ev) < from + PATIENCE
    ensures Waiting(Step(s, ev), from, At(ev))
  {
    match ev
    case Sends(p, key, priority, delay, op, e) =>
      if p.Valid() {
        PumpWaits(Accept(s, p, key, priority, delay, op, e.now), e, from);
      }
    case PumpTimer(e) => PumpWaits(s.(pump := None), e, from);
    case Reconfigures(percent, e) => PumpWaits(s.(percent := percent), e, from);
    case _ =>
  }

  /** Over every run: in the first four seconds of a stretch in which every reading
      of the channel says busy, no packet is handed to the radio. The stretch must
      be the first since one was: see `OldStretchIsRemembered`. */
  lemma {:induction false} NoneInFourSeconds(s: State, now: nat, run: seq<Event>)
    requires s.inFlight.None? && s.busySince.None? && Legal(s, now, run)
    requires forall i :: 0 <= i < |run| ==> HearsBusy(run[i]) && At(run[i]) < now + PATIENCE
    ensures Waiting(Run(s, run), now, TimeAfter(now, run)) && now <= TimeAfter(now, run)
    ensures Run(s, run).inFlight.None? && Run(s, run).txTotal == s.txTotal
    decreases |run|
  {
    if run != [] {
      var before := run[..|run| - 1];
      assert forall i :: 0 <= i < |before| ==> before[i] == run[i];
      NoneInFourSeconds(s, now, before);
      StepWaits(Run(s, before), TimeAfter(now, before), run[|run| - 1], now);
      NothingTaken(Run(s, before), run[|run| - 1]);
    }
  }

  lemma {:induction false} NothingTaken(s: State, ev: Event)
    requires s.inFlight.None? && Step(s, ev).inFlight.None? && !ev.Done?
    ensures Step(s, ev).txTotal == s.txTotal
  {
    match ev
    case Sends(p, key, priority, delay, op, e) =>
      if p.Valid() {
        PumpCounts(Accept(s, p, key, priority, delay, op, e.now), e);
      }
    case PumpTimer(e) => PumpCounts(s.(pump := None), e);
    case Reconfigures(percent, e) => PumpCounts(s.(percent := percent), e);
    case _ =>
  }

  /** A stretch that ended without a transmission is not forgotten: a start more
      than four seconds back, however old, and a packet goes over the very first
      busy reading of the next stretch. */
  lemma OldStretchIsRemembered(s: State, e: Env)
    requires Cleared(s, e) && e.channelBusy && e.accepts
    requires s.busySince.Some? && Unsigned(e.now - s.busySince.value) >= PATIENCE
    ensures Pump(s, e).inFlight == Some(e.airtime)
  {
    ClearedIsOffered(s, e);
  }
}
