/**
 The transmit scheduler's one timer on the wrapping clock: an armed wake-up is never
 put off by a later request.
 */
module WakeUps {
  import opened Clock
  import opened Bytes
  import opened AirtimeBudget
  import opened Scheduler
  import opened SchedulerProofs

  /** The earlier of what was armed and what is asked for is armed, as long as the
      wrapped clock can tell which that is. */
  lemma EarliestWakeUpWins(s: State, now: nat, delay: nat)
    requires s.pump.Some? ==> -HALF <= now + delay - s.pump.value < HALF
    ensures Schedule(s, now, delay).pump
         == Some(if s.pump.Some? && s.pump.value <= now + delay then s.pump.value else now + delay)
  {}

  /** The armed wake-up is less than 2^31 ms away. */
  predicate Ahead(s: State, now: nat) {
    s.pump.Some? ==> s.pump.value < now + HALF
  }

  /** No event but the pump timer's own is handled once that timer is overdue. */
  predicate Prompt(s: State, ev: Event) {
    s.pump.Some? && !ev.PumpTimer? ==> At(ev) <= s.pump.value
  }

  predicate PromptRun(s: State, run: seq<Event>) {
    run != [] ==>
      var before := run[..|run| - 1];
      PromptRun(s, before) && Prompt(Run(s, before), run[|run| - 1])
  }

  /** `after` has what `s` had armed, or something earlier. */
  predicate NoLater(s: State, after: State) {
    s.pump.Some? ==> after.pump.Some? && after.pump.value <= s.pump.value
  }

  lemma ScheduleForward(s: State, now: nat, delay: nat)
    requires Ahead(s, now) && (s.pump.Some? ==> now <= s.pump.value) && delay < HALF
    ensures NoLater(s, Schedule(s, now, delay)) && Ahead(Schedule(s, now, delay), now)
  {
    EarliestWakeUpWins(s, now, delay);
  }

  lemma SoonestIsGap(queue: seq<Queued>, now: nat)
    requires queue != []
    ensures Soonest(queue, now) < HALF
  {
    if |queue| > 1 {
      SoonestIsGap(queue[..|queue| - 1], now);
    }
  }

  lemma {:induction false} PumpForward(s: State, e: Env)
    requires Ahead(s, e.now) && (s.pump.Some? ==> e.now <= s.pump.value)
    ensures NoLater(s, Pump(s, e)) && Ahead(Pump(s, e), e.now)
  {
    if s.queue != [] && s.inFlight.None? {
      var d := DropExpired(s, e.now);
      ScheduleForward(d, e.now, DOWN_RECHECK);
      var i := FirstReady(d.queue, e.now);
      if d.queue != [] && i == |d.queue| {
        SoonestIsGap(d.queue, e.now);
        var soonest := Soonest(d.queue, e.now);
        ScheduleForward(d, e.now, if soonest > 0 then soonest else 1);
      } else if i < |d.queue| {
        AttemptForward(d, e, i);
      }
    }
  }

  lemma {:induction false} AttemptForward(s: State, e: Env, i: nat)
    requires Ahead(s, e.now) && (s.pump.Some? ==> e.now <= s.pump.value) && i < |s.queue|
    ensures NoLater(s, Attempt(s, e, i)) && Ahead(Attempt(s, e, i), e.now)
  {
    var wait := Wait(s.spent, s.percent, e.now, e.airtime);
    var s1 := s.(spent := AfterWait(s.spent, s.percent, e.now));
    if wait > 0 {
      ScheduleForward(s1, e.now, if wait < DUTY_RECHECK then wait else DUTY_RECHECK);
    } else if Defers(s1, e) {
      ScheduleForward(s1.(busySince := Stamp(BusyStart(s1, e.now))), e.now, BUSY_RETRY + e.random as int % BUSY_JITTER);
    } else if !e.accepts {
      ScheduleForward(s1.(busySince := None, queue := [s.queue[i]] + Remove(s.queue, i)), e.now, REFUSED_RETRY);
    }
  }

  lemma {:induction false} StepForward(s: State, now: nat, ev: Event)
    requires Ahead(s, now) && now <= At(ev) && Prompt(s, ev)
    ensures Ahead(Step(s, ev), At(ev)) && (!ev.PumpTimer? ==> NoLater(s, Step(s, ev)))
  {
    match ev
    case Sends(p, key, priority, delay, op, e) =>
      if p.Valid() {
        PumpForward(Accept(s, p, key, priority, delay, op, e.now), e);
      }
    case PumpTimer(e) => PumpForward(s.(pump := None), e);
    case Done(t, airtime, random) =>
      var s1 := s.(inFlight := None, log := s.log + [Entry(t, airtime)],
                   spent := Prune(s.spent, t) + [Entry(t, airtime)]);
      ScheduleForward(s1, t, 1 + random as int * JITTER / 255);
    case Reconfigures(percent, e) => PumpForward(s.(percent := percent), e);
    case _ =>
  }

  /** Over every run in which the loop never leaves the pump timer overdue while it
      handles something else, an armed wake-up is only ever brought forward, until
      it fires: the wrapped comparison never mistakes the later for the earlier. */
  lemma {:induction false} WakeUpsOnlyComeForward(s: State, now: nat, run: seq<Event>)
    requires Ahead(s, now) && Legal(s, now, run) && PromptRun(s, run)
    ensures Ahead(Run(s, run), TimeAfter(now, run))
    ensures run != [] && !run[|run| - 1].PumpTimer? ==> NoLater(Run(s, run[..|run| - 1]), Run(s, run))
    decreases |run|
  {
    if run != [] {
      var before := run[..|run| - 1];
      WakeUpsOnlyComeForward(s, now, before);
      StepForward(Run(s, before), TimeAfter(now, before), run[|run| - 1]);
    }
  }

  /** Left overdue, it can be postponed: exactly when the lateness and the delay
      asked for together read as negative. */
  lemma OverdueCanBePostponed(s: State, now: nat, late: nat, delay: nat)
    requires s.pump == Some(now) && late < MODULUS && delay < HALF
    ensures Schedule(s, now + late, delay).pump != s.pump <==> HALF <= late + delay < MODULUS
  {
    AheadBy(now, late + delay);
  }

  lemma AheadBy(now: nat, d: nat)
    requires d < MODULUS + HALF
    ensures Gap(now + d, now) < 0 <==> HALF <= d < MODULUS
  {
    if HALF <= d {
      assert Signed(d) == Signed(d - MODULUS) == d - MODULUS;
    }
  }

  // ---- What a held packet waits for ----------------------------------------

  /** A packet held back is tried again: 1 s later while the radio is down or has no
      frequency; when the first backoff ends; when the budget has room, or after 30 s
      if that is sooner; or 20 ms after the radio refused it. */
  lemma {:induction false} HeldIsTriedAgain(s: State, e: Env)
    requires s.queue != [] && s.inFlight.None? && s.pump.None? && DropExpired(s, e.now).queue != []
    ensures var queue, after := DropExpired(s, e.now).queue, Pump(s, e);
            var i, wait := FirstReady(queue, e.now), Wait(s.spent, s.percent, e.now, e.airtime);
            if !(e.ready && e.hasFrequency) then after.pump == Some(e.now + 1_000)
            else if i == |queue| then
              && after.pump.Some? && (exists q :: q in queue && after.pump.value == e.now + Gap(q.notBefore, e.now))
              && forall q :: q in queue ==> after.pump.value <= e.now + Gap(q.notBefore, e.now)
            else if wait > 0 then after.pump == Some(e.now + if wait < 30_000 then wait else 30_000)
            else !e.channelBusy && !e.accepts ==> after.pump == Some(e.now + 20)
  {
    var queue := DropExpired(s, e.now).queue;
    if FirstReady(queue, e.now) == |queue| {
      NoneReady(queue, e.now);
      SoonestIsLeast(queue, e.now);
    }
  }

  lemma NoneReady(queue: seq<Queued>, now: nat)
    requires FirstReady(queue, now) == |queue|
    ensures forall q :: q in queue ==> Gap(q.notBefore, now) > 0
  {
    if queue != [] {
      NoneReady(queue[1..], now);
    }
  }

  lemma {:induction false} SoonestIsLeast(queue: seq<Queued>, now: nat)
    requires queue != []
    ensures exists q :: q in queue && Soonest(queue, now) == Gap(q.notBefore, now)
    ensures forall q :: q in queue ==> Soonest(queue, now) <= Gap(q.notBefore, now)
    decreases |queue|
  {
    var last := queue[|queue| - 1];
    assert last in queue;
    if |queue| > 1 {
      var rest := queue[..|queue| - 1];
      SoonestIsLeast(rest, now);
      var q :| q in rest && Soonest(rest, now) == Gap(q.notBefore, now);
      assert q in queue;
      assert forall q :: q in queue ==> q in rest || q == last;
    }
  }

  /** After a transmission the next is tried 1 to 401 ms later. */
  lemma DoneIsTriedAgain(s: State, now: nat, airtime: nat, random: Byte)
    requires s.pump.None?
    ensures TxDone(s, now, airtime, random).pump.Some?
    ensures now + 1 <= TxDone(s, now, airtime, random).pump.value <= now + 401
  {}
}
