/**
 Regulatory safety over every run, as the scheduler can know it: the airtime
 reported in any hour, and what was computed for the packet still on the air, stay
 inside the configured share of the hour, but for what the last report exceeded its
 computed airtime by. A transmission that timed out or that the radio went down in
 is reported as zero and so counts as zero here.
 */
module BudgetProofs {
  import opened Clock
  import opened Bytes
  import opened Packets
  import opened AirtimeBudget
  import opened Scheduler
  import opened SchedulerProofs

  function Committed(s: State): nat {
    if s.inFlight.Some? then s.inFlight.value else 0
  }

  /** The table the scheduler prunes as it goes still tells, from now on, what
      the full log of transmissions tells; and what is spent and on the air
      fits the budget, give or take `over`. */
  ghost predicate Within(s: State, now: nat, over: nat) {
    && Ordered(s.spent, now) && Ordered(s.log, now)
    && (forall t: nat :: now <= t ==> Young(s.spent, t) == Young(s.log, t))
    && (Young(s.log, now) + Committed(s)) as real <= Budget(s.percent) + over as real
    && (s.inFlight.Some? ==> over == 0)
  }

  ghost predicate InBudget(s: State, now: nat) {
    Within(s, now, 0)
  }

  lemma PrunedIsYoung(entries: seq<Entry>, now: nat)
    ensures forall e :: e in Prune(entries, now) ==> Gap(now, e.at) <= 3_600_000
  {}

  /** A report leaves nothing in the table that is over an hour old. */
  lemma ReportForgetsOld(s: State, now: nat, airtime: nat, random: Byte)
    ensures forall e :: e in TxDone(s, now, airtime, random).spent ==> Gap(now, e.at) <= 3_600_000
  {
    PrunedIsYoung(s.spent, now);
  }

  /** What a report adds beyond the airtime computed for its packet. */
  function Excess(s: State, ev: Event): nat {
    if ev.Done? && s.inFlight.Some? && ev.airtime > s.inFlight.value then ev.airtime - s.inFlight.value else 0
  }

  /** The overrun after one event: a report sets it, the next packet admitted
      clears it, and nothing else touches it. */
  function OverrunAfter(s: State, ev: Event, over: nat): nat {
    if ev.Done? then Excess(s, ev)
    else if Step(s, ev).inFlight.Some? then 0
    else over
  }

  /** What the last report exceeded its computed airtime by, until the next
      packet is admitted. */
  function Overrun(s: State, run: seq<Event>): nat {
    if run == [] then 0
    else OverrunAfter(Run(s, run[..|run| - 1]), run[|run| - 1], Overrun(s, run[..|run| - 1]))
  }

  /** The percentage is left alone. */
  predicate Fixed(s: State, run: seq<Event>) {
    forall i :: 0 <= i < |run| && run[i].Reconfigures? ==> run[i].percent == s.percent
  }

  lemma TimePasses(s: State, now: nat, later: nat, over: nat)
    requires Within(s, now, over) && now <= later
    ensures Within(s, later, over)
  {
    YoungShrinks(s.log, now, later);
  }

  lemma WaitKeepsYoung(s: State, now: nat, over: nat)
    requires Within(s, now, over)
    ensures Within(s.(spent := AfterWait(s.spent, s.percent, now)), now, over)
  {
    PruneKeepsOrder(s.spent, now, now);
    forall t: nat | now <= t
      ensures Young(AfterWait(s.spent, s.percent, now), t) == Young(s.log, t)
    {
      PruneKeepsYoung(s.spent, now, t);
    }
  }

  /** Same spending record: the steps that neither transmit nor record. */
  predicate SameSpending(s: State, after: State) {
    s.spent == after.spent && s.log == after.log && s.percent == after.percent && s.inFlight == after.inFlight
  }

  function Left(after: State, over: nat): nat {
    if after.inFlight.Some? then 0 else over
  }

  lemma AttemptWithin(s: State, e: Env, i: nat, over: nat)
    requires Within(s, e.now, over) && Limited(s.percent) && s.inFlight.None? && i < |s.queue|
    ensures Within(Attempt(s, e, i), e.now, Left(Attempt(s, e, i), over))
  {
    WaitKeepsYoung(s, e.now, over);
    var s1 := s.(spent := AfterWait(s.spent, s.percent, e.now));
    var after := Attempt(s, e, i);
    assert after.spent == s1.spent && after.log == s.log && after.percent == s.percent;
    if after.inFlight.Some? {
      assert Wait(s.spent, s.percent, e.now, e.airtime) == 0;
      AdmittedFits(s.spent, s.percent, e.now, e.airtime);
      assert Young(s.spent, e.now) == Young(s.log, e.now);
    }
  }

  lemma PumpWithin(s: State, e: Env, over: nat)
    requires Within(s, e.now, over) && Limited(s.percent)
    ensures Within(Pump(s, e), e.now, Left(Pump(s, e), over)) && Pump(s, e).percent == s.percent
  {
    if s.queue != [] && s.inFlight.None? {
      var d := DropExpired(s, e.now);
      assert SameSpending(s, d) && Within(d, e.now, over);
      var i := FirstReady(d.queue, e.now);
      if d.queue != [] && e.ready && e.hasFrequency && i < |d.queue| {
        AttemptWithin(d, e, i, over);
      } else {
        assert SameSpending(s, Choose(d, e));
      }
    }
  }

  lemma DoneWithin(s: State, now: nat, airtime: nat, random: Byte)
    requires Within(s, now, 0) && s.inFlight.Some?
    ensures Within(TxDone(s, now, airtime, random), now, Excess(s, Done(now, airtime, random)))
    ensures TxDone(s, now, airtime, random).percent == s.percent
  {
    var e := Entry(now, airtime);
    PruneKeepsOrder(s.spent, now, now);
    forall t: nat | now <= t
      ensures Young(Prune(s.spent, now) + [e], t) == Young(s.log + [e], t)
    {
      PruneKeepsYoung(s.spent, now, t);
      YoungAppend(Prune(s.spent, now), e, t);
      YoungAppend(s.log, e, t);
    }
    YoungAppend(s.log, e, now);
    var after := TxDone(s, now, airtime, random);
    assert after.spent == Prune(s.spent, now) + [e] && after.log == s.log + [e];
  }

  lemma SendWithin(s: State, p: Packet, key: int, priority: Byte, delay: nat, op: nat, e: Env, over: nat)
    requires Within(s, e.now, over) && Limited(s.percent) && p.Valid()
    ensures var after := Send(s, p, key, priority, delay, op, e);
            Within(after, e.now, Left(after, over)) && after.percent == s.percent
  {
    var mid := Accept(s, p, key, priority, delay, op, e.now);
    assert SameSpending(s, mid);
    PumpWithin(mid, e, over);
  }

  lemma StepWithin(s: State, now: nat, ev: Event, over: nat)
    requires Within(s, now, over) && Limited(s.percent) && Enabled(s, now, ev)
    requires ev.Reconfigures? ==> ev.percent == s.percent
    ensures Within(Step(s, ev), At(ev), OverrunAfter(s, ev, over)) && Step(s, ev).percent == s.percent
  {
    TimePasses(s, now, At(ev), over);
    match ev
    case Sends(p, key, priority, delay, op, e) =>
      if p.Valid() {
        SendWithin(s, p, key, priority, delay, op, e, over);
      }
    case PumpTimer(e) =>
      PumpWithin(s.(pump := None), e, over);
    case Done(t, airtime, random) =>
      DoneWithin(s, t, airtime, random);
    case Reconfigures(percent, e) =>
      assert s.(percent := percent) == s;
      PumpWithin(s, e, over);
    case _ =>
  }

  /** Duty-cycle safety with any radio: at every instant of every run, the
      airtime reported with age under one hour, and what is on the air, exceed
      the budget by no more than the last report exceeded its computed airtime
      by, and by nothing from the next admission on. */
  lemma {:induction false} OverspendIsOneOverrun(s: State, now: nat, run: seq<Event>, t: nat)
    requires InBudget(s, now) && Limited(s.percent)
    requires Legal(s, now, run) && Fixed(s, run) && TimeAfter(now, run) <= t
    ensures Within(Run(s, run), TimeAfter(now, run), Overrun(s, run)) && Run(s, run).percent == s.percent
    ensures (Young(Run(s, run).log, t) + Committed(Run(s, run))) as real <= Budget(s.percent) + Overrun(s, run) as real
    ensures Run(s, run).inFlight.Some? ==> Overrun(s, run) == 0
    decreases |run|
  {
    if run != [] {
      var before := run[..|run| - 1];
      assert forall i :: 0 <= i < |before| ==> before[i] == run[i];
      OverspendIsOneOverrun(s, now, before, TimeAfter(now, before));
      StepWithin(Run(s, before), TimeAfter(now, before), run[|run| - 1], Overrun(s, before));
    }
    TimePasses(Run(s, run), TimeAfter(now, run), t, Overrun(s, run));
  }

  /** So while no report exceeds what was computed, the budget is never exceeded. */
  lemma BudgetNeverExceeded(s: State, now: nat, run: seq<Event>, t: nat)
    requires InBudget(s, now) && Limited(s.percent)
    requires Legal(s, now, run) && Fixed(s, run) && TimeAfter(now, run) <= t
    requires Overrun(s, run) == 0
    ensures (Young(Run(s, run).log, t) + Committed(Run(s, run))) as real <= Budget(s.percent)
  {
    OverspendIsOneOverrun(s, now, run, t);
  }

  lemma InitiallyInBudget(limit: nat, percent: real, now: nat)
    requires Limited(percent)
    ensures InBudget(Initial(limit, percent), now)
  {}

  /** The overrun is really spent: a radio that reports more than was computed
      can overspend with its very first packet, by all of the overrun when the
      packet had filled the budget. */
  lemma OverReportingOverspends(limit: nat, percent: real, e: Env, airtime: nat)
    requires Limited(percent) && e.airtime as real <= Budget(percent) < airtime as real
    requires e.ready && e.hasFrequency && e.accepts && !e.channelBusy
    ensures var p := Packet(0, FLOOD, ADVERT, 0, 0, 1, [], [0]);
            var run := [Sends(p, 0, 1, 0, 0, e), Done(e.now, airtime, 0)];
            && Legal(Initial(limit, percent), e.now, run)
            && Young(Run(Initial(limit, percent), run).log, e.now) == airtime
            && airtime as real > Budget(percent) && Overrun(Initial(limit, percent), run) == airtime - e.airtime
  {
    var p := Packet(0, FLOOD, ADVERT, 0, 0, 1, [], [0]);
    var s := Initial(limit, percent);
    var first, second := Sends(p, 0, 1, 0, 0, e), Done(e.now, airtime, 0);
    var run := [first, second];
    var mid := Accept(s, p, 0, 1, 0, 0, e.now);
    assert |mid.queue| == 1 && mid.queue[0].notBefore == e.now && mid.queue[0].expiry == e.now + 10_000;
    var d := DropExpired(mid, e.now);
    assert d.queue == mid.queue;
    assert Wait(d.spent, percent, e.now, e.airtime) == 0;
    assert Step(s, first).inFlight == Some(e.airtime);
    var none: seq<Event> := [];
    assert [first][..|[first]| - 1] == none && run[..|run| - 1] == [first];
    assert Run(s, [first]) == Step(Run(s, none), first) && TimeAfter(e.now, none) == e.now;
    assert Legal(s, e.now, [first]);
    assert Run(s, run) == Step(Step(s, first), second);
  }
}
