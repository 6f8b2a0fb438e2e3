/**
 The scheduler and the radio driver together: the scheduler's view of the radio is
 the driver's own state, and each transmission the driver reports done reaches the
 scheduler once. What the scheduler assumes of a radio is what this one provides.
 */
module Link {
  import opened Clock
  import opened Bytes
  import opened AirtimeBudget
  import Scheduler
  import SP = SchedulerProofs
  import Radio

  datatype System = System(d: Scheduler.State, r: Radio.State)

  /** A scheduler step during which the radio is asked with answers `io`, or a
      radio event at some instant, with the random byte its report may need. */
  datatype Event =
    | Traffic(ev: SP.Event, size: nat, io: Radio.Io)
    | Hardware(hw: Radio.Event, now: nat, random: Byte)

  function At(ev: Event): nat {
    match ev
    case Traffic(ev, _, _) => SP.At(ev)
    case Hardware(_, now, _) => now
  }

  /** Whether a pump gets as far as handing a packet to the radio. */
  predicate Offers(s: Scheduler.State, e: Scheduler.Env) {
    && s.queue != [] && s.inFlight.None?
    && var s1 := Scheduler.DropExpired(s, e.now);
       && s1.queue != [] && e.ready && e.hasFrequency
       && Scheduler.FirstReady(s1.queue, e.now) < |s1.queue|
       && Wait(s1.spent, s1.percent, e.now, e.airtime) == 0
       && (e.channelBusy ==> s1.busySince.Some? && Unsigned(e.now - s1.busySince.value) >= 4_000)
  }

  /** The state a scheduler event pumps from, when it pumps. */
  function Pumped(s: Scheduler.State, ev: SP.Event): Option<(Scheduler.State, Scheduler.Env)> {
    match ev
    case Sends(p, key, priority, delay, op, e) =>
      if p.Valid() then Some((Scheduler.Accept(s, p, key, priority, delay, op, e.now), e)) else None
    case PumpTimer(e) => Some((s.(pump := None), e))
    case Reconfigures(percent, e) => Some((s.(percent := percent), e))
    case _ => None
  }

  predicate Asks(s: Scheduler.State, ev: SP.Event) {
    var from := Pumped(s, ev);
    from.Some? && Offers(from.value.0, from.value.1)
  }

  /** The answers the scheduler gets are the driver's. */
  predicate Consulted(sys: System, ev: SP.Event, size: nat, io: Radio.Io) {
    var from := Pumped(sys.d, ev);
    from.Some? ==>
      && from.value.1.ready == sys.r.healthy
      && from.value.1.hasFrequency == sys.r.params.HasFrequency()
      && from.value.1.accepts == Radio.Accepts(sys.r, size, io)
  }

  function Step(sys: System, ev: Event): System {
    match ev
    case Traffic(ev, size, io) =>
      System(SP.Step(sys.d, ev), if Asks(sys.d, ev) then Radio.Send(sys.r, size, io) else sys.r)
    case Hardware(hw, now, random) =>
      var r := Radio.Step(sys.r, hw);
      if |sys.r.done| < |r.done| then System(Scheduler.TxDone(sys.d, now, r.done[|sys.r.done|], random), r)
      else System(sys.d, r)
  }

  /** Only the scheduler sends, and the radio's reports come from the driver. */
  predicate Enabled(sys: System, now: nat, ev: Event) {
    && now <= At(ev)
    && match ev
       case Traffic(ev, size, io) =>
         !ev.Done? && SP.Enabled(sys.d, now, ev) && Consulted(sys, ev, size, io)
       case Hardware(hw, _, _) => !hw.Sends? && Radio.Enabled(sys.r, hw)
  }

  ghost predicate Linked(sys: System) {
    && SP.Sound(sys.d) && Radio.Supervised(sys.r)
    && (sys.d.inFlight.Some? <==> sys.r.txBusy)
    && |sys.d.log| == |sys.r.done| && sys.d.txTotal == sys.r.accepted
  }

  lemma PumpTakesOff(s: Scheduler.State, e: Scheduler.Env)
    ensures s.inFlight.None? ==> (Scheduler.Pump(s, e).inFlight.Some? <==> Offers(s, e) && e.accepts)
    ensures s.inFlight.Some? ==> Scheduler.Pump(s, e) == s
  {}

  /** A packet leaves exactly when the event asks the radio and it accepts. */
  lemma TakesOffWhenAsked(s: Scheduler.State, ev: SP.Event)
    requires !ev.Done?
    ensures var from := Pumped(s, ev);
            SP.Step(s, ev).inFlight.Some? <==>
              s.inFlight.Some? || (from.Some? && Offers(from.value.0, from.value.1) && from.value.1.accepts)
    ensures s.inFlight.Some? ==> !Asks(s, ev)
  {
    var from := Pumped(s, ev);
    if from.Some? {
      PumpTakesOff(from.value.0, from.value.1);
      assert SP.Step(s, ev) == Scheduler.Pump(from.value.0, from.value.1);
    }
  }

  lemma TrafficLinked(sys: System, now: nat, ev: SP.Event, size: nat, io: Radio.Io)
    requires Linked(sys) && Enabled(sys, now, Traffic(ev, size, io))
    ensures Linked(Step(sys, Traffic(ev, size, io)))
  {
    SP.StepCounts(sys.d, ev, now);
    SP.StepAccounts(sys.d, ev);
    var from := Pumped(sys.d, ev);
    TakesOffWhenAsked(sys.d, ev);
    assert Radio.Supervised(Radio.Send(sys.r, size, io)) by {
      Radio.StepSupervised(sys.r, Radio.Sends(size, io));
    }
    assert SP.Step(sys.d, ev).log == sys.d.log by {
      LogUntouched(sys.d, ev);
    }
  }

  lemma LogUntouched(s: Scheduler.State, ev: SP.Event)
    requires !ev.Done?
    ensures SP.Step(s, ev).log == s.log
  {
    var from := Pumped(s, ev);
    if from.Some? && from.value.0.inFlight.None? {
      SP.PumpCounts(from.value.0, from.value.1);
    }
  }

  /** The driver reports at most one transmission per event, and only while one
      is on the air. */
  lemma OneReportAtATime(r: Radio.State, hw: Radio.Event)
    requires Radio.Supervised(r) && Radio.Enabled(r, hw) && !hw.Sends?
    ensures var after := Radio.Step(r, hw);
            && after.accepted == r.accepted
            && (after.done == r.done || (r.txBusy && |after.done| == |r.done| + 1 && !after.txBusy))
  {
    Radio.StepSupervised(r, hw);
    Radio.ReportsOnce(r, hw);
  }

  lemma HardwareLinked(sys: System, now: nat, hw: Radio.Event, t: nat, random: Byte)
    requires Linked(sys) && Enabled(sys, now, Hardware(hw, t, random))
    ensures Linked(Step(sys, Hardware(hw, t, random)))
  {
    OneReportAtATime(sys.r, hw);
    Radio.StepSupervised(sys.r, hw);
    var r := Radio.Step(sys.r, hw);
    if |sys.r.done| < |r.done| {
      var done := SP.Done(t, r.done[|sys.r.done|], random);
      SP.StepCounts(sys.d, done, now);
      SP.StepAccounts(sys.d, done);
    }
  }

  function Run(sys: System, run: seq<Event>): System {
    if run == [] then sys else Step(Run(sys, run[..|run| - 1]), run[|run| - 1])
  }

  function TimeAfter(now: nat, run: seq<Event>): nat {
    if run == [] then now else At(run[|run| - 1])
  }

  predicate Legal(sys: System, now: nat, run: seq<Event>) {
    run != [] ==>
      var before := run[..|run| - 1];
      Legal(sys, now, before) && Enabled(Run(sys, before), TimeAfter(now, before), run[|run| - 1])
  }

  /** Over every run of the two together, a waiting packet always has a timer
      armed for it: the scheduler's pump, or the driver's transmit timeout. */
  lemma {:induction false} AlwaysATimer(sys: System, now: nat, run: seq<Event>)
    requires Linked(sys) && Legal(sys, now, run)
    ensures Linked(Run(sys, run))
    ensures Run(sys, run).d.queue != [] ==> Run(sys, run).d.pump.Some? || Run(sys, run).r.txTimeout
    decreases |run|
  {
    if run != [] {
      var before := run[..|run| - 1];
      AlwaysATimer(sys, now, before);
      match run[|run| - 1]
      case Traffic(ev, size, io) => TrafficLinked(Run(sys, before), TimeAfter(now, before), ev, size, io);
      case Hardware(hw, t, random) => HardwareLinked(Run(sys, before), TimeAfter(now, before), hw, t, random);
    }
  }

  lemma InitiallyLinked(limit: nat, percent: real, params: Radio.Params, retries: bool)
    ensures Linked(System(Scheduler.Initial(limit, percent), Radio.Initial(params, retries)))
  {
    SP.InitialIsSound(limit, percent);
  }
}
