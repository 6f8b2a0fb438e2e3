/**
 Supervision of the SX1262 (src/radio/sx1262.cpp): bring-up, recovery in timed
 steps, retuning, transmit completion and timeout, and going down. Every SPI and
 GPIO access is an answer supplied from outside, good or bad.
 */
module Radio {
  import opened Bytes

  /** `air` stands for every setting the chip is programmed with besides the
      frequency; the duty cycle is not among them. */
  datatype Params = Params(freq: real, air: int, duty: real) {
    predicate HasFrequency() {
      freq > 0.0
    }
  }

  predicate SameOnChip(a: Params, b: Params) {
    a.(duty := b.duty) == b
  }

  datatype Stage = Releasing | Polling

  /** What the hardware answers during one event: line accesses, the BUSY level,
      whether the recovery deadline has passed, and whether each operation on
      the chip succeeded. `rxAgain` is a second return to receive mode. */
  datatype Io = Io(line: bool, busy: int, late: bool, standby: bool, responding: bool,
                   configure: bool, rx: bool, rxAgain: bool, command: bool)

  /** `chip` is what the chip is known to be programmed with. `accepted` and
      `done` are history: transmissions taken, and the airtimes reported. */
  datatype State = State(
    params: Params, retries: bool, begun: bool, closed: bool, healthy: bool, recovering: bool,
    txBusy: bool, retunePending: bool, txTimeout: bool, recovery: Option<Stage>, supervising: bool,
    chip: Option<Params>, accepted: nat, done: seq<nat>)

  function Initial(params: Params, retries: bool): State {
    State(params, retries, false, false, false, false, false, false, false, None, false, None, 0, [])
  }

  function GoDown(r: State): State {
    r.(healthy := false, retunePending := false, txBusy := false,
       txTimeout := if r.txBusy then false else r.txTimeout,
       done := if r.txBusy then r.done + [0] else r.done)
  }

  function RecoveryFailed(r: State): State {
    r.(recovering := false, recovery := None)
  }

  function StartRecovery(r: State, io: Io): State {
    if !r.begun || r.healthy || r.recovering || !r.params.HasFrequency() then r
    else if !io.line then RecoveryFailed(r.(recovering := true))
    else r.(recovering := true, chip := None, recovery := Some(Releasing))
  }

  function ReleaseReset(r: State, io: Io): State {
    var r1 := r.(recovery := None);
    if !r1.recovering then r1
    else if !io.line then RecoveryFailed(r1)
    else r1.(recovery := Some(Polling))
  }

  function Configured(r: State, ok: bool): State {
    r.(chip := if ok then Some(r.params) else None)
  }

  function PollAgain(r: State, io: Io): State {
    if io.late then RecoveryFailed(r) else r.(recovery := Some(Polling))
  }

  /** The chip has taken its first command: program it and receive. */
  function ComeUp(r: State, io: Io): State {
    if !io.responding then RecoveryFailed(r)
    else if !io.configure || !io.rx then RecoveryFailed(Configured(r, io.configure))
    else Configured(r, true).(healthy := true, recovering := false)
  }

  function PollResetBusy(r: State, io: Io): State {
    var r1 := r.(recovery := None);
    if !r1.recovering then r1
    else if io.busy < 0 then RecoveryFailed(r1)
    else if io.busy > 0 then PollAgain(r1, io)
    else if !io.standby then PollAgain(r1, io)
    else ComeUp(r1, io)
  }

  function Supervise(r: State, io: Io): State {
    if r.recovering then r
    else if r.healthy then (if r.txBusy || io.responding then r else GoDown(r))
    else StartRecovery(r, io)
  }

  /** Reset, probe, program and receive in one go, without retries. */
  function BringUp(r: State, io: Io): State {
    if !io.line || !io.standby || !io.responding then r.(chip := None)
    else if !io.configure || !io.rx then Configured(r, io.configure)
    else Configured(r, true).(healthy := true)
  }

  function Begin(r: State, io: Io): State {
    var r1 := r.(begun := true);
    if !io.command then r1
    else if r.retries then StartRecovery(r1.(supervising := true), io)
    else if !r.params.HasFrequency() then r1
    else BringUp(r1, io)
  }

  function Retune(r: State, io: Io): State {
    var r1 := Configured(r.(retunePending := false), io.configure);
    if !io.configure || !io.rx then GoDown(r1) else r1
  }

  /** A radio that was idle for want of a frequency has one now. */
  function Wake(r: State, io: Io): State {
    if r.retries then StartRecovery(r, io) else BringUp(r, io)
  }

  /** New parameters reach the chip now, after the transmission under way, or
      with the recovery that comes anyway; `had` is whether there was a frequency. */
  function Adopt(r: State, had: bool, io: Io): State {
    if r.healthy then (if r.txBusy then r.(retunePending := true) else Retune(r, io))
    else if had then r
    else Wake(r, io)
  }

  function Reconfigure(r: State, params: Params, io: Io): State {
    var r1 := r.(params := params);
    if SameOnChip(r.params, params) || !r.begun then r1 else Adopt(r1, r.params.HasFrequency(), io)
  }

  function AfterTx(r: State, io: Io): State {
    if r.retunePending then Retune(r, io) else if !io.rx then GoDown(r) else r
  }

  predicate Accepts(r: State, size: nat, io: Io) {
    r.healthy && !r.txBusy && 0 < size <= 255 && io.command
  }

  function Send(r: State, size: nat, io: Io): State {
    if !r.healthy || r.txBusy || size == 0 || size > 255 then r
    else if !io.command then GoDown(r)
    else r.(txBusy := true, txTimeout := true, accepted := r.accepted + 1)
  }

  function Reported(r: State, airtime: nat): State {
    r.(done := r.done + [airtime])
  }

  function OffAir(r: State): State {
    r.(txBusy := false, txTimeout := false)
  }

  /** The transmission is over, one way or the other. */
  function Finish(r: State, airtime: nat, io: Io): State {
    Reported(AfterTx(OffAir(r), io), airtime)
  }

  function OnTxTimeout(r: State, io: Io): State {
    if !r.txBusy then r.(txTimeout := false) else Finish(r, 0, io)
  }

  datatype Irq = Irq(drained: bool, read: bool, any: bool, cleared: bool, txDone: bool, failed: bool,
                     rxDone: bool, rxGood: bool, airtime: nat)

  function OnIrq(r: State, irq: Irq, io: Io): State {
    if !irq.drained || !r.healthy then r
    else if !irq.read then GoDown(r)
    else if !irq.any then r
    else if !irq.cleared then GoDown(r)
    else
      var r1 := if irq.txDone && r.txBusy then Finish(r, irq.airtime, io) else r;
      if !r1.healthy then r1
      else if irq.failed then (if io.rxAgain then r1 else GoDown(r1))
      else if irq.rxDone && !irq.rxGood then GoDown(r1)
      else r1
  }

  function Shutdown(r: State): State {
    r.(closed := true, supervising := false, recovery := None, txTimeout := false, recovering := false,
       txBusy := false, retunePending := false, healthy := false)
  }

  // ---- What every run keeps --------------------------------------------

  datatype Event =
    | Begins(io: Io) | RecoveryTimer(io: Io) | SuperviseTimer(io: Io) | TimeoutTimer(io: Io)
    | Reconfigures(params: Params, io: Io) | Sends(size: nat, io: Io) | Interrupts(irq: Irq, io: Io)

  function Step(r: State, ev: Event): State {
    match ev
    case Begins(io) => Begin(r, io)
    case RecoveryTimer(io) => if r.recovery == Some(Releasing) then ReleaseReset(r, io) else PollResetBusy(r, io)
    case SuperviseTimer(io) => Supervise(r, io)
    case TimeoutTimer(io) => OnTxTimeout(r, io)
    case Reconfigures(params, io) => Reconfigure(r, params, io)
    case Sends(size, io) => Send(r, size, io)
    case Interrupts(irq, io) => OnIrq(r, irq, io)
  }

  /** Begun once, before anything else but reconfiguring; timers fire only while
      armed. */
  predicate Enabled(r: State, ev: Event) {
    match ev
    case Begins(_) => !r.begun
    case RecoveryTimer(_) => r.recovery.Some?
    case SuperviseTimer(_) => r.supervising
    case TimeoutTimer(_) => r.txTimeout
    case _ => true
  }

  function Run(r: State, run: seq<Event>): State {
    if run == [] then r else Step(Run(r, run[..|run| - 1]), run[|run| - 1])
  }

  predicate Legal(r: State, run: seq<Event>) {
    run != [] ==> Legal(r, run[..|run| - 1]) && Enabled(Run(r, run[..|run| - 1]), run[|run| - 1])
  }

  predicate Supervised(r: State) {
    // A transmission in progress is policed, and only there is a retune put off.
    && (r.txBusy <==> r.txTimeout) && (r.txBusy ==> r.healthy) && (r.retunePending ==> r.txBusy)
    // A recovery in progress excludes being up, has its next step armed and takes
    // nothing for programmed.
    && (r.recovering <==> r.recovery.Some?) && (r.recovering ==> !r.healthy)
    && (r.recovering ==> r.chip.None?)
    && (r.healthy || r.recovering ==> r.begun) && (r.recovering || r.supervising ==> r.retries)
    // Up means programmed with the current parameters, unless a retune waits.
    && (r.healthy && !r.retunePending ==> r.chip.Some? && SameOnChip(r.chip.value, r.params))
    // Every transmission taken is reported done once, or still on the air.
    && r.accepted == |r.done| + if r.txBusy then 1 else 0
  }

  /** Once shut down, no timer is left to fire, nothing is taken for sending and no
      interrupt is read. */
  lemma ShutIsQuiet(r: State, ev: Event)
    requires r.begun && Enabled(Shutdown(r), ev) && !ev.Reconfigures?
    ensures (ev.Sends? || ev.Interrupts?) && Step(Shutdown(r), ev) == Shutdown(r)
    ensures Shutdown(r).closed && Shutdown(r).done == r.done && Shutdown(r).accepted == r.accepted
  {}

  lemma FinishSupervised(r: State, airtime: nat, io: Io)
    requires Supervised(r) && r.txBusy
    ensures Supervised(Finish(r, airtime, io))
  {}

  lemma TimeoutSupervised(r: State, io: Io)
    requires Supervised(r)
    ensures Supervised(OnTxTimeout(r, io))
  {
    if r.txBusy {
      FinishSupervised(r, 0, io);
    }
  }

  lemma IrqSupervised(r: State, irq: Irq, io: Io)
    requires Supervised(r)
    ensures Supervised(OnIrq(r, irq, io))
  {
    if r.txBusy {
      FinishSupervised(r, irq.airtime, io);
    }
  }

  lemma RecoverySupervised(r: State, io: Io)
    requires Supervised(r)
    ensures r.recovery == Some(Releasing) ==> Supervised(ReleaseReset(r, io))
    ensures r.recovery == Some(Polling) ==> Supervised(PollResetBusy(r, io))
    ensures r.supervising ==> Supervised(Supervise(r, io))
  {}

  lemma RetuneSupervised(r: State, params: Params, io: Io)
    requires Supervised(r) && r.healthy && !r.txBusy
    ensures Supervised(Retune(r.(params := params), io))
  {}

  lemma BringUpSupervised(r: State, io: Io)
    requires Supervised(r) && r.begun && !r.healthy && !r.recovering
    ensures Supervised(BringUp(r, io))
  {}

  lemma ReconfigureSupervised(r: State, params: Params, io: Io)
    requires Supervised(r)
    ensures Supervised(Reconfigure(r, params, io))
  {
    var r1 := r.(params := params);
    if r.begun && !SameOnChip(r.params, params) {
      if r.healthy && !r.txBusy {
        RetuneSupervised(r, params, io);
      } else if !r.healthy {
        assert Supervised(r1);
        if !r.recovering {
          BringUpSupervised(r1, io);
        }
      }
    }
  }

  lemma SendSupervised(r: State, size: nat, io: Io)
    requires Supervised(r)
    ensures Supervised(Send(r, size, io))
  {}

  lemma BeginSupervised(r: State, io: Io)
    requires Supervised(r) && !r.begun
    ensures Supervised(Begin(r, io))
  {}

  lemma StepSupervised(r: State, ev: Event)
    requires Supervised(r) && Enabled(r, ev)
    ensures Supervised(Step(r, ev))
  {
    match ev
    case Begins(io) => BeginSupervised(r, io);
    case RecoveryTimer(io) => RecoverySupervised(r, io);
    case SuperviseTimer(io) => RecoverySupervised(r, io);
    case TimeoutTimer(io) => TimeoutSupervised(r, io);
    case Reconfigures(params, io) => ReconfigureSupervised(r, params, io);
    case Sends(size, io) => SendSupervised(r, size, io);
    case Interrupts(irq, io) => IrqSupervised(r, irq, io);
  }

  /** No event but a send takes a transmission on, and none reports more than
      the one under way. */
  lemma ReportsOnce(r: State, ev: Event)
    requires Supervised(r) && Enabled(r, ev) && !ev.Sends?
    ensures Step(r, ev).accepted == r.accepted
    ensures Step(r, ev).done == r.done || (r.txBusy && |Step(r, ev).done| == |r.done| + 1)
  {
    match ev
    case Begins(io) =>
    case RecoveryTimer(io) =>
    case SuperviseTimer(io) =>
    case TimeoutTimer(io) => FinishReportsOnce(r, 0, io);
    case Reconfigures(params, io) => ReconfigureReportsOnce(r, params, io);
    case Interrupts(irq, io) => IrqReportsOnce(r, irq, io);
  }

  lemma ReconfigureReportsOnce(r: State, params: Params, io: Io)
    requires Supervised(r)
    ensures Reconfigure(r, params, io).accepted == r.accepted && Reconfigure(r, params, io).done == r.done
  {
    WakeReportsNothing(r.(params := params), io);
    if !r.txBusy {
      RetuneReportsNothing(r.(params := params), io);
    }
  }

  lemma WakeReportsNothing(r: State, io: Io)
    ensures Wake(r, io).accepted == r.accepted && Wake(r, io).done == r.done
  {
    RecoveryReportsNothing(r, io);
    BringUpReportsNothing(r, io);
  }

  lemma RecoveryReportsNothing(r: State, io: Io)
    ensures StartRecovery(r, io).accepted == r.accepted && StartRecovery(r, io).done == r.done
  {}

  lemma BringUpReportsNothing(r: State, io: Io)
    ensures BringUp(r, io).accepted == r.accepted && BringUp(r, io).done == r.done
  {
    if io.line && io.standby && io.responding {
      assert Configured(r, io.configure).done == r.done;
    }
  }

  lemma RetuneReportsNothing(r: State, io: Io)
    requires !r.txBusy
    ensures Retune(r, io).accepted == r.accepted && Retune(r, io).done == r.done
  {}

  lemma IrqReportsOnce(r: State, irq: Irq, io: Io)
    requires Supervised(r)
    ensures OnIrq(r, irq, io).accepted == r.accepted
    ensures OnIrq(r, irq, io).done == r.done || (r.txBusy && |OnIrq(r, irq, io).done| == |r.done| + 1)
  {
    if r.txBusy {
      FinishReportsOnce(r, irq.airtime, io);
    }
  }

  lemma FinishReportsOnce(r: State, airtime: nat, io: Io)
    requires r.txBusy
    ensures Finish(r, airtime, io).accepted == r.accepted
    ensures Finish(r, airtime, io).done == r.done + [airtime] && !Finish(r, airtime, io).txBusy
  {}

  /** The supervision invariant holds in every reachable state, whatever the
      hardware answers. */
  lemma {:induction false} AlwaysSupervised(params: Params, retries: bool, run: seq<Event>)
    requires Legal(Initial(params, retries), run)
    ensures Supervised(Run(Initial(params, retries), run))
    decreases |run|
  {
    if run != [] {
      AlwaysSupervised(params, retries, run[..|run| - 1]);
      StepSupervised(Run(Initial(params, retries), run[..|run| - 1]), run[|run| - 1]);
    }
  }

  /** Never stuck busy: whichever of its end or its armed timeout comes, a
      transmission is reported done, once, and the radio is free. */
  lemma TransmissionEnds(r: State, irq: Irq, io: Io)
    requires Supervised(r) && r.txBusy
    requires irq.drained && irq.read && irq.any && irq.cleared && irq.txDone
    ensures !OnTxTimeout(r, io).txBusy && OnTxTimeout(r, io).done == r.done + [0]
    ensures !OnIrq(r, irq, io).txBusy && OnIrq(r, irq, io).done == r.done + [irq.airtime]
    ensures !GoDown(r).txBusy && GoDown(r).done == r.done + [0]
  {}

  /** A chip that answers comes back: from down, with a frequency and retries,
      a supervision tick and the two recovery steps it arms bring it up. */
  lemma GoodHardwareRecovers(r: State, io: Io)
    requires Supervised(r) && r.begun && r.supervising && !r.healthy && !r.recovering && r.params.HasFrequency()
    requires io.line && io.busy == 0 && io.standby && io.responding && io.configure && io.rx
    ensures var run := [SuperviseTimer(io), RecoveryTimer(io), RecoveryTimer(io)];
            Legal(r, run) && Run(r, run).healthy && Run(r, run).chip == Some(r.params)
  {
    var a, b := SuperviseTimer(io), RecoveryTimer(io);
    var run := [a, b, b];
    assert run[..2] == [a, b] && [a, b][..1] == [a] && [a][..0] == [];
    assert Run(r, [a]) == Step(r, a) && Legal(r, [a][..0]) && Legal(r, [a]) && Legal(r, [a, b]);
    assert Run(r, [a, b]) == Step(Step(r, a), b);
    assert Run(r, run) == Step(Step(Step(r, a), b), b);
  }

  // ---- Going down --------------------------------------------------------

  /** The return to receive mode after a transmission does not succeed. */
  predicate ReturnFails(r: State, io: Io) {
    !io.rx || (r.retunePending && !io.configure)
  }

  /** The event makes the radio, up as it is, do something that fails: the probe of
      an idle tick, the commands of a send, reading or clearing an interrupt, going
      back to receive mode, reading out a packet or taking on new parameters. */
  predicate Fails(r: State, ev: Event) {
    match ev
    case SuperviseTimer(io) => !r.txBusy && !io.responding
    case Sends(size, io) => !r.txBusy && 1 <= size <= 255 && !io.command
    case TimeoutTimer(io) => r.txBusy && ReturnFails(r, io)
    case Interrupts(irq, io) =>
      irq.drained &&
      (|| !irq.read
       || (irq.any && (|| !irq.cleared
                       || (irq.txDone && r.txBusy && ReturnFails(r, io))
                       || (irq.failed && !io.rxAgain)
                       || (irq.rxDone && !irq.failed && !irq.rxGood))))
    case Reconfigures(params, io) =>
      !r.txBusy && params.(duty := r.params.duty) != r.params && !(io.configure && io.rx)
    case Begins(_) => false
    case RecoveryTimer(_) => false
  }

  /** A radio that is up goes down exactly when something it does fails, and stays
      up through everything else. */
  lemma {:induction false} DownIffFails(r: State, ev: Event)
    requires Supervised(r) && Enabled(r, ev) && r.healthy
    ensures Step(r, ev).healthy <==> !Fails(r, ev)
  {
    match ev
    case Begins(io) =>
    case RecoveryTimer(io) =>
    case SuperviseTimer(io) =>
    case TimeoutTimer(io) => FinishDownIff(r, 0, io);
    case Reconfigures(params, io) => ReconfigureDownIff(r, params, io);
    case Sends(size, io) =>
    case Interrupts(irq, io) =>
      if r.txBusy {
        FinishDownIff(r, irq.airtime, io);
      }
  }

  lemma FinishDownIff(r: State, airtime: nat, io: Io)
    requires Supervised(r) && r.txBusy
    ensures Finish(r, airtime, io).healthy <==> !ReturnFails(r, io)
    ensures !Finish(r, airtime, io).txBusy
  {}

  lemma ReconfigureDownIff(r: State, params: Params, io: Io)
    requires Supervised(r) && r.healthy
    ensures Reconfigure(r, params, io).healthy <==> !Fails(r, Reconfigures(params, io))
  {
    assert SameOnChip(r.params, params) <==> params.(duty := r.params.duty) == r.params;
  }

  predicate AllGood(io: Io) {
    io.line && io.standby && io.responding && io.configure && io.rx
  }

  predicate Changes(r: State, params: Params) {
    params.(duty := r.params.duty) != r.params
  }

  /** The event brings the radio up: the poll that finds it ready, or the one try of
      a radio without retries, at its start or with its first frequency. */
  predicate ComesUp(r: State, ev: Event) {
    match ev
    case RecoveryTimer(io) =>
      r.recovery == Some(Polling) && io.busy == 0 && io.standby && io.responding && io.configure && io.rx
    case Begins(io) => !r.retries && io.command && r.params.HasFrequency() && AllGood(io)
    case Reconfigures(params, io) =>
      r.begun && !r.retries && !r.params.HasFrequency() && Changes(r, params) && AllGood(io)
    case _ => false
  }

  /** A radio that is down comes up in these ways and no other. */
  lemma {:induction false} UpIff(r: State, ev: Event)
    requires Supervised(r) && Enabled(r, ev) && !r.healthy
    ensures Step(r, ev).healthy <==> ComesUp(r, ev)
  {
    match ev
    case Begins(io) =>
    case RecoveryTimer(io) => assert r.recovery.value == Releasing || r.recovery.value == Polling;
    case SuperviseTimer(io) =>
    case TimeoutTimer(io) =>
    case Reconfigures(params, io) => assert SameOnChip(r.params, params) <==> !Changes(r, params);
    case Sends(size, io) =>
    case Interrupts(irq, io) =>
  }

  /** The event leaves a recovery under way: one begins, at the start, at a tick that
      finds the radio down or with the first frequency, or one goes on, from the
      reset to polling or to one more poll before the deadline. */
  predicate Recovers(r: State, ev: Event) {
    match ev
    case Begins(io) => r.retries && io.command && r.params.HasFrequency() && io.line
    case SuperviseTimer(io) => r.recovering || (r.begun && !r.healthy && r.params.HasFrequency() && io.line)
    case Reconfigures(params, io) =>
      r.recovering || (&& r.begun && r.retries && !r.healthy && !r.params.HasFrequency() && Changes(r, params)
                       && params.HasFrequency() && io.line)
    case RecoveryTimer(io) =>
      if r.recovery == Some(Releasing) then io.line
      else !io.late && (io.busy > 0 || (io.busy == 0 && !io.standby))
    case _ => r.recovering
  }

  lemma {:induction false} RecoveringIff(r: State, ev: Event)
    requires Supervised(r) && Enabled(r, ev)
    ensures Step(r, ev).recovering <==> Recovers(r, ev)
  {
    match ev
    case Begins(io) =>
    case RecoveryTimer(io) => assert r.recovery.value == Releasing || r.recovery.value == Polling;
    case SuperviseTimer(io) =>
    case TimeoutTimer(io) =>
    case Reconfigures(params, io) => assert SameOnChip(r.params, params) <==> !Changes(r, params);
    case Sends(size, io) =>
    case Interrupts(irq, io) =>
  }

  /** New parameters are taken at once, and are on the chip as soon as the radio is
      up and idle: now, or when the transmission under way is over. */
  lemma {:induction false} ParametersReachTheChip(r: State, params: Params, io: Io, airtime: nat, later: Io)
    requires Supervised(r) && r.healthy
    ensures var after := Step(r, Reconfigures(params, io));
            && after.params == params && after.txBusy == (r.txBusy && after.healthy)
            && (after.healthy && !after.txBusy ==> after.chip.Some? && SameOnChip(after.chip.value, params))
            && (after.txBusy ==>
                  var done := Finish(after, airtime, later);
                  done.params == params && (done.healthy ==> done.chip.Some? && SameOnChip(done.chip.value, params)))
  {
    StepSupervised(r, Reconfigures(params, io));
    var after := Step(r, Reconfigures(params, io));
    if after.txBusy {
      FinishSupervised(after, airtime, later);
    }
  }

  /** A chip that is lost and comes back is up again: down at the first tick that
      finds it gone, and programmed again after the next tick that finds it there
      and the two recovery steps that tick arms. */
  lemma {:induction false} LostChipComesBack(r: State, gone: Io, back: Io)
    requires Supervised(r) && r.supervising && r.healthy && !r.txBusy && r.params.HasFrequency() && !gone.responding
    requires back.line && back.busy == 0 && back.standby && back.responding && back.configure && back.rx
    ensures var lost := Step(r, SuperviseTimer(gone));
            var run := [SuperviseTimer(back), RecoveryTimer(back), RecoveryTimer(back)];
            && Enabled(r, SuperviseTimer(gone)) && !lost.healthy
            && Legal(lost, run) && Run(lost, run).healthy && Run(lost, run).chip == Some(r.params)
  {
    StepSupervised(r, SuperviseTimer(gone));
    DownIffFails(r, SuperviseTimer(gone));
    GoodHardwareRecovers(Step(r, SuperviseTimer(gone)), back);
  }

  // ---- The driver itself -----------------------------------------------

  class Sx1262 {
    var params: Params
    const retries: bool
    var begun: bool
    var closed: bool
    var healthy: bool
    var recovering: bool
    var txBusy: bool
    var retunePending: bool
    var txTimeout: bool
    var recovery: Option<Stage>
    var supervising: bool
    ghost var chip: Option<Params>
    ghost var accepted: nat
    ghost var done: seq<nat>

    ghost function Model(): State
      reads this
    {
      State(params, retries, begun, closed, healthy, recovering, txBusy, retunePending,
            txTimeout, recovery, supervising, chip, accepted, done)
    }

    ghost predicate Valid()
      reads this
    {
      Supervised(Model())
    }

    constructor (params: Params, retries: bool)
      ensures Valid() && Model() == Initial(params, retries)
    {
      this.params, this.retries := params, retries;
      begun, closed, healthy, recovering, txBusy, retunePending := false, false, false, false, false, false;
      txTimeout, recovery, supervising := false, None, false;
      chip, accepted, done := None, 0, [];
    }

    /** A transmission under way is reported done with no airtime. */
    method TakeDown()
      modifies this
      ensures Model() == GoDown(old(Model()))
    {
      healthy := false;
      retunePending := false;
      if txBusy {
        txBusy := false;
        txTimeout := false;
        done := done + [0];
      }
    }

    method Program(io: Io) returns (ok: bool)
      modifies this`chip
      ensures ok == io.configure && Model() == Configured(old(Model()), io.configure)
    {
      chip := if io.configure then Some(params) else None;
      ok := io.configure;
    }

    method FailRecovery()
      modifies this`recovering, this`recovery
      ensures Model() == RecoveryFailed(old(Model()))
    {
      recovering := false;
      recovery := None;
    }

    method Recover(io: Io)
      modifies this
      ensures Model() == StartRecovery(old(Model()), io)
    {
      if !begun || healthy || recovering || !params.HasFrequency() {
        return;
      }
      recovering := true;
      if !io.line {
        FailRecovery();
        return;
      }
      chip := None;
      recovery := Some(Releasing);
    }

    method Release(io: Io)
      requires Valid() && recovery == Some(Releasing)
      modifies this
      ensures Valid() && Model() == ReleaseReset(old(Model()), io)
    {
      RecoverySupervised(Model(), io);
      recovery := None;
      if !recovering {
        return;
      }
      if !io.line {
        FailRecovery();
        return;
      }
      recovery := Some(Polling);
    }

    method Poll(io: Io)
      requires Valid() && recovery == Some(Polling)
      modifies this
      ensures Valid() && Model() == PollResetBusy(old(Model()), io)
    {
      RecoverySupervised(Model(), io);
      recovery := None;
      if !recovering {
        return;
      }
      if io.busy < 0 {
        FailRecovery();
        return;
      }
      if io.busy > 0 || !io.standby {
        if io.late {
          FailRecovery();
        } else {
          recovery := Some(Polling);
        }
        return;
      }
      FinishRecovery(io);
    }

    method FinishRecovery(io: Io)
      modifies this
      ensures Model() == ComeUp(old(Model()), io)
    {
      if !io.responding {
        FailRecovery();
        return;
      }
      var programmed := Program(io);
      if !programmed || !io.rx {
        FailRecovery();
        return;
      }
      healthy := true;
      recovering := false;
    }

    method Tick(io: Io)
      requires Valid() && supervising
      modifies this
      ensures Valid() && Model() == Supervise(old(Model()), io)
    {
      RecoverySupervised(Model(), io);
      if recovering {
        return;
      }
      if healthy {
        if txBusy || io.responding {
          return;
        }
        TakeDown();
        return;
      }
      Recover(io);
    }

    method BringUpNow(io: Io) returns (ok: bool)
      modifies this
      ensures Model() == BringUp(old(Model()), io)
      ensures ok == (io.line && io.standby && io.responding && io.configure && io.rx)
    {
      if !io.line || !io.standby || !io.responding {
        chip := None;
        return false;
      }
      ok := Program(io);
      ok := ok && io.rx;
      if ok {
        healthy := true;
      }
    }

    method Start(io: Io) returns (ok: bool)
      requires Valid() && !begun
      modifies this
      ensures Valid() && Model() == Begin(old(Model()), io)
      ensures ok <==> io.command && (retries || !params.HasFrequency() || healthy)
    {
      BeginSupervised(Model(), io);
      begun := true;
      if !io.command {
        return false;
      }
      if !retries {
        if !params.HasFrequency() {
          return true;
        }
        ok := BringUpNow(io);
        return;
      }
      supervising := true;
      Recover(io);
      return true;
    }

    method RetuneNow(io: Io)
      modifies this
      ensures Model() == Retune(old(Model()), io)
    {
      retunePending := false;
      var programmed := Program(io);
      if !programmed {
        TakeDown();
        return;
      }
      if !io.rx {
        TakeDown();
      }
    }

    method SetParams(next: Params, io: Io)
      requires Valid()
      modifies this
      ensures Valid() && Model() == Reconfigure(old(Model()), next, io)
    {
      ReconfigureSupervised(Model(), next, io);
      var same, had := SameOnChip(params, next), params.HasFrequency();
      params := next;
      if !same && begun {
        AdoptNow(had, io);
      }
    }

    method AdoptNow(had: bool, io: Io)
      modifies this
      ensures Model() == Adopt(old(Model()), had, io)
    {
      if healthy {
        if txBusy {
          retunePending := true;
          return;
        }
        RetuneNow(io);
        return;
      }
      if !had {
        WakeNow(io);
      }
    }

    method WakeNow(io: Io)
      modifies this
      ensures Model() == Wake(old(Model()), io)
    {
      if retries {
        Recover(io);
      } else {
        var ok := BringUpNow(io);
      }
    }

    method BackToReceive(io: Io)
      modifies this
      ensures Model() == AfterTx(old(Model()), io)
    {
      if retunePending {
        RetuneNow(io);
      } else if !io.rx {
        TakeDown();
      }
    }

    method Transmit(size: nat, io: Io) returns (ok: bool)
      requires Valid()
      modifies this
      ensures Valid() && Model() == Send(old(Model()), size, io)
      ensures ok == Accepts(old(Model()), size, io)
    {
      SendSupervised(Model(), size, io);
      if !healthy || txBusy {
        return false;
      }
      if size == 0 || size > 255 {
        return false;
      }
      if !io.command {
        TakeDown();
        return false;
      }
      txBusy := true;
      txTimeout := true;
      accepted := accepted + 1;
      return true;
    }

    method Report(airtime: nat)
      modifies this`done
      ensures Model() == Reported(old(Model()), airtime)
    {
      done := done + [airtime];
    }

    method LeaveAir()
      modifies this`txBusy, this`txTimeout
      ensures Model() == OffAir(old(Model()))
    {
      txBusy := false;
      txTimeout := false;
    }

    method Complete(airtime: nat, io: Io)
      modifies this
      ensures Model() == Finish(old(Model()), airtime, io)
    {
      LeaveAir();
      BackToReceive(io);
      Report(airtime);
    }

    method TxTimedOut(io: Io)
      requires Valid()
      modifies this
      ensures Valid() && Model() == OnTxTimeout(old(Model()), io)
    {
      TimeoutSupervised(Model(), io);
      if !txBusy {
        txTimeout := false;
        return;
      }
      Complete(0, io);
    }

    method HandleIrq(irq: Irq, io: Io)
      requires Valid()
      modifies this
      ensures Valid() && Model() == OnIrq(old(Model()), irq, io)
    {
      IrqSupervised(Model(), irq, io);
      if !irq.drained || !healthy {
        return;
      }
      if !irq.read {
        TakeDown();
        return;
      }
      if !irq.any {
        return;
      }
      if !irq.cleared {
        TakeDown();
        return;
      }
      if irq.txDone {
        if txBusy {
          Complete(irq.airtime, io);
        }
        if !healthy {
          return;
        }
      }
      if irq.failed {
        if !io.rxAgain {
          TakeDown();
        }
        return;
      }
      if irq.rxDone && !irq.rxGood {
        TakeDown();
      }
    }

    method Close()
      requires Valid()
      modifies this
      ensures Model() == Shutdown(old(Model()))
      ensures !old(txBusy) ==> Valid()
    {
      closed, supervising, recovery, txTimeout := true, false, None, false;
      recovering, txBusy, retunePending, healthy := false, false, false, false;
    }
  }
}
