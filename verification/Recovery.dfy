/**
 How long a recovery of the SX1262 can take (src/radio/sx1262.cpp): the driver's
 events with the times they happen at, and the deadline its polls are held to.
 */
module Recovery {
  import opened Clock
  import opened Bytes
  import opened Radio

  const RESET_HOLD := 2
  const SETTLE := 20
  const POLL := 10
  const PATIENCE := 1_000

  /** The most polls a recovery can re-arm: one every POLL ms from SETTLE on. */
  const MAX_POLLS := (PATIENCE - SETTLE) / POLL

  /** The driver, when its recovery timer is due, when polling gives up, and how
      often this recovery has polled without an answer. */
  datatype Watch = Watch(r: State, due: nat, deadline: nat, polls: nat)

  datatype Timed = Timed(ev: Event, at: nat)

  function After(w: Watch, t: Timed): Watch {
    var r := Step(w.r, t.ev);
    if t.ev.RecoveryTimer? then
      if r.recovery.None? then w.(r := r)
      else if w.r.recovery == Some(Releasing) then Watch(r, t.at + SETTLE, t.at + PATIENCE, 0)
      else Watch(r, t.at + POLL, w.deadline, w.polls + 1)
    else if w.r.recovery.None? && r.recovery.Some? then Watch(r, t.at + RESET_HOLD, 0, 0)
    else w.(r := r)
  }

  /** Time moves forward; the recovery timer fires from its due time on, less than
      2^31 ms late; and a poll is late by the wrapped reading of the deadline. */
  predicate Happens(w: Watch, now: nat, t: Timed) {
    && now <= t.at && Enabled(w.r, t.ev)
    && (t.ev.RecoveryTimer? ==>
          && w.due <= t.at < w.due + HALF - POLL
          && (w.r.recovery == Some(Polling) ==> (t.ev.io.late <==> Gap(t.at, w.deadline) >= 0)))
  }

  function RunTimed(w: Watch, run: seq<Timed>): Watch {
    if run == [] then w else After(RunTimed(w, run[..|run| - 1]), run[|run| - 1])
  }

  function TimeAfter(now: nat, run: seq<Timed>): nat {
    if run == [] then now else run[|run| - 1].at
  }

  predicate LegalTimed(w: Watch, now: nat, run: seq<Timed>) {
    run != [] ==>
      var before := run[..|run| - 1];
      LegalTimed(w, now, before) && Happens(RunTimed(w, before), TimeAfter(now, before), run[|run| - 1])
  }

  /** The next poll is due before one more interval past the deadline, and no
      earlier than the polls already made leave room for. */
  predicate Bounded(w: Watch) {
    w.r.recovery == Some(Polling) ==>
      && w.deadline - PATIENCE + SETTLE + POLL * w.polls <= w.due < w.deadline + POLL
      && w.polls <= MAX_POLLS
  }

  /** Nothing but its own timer moves a recovery on. */
  lemma OthersLeaveRecovery(r: State, ev: Event)
    requires Supervised(r) && Enabled(r, ev) && !ev.RecoveryTimer? && r.recovery.Some?
    ensures Step(r, ev).recovery == r.recovery
  {
    match ev
    case Begins(io) =>
    case SuperviseTimer(io) =>
    case TimeoutTimer(io) =>
    case Reconfigures(params, io) =>
    case Sends(size, io) =>
    case Interrupts(irq, io) =>
  }

  lemma OthersStartReleasing(r: State, ev: Event)
    requires Supervised(r) && Enabled(r, ev) && !ev.RecoveryTimer? && r.recovery.None?
    ensures Step(r, ev).recovery != Some(Polling)
  {
    match ev
    case Begins(io) =>
    case SuperviseTimer(io) =>
    case TimeoutTimer(io) =>
    case Reconfigures(params, io) =>
    case Sends(size, io) =>
    case Interrupts(irq, io) =>
  }

  lemma PollBounded(w: Watch, now: nat, t: Timed)
    requires Supervised(w.r) && Bounded(w) && Happens(w, now, t) && t.ev.RecoveryTimer?
    ensures Bounded(After(w, t))
    ensures w.r.recovery == Some(Polling) && t.at >= w.deadline ==> !After(w, t).r.recovering
  {
    var io := t.ev.io;
    var r := Step(w.r, t.ev);
    if w.r.recovery == Some(Polling) {
      GapIsDistance(t.at, w.deadline);
      assert r == PollResetBusy(w.r, io);
      if r.recovery.Some? {
        assert !io.late && t.at < w.deadline;
      }
    } else {
      assert w.r.recovery.value.Releasing? && r == ReleaseReset(w.r, io);
    }
  }

  lemma StepBounded(w: Watch, now: nat, t: Timed)
    requires Supervised(w.r) && Bounded(w) && Happens(w, now, t)
    ensures Bounded(After(w, t)) && Supervised(After(w, t).r)
  {
    StepSupervised(w.r, t.ev);
    if t.ev.RecoveryTimer? {
      PollBounded(w, now, t);
    } else if w.r.recovery.Some? {
      OthersLeaveRecovery(w.r, t.ev);
    } else {
      OthersStartReleasing(w.r, t.ev);
    }
  }

  /** No recovery goes on for ever, whatever the hardware answers: in every run it
      re-arms its poll at most 98 times and never for later than 10 ms past the
      deadline, and the first poll at or past the deadline ends it, up or down. */
  lemma {:induction false} RecoveryIsBounded(w: Watch, now: nat, run: seq<Timed>)
    requires Supervised(w.r) && Bounded(w) && LegalTimed(w, now, run)
    ensures Supervised(RunTimed(w, run).r) && Bounded(RunTimed(w, run))
    ensures run != [] ==>
              var before, last := RunTimed(w, run[..|run| - 1]), run[|run| - 1];
              before.r.recovery == Some(Polling) && last.ev.RecoveryTimer? && before.deadline <= last.at ==>
                !RunTimed(w, run).r.recovering
    decreases |run|
  {
    if run != [] {
      var before := run[..|run| - 1];
      RecoveryIsBounded(w, now, before);
      StepBounded(RunTimed(w, before), TimeAfter(now, before), run[|run| - 1]);
      if run[|run| - 1].ev.RecoveryTimer? {
        PollBounded(RunTimed(w, before), TimeAfter(now, before), run[|run| - 1]);
      }
    }
  }

  lemma InitiallyBounded(params: Params, retries: bool)
    ensures var w := Watch(Initial(params, retries), 0, 0, 0); Supervised(w.r) && Bounded(w)
  {}
}
