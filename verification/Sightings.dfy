/**
 Packets recognised (src/mesh/dispatcher.cpp): the table of packets seen is fed by
 what is sent as well as by what is heard, so a node takes its own packet for a
 repeat when a neighbour relays it back.
 */
module Sightings {
  import opened Clock
  import opened Bytes
  import opened Packets
  import opened Scheduler
  import opened SchedulerProofs
  import DedupTable
  import Sender

  /** Whether an event sends or hears the packet with the key. */
  predicate Notices(ev: Event, key: int) {
    (ev.Sends? && ev.packet.Valid() && ev.key == key) || (ev.Hears? && ev.key == key)
  }

  /** When each key was last sent or heard. */
  function Last(run: seq<Event>): map<int, nat> {
    if run == [] then map[] else
      var ev := run[|run| - 1];
      var before := Last(run[..|run| - 1]);
      if (ev.Sends? && ev.packet.Valid()) || ev.Hears? then before[ev.key := At(ev)] else before
  }

  function LastSweep(now: nat, run: seq<Event>): nat {
    if run == [] then now
    else if run[|run| - 1].Sweeps? then At(run[|run| - 1])
    else LastSweep(now, run[..|run| - 1])
  }

  /** Time moves on, and no event is 2^31 ms or more after the sweep before it. */
  predicate Swept(now: nat, run: seq<Event>) {
    run != [] ==>
      var before := run[..|run| - 1];
      && Swept(now, before) && TimeAfter(now, before) <= At(run[|run| - 1])
      && At(run[|run| - 1]) - LastSweep(now, before) < HALF
  }

  lemma PumpLeavesSeen(s: State, e: Env)
    ensures Pump(s, e).seen == s.seen
  {}

  /** What an event does to the table is what it does to the history. */
  lemma {:induction false} StepSights(s: State, ev: Event)
    ensures Step(s, ev).seen ==
            if (ev.Sends? && ev.packet.Valid()) || ev.Hears?
            then DedupTable.Sight(s.seen, ev.key, At(ev), DedupTable.SEEN, 0)
            else if ev.Sweeps? then DedupTable.Expire(s.seen, At(ev)) else s.seen
  {
    match ev
    case Sends(p, key, priority, delay, op, e) =>
      if p.Valid() {
        PumpLeavesSeen(Accept(s, p, key, priority, delay, op, e.now), e);
      }
    case PumpTimer(e) => PumpLeavesSeen(s.(pump := None), e);
    case Reconfigures(percent, e) => PumpLeavesSeen(s.(percent := percent), e);
    case _ =>
  }

  lemma {:induction false} RunTracks(s: State, now: nat, run: seq<Event>)
    requires s.seen == map[] && Swept(now, run)
    ensures DedupTable.Tracks(Run(s, run).seen, Last(run), 60_000, TimeAfter(now, run), LastSweep(now, run))
    decreases |run|
  {
    if run != [] {
      var before, ev := run[..|run| - 1], run[|run| - 1];
      var t, last := Run(s, before).seen, Last(before);
      var earlier, swept := TimeAfter(now, before), LastSweep(now, before);
      RunTracks(s, now, before);
      StepSights(Run(s, before), ev);
      DedupTable.LiveIsRecent(t, last, 60_000, earlier, swept, At(ev));
      if (ev.Sends? && ev.packet.Valid()) || ev.Hears? {
        DedupTable.SightTracks(t, last, DedupTable.SEEN, earlier, swept, ev.key, At(ev), 0);
      }
    }
  }

  predicate NoticedWithin(run: seq<Event>, key: int, at: nat, span: nat) {
    exists i :: 0 <= i < |run| && Notices(run[i], key) && at - At(run[i]) < span
  }

  /** The history is the run's. */
  lemma {:induction false} LastIsInRun(now: nat, run: seq<Event>, key: int, at: nat, span: nat)
    requires Swept(now, run) && TimeAfter(now, run) <= at
    ensures DedupTable.Recent(Last(run), key, at, span) <==> NoticedWithin(run, key, at, span)
    decreases |run|
  {
    if run != [] {
      var before, ev := run[..|run| - 1], run[|run| - 1];
      LastIsInRun(now, before, key, at, span);
      if Notices(ev, key) {
        TimesRise(now, run);
        if at - At(ev) < span {
          assert Notices(run[|run| - 1], key);
        }
      } else {
        assert forall i :: 0 <= i < |run| && Notices(run[i], key) ==> i < |before| && run[i] == before[i];
        assert forall i :: 0 <= i < |before| && Notices(before[i], key) ==> before[i] == run[i];
      }
    }
  }

  lemma {:induction false} TimesRise(now: nat, run: seq<Event>)
    requires Swept(now, run)
    ensures forall i :: 0 <= i < |run| ==> At(run[i]) <= TimeAfter(now, run)
    decreases |run|
  {
    if run != [] {
      var before := run[..|run| - 1];
      TimesRise(now, before);
      forall i | 0 <= i < |run| ensures At(run[i]) <= TimeAfter(now, run) {
        if i < |before| {
          assert before[i] == run[i];
        }
      }
    }
  }

  /** Over every run from an empty table: a packet is taken for a repeat exactly
      when it was sent or heard less than sixty seconds before. */
  lemma {:induction false} RepeatIff(s: State, now: nat, run: seq<Event>, key: int, at: nat)
    requires s.seen == map[] && Swept(now, run)
    requires TimeAfter(now, run) <= at < LastSweep(now, run) + HALF
    ensures DedupTable.Live(Run(s, run).seen, key, at) <==> NoticedWithin(run, key, at, 60_000)
  {
    RunTracks(s, now, run);
    DedupTable.LiveIsRecent(Run(s, run).seen, Last(run), 60_000, TimeAfter(now, run), LastSweep(now, run), at);
    LastIsInRun(now, run, key, at, 60_000);
  }

  /** The author knows its own attempt when a neighbour relays it back, for sixty
      seconds, whatever hops the copy has gathered. */
  lemma {:induction false} OwnAttemptIsKnown(st: Sender.Stack, c: Sender.Crypto, id: nat, to: Sender.Contact, flood: bool, e: Env,
                                             heard: Packet, at: nat)
    requires var i := Sender.Index(st.s.pending, id);
             && i < |st.s.pending| && Sender.Sendable(c, st.s.pending[i], to, flood)
             && heard.payload == Sender.AttemptPacket(c, st.s.pending[i], to, flood).payload
    requires heard.kind == TXT_MSG && e.now <= at < e.now + 60_000
    ensures DedupTable.Live(Sender.SendAttempt(st, c, id, to, flood, e).d.seen, c.dedup(heard.DedupRegion()), at)
  {
    var ev := Sender.AttemptEvent(c, st.s.pending[Sender.Index(st.s.pending, id)], to, flood, e);
    assert ev.packet.DedupRegion() == heard.DedupRegion();
    StepSights(st.d, ev);
  }
}
