/**
 The transmit scheduler object (src/mesh/dispatcher.cpp): the steps `Scheduler`
 describes, on fields changed in place. Between calls it is always sound.
 */
module Dispatch {
  import opened Clock
  import opened Bytes
  import opened Packets
  import opened AirtimeBudget
  import opened Scheduler
  import opened SchedulerProofs
  import DedupTable

  class Dispatcher {
    const limit: nat
    const hash: ByteString -> int
    const duty: DutyCycle
    var queue: seq<Queued>
    var nextSeq: nat
    var pump: Option<nat>
    var busySince: Option<nat>
    var seen: DedupTable.Table
    var txTotal: nat
    var txDropped: nat
    var inFlight: Option<nat>
    var resolved: seq<Result>
    ghost var log: seq<Entry>

    ghost function Model(): State
      reads this, duty
    {
      State(limit, queue, nextSeq, pump, busySince, duty.percent, duty.entries, seen,
            txTotal, txDropped, inFlight, resolved, log)
    }

    /** Between calls: what every run keeps. */
    ghost predicate Valid()
      reads this, duty
    {
      Sound(Model())
    }

    constructor (limit: nat, percent: real, hash: ByteString -> int)
      ensures Valid() && fresh(duty) && Model() == Initial(limit, percent) && this.hash == hash
    {
      this.limit := if limit < 1 then 1 else limit;
      this.hash := hash;
      duty := new DutyCycle(percent);
      queue, nextSeq, pump, busySince, seen := [], 0, None, None, map[];
      txTotal, txDropped, inFlight, resolved, log := 0, 0, None, [], [];
      new;
      InitialIsSound(limit, percent);
    }

    method SchedulePump(now: nat, delay: nat)
      modifies this`pump
      ensures Model() == Schedule(old(Model()), now, delay)
    {
      var due := now + delay;
      if pump.Some? && Gap(due, pump.value) >= 0 {
        return;
      }
      pump := Some(due);
    }

    method DropExpiredFront(now: nat)
      modifies this`queue, this`resolved, this`txDropped
      ensures Model() == DropExpired(old(Model()), now)
    {
      while queue != [] && Gap(queue[0].expiry, now) <= 0
        invariant DropExpired(Model(), now) == DropExpired(old(Model()), now)
        decreases |queue|
      {
        DropsFirst(Model(), now);
        var dropped := queue[0];
        queue := queue[1..];
        txDropped := txDropped + 1;
        resolved := resolved + [Settle(dropped, false)];
      }
      assert DropExpired(Model(), now) == Model();
    }

    method FindReady(now: nat) returns (i: nat)
      ensures i == FirstReady(queue, now)
    {
      i := 0;
      while i < |queue| && Gap(queue[i].notBefore, now) > 0
        invariant i <= |queue|
        invariant i + FirstReady(queue[i..], now) == FirstReady(queue, now)
      {
        assert queue[i..][1..] == queue[i + 1..];
        i := i + 1;
      }
    }

    method SoonestBackoff(now: nat) returns (soonest: int)
      requires queue != []
      ensures soonest == Soonest(queue, now)
    {
      soonest := Gap(queue[0].notBefore, now);
      for i := 1 to |queue|
        invariant soonest == Soonest(queue[..i], now)
      {
        assert queue[..i + 1][..i] == queue[..i];
        var here := Gap(queue[i].notBefore, now);
        if here < soonest {
          soonest := here;
        }
      }
      assert queue[..|queue|] == queue;
    }

    method TransmitAt(i: nat, e: Env)
      requires i < |queue| && queue[i].packet.Valid()
      modifies this`queue, this`pump, this`txTotal, this`inFlight, this`resolved
      ensures Model() == Transmit(old(Model()), e, i)
    {
      var q := queue[i];
      queue := queue[..i] + queue[i + 1..];
      if |q.packet.Encode()| > MAX_PACKET {
        EncodedSize(q.packet);
        assert false;
      }
      if !e.accepts {
        queue := [q] + queue;
        SchedulePump(e.now, REFUSED_RETRY);
        return;
      }
      inFlight := Some(e.airtime);
      txTotal := txTotal + 1;
      resolved := resolved + [Settle(q, true)];
    }

    method AttemptAt(i: nat, e: Env)
      requires i < |queue| && queue[i].packet.Valid()
      modifies this`queue, this`pump, this`busySince, this`txTotal, this`inFlight, this`resolved
      modifies duty`entries
      ensures Model() == Attempt(old(Model()), e, i)
    {
      var wait := duty.WaitMs(e.now, e.airtime);
      if wait > 0 {
        SchedulePump(e.now, if wait < DUTY_RECHECK then wait else DUTY_RECHECK);
        return;
      }
      if e.channelBusy {
        var since := if busySince.None? then e.now else busySince.value;
        busySince := Stamp(since);
        if Unsigned(e.now - since) < BUSY_MAX {
          SchedulePump(e.now, BUSY_RETRY + e.random as int % BUSY_JITTER);
          return;
        }
      }
      busySince := None;
      TransmitAt(i, e);
    }

    method PumpQueue(e: Env)
      requires Fit(queue)
      modifies this`queue, this`pump, this`busySince, this`txTotal, this`txDropped, this`inFlight, this`resolved
      modifies duty`entries
      ensures Model() == Pump(old(Model()), e)
    {
      if queue == [] || inFlight.Some? {
        return;
      }
      DropExpiredFront(e.now);
      ChooseNext(e);
    }

    /** Sends the first packet that may go, or arms the timer for when one may. */
    method ChooseNext(e: Env)
      requires Fit(queue)
      modifies this`queue, this`pump, this`busySince, this`txTotal, this`inFlight, this`resolved
      modifies duty`entries
      ensures Model() == Choose(old(Model()), e)
    {
      if queue == [] {
        return;
      }
      if !e.ready || !e.hasFrequency {
        SchedulePump(e.now, DOWN_RECHECK);
        return;
      }
      var i := FindReady(e.now);
      if i == |queue| {
        var soonest := SoonestBackoff(e.now);
        SchedulePump(e.now, if soonest > 0 then soonest else 1);
        return;
      }
      AttemptAt(i, e);
    }

    method InsertionPoint(q: Queued) returns (pos: nat)
      ensures pos == UpperBound(queue, q, 0, |queue|)
    {
      pos := 0;
      var hi: nat := |queue|;
      while pos < hi
        invariant pos <= hi <= |queue|
        invariant UpperBound(queue, q, pos, hi) == UpperBound(queue, q, 0, |queue|)
      {
        var mid := Middle(pos, hi);
        if Before(q, queue[mid]) {
          hi := mid;
        } else {
          pos := mid + 1;
        }
      }
    }

    method FindVictim() returns (v: nat)
      requires queue != []
      ensures v == Victim(queue)
    {
      v := 0;
      for i := 1 to |queue|
        invariant v == Victim(queue[..i])
      {
        assert queue[..i + 1][..i] == queue[..i];
        if Worse(queue[i], queue[v]) {
          v := i;
        }
      }
      assert queue[..|queue|] == queue;
    }

    method InsertPacket(q: Queued)
      modifies this`queue, this`nextSeq
      ensures Model() == Inserted(old(Model()), q)
    {
      nextSeq := nextSeq + 1;
      var pos := InsertionPoint(q);
      queue := queue[..pos] + [q] + queue[pos..];
    }

    method DropWorst()
      requires queue != []
      modifies this`queue, this`txDropped, this`resolved
      ensures Model() == DropVictim(old(Model()))
    {
      var v := FindVictim();
      var dropped := queue[v];
      queue := queue[..v] + queue[v + 1..];
      txDropped := txDropped + 1;
      resolved := resolved + [Settle(dropped, false)];
    }

    method AcceptPacket(p: Packet, priority: Byte, delay: nat, op: nat, now: nat)
      modifies this`seen, this`queue, this`nextSeq, this`txDropped, this`resolved
      ensures Model() == Accept(old(Model()), p, hash(p.DedupRegion()), priority, delay, op, now)
    {
      var repeated;
      seen, repeated := DedupTable.CheckAndMarkSeen(seen, hash(p.DedupRegion()), now);
      var q := Queued(p, priority, now + EXPIRY_PER_PRIORITY * priority as int, now + delay, nextSeq, op);
      InsertPacket(q);
      if |queue| > limit {
        DropWorst();
      }
    }

    method SendPacket(p: Packet, priority: Byte, delay: nat, op: nat, e: Env) returns (queued: bool)
      requires Valid()
      modifies this, duty`entries
      ensures Valid() && queued == p.Valid()
      ensures Model() == Send(old(Model()), p, hash(p.DedupRegion()), priority, delay, op, e)
    {
      ghost var before := Model();
      StepIsSound(before, e.now, Sends(p, hash(p.DedupRegion()), priority, delay, op, e));
      queued := p.Valid();
      if queued {
        AcceptPacket(p, priority, delay, op, e.now);
        AcceptFits(before, p, hash(p.DedupRegion()), priority, delay, op, e.now);
        PumpQueue(e);
      } else {
        txDropped := txDropped + 1;
      }
    }

    method OnPumpTimer(e: Env)
      requires Valid() && pump.Some? && pump.value <= e.now
      modifies this, duty`entries
      ensures Valid() && Model() == PumpFires(old(Model()), e)
    {
      StepIsSound(Model(), e.now, PumpTimer(e));
      pump := None;
      PumpQueue(e);
    }

    method OnTxDone(now: nat, airtime: nat, random: Byte)
      requires Valid() && inFlight.Some?
      modifies this, duty`entries
      ensures Valid() && Model() == TxDone(old(Model()), now, airtime, random)
    {
      StepIsSound(Model(), now, Done(now, airtime, random));
      inFlight := None;
      log := log + [Entry(now, airtime)];
      duty.Record(now, airtime);
      SchedulePump(now, 1 + random as int * JITTER / 255);
    }

    method SetPercent(percent: real, e: Env)
      requires Valid()
      modifies this, duty
      ensures Valid() && Model() == Reconfigure(old(Model()), percent, e)
    {
      StepIsSound(Model(), e.now, Reconfigures(percent, e));
      duty.SetPercent(percent);
      PumpQueue(e);
    }

    method OnReceive(p: Packet, now: nat) returns (repeated: bool)
      requires Valid()
      modifies this`seen
      ensures Valid() && Model() == Receive(old(Model()), hash(p.DedupRegion()), now)
      ensures repeated == DedupTable.Live(old(seen), hash(p.DedupRegion()), now)
    {
      StepIsSound(Model(), now, Hears(hash(p.DedupRegion()), now));
      seen, repeated := DedupTable.CheckAndMarkSeen(seen, hash(p.DedupRegion()), now);
    }

    method ExpireSeen(now: nat)
      requires Valid()
      modifies this`seen
      ensures Valid() && Model() == SweepSeen(old(Model()), now)
    {
      StepIsSound(Model(), now, Sweeps(now));
      seen := DedupTable.Sweep(seen, now);
    }
  }
}
