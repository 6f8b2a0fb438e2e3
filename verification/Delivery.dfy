/**
 The reliable sender object (src/mesh/sender.cpp): the steps `Sender` describes, on
 fields changed in place over a scheduler object. Between calls every pending
 operation has exactly one event to come.
 */
module Delivery {
  import opened Bytes
  import opened Payloads
  import opened Scheduler
  import opened Dispatch
  import opened Sender
  import opened SenderProofs
  import SP = SchedulerProofs

  class ReliableSender {
    const dispatcher: Dispatcher
    const crypto: Crypto
    const limit: nat
    var pending: seq<Pending>
    var nextId: nat
    ghost var attempts: seq<Attempted>

    ghost function Own(): Outbox
      reads this
    {
      Outbox(limit, pending, nextId, attempts)
    }

    ghost function Model(): Stack
      reads this, dispatcher, dispatcher.duty
    {
      Stack(dispatcher.Model(), Own())
    }

    /** In the middle of an attempt: the scheduler alone is between calls. */
    ghost predicate Ready()
      reads this, dispatcher, dispatcher.duty
    {
      dispatcher.Valid() && dispatcher.hash == crypto.dedup
    }

    /** Between calls: every pending operation has exactly one event to come. */
    ghost predicate Valid()
      reads this, dispatcher, dispatcher.duty
    {
      Ready() && Invariant(Model())
    }

    constructor (dispatcher: Dispatcher, crypto: Crypto, limit: nat)
      requires dispatcher.Valid() && dispatcher.hash == crypto.dedup && dispatcher.queue == []
      ensures Valid() && this.dispatcher == dispatcher && this.crypto == crypto
      ensures Own() == Outbox(limit, [], 1, [])
    {
      this.dispatcher, this.crypto, this.limit := dispatcher, crypto, limit;
      pending, nextId, attempts := [], 1, [];
    }

    method Find(id: nat) returns (i: nat)
      ensures i == Index(pending, id)
    {
      i := 0;
      while i < |pending| && pending[i].id != id
        invariant i <= |pending|
        invariant forall j :: 0 <= j < i ==> pending[j].id != id
      {
        i := i + 1;
      }
    }

    method EraseOp(id: nat)
      modifies this`pending
      ensures Own() == Drop(old(Own()), id)
    {
      var kept := [];
      for i := 0 to |pending|
        invariant pending == old(pending)
        invariant kept + Erase(pending[i..], id) == Erase(pending, id)
      {
        assert pending[i..][1..] == pending[i + 1..];
        if pending[i].id != id {
          kept := kept + [pending[i]];
        }
      }
      pending := kept;
    }

    method HandleTxResult(id: nat, transmitted: bool, now: nat)
      modifies this`pending
      ensures Own() == OnTxResult(old(Own()), id, transmitted, now)
    {
      var i := Find(id);
      if i == |pending| {
        return;
      }
      var delay := if transmitted then Delay(pending[i].attempt) else 1;
      pending := pending[i := pending[i].(timer := Some(now + delay))];
    }

    method HandOver(results: seq<Result>, now: nat)
      modifies this`pending
      ensures Own() == Deliver(old(Own()), results, now)
    {
      for i := 0 to |results|
        invariant Own() == Deliver(old(Own()), results[..i], now)
      {
        assert results[..i + 1][..i] == results[..i];
        if results[i].op != 0 {
          HandleTxResult(results[i].op, results[i].transmitted, now);
        }
      }
      assert results[..|results|] == results;
    }

    /** Sends one packet through the scheduler and hands over what came back. */
    method SendThrough(p: Pending, to: Contact, forceFlood: bool, e: Env) returns (queued: bool)
      requires Ready()
      modifies this`pending, dispatcher, dispatcher.duty`entries
      ensures Ready() && queued == AttemptPacket(crypto, p, to, forceFlood).Valid()
      ensures Model() == Moved(old(Model()), SP.Step(old(dispatcher.Model()), AttemptEvent(crypto, p, to, forceFlood, e)), e.now)
    {
      var before := |dispatcher.resolved|;
      ghost var d := dispatcher.Model();
      ghost var s := Own();
      var packet := AttemptPacket(crypto, p, to, forceFlood);
      queued := dispatcher.SendPacket(packet, PRIORITY_DIRECT, 0, p.id, e);
      SP.StepConserves(d, AttemptEvent(crypto, p, to, forceFlood, e), SP.ByOp(0));
      assert Own() == s;
      HandOver(dispatcher.resolved[before..], e.now);
    }

    /** One attempt of the operation at `i`; it is dropped if it cannot go. */
    method Attempt(i: nat, to: Contact, forceFlood: bool, e: Env) returns (r: Outcome)
      requires Ready() && i < |pending| && i == Index(pending, pending[i].id)
      modifies this`pending, this`attempts, dispatcher, dispatcher.duty`entries
      ensures Ready()
      ensures Model() == SendAttempt(old(Model()), crypto, old(pending[i].id), to, forceFlood, e)
      ensures r == AttemptOutcome(crypto, old(pending[i]), to, forceFlood)
    {
      var p := pending[i];
      if !to.usable {
        EraseOp(p.id);
        return Failed(NoSharedSecret);
      }
      var packet := AttemptPacket(crypto, p, to, forceFlood);
      if !packet.Valid() {
        var queued := dispatcher.SendPacket(packet, PRIORITY_DIRECT, 0, p.id, e);
        EraseOp(p.id);
        return Failed(TooLong);
      }
      pending := pending[i := Noted(crypto, p, to)];
      attempts := attempts + [Attempted(p.id, p.attempt, to, packet, AttemptHash(crypto, p, to))];
      var queued := SendThrough(p, to, forceFlood, e);
      return Sent(AttemptHash(crypto, p, to));
    }

    method FindDuplicate(to: Contact, text: ByteString, kind: Byte, timestamp: int) returns (i: nat)
      ensures i == Duplicate(pending, to, text, kind, timestamp)
    {
      i := 0;
      while i < |pending| && !pending[i].SameMessage(to.pubkey, text, kind, timestamp)
        invariant i <= |pending|
        invariant forall j :: 0 <= j < i ==> !pending[j].SameMessage(to.pubkey, text, kind, timestamp)
      {
        i := i + 1;
      }
    }

    method SendUnacked(to: Contact, text: ByteString, timestamp: int, e: Env) returns (r: Outcome)
      requires Ready()
      modifies this`pending, dispatcher, dispatcher.duty`entries
      ensures Ready()
      ensures Model() == SendText(old(Model()), crypto, to, text, TXT_CLI, timestamp, e)
      ensures r == AttemptOutcome(crypto, Fresh(0, to, text, TXT_CLI, timestamp), to, false)
    {
      var p := Fresh(0, to, text, TXT_CLI, timestamp);
      if !to.usable {
        return Failed(NoSharedSecret);
      }
      var queued := SendThrough(p, to, false, e);
      return if queued then Sent(AttemptHash(crypto, p, to)) else Failed(TooLong);
    }

    /** Registers the message and makes its first attempt. */
    method SendAcked(to: Contact, text: ByteString, kind: Byte, timestamp: int, e: Env) returns (r: Outcome)
      requires Ready() && kind != TXT_CLI && forall p :: p in pending ==> p.id < nextId
      modifies this, dispatcher, dispatcher.duty`entries
      ensures Ready()
      ensures Model() == SendText(old(Model()), crypto, to, text, kind, timestamp, e)
      ensures r == SendOutcome(old(Own()), crypto, to, text, kind, timestamp)
    {
      var twin := FindDuplicate(to, text, kind, timestamp);
      if twin < |pending| {
        return Sent(pending[twin].ackHash);
      }
      if |pending| >= limit {
        return Failed(PendingFull);
      }
      var p := Fresh(nextId, to, text, kind, timestamp);
      nextId := nextId + 1;
      pending := pending + [p];
      assert forall j :: 0 <= j < |pending| - 1 ==> pending[j] in old(pending);
      assert Model() == Register(old(Model()), p);
      r := Attempt(|pending| - 1, to, false, e);
    }

    method Send(to: Contact, text: ByteString, kind: Byte, timestamp: int, e: Env) returns (r: Outcome)
      requires Valid()
      modifies this, dispatcher, dispatcher.duty`entries
      ensures Valid()
      ensures Model() == SendText(old(Model()), crypto, to, text, kind, timestamp, e)
      ensures r == SendOutcome(old(Own()), crypto, to, text, kind, timestamp)
    {
      TextKeeps(Model(), crypto, to, text, kind, timestamp, e, e.now);
      if kind == TXT_CLI {
        r := SendUnacked(to, text, timestamp, e);
      } else {
        r := SendAcked(to, text, kind, timestamp, e);
      }
    }

    /** The next attempt of the operation at `i`, or the end of it. */
    method RetryAt(i: nat, found: Option<Contact>, e: Env)
      requires Ready() && i < |pending| && i == Index(pending, pending[i].id) && pending[i].attempt < MAX_ATTEMPTS
      modifies this`pending, this`attempts, dispatcher, dispatcher.duty`entries
      ensures Ready() && Model() == OnRetry(old(Model()), crypto, old(pending[i].id), found, e)
    {
      var attempt := pending[i].attempt as int + 1;
      if attempt >= MAX_ATTEMPTS || found.None? {
        EraseOp(pending[i].id);
        return;
      }
      ghost var st := Model();
      pending := pending[i := pending[i].(attempt := attempt, timer := None)];
      BumpKeepsIndex(st, i);
      assert Model() == Bump(st, i);
      var r := Attempt(i, found.value, attempt == MAX_ATTEMPTS - 1, e);
    }

    /** The operation's retry timer has come, unless it is gone with it. */
    ghost predicate Due(id: nat, now: nat)
      reads this
    {
      var i := Index(pending, id);
      i < |pending| ==> pending[i].timer.Some? && pending[i].timer.value <= now
    }

    method HandleRetry(id: nat, found: Option<Contact>, e: Env)
      requires Valid() && Due(id, e.now)
      modifies this`pending, this`attempts, dispatcher, dispatcher.duty`entries
      ensures Valid() && Model() == OnRetry(old(Model()), crypto, id, found, e)
    {
      var i := Find(id);
      if i < |pending| {
        RetryKeeps(Model(), crypto, id, found, e, e.now);
        assert pending[i] in pending;
        RetryAt(i, found, e);
      }
    }

    /** Removes the first operation that accepts the hash, if one does. */
    method TakeAnswered(hash: ByteString) returns (done: Option<Pending>)
      modifies this`pending
      ensures Own() == Complete(old(Own()), hash)
      ensures var i := Answered(old(pending), hash);
              done == if i == |old(pending)| then None else Some(old(pending)[i])
    {
      var i := 0;
      while i < |pending| && hash !in pending[i].accepted
        invariant i <= |pending|
        invariant forall j :: 0 <= j < i ==> hash !in pending[j].accepted
      {
        i := i + 1;
      }
      if i == |pending| {
        return None;
      }
      done := Some(pending[i]);
      pending := pending[..i] + pending[i + 1..];
    }

    method CompleteAck(hash: ByteString) returns (done: Option<Pending>)
      requires Valid()
      modifies this`pending
      ensures Valid() && Own() == Complete(old(Own()), hash)
      ensures var i := Answered(old(pending), hash);
              done == if i == |old(pending)| then None else Some(old(pending)[i])
    {
      AckKeeps(Model(), hash);
      done := TakeAnswered(hash);
    }

    /** The scheduler's pump timer fires, and what it resolved is handed over. */
    method FirePump(e: Env)
      requires Valid() && dispatcher.pump.Some? && dispatcher.pump.value <= e.now
      modifies this`pending, dispatcher, dispatcher.duty`entries
      ensures Valid() && Model() == Moved(old(Model()), PumpFires(old(dispatcher.Model()), e), e.now)
    {
      var before := |dispatcher.resolved|;
      ghost var st := Model();
      SchedKeeps(st, SP.PumpTimer(e), e.now);
      SP.StepConserves(st.d, SP.PumpTimer(e), SP.ByOp(0));
      dispatcher.OnPumpTimer(e);
      assert Own() == st.s;
      HandOver(dispatcher.resolved[before..], e.now);
    }
  }
}
