/**
 No pending send is ever stuck: in every run of the sender over the scheduler,
 each pending operation waits for exactly one future event, which is either the
 scheduler's one result for its queued packet or its own armed retry timer.
 */
module SenderProofs {
  import opened Bytes
  import opened Packets
  import opened Payloads
  import opened Scheduler
  import opened Sender
  import SP = SchedulerProofs

  datatype Event =
    | Text(to: Contact, text: ByteString, kind: Byte, timestamp: int, env: Env)
    | Retry(id: nat, found: Option<Contact>, env: Env)
    | AckArrives(hash: ByteString, now: nat)
    | Sched(ev: SP.Event)

  function At(ev: Event): nat {
    match ev
    case Text(_, _, _, _, e) => e.now
    case Retry(_, _, e) => e.now
    case AckArrives(_, now) => now
    case Sched(ev) => SP.At(ev)
  }

  function Step(st: Stack, c: Crypto, ev: Event): Stack {
    match ev
    case Text(to, text, kind, timestamp, e) => SendText(st, c, to, text, kind, timestamp, e)
    case Retry(id, found, e) => OnRetry(st, c, id, found, e)
    case AckArrives(hash, _) => st.(s := Complete(st.s, hash))
    case Sched(ev) => Moved(st, SP.Step(st.d, ev), SP.At(ev))
  }

  /** Retry timers fire when armed and due; everybody else's packets carry no
      operation of ours. */
  predicate Enabled(st: Stack, now: nat, ev: Event) {
    && now <= At(ev)
    && (ev.Retry? ==>
          var i := Index(st.s.pending, ev.id);
          && i < |st.s.pending| && st.s.pending[i].timer.Some? && st.s.pending[i].timer.value <= At(ev))
    && (ev.Sched? ==> SP.Enabled(st.d, now, ev.ev) && (ev.ev.Sends? ==> ev.ev.op == 0))
  }

  function Run(st: Stack, c: Crypto, run: seq<Event>): Stack {
    if run == [] then st else Step(Run(st, c, run[..|run| - 1]), c, run[|run| - 1])
  }

  function TimeAfter(now: nat, run: seq<Event>): nat {
    if run == [] then now else At(run[|run| - 1])
  }

  predicate Legal(st: Stack, c: Crypto, now: nat, run: seq<Event>) {
    run != [] ==>
      var before := run[..|run| - 1];
      Legal(st, c, now, before) && Enabled(Run(st, c, before), TimeAfter(now, before), run[|run| - 1])
  }

  // ---- The invariant ---------------------------------------------------

  function Armed(p: Pending): nat {
    if p.timer.Some? then 1 else 0
  }

  function Outstanding(d: Scheduler.State, id: nat): nat {
    SP.HitsQ(d.queue, SP.ByOp(id))
  }

  /** Distinct operations are for distinct messages. */
  predicate Distinct(pending: seq<Pending>) {
    forall i, j :: 0 <= i < j < |pending| ==>
      && pending[i].id != pending[j].id
      && !pending[i].SameMessage(pending[j].dest, pending[j].text, pending[j].kind, pending[j].timestamp)
  }

  predicate Registered(s: Outbox) {
    && |s.pending| <= s.limit && Distinct(s.pending) && 0 < s.nextId
    && forall p :: p in s.pending ==> 0 < p.id < s.nextId && p.attempt < MAX_ATTEMPTS
  }

  /** No packet carries an operation that was never issued. */
  ghost predicate NoStrays(st: Stack) {
    forall id: nat :: st.s.nextId <= id ==> Outstanding(st.d, id) == 0
  }

  /** Exactly one future event for every operation but `except`, none for it. */
  ghost predicate OwnedExcept(st: Stack, except: nat) {
    forall p :: p in st.s.pending ==>
      Outstanding(st.d, p.id) + Armed(p) == if p.id == except then 0 else 1
  }

  ghost predicate Owned(st: Stack) {
    forall p :: p in st.s.pending ==> Outstanding(st.d, p.id) + Armed(p) == 1
  }

  /** The packet of an attempt is a text that goes along the contact's path with
      one-byte hashes, or by flooding when no path is known and on the fourth. */
  predicate WellRouted(a: Attempted) {
    && a.packet.Valid() && a.packet.kind == TXT_MSG && (a.packet.IsFlood() || a.packet.IsDirect())
    && (a.packet.IsFlood() <==> !a.to.pathKnown || a.number == 3)
    && (a.packet.IsDirect() ==> a.packet.path == a.to.outPath && a.packet.hashSize == 1)
    && (a.packet.IsFlood() ==> a.packet.path == [])
  }

  /** Attempt numbers rise strictly and only the fourth ignores a known path. */
  predicate Logged(attempts: seq<Attempted>, nextId: nat) {
    && (forall a :: a in attempts ==> 0 < a.id < nextId && a.number < MAX_ATTEMPTS && WellRouted(a))
    && (forall i, j :: 0 <= i < j < |attempts| && attempts[i].id == attempts[j].id ==>
          attempts[i].number < attempts[j].number)
  }

  /** No attempt is ahead of the operation's count, the hash of every one is still
      acceptable in reply, and that of the first is the one its caller was given. */
  predicate Behind(attempts: seq<Attempted>, p: Pending) {
    forall a :: a in attempts && a.id == p.id ==>
      a.number <= p.attempt && a.hash in p.accepted && (a.number == 0 ==> a.hash == p.ackHash)
  }

  ghost predicate Invariant(st: Stack) {
    && SP.Sound(st.d) && Registered(st.s) && NoStrays(st) && Owned(st)
    && Logged(st.s.attempts, st.s.nextId)
    && forall p :: p in st.s.pending ==> Behind(st.s.attempts, p)
  }

  // ---- Handing over results --------------------------------------------

  predicate SameButTimer(p: Pending, q: Pending) {
    p.(timer := None) == q.(timer := None)
  }

  lemma {:induction false} DeliverArms(s: Outbox, results: seq<Result>, now: nat)
    requires Distinct(s.pending) && forall p :: p in s.pending ==> p.id > 0
    ensures var after := Deliver(s, results, now);
            && after == s.(pending := after.pending) && |after.pending| == |s.pending|
            && forall i :: 0 <= i < |s.pending| ==>
                 && SameButTimer(s.pending[i], after.pending[i])
                 && Armed(after.pending[i]) ==
                    if SP.HitsR(results, SP.ByOp(s.pending[i].id)) > 0 then 1 else Armed(s.pending[i])
    decreases |results|
  {
    if results != [] {
      var r := results[|results| - 1];
      var rest := results[..|results| - 1];
      DeliverArms(s, rest, now);
      var before := Deliver(s, rest, now);
      forall i | 0 <= i < |s.pending|
        ensures SP.HitsR(results, SP.ByOp(s.pending[i].id))
             == SP.HitsR(rest, SP.ByOp(s.pending[i].id)) + if r.op == s.pending[i].id then 1 else 0
      {
        assert results == rest + [r];
        SP.HitsRConcat(rest, [r], SP.ByOp(s.pending[i].id));
      }
      var k := Index(before.pending, r.op);
      assert forall i :: 0 <= i < |s.pending| ==> s.pending[i].id == before.pending[i].id;
      assert forall i :: 0 <= i < |s.pending| && before.pending[i].id == r.op ==> i == k;
    }
  }

  lemma SameButTimerKeeps(a: seq<Pending>, b: seq<Pending>)
    requires |a| == |b| && forall i :: 0 <= i < |a| ==> SameButTimer(a[i], b[i])
    requires Distinct(a)
    ensures Distinct(b)
    ensures forall q :: q in b ==> exists p :: p in a && SameButTimer(p, q)
  {
    assert forall i :: 0 <= i < |a| ==> a[i].id == b[i].id && a[i].dest == b[i].dest && a[i].text == b[i].text
                                        && a[i].kind == b[i].kind && a[i].timestamp == b[i].timestamp;
    forall q | q in b ensures exists p :: p in a && SameButTimer(p, q) {
      var i :| 0 <= i < |b| && b[i] == q;
      assert a[i] in a && SameButTimer(a[i], q);
    }
  }

  ghost predicate Passed(st: Stack, d: Scheduler.State, issued: nat) {
    && |st.d.resolved| <= |d.resolved|
    && forall id: nat :: 0 < id ==>
         Outstanding(st.d, id) + (if id == issued then 1 else 0)
         == Outstanding(d, id) + SP.HitsR(SP.News(st.d, d), SP.ByOp(id))
  }

  /** A step of the scheduler turns an operation's outstanding callback into
      an armed timer, or leaves both alone. */
  lemma {:induction false} MovedOwns(st: Stack, d: Scheduler.State, issued: nat, now: nat)
    requires Registered(st.s) && OwnedExcept(st, issued) && Passed(st, d, issued)
    requires NoStrays(st) && issued < st.s.nextId
    ensures var after := Moved(st, d, now);
            && Registered(after.s) && Owned(after) && NoStrays(after)
            && after.s == st.s.(pending := after.s.pending)
            && forall q :: q in after.s.pending ==> exists p :: p in st.s.pending && SameButTimer(p, q)
  {
    MovedRegisters(st, d, now);
    var after := Moved(st, d, now);
    forall q | q in after.s.pending ensures Outstanding(d, q.id) + Armed(q) == 1 {
      var i :| 0 <= i < |after.s.pending| && after.s.pending[i] == q;
      MovedOwnsOne(st, d, issued, now, i);
    }
    forall id: nat | st.s.nextId <= id ensures Outstanding(d, id) == 0 {
      assert Outstanding(st.d, id) == 0;
    }
  }

  /** Handing over results changes timers and nothing else. */
  lemma {:induction false} MovedRegisters(st: Stack, d: Scheduler.State, now: nat)
    requires Registered(st.s) && |st.d.resolved| <= |d.resolved|
    ensures var after := Moved(st, d, now);
            && after.d == d && Registered(after.s) && |after.s.pending| == |st.s.pending|
            && after.s == st.s.(pending := after.s.pending)
            && forall q :: q in after.s.pending ==> exists p :: p in st.s.pending && SameButTimer(p, q)
  {
    DeliverArms(st.s, SP.News(st.d, d), now);
    SameButTimerKeeps(st.s.pending, Moved(st, d, now).s.pending);
  }

  lemma {:induction false} MovedOwnsOne(st: Stack, d: Scheduler.State, issued: nat, now: nat, i: nat)
    requires Registered(st.s) && OwnedExcept(st, issued) && Passed(st, d, issued) && i < |st.s.pending|
    ensures var after := Moved(st, d, now).s.pending;
            |after| == |st.s.pending| && Outstanding(d, after[i].id) + Armed(after[i]) == 1
  {
    var results := SP.News(st.d, d);
    DeliverArms(st.s, results, now);
    var p := st.s.pending[i];
    assert p in st.s.pending && SameButTimer(p, Moved(st, d, now).s.pending[i]);
    assert Outstanding(st.d, p.id) + (if p.id == issued then 1 else 0)
        == Outstanding(d, p.id) + SP.HitsR(results, SP.ByOp(p.id));
  }

  function Issued(ev: SP.Event): nat {
    if ev.Sends? && ev.packet.Valid() then ev.op else 0
  }

  lemma StepPasses(st: Stack, ev: SP.Event)
    ensures Passed(st, SP.Step(st.d, ev), Issued(ev))
  {
    SP.StepConserves(st.d, ev, SP.ByOp(0));
    forall id: nat | 0 < id
      ensures Outstanding(st.d, id) + (if id == Issued(ev) then 1 else 0)
           == Outstanding(SP.Step(st.d, ev), id) + SP.HitsR(SP.News(st.d, SP.Step(st.d, ev)), SP.ByOp(id))
    {
      SP.StepConserves(st.d, ev, SP.ByOp(id));
    }
  }

  // ---- Dropping an operation -------------------------------------------

  lemma {:induction false} EraseKeeps(pending: seq<Pending>, id: nat)
    ensures |Erase(pending, id)| <= |pending|
    ensures forall p :: p in Erase(pending, id) <==> p in pending && p.id != id
    ensures Distinct(pending) ==> Distinct(Erase(pending, id))
  {
    if pending != [] {
      EraseKeeps(pending[1..], id);
      var rest := Erase(pending[1..], id);
      assert Distinct(pending) ==> Distinct(pending[1..]);
      assert forall j :: 0 <= j < |rest| ==> rest[j] in pending[1..];
    }
  }

  lemma DropKeeps(st: Stack, id: nat)
    requires Registered(st.s) && OwnedExcept(st, id) && NoStrays(st)
    ensures Registered(Drop(st.s, id)) && Owned(st.(s := Drop(st.s, id))) && NoStrays(st.(s := Drop(st.s, id)))
  {
    EraseKeeps(st.s.pending, id);
  }

  // ---- One attempt -----------------------------------------------------

  /** Ready for attempt `p.attempt` of `id`: nothing outstanding, no timer, and
      only lower-numbered attempts made so far. */
  ghost predicate Poised(st: Stack, id: nat) {
    && SP.Sound(st.d) && Registered(st.s) && NoStrays(st) && OwnedExcept(st, id)
    && Logged(st.s.attempts, st.s.nextId)
    && (forall p :: p in st.s.pending ==> Behind(st.s.attempts, p))
    && var i := Index(st.s.pending, id);
       && i < |st.s.pending|
       && forall a :: a in st.s.attempts && a.id == id ==> a.number < st.s.pending[i].attempt
  }

  /** Recording the attempt, before the scheduler is called. */
  function Recorded(st: Stack, c: Crypto, id: nat, to: Contact, flood: bool): Outbox
    requires Index(st.s.pending, id) < |st.s.pending|
  {
    var i := Index(st.s.pending, id);
    var p := st.s.pending[i];
    st.s.(pending := st.s.pending[i := Noted(c, p, to)],
          attempts := st.s.attempts + [Attempted(id, p.attempt, to, AttemptPacket(c, p, to, flood), AttemptHash(c, p, to))])
  }

  lemma DistinctUpdate(pending: seq<Pending>, i: nat, q: Pending)
    requires Distinct(pending) && i < |pending| && q.id == pending[i].id
    requires q.SameMessage(pending[i].dest, pending[i].text, pending[i].kind, pending[i].timestamp)
    ensures Distinct(pending[i := q])
    ensures forall r :: r in pending[i := q] ==> r == q || (r in pending && r.id != q.id)
    ensures i == Index(pending, q.id) ==> i == Index(pending[i := q], q.id)
  {
    var after := pending[i := q];
    forall r | r in after ensures r == q || (r in pending && r.id != q.id) {
      var j :| 0 <= j < |after| && after[j] == r;
      if j != i {
        assert r == pending[j];
      }
    }
    assert after[i].id == q.id;
    assert forall j :: 0 <= j < i ==> after[j] == pending[j];
  }

  predicate SameOp(p: Pending, q: Pending) {
    && p.id == q.id && p.timer == q.timer && p.attempt == q.attempt
    && q.SameMessage(p.dest, p.text, p.kind, p.timestamp)
  }

  lemma UpdateKeeps(st: Stack, i: nat, q: Pending, except: nat)
    requires i < |st.s.pending| && SameOp(st.s.pending[i], q)
    requires Registered(st.s) && OwnedExcept(st, except) && NoStrays(st)
    ensures var s := st.s.(pending := st.s.pending[i := q]);
            Registered(s) && OwnedExcept(Stack(st.d, s), except) && NoStrays(Stack(st.d, s))
  {
    assert st.s.pending[i] in st.s.pending;
    var pending := st.s.pending[i := q];
    assert forall r :: r in pending ==> r in st.s.pending || r == q;
    assert forall j :: 0 <= j < |pending| ==> SameOp(st.s.pending[j], pending[j]);
  }

  lemma {:induction false} RecordedKeeps(st: Stack, c: Crypto, id: nat, to: Contact, flood: bool)
    requires Poised(st, id) && Sendable(c, st.s.pending[Index(st.s.pending, id)], to, flood)
    requires flood <==> st.s.pending[Index(st.s.pending, id)].attempt == MAX_ATTEMPTS - 1
    ensures var s := Recorded(st, c, id, to, flood);
            && Registered(s) && OwnedExcept(Stack(st.d, s), id) && NoStrays(Stack(st.d, s))
            && Logged(s.attempts, s.nextId)
            && forall p :: p in s.pending ==> Behind(s.attempts, p)
  {
    var i := Index(st.s.pending, id);
    var p := st.s.pending[i];
    var s := Recorded(st, c, id, to, flood);
    assert p in st.s.pending;
    UpdateKeeps(st, i, Noted(c, p, to), id);
    RecordedBehind(st, c, id, to, flood);
  }

  /** The attempt just noted is the operation's current one, under a hash it now
      accepts; everything else is as it was. */
  lemma {:induction false} RecordedBehind(st: Stack, c: Crypto, id: nat, to: Contact, flood: bool)
    requires Index(st.s.pending, id) < |st.s.pending| && Distinct(st.s.pending)
    requires forall p :: p in st.s.pending ==> Behind(st.s.attempts, p)
    requires forall a :: a in st.s.attempts && a.id == id ==> a.number < st.s.pending[Index(st.s.pending, id)].attempt
    ensures var s := Recorded(st, c, id, to, flood); forall p :: p in s.pending ==> Behind(s.attempts, p)
  {
    var i := Index(st.s.pending, id);
    var s := Recorded(st, c, id, to, flood);
    forall r | r in s.pending ensures Behind(s.attempts, r) {
      var j :| 0 <= j < |s.pending| && s.pending[j] == r;
      assert Behind(st.s.attempts, st.s.pending[j]);
      assert r.id == st.s.pending[j].id && r.attempt == st.s.pending[j].attempt;
      assert forall h :: h in st.s.pending[j].accepted ==> h in r.accepted;
      assert r.id == id ==> j == i;
    }
  }

  lemma {:induction false} AttemptKeeps(st: Stack, c: Crypto, id: nat, to: Contact, flood: bool, e: Env, now: nat)
    requires Poised(st, id) && now <= e.now
    requires flood <==> st.s.pending[Index(st.s.pending, id)].attempt == MAX_ATTEMPTS - 1
    ensures Invariant(SendAttempt(st, c, id, to, flood, e))
  {
    var p := st.s.pending[Index(st.s.pending, id)];
    assert p in st.s.pending;
    var ev := AttemptEvent(c, p, to, flood, e);
    EraseKeeps(st.s.pending, id);
    if !to.usable {
      DropKeeps(st, id);
    } else {
      SP.StepIsSound(st.d, now, ev);
      if Sendable(c, p, to, flood) {
        SentKeeps(st, c, id, to, flood, e, now);
      } else {
        var d := SP.Step(st.d, ev);
        assert d.queue == st.d.queue;
        assert forall n: nat :: Outstanding(d, n) == Outstanding(st.d, n);
        DropKeeps(Stack(d, st.s), id);
      }
    }
  }

  lemma {:induction false} SentKeeps(st: Stack, c: Crypto, id: nat, to: Contact, flood: bool, e: Env, now: nat)
    requires Poised(st, id) && now <= e.now
    requires flood <==> st.s.pending[Index(st.s.pending, id)].attempt == MAX_ATTEMPTS - 1
    requires Sendable(c, st.s.pending[Index(st.s.pending, id)], to, flood)
    ensures Invariant(SendAttempt(st, c, id, to, flood, e))
  {
    var p := st.s.pending[Index(st.s.pending, id)];
    assert p in st.s.pending;
    var ev := AttemptEvent(c, p, to, flood, e);
    SP.StepIsSound(st.d, now, ev);
    RecordedKeeps(st, c, id, to, flood);
    var mid := Stack(st.d, Recorded(st, c, id, to, flood));
    StepPasses(mid, ev);
    MovedOwns(mid, SP.Step(st.d, ev), id, e.now);
  }

  // ---- Every event -----------------------------------------------------

  lemma {:induction false} RegisterKeeps(st: Stack, p: Pending)
    requires Registered(st.s) && Owned(st) && NoStrays(st) && |st.s.pending| < st.s.limit
    requires p.id == st.s.nextId && p.attempt == 0 && p.timer.None?
    requires forall q :: q in st.s.pending ==> !q.SameMessage(p.dest, p.text, p.kind, p.timestamp)
    ensures var r := Register(st, p);
            && Registered(r.s) && OwnedExcept(r, p.id) && NoStrays(r)
            && Index(r.s.pending, p.id) == |st.s.pending| && r.s.pending[|st.s.pending|] == p
  {
    var pending := st.s.pending + [p];
    assert Outstanding(st.d, p.id) == 0;
    assert forall i :: 0 <= i < |st.s.pending| ==> st.s.pending[i] in st.s.pending && pending[i] == st.s.pending[i];
    assert pending[|st.s.pending|] == p;
  }

  lemma {:induction false} RegisterPoises(st: Stack, p: Pending)
    requires Invariant(st) && |st.s.pending| < st.s.limit
    requires p.id == st.s.nextId && p.attempt == 0 && p.timer.None?
    requires forall q :: q in st.s.pending ==> !q.SameMessage(p.dest, p.text, p.kind, p.timestamp)
    ensures Poised(Register(st, p), p.id)
  {
    var pending := st.s.pending + [p];
    RegisterKeeps(st, p);
    forall q | q in pending ensures Behind(st.s.attempts, q) {
      assert q == p || q in st.s.pending;
    }
  }

  lemma {:induction false} TextKeeps(st: Stack, c: Crypto, to: Contact, text: ByteString, kind: Byte, timestamp: int,
                                     e: Env, now: nat)
    requires Invariant(st) && now <= e.now
    ensures Invariant(SendText(st, c, to, text, kind, timestamp, e))
  {
    if kind == TXT_CLI {
      if to.usable {
        SchedKeeps(st, AttemptEvent(c, Fresh(0, to, text, kind, timestamp), to, false, e), now);
      }
    } else if Registers(st.s, to, text, kind, timestamp) {
      var p := Fresh(st.s.nextId, to, text, kind, timestamp);
      RegisterPoises(st, p);
      AttemptKeeps(Register(st, p), c, p.id, to, false, e, now);
    }
  }

  /** A step of the scheduler that is not one of our attempts. */
  lemma {:induction false} SchedKeeps(st: Stack, ev: SP.Event, now: nat)
    requires Invariant(st) && SP.Enabled(st.d, now, ev) && (ev.Sends? ==> ev.op == 0)
    ensures Invariant(Moved(st, SP.Step(st.d, ev), SP.At(ev)))
  {
    SP.StepIsSound(st.d, now, ev);
    StepPasses(st, ev);
    MovedOwns(st, SP.Step(st.d, ev), 0, SP.At(ev));
  }

  /** Taking the timer off an entry and counting its attempt up. */
  lemma {:induction false} BumpKeeps(st: Stack, i: nat)
    requires Registered(st.s) && Owned(st) && i < |st.s.pending| && st.s.pending[i].attempt < MAX_ATTEMPTS - 1
    requires st.s.pending[i].timer.Some?
    ensures Registered(Bump(st, i).s) && OwnedExcept(Bump(st, i), st.s.pending[i].id)
  {
    var p := st.s.pending[i];
    assert p in st.s.pending;
    DistinctUpdate(st.s.pending, i, Bump(st, i).s.pending[i]);
  }

  lemma {:induction false} BumpBehind(st: Stack, i: nat)
    requires i < |st.s.pending| && st.s.pending[i].attempt < MAX_ATTEMPTS
    requires forall p :: p in st.s.pending ==> Behind(st.s.attempts, p)
    ensures forall r :: r in Bump(st, i).s.pending ==> Behind(st.s.attempts, r)
  {
    var p := st.s.pending[i];
    assert p in st.s.pending && Behind(st.s.attempts, p);
    forall r | r in Bump(st, i).s.pending ensures Behind(st.s.attempts, r) {
      assert r == Bump(st, i).s.pending[i] || r in st.s.pending;
    }
  }

  lemma {:induction false} RetryPoises(st: Stack, id: nat)
    requires Invariant(st)
    requires var i := Index(st.s.pending, id);
             i < |st.s.pending| && st.s.pending[i].timer.Some? && st.s.pending[i].attempt < MAX_ATTEMPTS - 1
    ensures Poised(Bump(st, Index(st.s.pending, id)), id)
  {
    var i := Index(st.s.pending, id);
    var p := st.s.pending[i];
    assert p in st.s.pending && Behind(st.s.attempts, p);
    BumpKeeps(st, i);
    BumpBehind(st, i);
    BumpKeepsIndex(st, i);
  }

  lemma {:induction false} RetryKeeps(st: Stack, c: Crypto, id: nat, found: Option<Contact>, e: Env, now: nat)
    requires Invariant(st) && Enabled(st, now, Retry(id, found, e))
    ensures Invariant(OnRetry(st, c, id, found, e))
  {
    var i := Index(st.s.pending, id);
    var p := st.s.pending[i];
    if p.attempt >= MAX_ATTEMPTS - 1 || found.None? {
      EraseKeeps(st.s.pending, id);
    } else {
      RetryPoises(st, id);
      DistinctUpdate(st.s.pending, i, Bump(st, i).s.pending[i]);
      AttemptKeeps(Bump(st, i), c, id, found.value, p.attempt + 1 == MAX_ATTEMPTS - 1, e, now);
    }
  }

  lemma AckKeeps(st: Stack, hash: ByteString)
    requires Invariant(st)
    ensures Invariant(st.(s := Complete(st.s, hash)))
  {}

  lemma StepKeeps(st: Stack, c: Crypto, now: nat, ev: Event)
    requires Invariant(st) && Enabled(st, now, ev)
    ensures Invariant(Step(st, c, ev))
  {
    match ev
    case Text(to, text, kind, timestamp, e) => TextKeeps(st, c, to, text, kind, timestamp, e, now);
    case Retry(id, found, e) => RetryKeeps(st, c, id, found, e, now);
    case AckArrives(hash, _) => AckKeeps(st, hash);
    case Sched(ev) => SchedKeeps(st, ev, now);
  }

  /** In every run, between events: each pending operation has exactly one of an
      outstanding scheduler callback and an armed retry timer, and the scheduler
      itself is sound, so that the event it waits for comes. */
  lemma {:induction false} NoSendIsStuck(st: Stack, c: Crypto, now: nat, run: seq<Event>)
    requires Invariant(st) && Legal(st, c, now, run)
    ensures Invariant(Run(st, c, run))
    decreases |run|
  {
    if run != [] {
      var before := run[..|run| - 1];
      NoSendIsStuck(st, c, now, before);
      StepKeeps(Run(st, c, before), c, TimeAfter(now, before), run[|run| - 1]);
    }
  }

  lemma InitialIsInvariant(limit: nat, percent: real, pendingLimit: nat)
    ensures Invariant(Stack(Initial(limit, percent), Outbox(pendingLimit, [], 1, [])))
  {
    SP.InitialIsSound(limit, percent);
  }

  // ---- When the next attempt comes -----------------------------------------

  /** The wait after an attempt: 8, 16 and 32 s once it was on the air, and the next
      pass of the loop when it never was. */
  function RetryWait(attempt: nat, transmitted: bool): nat {
    if !transmitted then 1 else if attempt == 0 then 8_000 else if attempt == 1 then 16_000 else 32_000
  }

  /** An operation's one result sets its timer by whether the attempt went out. */
  lemma {:induction false} ResultArms(s: Outbox, results: seq<Result>, now: nat, i: nat, k: nat)
    requires Distinct(s.pending) && (forall p :: p in s.pending ==> p.id > 0) && i < |s.pending| && k < |results|
    requires results[k].op == s.pending[i].id
    requires forall j :: k < j < |results| ==> results[j].op != s.pending[i].id
    ensures |Deliver(s, results, now).pending| == |s.pending|
    ensures Deliver(s, results, now).pending[i].timer == Some(now + RetryWait(s.pending[i].attempt, results[k].transmitted))
    decreases |results|
  {
    var rest, r := results[..|results| - 1], results[|results| - 1];
    DeliveredPlaces(s, rest, now, i);
    var before := Deliver(s, rest, now);
    if k < |rest| {
      ResultArms(s, rest, now, i, k);
      if r.op != 0 {
        assert Index(before.pending, r.op) != i;
      }
    }
  }

  /** Results handed over leave every operation in its place. */
  lemma {:induction false} DeliveredPlaces(s: Outbox, results: seq<Result>, now: nat, i: nat)
    requires Distinct(s.pending) && (forall p :: p in s.pending ==> p.id > 0) && i < |s.pending|
    ensures var after := Deliver(s, results, now).pending;
            && |after| == |s.pending| && SameButTimer(s.pending[i], after[i]) && after[i].id == s.pending[i].id > 0
            && Index(after, s.pending[i].id) == i
  {
    DeliverArms(s, results, now);
    var after := Deliver(s, results, now).pending;
    assert s.pending[i] in s.pending && SameButTimer(s.pending[i], after[i]);
    SameButTimerKeeps(s.pending, after);
    PlaceIsIndex(after, i);
  }

  lemma PlaceIsIndex(pending: seq<Pending>, i: nat)
    requires Distinct(pending) && i < |pending|
    ensures Index(pending, pending[i].id) == i
  {
    var k := Index(pending, pending[i].id);
    assert k <= i;
  }

  /** No armed retry is more than 32 s away. */
  ghost predicate Soon(s: Outbox, now: nat) {
    forall p :: p in s.pending && p.timer.Some? ==> p.timer.value <= now + 32_000
  }

  lemma {:induction false} DeliverSoon(s: Outbox, results: seq<Result>, now: nat)
    requires Soon(s, now)
    ensures Soon(Deliver(s, results, now), now)
    decreases |results|
  {
    if results != [] {
      var rest, r := results[..|results| - 1], results[|results| - 1];
      DeliverSoon(s, rest, now);
      var before := Deliver(s, rest, now);
      var i := Index(before.pending, r.op);
      if i < |before.pending| {
        var after := Deliver(s, results, now).pending;
        assert before.pending[i] in before.pending;
        assert forall p :: p in after ==> p == after[i] || p in before.pending;
      }
    }
  }

  lemma {:induction false} MovedSoon(st: Stack, d: Scheduler.State, now: nat)
    requires Soon(st.s, now)
    ensures Soon(Moved(st, d, now).s, now)
  {
    if |st.d.resolved| <= |d.resolved| {
      DeliverSoon(st.s, SP.News(st.d, d), now);
    }
  }

  lemma {:induction false} AttemptSoon(st: Stack, c: Crypto, id: nat, to: Contact, flood: bool, e: Env)
    requires Soon(st.s, e.now)
    ensures Soon(SendAttempt(st, c, id, to, flood, e).s, e.now)
  {
    var i := Index(st.s.pending, id);
    EraseKeeps(st.s.pending, id);
    if i < |st.s.pending| && Sendable(c, st.s.pending[i], to, flood) {
      var s := Recorded(st, c, id, to, flood);
      assert st.s.pending[i] in st.s.pending;
      assert forall p :: p in s.pending ==> p in st.s.pending || p.timer == st.s.pending[i].timer;
      MovedSoon(Stack(st.d, s), SP.Step(st.d, AttemptEvent(c, st.s.pending[i], to, flood, e)), e.now);
    }
  }

  lemma {:induction false} StepSoon(st: Stack, c: Crypto, now: nat, ev: Event)
    requires Soon(st.s, now) && Enabled(st, now, ev)
    ensures Soon(Step(st, c, ev).s, At(ev))
  {
    match ev
    case Text(to, text, kind, timestamp, e) =>
      if kind == TXT_CLI {
        MovedSoon(st, SP.Step(st.d, AttemptEvent(c, Fresh(0, to, text, kind, timestamp), to, false, e)), e.now);
      } else if Registers(st.s, to, text, kind, timestamp) {
        AttemptSoon(Register(st, Fresh(st.s.nextId, to, text, kind, timestamp)), c, st.s.nextId, to, false, e);
      }
    case Retry(id, found, e) =>
      var i := Index(st.s.pending, id);
      EraseKeeps(st.s.pending, id);
      if st.s.pending[i].attempt < MAX_ATTEMPTS - 1 && found.Some? {
        AttemptSoon(Bump(st, i), c, id, found.value, st.s.pending[i].attempt + 1 == MAX_ATTEMPTS - 1, e);
      }
    case AckArrives(hash, t) =>
    case Sched(sev) => MovedSoon(st, SP.Step(st.d, sev), SP.At(sev));
  }

  /** Over every run, an operation waiting for its retry waits at most 32 s more. */
  lemma {:induction false} RetriesAreSoon(st: Stack, c: Crypto, now: nat, run: seq<Event>)
    requires Soon(st.s, now) && Legal(st, c, now, run)
    ensures Soon(Run(st, c, run).s, TimeAfter(now, run))
    decreases |run|
  {
    if run != [] {
      var before := run[..|run| - 1];
      RetriesAreSoon(st, c, now, before);
      StepSoon(Run(st, c, before), c, TimeAfter(now, before), run[|run| - 1]);
    }
  }

  // ---- What a caller is told, and that attempts are made -------------------

  /** An attempt that can go is made: logged, handed to the scheduler as one packet,
      and the operation stays, with the attempt's hash among those that end it. */
  lemma {:induction false} AttemptIsMade(st: Stack, c: Crypto, id: nat, to: Contact, flood: bool, e: Env)
    requires Poised(st, id) && Sendable(c, st.s.pending[Index(st.s.pending, id)], to, flood)
    ensures var i := Index(st.s.pending, id);
            var p, after := st.s.pending[i], SendAttempt(st, c, id, to, flood, e);
            && |after.s.attempts| == |st.s.attempts| + 1
            && after.s.attempts[|st.s.attempts|].id == id && after.s.attempts[|st.s.attempts|].number == p.attempt
            && after.d.nextSeq == st.d.nextSeq + 1
            && |after.s.pending| == |st.s.pending|
            && var q := after.s.pending[i];
               && q.id == id && q.attempt == p.attempt && q.SameMessage(p.dest, p.text, p.kind, p.timestamp)
               && AttemptHash(c, p, to) in q.accepted && (p.attempt == 0 ==> q.ackHash == AttemptHash(c, p, to))
  {
    var i := Index(st.s.pending, id);
    var p := st.s.pending[i];
    assert p in st.s.pending;
    var ev := AttemptEvent(c, p, to, flood, e);
    DeliverLeavesLog(st, c, id, to, flood, e);
    SP.StepCounts(st.d, ev, e.now);
    SP.StepConserves(st.d, ev, SP.ByOp(0));
    UpdateKeeps(st, i, Noted(c, p, to), id);
    var s := Recorded(st, c, id, to, flood);
    DeliveredPlaces(s, SP.News(st.d, SP.Step(st.d, ev)), e.now, i);
  }

  /** A retry that is due makes the next attempt, while there are attempts left, the
      contact is still there and the packet can go. */
  lemma {:induction false} RetryTriesAgain(st: Stack, c: Crypto, now: nat, id: nat, to: Contact, e: Env)
    requires Invariant(st) && Enabled(st, now, Retry(id, Some(to), e))
    requires var i := Index(st.s.pending, id);
             && st.s.pending[i].attempt < 3
             && Sendable(c, Bump(st, i).s.pending[i], to, st.s.pending[i].attempt == 2)
    ensures var p, after := st.s.pending[Index(st.s.pending, id)], OnRetry(st, c, id, Some(to), e);
            && |after.s.attempts| == |st.s.attempts| + 1
            && after.s.attempts[|st.s.attempts|].id == id && after.s.attempts[|st.s.attempts|].number == p.attempt + 1
            && after.d.nextSeq == st.d.nextSeq + 1
            && exists q :: q in after.s.pending && q.id == id && q.attempt == p.attempt + 1
  {
    var i := Index(st.s.pending, id);
    RetryPoises(st, id);
    BumpKeepsIndex(st, i);
    AttemptIsMade(Bump(st, i), c, id, to, st.s.pending[i].attempt == 2, e);
    var after := OnRetry(st, c, id, Some(to), e);
    assert after.s.pending[i] in after.s.pending;
  }

  /** One that has had its four attempts, whose contact is gone or whose packet cannot
      go is given up, and only that one. */
  lemma {:induction false} RetryGivesUp(st: Stack, c: Crypto, id: nat, found: Option<Contact>, e: Env)
    requires var i := Index(st.s.pending, id);
             && i < |st.s.pending|
             && (st.s.pending[i].attempt >= 3 || found.None?
                 || !Sendable(c, Bump(st, i).s.pending[i], found.value, st.s.pending[i].attempt == 2))
    ensures var after := OnRetry(st, c, id, found, e);
            && after.s.attempts == st.s.attempts && after.d.queue == st.d.queue && after.d.resolved == st.d.resolved
            && forall q :: q in after.s.pending <==> q in st.s.pending && q.id != id
  {
    var i := Index(st.s.pending, id);
    EraseKeeps(st.s.pending, id);
    if st.s.pending[i].attempt < 3 {
      var bumped := Bump(st, i).s.pending;
      BumpKeepsIndex(st, i);
      EraseKeeps(bumped, id);
      assert forall q :: q in bumped && q.id != id ==> q in st.s.pending;
      forall q | q in st.s.pending && q.id != id ensures q in bumped {
        var k :| 0 <= k < |st.s.pending| && st.s.pending[k] == q;
        assert bumped[k] == q;
      }
    }
  }

  /** A caller told a hash has its message pending under it: the one already waiting,
      or a new operation whose first attempt was just made. */
  lemma {:induction false} ToldIsPending(st: Stack, c: Crypto, to: Contact, text: ByteString, kind: Byte, timestamp: int, e: Env)
    requires Invariant(st) && kind != TXT_CLI && SendOutcome(st.s, c, to, text, kind, timestamp).Sent?
    ensures var after := SendText(st, c, to, text, kind, timestamp, e);
            exists p :: p in after.s.pending && p.dest == to.pubkey && p.text == text && p.kind == kind
                        && p.timestamp == timestamp && p.ackHash == SendOutcome(st.s, c, to, text, kind, timestamp).hash
  {
    var twin := Duplicate(st.s.pending, to, text, kind, timestamp);
    var after := SendText(st, c, to, text, kind, timestamp, e);
    if twin < |st.s.pending| {
      assert st.s.pending[twin] in after.s.pending;
    } else {
      var p := Fresh(st.s.nextId, to, text, kind, timestamp);
      NoTwin(st.s.pending, to, text, kind, timestamp);
      RegisterPoises(st, p);
      RegisterKeeps(st, p);
      AttemptIsMade(Register(st, p), c, p.id, to, false, e);
      assert after.s.pending[|st.s.pending|] in after.s.pending;
    }
  }

  lemma NoTwin(pending: seq<Pending>, to: Contact, text: ByteString, kind: Byte, timestamp: int)
    requires Duplicate(pending, to, text, kind, timestamp) == |pending|
    ensures forall q :: q in pending ==> !q.SameMessage(to.pubkey, text, kind, timestamp)
  {}

  /** And one told of a failure has nothing pending that was not pending before. */
  lemma {:induction false} FailedLeavesNothing(st: Stack, c: Crypto, to: Contact, text: ByteString, kind: Byte, timestamp: int,
                                               e: Env)
    requires Invariant(st) && SendOutcome(st.s, c, to, text, kind, timestamp).Failed?
    ensures SendText(st, c, to, text, kind, timestamp, e).d.nextSeq == st.d.nextSeq
    ensures forall p :: p in SendText(st, c, to, text, kind, timestamp, e).s.pending ==> p in st.s.pending
  {
    if kind != TXT_CLI && Registers(st.s, to, text, kind, timestamp) {
      var p := Fresh(st.s.nextId, to, text, kind, timestamp);
      NoTwin(st.s.pending, to, text, kind, timestamp);
      RegisterKeeps(st, p);
      EraseKeeps(st.s.pending + [p], p.id);
    } else if kind == TXT_CLI && to.usable {
      DeliverNothing(st, AttemptEvent(c, Fresh(0, to, text, kind, timestamp), to, false, e), e.now);
    }
  }

  /** Each error says what is wrong: no room for another operation, no secret shared
      with the contact, or a sealed text that is too long. */
  lemma ErrorsAreTrue(s: Outbox, c: Crypto, to: Contact, text: ByteString, kind: Byte, timestamp: int)
    requires SendOutcome(s, c, to, text, kind, timestamp).Failed? && |to.outPath| <= 63
    ensures match SendOutcome(s, c, to, text, kind, timestamp).error
            case PendingFull => kind != TXT_CLI && |s.pending| >= s.limit
            case NoSharedSecret => !to.usable && (kind != TXT_CLI ==> |s.pending| < s.limit)
            case TooLong => to.usable && |c.seal(to.pubkey, TextMessage(timestamp, kind, 0, 0, text).Encode())| > 184
  {}

  lemma DeliverNothing(st: Stack, ev: SP.Event, now: nat)
    requires ev.Sends? && !ev.packet.Valid()
    ensures Moved(st, SP.Step(st.d, ev), now).s == st.s && SP.Step(st.d, ev).nextSeq == st.d.nextSeq
  {
    assert SP.News(st.d, SP.Step(st.d, ev)) == [];
  }

  /** Commands to a repeater are sent once, under no operation. */
  lemma {:induction false} CommandIsSentOnce(st: Stack, c: Crypto, to: Contact, text: ByteString, timestamp: int, e: Env)
    requires Invariant(st) && SendOutcome(st.s, c, to, text, TXT_CLI, timestamp).Sent?
    ensures var after := SendText(st, c, to, text, TXT_CLI, timestamp, e);
            && after.d.nextSeq == st.d.nextSeq + 1 && |after.s.pending| == |st.s.pending|
            && after.s.attempts == st.s.attempts && after.s.nextId == st.s.nextId
  {
    var ev := AttemptEvent(c, Fresh(0, to, text, TXT_CLI, timestamp), to, false, e);
    SP.StepCounts(st.d, ev, e.now);
    SP.StepConserves(st.d, ev, SP.ByOp(0));
    MovedRegisters(st, SP.Step(st.d, ev), e.now);
  }

  // ---- What is queued is what was attempted --------------------------------

  predicate LoggedAs(attempts: seq<Attempted>, q: Queued) {
    && q.priority == 3 && q.expiry == q.notBefore + 30_000
    && exists a :: a in attempts && a.id == q.op && a.packet == q.packet
  }

  /** Every queued packet of an operation is one of its logged attempts, free to go
      at once and worth thirty seconds. */
  ghost predicate Sourced(st: Stack) {
    forall q :: q in st.d.queue && q.op > 0 ==> LoggedAs(st.s.attempts, q)
  }

  lemma LoggedStays(attempts: seq<Attempted>, more: seq<Attempted>, q: Queued)
    requires LoggedAs(attempts, q)
    ensures LoggedAs(attempts + more, q)
  {
    var a :| a in attempts && a.id == q.op && a.packet == q.packet;
    assert a in attempts + more;
  }

  /** An attempt queues the packet it logs and no other. */
  lemma {:induction false} AttemptSourced(st: Stack, c: Crypto, id: nat, to: Contact, flood: bool, e: Env)
    requires Sourced(st)
    ensures Sourced(SendAttempt(st, c, id, to, flood, e))
  {
    var after := SendAttempt(st, c, id, to, flood, e);
    var i := Index(st.s.pending, id);
    if i < |st.s.pending| && to.usable {
      var p := st.s.pending[i];
      var ev := AttemptEvent(c, p, to, flood, e);
      SP.EntriesComeFrom(st.d, ev);
      DeliverLeavesLog(st, c, id, to, flood, e);
      forall q | q in after.d.queue && q.op > 0 ensures LoggedAs(after.s.attempts, q) {
        if q in st.d.queue {
          LoggedStays(st.s.attempts, after.s.attempts[|st.s.attempts|..], q);
        } else {
          assert SP.AskedBy(q, ev) && ev.packet.Valid();
          var note := after.s.attempts[|st.s.attempts|];
          assert note in after.s.attempts && note.id == q.op && note.packet == q.packet;
        }
      }
    }
  }

  lemma {:induction false} DeliverLeavesLog(st: Stack, c: Crypto, id: nat, to: Contact, flood: bool, e: Env)
    requires Index(st.s.pending, id) < |st.s.pending| && to.usable
    ensures var p := st.s.pending[Index(st.s.pending, id)];
            var after := SendAttempt(st, c, id, to, flood, e);
            var ev := AttemptEvent(c, p, to, flood, e);
            && after.d == SP.Step(st.d, ev) && p.id == id && ev.op == id
            && (!ev.packet.Valid() ==> after.s.attempts == st.s.attempts && after.d.queue == st.d.queue)
            && (ev.packet.Valid() ==>
                  after.s.attempts == st.s.attempts + [Attempted(id, p.attempt, to, ev.packet, AttemptHash(c, p, to))])
  {
    var p := st.s.pending[Index(st.s.pending, id)];
    var d := SP.Step(st.d, AttemptEvent(c, p, to, flood, e));
    if Sendable(c, p, to, flood) && |st.d.resolved| <= |d.resolved| {
      DeliverKeepsLog(Recorded(st, c, id, to, flood), SP.News(st.d, d), e.now);
    }
  }

  lemma {:induction false} DeliverKeepsLog(s: Outbox, results: seq<Result>, now: nat)
    ensures Deliver(s, results, now).attempts == s.attempts
    decreases |results|
  {
    if results != [] {
      DeliverKeepsLog(s, results[..|results| - 1], now);
    }
  }

  lemma {:induction false} StepSourced(st: Stack, c: Crypto, now: nat, ev: Event)
    requires Sourced(st) && Enabled(st, now, ev)
    ensures Sourced(Step(st, c, ev))
  {
    match ev
    case Text(to, text, kind, timestamp, e) =>
      var p := Fresh(st.s.nextId, to, text, kind, timestamp);
      if kind != TXT_CLI && Registers(st.s, to, text, kind, timestamp) {
        AttemptSourced(Register(st, p), c, p.id, to, false, e);
      } else if kind == TXT_CLI && to.usable {
        MoveSourced(st, AttemptEvent(c, Fresh(0, to, text, kind, timestamp), to, false, e), e.now);
      }
    case Retry(id, found, e) =>
      var i := Index(st.s.pending, id);
      var p := st.s.pending[i];
      if p.attempt < MAX_ATTEMPTS - 1 && found.Some? {
        AttemptSourced(Bump(st, i), c, id, found.value, p.attempt + 1 == MAX_ATTEMPTS - 1, e);
      }
    case AckArrives(hash, t) =>
    case Sched(sev) => MoveSourced(st, sev, SP.At(sev));
  }

  /** Other people's packets carry no operation. */
  lemma {:induction false} MoveSourced(st: Stack, ev: SP.Event, now: nat)
    requires Sourced(st) && (ev.Sends? ==> ev.op == 0)
    ensures Sourced(Moved(st, SP.Step(st.d, ev), now))
  {
    SP.EntriesComeFrom(st.d, ev);
    var d := SP.Step(st.d, ev);
    if |st.d.resolved| <= |d.resolved| {
      DeliverKeepsLog(st.s, SP.News(st.d, d), now);
    }
  }

  /** Over every run, what the scheduler holds for an operation is exactly a packet
      logged for it, and so routed as the log says. */
  lemma {:induction false} QueuedIsLogged(st: Stack, c: Crypto, now: nat, run: seq<Event>)
    requires Sourced(st) && Legal(st, c, now, run)
    ensures Sourced(Run(st, c, run))
    decreases |run|
  {
    if run != [] {
      var before := run[..|run| - 1];
      QueuedIsLogged(st, c, now, before);
      StepSourced(Run(st, c, before), c, TimeAfter(now, before), run[|run| - 1]);
    }
  }

  // ---- At most four attempts, and none once acked ----------------------

  function Tries(attempts: seq<Attempted>, id: nat): nat {
    if attempts == [] then 0
    else Tries(attempts[..|attempts| - 1], id) + if attempts[|attempts| - 1].id == id then 1 else 0
  }

  lemma {:induction false} RisingNumbersAreFew(attempts: seq<Attempted>, id: nat, bound: nat)
    requires forall i, j :: 0 <= i < j < |attempts| && attempts[i].id == attempts[j].id ==>
               attempts[i].number < attempts[j].number
    requires forall a :: a in attempts && a.id == id ==> a.number < bound
    ensures Tries(attempts, id) <= bound
    decreases |attempts|
  {
    if attempts != [] {
      var last := attempts[|attempts| - 1];
      var rest := attempts[..|attempts| - 1];
      assert last in attempts;
      assert forall i :: 0 <= i < |rest| ==> rest[i] == attempts[i] && rest[i] in attempts;
      RisingNumbersAreFew(rest, id, if last.id == id then last.number else bound);
    }
  }

  lemma AtMostFourAttempts(st: Stack, id: nat)
    requires Invariant(st)
    ensures Tries(st.s.attempts, id) <= MAX_ATTEMPTS
  {
    RisingNumbersAreFew(st.s.attempts, id, MAX_ATTEMPTS);
  }

  /** An operation that is over: acked, abandoned or given up on. */
  predicate Over(s: Outbox, id: nat) {
    0 < id < s.nextId && forall p :: p in s.pending ==> p.id != id
  }

  lemma AttemptLeavesOthers(st: Stack, c: Crypto, id: nat, to: Contact, flood: bool, e: Env, over: nat)
    requires Poised(st, id) && Over(st.s, over)
    ensures var after := SendAttempt(st, c, id, to, flood, e);
            Over(after.s, over) && Tries(after.s.attempts, over) == Tries(st.s.attempts, over)
  {
    var i := Index(st.s.pending, id);
    var p := st.s.pending[i];
    assert p in st.s.pending;
    var ev := AttemptEvent(c, p, to, flood, e);
    EraseKeeps(st.s.pending, id);
    if to.usable && Sendable(c, p, to, flood) {
      var s := Recorded(st, c, id, to, flood);
      assert Over(s, over);
      assert s.attempts[..|s.attempts| - 1] == st.s.attempts;
      UpdateKeeps(st, i, Noted(c, p, to), id);
      var mid := Stack(st.d, s);
      StepPasses(mid, ev);
      DeliverArms(s, SP.News(st.d, SP.Step(st.d, ev)), e.now);
      SameButTimerKeeps(s.pending, Deliver(s, SP.News(st.d, SP.Step(st.d, ev)), e.now).pending);
    }
  }

  lemma {:induction false} StepLeavesOver(st: Stack, c: Crypto, now: nat, ev: Event, over: nat)
    requires Invariant(st) && Enabled(st, now, ev) && Over(st.s, over)
    ensures Over(Step(st, c, ev).s, over)
    ensures Tries(Step(st, c, ev).s.attempts, over) == Tries(st.s.attempts, over)
  {
    match ev
    case Text(to, text, kind, timestamp, e) =>
      TextLeavesOver(st, c, now, to, text, kind, timestamp, e, over);
    case Retry(id, found, e) =>
      RetryLeavesOver(st, c, now, id, found, e, over);
    case AckArrives(hash, _) =>
    case Sched(ev) =>
      SchedLeavesOver(st, ev, now, over);
  }

  lemma {:induction false} TextLeavesOver(st: Stack, c: Crypto, now: nat, to: Contact, text: ByteString, kind: Byte,
                                          timestamp: int, e: Env, over: nat)
    requires Invariant(st) && now <= e.now && Over(st.s, over)
    ensures var after := SendText(st, c, to, text, kind, timestamp, e).s;
            Over(after, over) && Tries(after.attempts, over) == Tries(st.s.attempts, over)
  {
    if kind == TXT_CLI {
      if to.usable {
        var ev := AttemptEvent(c, Fresh(0, to, text, kind, timestamp), to, false, e);
        SchedLeavesOver(st, ev, now, over);
        assert SendText(st, c, to, text, kind, timestamp, e) == Moved(st, SP.Step(st.d, ev), SP.At(ev));
      }
    } else if Registers(st.s, to, text, kind, timestamp) {
      RegisterLeavesOver(st, c, to, Fresh(st.s.nextId, to, text, kind, timestamp), e, over);
    }
  }

  lemma {:induction false} RegisterLeavesOver(st: Stack, c: Crypto, to: Contact, p: Pending, e: Env, over: nat)
    requires Invariant(st) && |st.s.pending| < st.s.limit && Over(st.s, over)
    requires p.id == st.s.nextId && p.attempt == 0 && p.timer.None?
    requires forall q :: q in st.s.pending ==> !q.SameMessage(p.dest, p.text, p.kind, p.timestamp)
    ensures var after := SendAttempt(Register(st, p), c, p.id, to, false, e).s;
            Over(after, over) && Tries(after.attempts, over) == Tries(st.s.attempts, over)
  {
    RegisterPoises(st, p);
    assert Over(Register(st, p).s, over);
    AttemptLeavesOthers(Register(st, p), c, p.id, to, false, e, over);
  }

  lemma SchedLeavesOver(st: Stack, ev: SP.Event, now: nat, over: nat)
    requires Invariant(st) && SP.Enabled(st.d, now, ev) && Over(st.s, over)
    requires ev.Sends? ==> ev.op == 0
    ensures var after := Moved(st, SP.Step(st.d, ev), SP.At(ev)).s;
            Over(after, over) && after.attempts == st.s.attempts
  {
    StepPasses(st, ev);
    MovedOwns(st, SP.Step(st.d, ev), 0, SP.At(ev));
  }

  lemma RetryLeavesOver(st: Stack, c: Crypto, now: nat, id: nat, found: Option<Contact>, e: Env, over: nat)
    requires Invariant(st) && Enabled(st, now, Retry(id, found, e)) && Over(st.s, over)
    ensures var after := OnRetry(st, c, id, found, e).s;
            Over(after, over) && Tries(after.attempts, over) == Tries(st.s.attempts, over)
  {
    var i := Index(st.s.pending, id);
    var p := st.s.pending[i];
    assert p in st.s.pending;
    if p.attempt >= MAX_ATTEMPTS - 1 || found.None? {
      EraseKeeps(st.s.pending, id);
    } else {
      RetryPoises(st, id);
      DistinctUpdate(st.s.pending, i, Bump(st, i).s.pending[i]);
      assert Over(Bump(st, i).s, over);
      AttemptLeavesOthers(Bump(st, i), c, id, found.value, p.attempt + 1 == MAX_ATTEMPTS - 1, e, over);
    }
  }

  /** Once an operation is over, whatever happens later: it stays over and no
      further attempt of it is queued. */
  lemma {:induction false} NoAttemptOnceOver(st: Stack, c: Crypto, now: nat, run: seq<Event>, over: nat)
    requires Invariant(st) && Legal(st, c, now, run) && Over(st.s, over)
    ensures Over(Run(st, c, run).s, over)
    ensures Tries(Run(st, c, run).s.attempts, over) == Tries(st.s.attempts, over)
    decreases |run|
  {
    if run != [] {
      var before := run[..|run| - 1];
      NoSendIsStuck(st, c, now, before);
      NoAttemptOnceOver(st, c, now, before, over);
      StepLeavesOver(Run(st, c, before), c, TimeAfter(now, before), run[|run| - 1], over);
    }
  }

  /** An acknowledgement that matches ends exactly one operation, the first that
      made an attempt with that hash; one that does not match ends none. */
  lemma AckEndsOne(st: Stack, hash: ByteString)
    requires Invariant(st)
    ensures var i := Answered(st.s.pending, hash);
            var after := Complete(st.s, hash);
            if i == |st.s.pending| then after == st.s && forall p :: p in st.s.pending ==> hash !in p.accepted
            else Over(after, st.s.pending[i].id)
                 && forall p :: p in st.s.pending && p.id != st.s.pending[i].id ==> p in after.pending
  {
    var i := Answered(st.s.pending, hash);
    if i < |st.s.pending| {
      assert st.s.pending[i] in st.s.pending;
      var after := Complete(st.s, hash);
      forall p | p in st.s.pending && p.id != st.s.pending[i].id ensures p in after.pending {
        var j :| 0 <= j < |st.s.pending| && st.s.pending[j] == p;
        assert j < i ==> after.pending[j] == p;
        assert j > i ==> after.pending[j - 1] == p;
      }
    }
  }
}
