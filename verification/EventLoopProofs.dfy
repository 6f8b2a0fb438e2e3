/**
 What `advance` does to every timer, for every behaviour of callbacks whose delays
 are between 1 ms and 2^31 ms: nothing fires early, a one-shot timer due in the
 span fires exactly once unless it is cancelled first, a cancelled one never
 fires, and the clock lands on the target.
 */
module EventLoopProofs {
  import opened EventLoop

  function Fires(fired: seq<Firing>, id: nat): nat {
    if fired == [] then 0
    else Fires(fired[..|fired| - 1], id) + if fired[|fired| - 1].id == id then 1 else 0
  }

  predicate Kinds(s: State) {
    && (forall i :: 0 <= i < |s.timers| ==> (s.timers[i].interval > 0 <==> s.timers[i].id in s.repeating))
    && (forall id :: id in s.repeating ==> id < s.nextId)
  }

  /** The whole story of one id: not yet handed out; cancelled, and then no
      longer live; and if one-shot, fired once unless live or cancelled. */
  predicate Told(s: State, id: nat) {
    && (id >= s.nextId ==> !Live(s, id) && Fires(s.fired, id) == 0 && id !in s.cancelled)
    && (id in s.cancelled ==> !Live(s, id))
    && (id < s.nextId && id !in s.repeating ==>
          Fires(s.fired, id) == if Live(s, id) || id in s.cancelled then 0 else 1)
  }

  /** A step at most adds firings of live timers: what is over stays over. */
  predicate Follows(s: State, r: State, id: nat) {
    && s.nextId <= r.nextId && s.repeating <= r.repeating && s.cancelled <= r.cancelled
    && (id < s.nextId ==> (id in r.repeating <==> id in s.repeating))
    && (id < s.nextId && !Live(s, id) ==> !Live(r, id) && Fires(r.fired, id) == Fires(s.fired, id))
  }

  lemma ActTells(s: State, a: Action, id: nat)
    requires WellFormed(s) && Kinds(s) && Told(s, id)
    ensures var r := Act(s, a); Kinds(r) && Told(r, id) && Follows(s, r, id)
  {
    match a
    case AddTimer(delay) => AddTells(s, delay, 0, id);
    case AddRepeating(interval) =>
      AddTells(s, if interval == 0 then 1 else interval, if interval == 0 then 1 else interval, id);
    case Cancel(target) => CancelTells(s, target, id);
    case Stop =>
  }

  lemma CancelTells(s: State, target: nat, id: nat)
    requires WellFormed(s) && Kinds(s) && Told(s, id)
    ensures var r := CancelTimer(s, target); Kinds(r) && Told(r, id) && Follows(s, r, id)
  {
    var i := Index(s.timers, target);
    if i < |s.timers| {
      assert Fits(s.timers[i], s);
      IndexUpdate(s.timers, i, s.timers[i].(dead := true), id);
    }
  }

  lemma IndexAppend(timers: seq<Timer>, t: Timer, id: nat)
    ensures Index(timers + [t], id) == if Index(timers, id) < |timers| then Index(timers, id)
                                       else if t.id == id then |timers| else |timers| + 1
  {
    var all := timers + [t];
    assert forall i :: 0 <= i < |timers| ==> all[i] == timers[i];
    assert all[|timers|] == t;
  }

  lemma IndexUpdate(timers: seq<Timer>, i: nat, t: Timer, id: nat)
    requires i < |timers| && t.id == timers[i].id
    ensures Index(timers[i := t], id) == Index(timers, id)
  {
    var all := timers[i := t];
    assert forall j :: 0 <= j < |timers| ==> all[j].id == timers[j].id;
  }

  lemma AddTells(s: State, delay: nat, interval: nat, id: nat)
    requires WellFormed(s) && Kinds(s) && Told(s, id)
    ensures var r := Add(s, delay, interval); Kinds(r) && Told(r, id) && Follows(s, r, id)
  {
    assert forall i :: 0 <= i < |s.timers| ==> Fits(s.timers[i], s);
    IndexAppend(s.timers, Timer(s.nextId, s.now + delay, interval, false), id);
  }

  lemma {:induction false} PerformTells(s: State, actions: seq<Action>, id: nat)
    requires WellFormed(s) && Kinds(s) && Told(s, id) && forall a :: a in actions ==> TameAction(a)
    ensures var r := Perform(s, actions); Kinds(r) && Told(r, id) && Follows(s, r, id)
    decreases |actions|
  {
    if actions != [] {
      PerformTells(s, actions[..|actions| - 1], id);
      PerformKeeps(s, actions[..|actions| - 1]);
      ActTells(Perform(s, actions[..|actions| - 1]), actions[|actions| - 1], id);
    }
  }

  lemma {:induction false} FireTells(s: State, target: nat, script: Script, id: nat)
    requires WellFormed(s) && Tame(script) && Kinds(s) && Told(s, id)
    ensures var r := Fire(s, target, script); Kinds(r) && Told(r, id) && Follows(s, r, id)
  {
    var i := Index(s.timers, target);
    if i < |s.timers| && !s.timers[i].dead {
      RingKeeps(s, i);
      RingTells(s, i, id);
      PerformTells(Ring(s, i), script(|s.fired|), id);
    }
  }

  lemma {:induction false} RingTells(s: State, i: nat, id: nat)
    requires WellFormed(s) && Kinds(s) && Told(s, id)
    requires i < |s.timers| && !s.timers[i].dead && i == Index(s.timers, s.timers[i].id)
    ensures Told(Ring(s, i), id) && Kinds(Ring(s, i)) && Follows(s, Ring(s, i), id)
  {
    var rung := Ring(s, i);
    assert Fits(s.timers[i], s);
    IndexUpdate(s.timers, i, rung.timers[i], id);
    assert rung.fired[..|rung.fired| - 1] == s.fired;
  }

  lemma {:induction false} FireAllTells(s: State, ids: seq<nat>, script: Script, id: nat)
    requires WellFormed(s) && Tame(script) && Kinds(s) && Told(s, id)
    ensures var r := FireAll(s, ids, script); Kinds(r) && Told(r, id) && Follows(s, r, id)
    decreases |ids|
  {
    if ids != [] {
      FireAllTells(s, ids[..|ids| - 1], script, id);
      FireAllKeeps(s, ids[..|ids| - 1], script);
      FireTells(FireAll(s, ids[..|ids| - 1], script), ids[|ids| - 1], script, id);
    }
  }

  lemma ReapTells(s: State, id: nat)
    requires WellFormed(s) && Kinds(s) && Told(s, id)
    ensures var r := Reap(s); Kinds(r) && Told(r, id) && Follows(s, r, id) && (Live(r, id) <==> Live(s, id))
  {
    ReapKeeps(s);
    var r := Reap(s);
    var i, j := Index(s.timers, id), Index(r.timers, id);
    if i < |s.timers| && !s.timers[i].dead {
      assert s.timers[i] in r.timers;
      assert !r.timers[j].dead by {
        assert r.timers[j] in r.timers;
      }
    }
    if j < |r.timers| {
      assert r.timers[j] in r.timers;
      assert r.timers[j] in s.timers && !r.timers[j].dead;
      var k :| 0 <= k < |s.timers| && s.timers[k] == r.timers[j];
      assert k == i;
    }
    forall k | 0 <= k < |r.timers| ensures r.timers[k].interval > 0 <==> r.timers[k].id in r.repeating {
      assert r.timers[k] in r.timers;
      var m :| 0 <= m < |s.timers| && s.timers[m] == r.timers[k];
    }
  }

  /** Neither early nor late: at its due time, or at once if already overdue. */
  predicate OnTime(f: Firing, start: nat, target: nat) {
    f.due <= f.at <= target && (f.at == f.due || f.at == start)
  }

  predicate NewOnTime(s: State, r: State, start: nat, target: nat) {
    && |s.fired| <= |r.fired| && r.fired[..|s.fired|] == s.fired
    && forall k :: |s.fired| <= k < |r.fired| ==> OnTime(r.fired[k], start, target)
  }

  lemma NewOnTimeTrans(a: State, b: State, c: State, start: nat, target: nat)
    requires NewOnTime(a, b, start, target) && NewOnTime(b, c, start, target)
    ensures NewOnTime(a, c, start, target)
  {
    assert forall k :: 0 <= k < |b.fired| ==> c.fired[..|b.fired|][k] == b.fired[k];
    assert c.fired[..|a.fired|] == c.fired[..|b.fired|][..|a.fired|];
  }

  /** One-shot timer `id`, wherever it still is, has due time `due`. */
  predicate Pinned(s: State, id: nat, due: nat) {
    && id < s.nextId
    && forall i :: 0 <= i < |s.timers| && s.timers[i].id == id ==> s.timers[i].interval == 0 && s.timers[i].due == due
  }

  lemma ReapPins(s: State, id: nat, due: nat)
    requires WellFormed(s) && Pinned(s, id, due)
    ensures Pinned(Reap(s), id, due)
  {
    ReapKeeps(s);
    var r := Reap(s);
    forall i | 0 <= i < |r.timers| && r.timers[i].id == id ensures r.timers[i].interval == 0 && r.timers[i].due == due {
      assert r.timers[i] in r.timers;
      var j :| 0 <= j < |s.timers| && s.timers[j] == r.timers[i];
    }
  }

  lemma RunDuePins(s: State, script: Script, id: nat, due: nat)
    requires WellFormed(s) && Tame(script) && Pinned(s, id, due)
    ensures Pinned(RunDue(s, script), id, due)
  {
    FireAllKeeps(s, DueIds(s.timers, s.now), script);
  }

  lemma OneShotIsLive(s: State, i: nat)
    requires WellFormed(s) && Kinds(s) && i < |s.timers| && !s.timers[i].dead && s.timers[i].interval == 0
    ensures Live(s, s.timers[i].id) && s.timers[i].id !in s.repeating && s.timers[i].id < s.nextId
    ensures Pinned(s, s.timers[i].id, s.timers[i].due)
  {
    assert Fits(s.timers[i], s);
    assert forall j :: 0 <= j < |s.timers| && s.timers[j].id == s.timers[i].id ==> j == i;
  }

  lemma PinnedIsOver(r: State, id: nat, due: nat)
    requires Pinned(r, id, due) && NothingBy(r, r.now) && due <= r.now
    ensures !Live(r, id)
  {
    var k := Index(r.timers, id);
    if k < |r.timers| {
      assert !Overdue(r.timers[k], r.now);
    }
  }

  // ---- Whole advances --------------------------------------------------

  ghost predicate AllTold(s: State) {
    Kinds(s) && forall id: nat :: Told(s, id)
  }

  /** What any number of passes of `advance` do, from `s` at the start to `r`:
      the story of every id stays true, what is over stays over, one-shot due
      times do not change, and every firing is on time. */
  ghost predicate Continues(s: State, r: State, target: nat) {
    && AllTold(r) && NewOnTime(s, r, s.now, target)
    && (forall id: nat :: Follows(s, r, id))
    && (forall id: nat, due: nat :: Pinned(s, id, due) ==> Pinned(r, id, due))
  }

  lemma ContinuesTrans(a: State, b: State, c: State, target: nat)
    requires Continues(a, b, target) && AllTold(c)
    requires NewOnTime(b, c, a.now, target)
    requires forall id: nat :: Follows(b, c, id)
    requires forall id: nat, due: nat :: Pinned(b, id, due) ==> Pinned(c, id, due)
    ensures Continues(a, c, target)
  {
    NewOnTimeTrans(a, b, c, a.now, target);
    forall id: nat ensures Follows(a, c, id) {
      assert Follows(a, b, id) && Follows(b, c, id);
    }
  }

  lemma {:induction false} ReapContinues(a: State, s: State, target: nat)
    requires WellFormed(s) && Continues(a, s, target)
    ensures Continues(a, Reap(s), target)
  {
    var r := Reap(s);
    ReapTells(s, 0);
    forall id: nat ensures Told(r, id) && Follows(s, r, id) {
      ReapTells(s, id);
    }
    forall id: nat, due: nat | Pinned(s, id, due) ensures Pinned(r, id, due) {
      ReapPins(s, id, due);
    }
    assert r.fired == s.fired;
    ContinuesTrans(a, s, r, target);
  }

  /** The clock alone moves. */
  lemma MoveContinues(a: State, s: State, now: nat, target: nat)
    requires Continues(a, s, target)
    ensures Continues(a, s.(now := now), target)
  {
    var r := s.(now := now);
    forall id: nat ensures Told(r, id) && Follows(s, r, id) {
      assert Told(s, id);
    }
    forall id: nat, due: nat | Pinned(s, id, due) ensures Pinned(r, id, due) {}
    ContinuesTrans(a, s, r, target);
  }

  lemma {:induction false} RunDueContinues(a: State, s: State, script: Script, target: nat, lo: int)
    requires WellFormed(s) && Tame(script) && Continues(a, s, target) && a.now <= s.now <= target
    requires forall i :: 0 <= i < |s.timers| && Overdue(s.timers[i], s.now) ==> lo <= s.timers[i].due
    requires lo == s.now || s.now == a.now
    ensures Continues(a, RunDue(s, script), target)
    ensures WellFormed(RunDue(s, script)) && RunDue(s, script).now == s.now
    ensures NothingBy(RunDue(s, script), s.now)
  {
    var r := RunDue(s, script);
    RunDueClears(s, script, lo);
    assert NewOnTime(s, r, a.now, target);
    assert Told(s, 0);
    FireAllTells(s, DueIds(s.timers, s.now), script, 0);
    forall id: nat ensures Told(r, id) && Follows(s, r, id) {
      assert Told(s, id);
      FireAllTells(s, DueIds(s.timers, s.now), script, id);
    }
    forall id: nat, due: nat | Pinned(s, id, due) ensures Pinned(r, id, due) {
      RunDuePins(s, script, id, due);
    }
    ContinuesTrans(a, s, r, target);
  }

  lemma ContinuesSelf(s: State, r: State, target: nat)
    requires AllTold(s) && r == s.(stopped := false)
    ensures Continues(s, r, target)
  {
    forall id: nat ensures Told(r, id) && Follows(s, r, id) {
      assert Told(s, id);
    }
    forall id: nat, due: nat | Pinned(s, id, due) ensures Pinned(r, id, due) {}
  }

  /** A one-shot timer that was live at the start and due by the end fired
      exactly once in between, unless it was cancelled first and never fired. */
  ghost predicate FiredOnce(s: State, r: State, i: nat)
    requires i < |s.timers|
  {
    var id := s.timers[i].id;
    && Fires(s.fired, id) == 0 && !Live(r, id)
    && Fires(r.fired, id) == if id in r.cancelled then 0 else 1
  }

  lemma {:induction false} DueOneShotsFired(s: State, r: State, i: nat)
    requires WellFormed(s) && AllTold(s) && i < |s.timers| && !s.timers[i].dead && s.timers[i].interval == 0
    requires Continues(s, r, r.now) && NothingBy(r, r.now) && s.timers[i].due <= r.now
    ensures FiredOnce(s, r, i)
  {
    var id := s.timers[i].id;
    OneShotIsLive(s, i);
    PinnedIsOver(r, id, s.timers[i].due);
    assert Told(s, id) && Told(r, id) && Follows(s, r, id);
  }
}
