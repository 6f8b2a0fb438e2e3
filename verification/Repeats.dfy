/**
 Repeating timers under the event loop's passes: each fires once per interval, at
 its due time and every interval after it, until it is cancelled.
 */
module Repeats {
  import opened EventLoop
  import opened EventLoopProofs

  /** The due time after `k` firings that each came when due. */
  function Beat(due: nat, every: nat, k: nat): nat {
    if k == 0 then due else Beat(due, every, k - 1) + every
  }

  /** The timer is cancelled, or live with this due time and this many firings. */
  predicate Stands(s: State, id: nat, every: nat, due: nat, n: nat) {
    id in s.cancelled ||
    (var i := Index(s.timers, id);
     && i < |s.timers| && !s.timers[i].dead && s.timers[i].interval == every && s.timers[i].due == due
     && Fires(s.fired, id) == n)
  }

  lemma ActStands(s: State, a: Action, id: nat, every: nat, due: nat, n: nat)
    requires WellFormed(s) && Stands(s, id, every, due, n)
    ensures Stands(Act(s, a), id, every, due, n)
  {
    match a
    case AddTimer(delay) => IndexAppend(s.timers, Timer(s.nextId, s.now + delay, 0, false), id);
    case AddRepeating(interval) =>
      var v := if interval == 0 then 1 else interval;
      IndexAppend(s.timers, Timer(s.nextId, s.now + v, v, false), id);
    case Cancel(target) => CancelStands(s, target, id, every, due, n);
    case Stop =>
  }

  lemma CancelStands(s: State, target: nat, id: nat, every: nat, due: nat, n: nat)
    requires WellFormed(s) && Stands(s, id, every, due, n)
    ensures Stands(CancelTimer(s, target), id, every, due, n)
  {
    var i := Index(s.timers, target);
    if i < |s.timers| {
      IndexUpdate(s.timers, i, s.timers[i].(dead := true), id);
    }
  }

  lemma {:induction false} PerformStands(s: State, actions: seq<Action>, id: nat, every: nat, due: nat, n: nat)
    requires WellFormed(s) && Stands(s, id, every, due, n) && forall a :: a in actions ==> TameAction(a)
    ensures Stands(Perform(s, actions), id, every, due, n)
    decreases |actions|
  {
    if actions != [] {
      PerformStands(s, actions[..|actions| - 1], id, every, due, n);
      PerformKeeps(s, actions[..|actions| - 1]);
      ActStands(Perform(s, actions[..|actions| - 1]), actions[|actions| - 1], id, every, due, n);
    }
  }

  lemma {:induction false} RingStands(s: State, i: nat, id: nat, every: nat, due: nat, n: nat)
    requires WellFormed(s) && Stands(s, id, every, due, n) && every > 0
    requires i < |s.timers| && !s.timers[i].dead && i == Index(s.timers, s.timers[i].id)
    ensures if s.timers[i].id == id then Stands(Ring(s, i), id, every, s.now + every, n + 1)
            else Stands(Ring(s, i), id, every, due, n)
  {
    var r := Ring(s, i);
    IndexUpdate(s.timers, i, r.timers[i], id);
    assert r.fired[..|r.fired| - 1] == s.fired;
  }

  /** Firing another timer leaves it; firing it moves it on by one interval. */
  lemma {:induction false} FireStands(s: State, target: nat, script: Script, id: nat, every: nat, due: nat, n: nat)
    requires WellFormed(s) && Tame(script) && Stands(s, id, every, due, n) && every > 0
    ensures if target == id then Stands(Fire(s, target, script), id, every, s.now + every, n + 1)
            else Stands(Fire(s, target, script), id, every, due, n)
  {
    var i := Index(s.timers, target);
    if i < |s.timers| && !s.timers[i].dead {
      RingKeeps(s, i);
      RingStands(s, i, id, every, due, n);
      var (d, k) := if target == id then (s.now + every, n + 1) else (due, n);
      PerformStands(Ring(s, i), script(|s.fired|), id, every, d, k);
    }
  }

  lemma {:induction false} FireAllStands(s: State, ids: seq<nat>, script: Script, id: nat, every: nat, due: nat, n: nat)
    requires WellFormed(s) && Tame(script) && Stands(s, id, every, due, n) && every > 0 && Rising(ids)
    ensures if id in ids then Stands(FireAll(s, ids, script), id, every, s.now + every, n + 1)
            else Stands(FireAll(s, ids, script), id, every, due, n)
    decreases |ids|
  {
    if ids != [] {
      var rest, last := ids[..|ids| - 1], ids[|ids| - 1];
      assert ids == rest + [last];
      assert last !in rest by {
        assert forall a :: 0 <= a < |rest| ==> rest[a] == ids[a] < last;
      }
      FireAllStands(s, rest, script, id, every, due, n);
      FireAllKeeps(s, rest, script);
      var (d, k) := if id in rest then (s.now + every, n + 1) else (due, n);
      FireStands(FireAll(s, rest, script), last, script, id, every, d, k);
    }
  }

  // ---- Whole advances ------------------------------------------------------

  /** In `a` the timer repeats and is still to come; in `s`, so much later, it has
      fired once per interval, or was cancelled. */
  predicate Beating(a: State, s: State, i: nat)
    requires i < |a.timers|
  {
    var t := a.timers[i];
    !t.dead && t.interval > 0 && t.due > a.now ==>
      var n0, n := Fires(a.fired, t.id), Fires(s.fired, t.id);
      t.id in s.cancelled
      || (&& n0 <= n && Stands(s, t.id, t.interval, Beat(t.due, t.interval, n - n0), n)
          && (n > n0 ==> Beat(t.due, t.interval, n - n0 - 1) <= s.now))
  }

  ghost predicate AllBeating(a: State, s: State) {
    forall i :: 0 <= i < |a.timers| ==> Beating(a, s, i)
  }

  lemma BeatGrows(due: nat, every: nat, k: nat)
    ensures due <= Beat(due, every, k)
  {}

  lemma SelfBeats(a: State, s: State)
    requires WellFormed(a) && s == a.(stopped := false)
    ensures AllBeating(a, s)
  {
    forall i | 0 <= i < |a.timers| ensures Beating(a, s, i) {
      assert Index(a.timers, a.timers[i].id) == i;
    }
  }

  lemma MoveBeats(a: State, s: State, now: nat)
    requires AllBeating(a, s) && s.now <= now
    ensures AllBeating(a, s.(now := now))
  {
    forall i | 0 <= i < |a.timers| ensures Beating(a, s.(now := now), i) {
      assert Beating(a, s, i);
    }
  }

  lemma {:induction false} ReapStands(s: State, id: nat, every: nat, due: nat, n: nat)
    requires WellFormed(s) && Stands(s, id, every, due, n)
    ensures Stands(Reap(s), id, every, due, n)
  {
    ReapKeeps(s);
    var r := Reap(s);
    var i, j := Index(s.timers, id), Index(r.timers, id);
    if id !in s.cancelled {
      assert s.timers[i] in r.timers;
      var k :| 0 <= k < |r.timers| && r.timers[k] == s.timers[i];
      assert k == j;
    }
  }

  lemma {:induction false} ReapBeats(a: State, s: State)
    requires WellFormed(s) && AllBeating(a, s)
    ensures AllBeating(a, Reap(s))
  {
    forall i | 0 <= i < |a.timers| ensures Beating(a, Reap(s), i) {
      assert Beating(a, s, i);
      var t := a.timers[i];
      if !t.dead && t.interval > 0 && t.due > a.now && t.id !in s.cancelled {
        var n0, n := Fires(a.fired, t.id), Fires(s.fired, t.id);
        ReapStands(s, t.id, t.interval, Beat(t.due, t.interval, n - n0), n);
      }
    }
  }

  /** It is the start, or nothing that is due is late. */
  predicate NoneLate(s: State, start: nat) {
    s.now == start || forall i :: 0 <= i < |s.timers| && Overdue(s.timers[i], s.now) ==> s.now <= s.timers[i].due
  }

  /** One pass, at a time when nothing that is due is late, or at the start. */
  lemma {:induction false} RunDueBeats(a: State, s: State, script: Script)
    requires WellFormed(s) && Tame(script) && AllBeating(a, s)
    requires NoneLate(s, a.now)
    ensures AllBeating(a, RunDue(s, script))
  {
    forall i | 0 <= i < |a.timers| ensures Beating(a, RunDue(s, script), i) {
      OneBeats(a, s, script, i);
    }
  }

  lemma {:induction false} OneBeats(a: State, s: State, script: Script, i: nat)
    requires WellFormed(s) && Tame(script) && i < |a.timers| && Beating(a, s, i)
    requires NoneLate(s, a.now)
    ensures Beating(a, RunDue(s, script), i)
  {
    var t := a.timers[i];
    if !t.dead && t.interval > 0 && t.due > a.now {
      if t.id in s.cancelled {
        CancelledStays(s, DueIds(s.timers, s.now), script, t.id);
      } else {
        LiveBeats(a, s, script, i, Fires(s.fired, t.id) - Fires(a.fired, t.id));
      }
    }
  }

  lemma {:induction false} LiveBeats(a: State, s: State, script: Script, i: nat, k: nat)
    requires WellFormed(s) && Tame(script) && NoneLate(s, a.now) && i < |a.timers|
    requires var t := a.timers[i];
             && !t.dead && t.interval > 0 && t.due > a.now && t.id !in s.cancelled
             && Stands(s, t.id, t.interval, Beat(t.due, t.interval, k), Fires(a.fired, t.id) + k)
             && (k > 0 ==> Beat(t.due, t.interval, k - 1) <= s.now)
    ensures Beating(a, RunDue(s, script), i)
  {
    var t := a.timers[i];
    var n := Fires(a.fired, t.id) + k;
    var due := Beat(t.due, t.interval, k);
    BeatGrows(t.due, t.interval, k);
    PassStands(s, script, t.id, t.interval, due, n, a.now);
    SameTime(s, script);
    StandsBeats(a, RunDue(s, script), i, if due == s.now then k + 1 else k);
  }

  lemma SameTime(s: State, script: Script)
    requires WellFormed(s) && Tame(script)
    ensures RunDue(s, script).now == s.now
  {
    FireAllKeeps(s, DueIds(s.timers, s.now), script);
  }

  lemma StandsBeats(a: State, r: State, i: nat, k: nat)
    requires i < |a.timers|
    requires var t := a.timers[i];
             && Stands(r, t.id, t.interval, Beat(t.due, t.interval, k), Fires(a.fired, t.id) + k)
             && (k > 0 ==> Beat(t.due, t.interval, k - 1) <= r.now)
    ensures Beating(a, r, i)
  {}

  /** A timer due at the time of the pass moves on by one interval, one still to
      come is left alone. */
  lemma {:induction false} PassStands(s: State, script: Script, id: nat, every: nat, due: nat, n: nat, start: nat)
    requires WellFormed(s) && Tame(script) && every > 0 && id !in s.cancelled && Stands(s, id, every, due, n) && due > start
    requires NoneLate(s, start)
    ensures var r := RunDue(s, script);
            if due == s.now then Stands(r, id, every, due + every, n + 1) else Stands(r, id, every, due, n)
  {
    assert forall j :: 0 <= j < |s.timers| ==> Fits(s.timers[j], s);
    DueIdsAre(s.timers, s.now);
    var k := Index(s.timers, id);
    assert s.timers[k].id in DueIds(s.timers, s.now) <==> due == s.now;
    FireAllStands(s, DueIds(s.timers, s.now), script, id, every, due, n);
  }

  lemma {:induction false} CancelledStays(s: State, ids: seq<nat>, script: Script, id: nat)
    requires id in s.cancelled
    ensures id in FireAll(s, ids, script).cancelled
    decreases |ids|
  {
    if ids != [] {
      var mid := FireAll(s, ids[..|ids| - 1], script);
      CancelledStays(s, ids[..|ids| - 1], script, id);
      var i := Index(mid.timers, ids[|ids| - 1]);
      if i < |mid.timers| && !mid.timers[i].dead {
        PerformKeepsCancelled(Ring(mid, i), script(|mid.fired|), id);
      }
    }
  }

  lemma {:induction false} PerformKeepsCancelled(s: State, actions: seq<Action>, id: nat)
    requires id in s.cancelled
    ensures id in Perform(s, actions).cancelled
    decreases |actions|
  {
    if actions != [] {
      PerformKeepsCancelled(s, actions[..|actions| - 1], id);
    }
  }

  /** How often a timer first due at `due` comes by `target`. */
  function Count(due: nat, every: nat, target: nat): nat
    requires every > 0
  {
    if due > target then 0 else (target - due) / every + 1
  }

  lemma BeatIsLinear(due: nat, every: nat, k: nat)
    ensures Beat(due, every, k) == due + k * every
  {
    if k > 0 {
      BeatIsLinear(due, every, k - 1);
      assert k * every == (k - 1) * every + every;
    }
  }

  lemma CountIs(due: nat, every: nat, target: nat, k: nat)
    requires every > 0 && target < Beat(due, every, k) && (k > 0 ==> Beat(due, every, k - 1) <= target)
    ensures k == Count(due, every, target)
  {
    BeatIsLinear(due, every, k);
    if k > 0 {
      BeatIsLinear(due, every, k - 1);
      assert (k - 1) * every <= target - due < (k - 1) * every + every;
      Quotient(target - due, every, k - 1);
    }
  }

  lemma {:induction false} MultiplesApart(a: nat, b: nat, v: nat)
    ensures a < b ==> a * v + v <= b * v
    decreases b
  {
    if b > 0 {
      assert b * v == (b - 1) * v + v;
      MultiplesApart(a, b - 1, v);
    }
  }

  lemma Quotient(x: nat, every: nat, q: nat)
    requires every > 0 && q * every <= x < q * every + every
    ensures x / every == q
  {
    var d := x / every;
    assert d * every <= x < d * every + every;
    MultiplesApart(d, q, every);
    MultiplesApart(q, d, every);
  }

  /** Once nothing is left due by `r.now`, a repeating timer that was still to come
      in `a` has fired once per interval up to then, or was cancelled. */
  lemma {:induction false} RepeatsFired(a: State, r: State, i: nat)
    requires i < |a.timers| && Beating(a, r, i) && NothingBy(r, r.now)
    requires !a.timers[i].dead && a.timers[i].interval > 0 && a.timers[i].due > a.now
    ensures var t := a.timers[i];
            t.id in r.cancelled || Fires(r.fired, t.id) == Fires(a.fired, t.id) + Count(t.due, t.interval, r.now)
  {
    var t := a.timers[i];
    if t.id !in r.cancelled {
      var n0, n := Fires(a.fired, t.id), Fires(r.fired, t.id);
      var k := Index(r.timers, t.id);
      assert !Overdue(r.timers[k], r.now);
      CountIs(t.due, t.interval, r.now, n - n0);
    }
  }
}
