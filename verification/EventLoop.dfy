/**
 The event loop's timers on a virtual clock (src/daemon/eventloop.cpp). A callback
 may add timers, cancel any timer and stop the loop; what the n-th callback run
 does is given by a script, so that every behaviour of callbacks is some script.
 */
module EventLoop {
  import opened Clock
  import opened Bytes
  import Search

  /** A one-shot timer has interval 0; a dead one waits to be reaped. */
  datatype Timer = Timer(id: nat, due: nat, interval: nat, dead: bool)

  datatype Action = AddTimer(delay: nat) | AddRepeating(interval: nat) | Cancel(id: nat) | Stop

  type Script = nat -> seq<Action>

  datatype Firing = Firing(id: nat, due: nat, at: nat)

  /** `timers` is the id-ordered map. History: the callbacks run, the ids handed
      out to repeating timers, and those cancelled while live. */
  datatype State = State(now: nat, timers: seq<Timer>, nextId: nat, dirty: bool, stopped: bool,
                         fired: seq<Firing>, repeating: set<nat>, cancelled: set<nat>)

  function Index(timers: seq<Timer>, id: nat): nat {
    Search.First(timers, (t: Timer) => t.id == id)
  }

  predicate Live(s: State, id: nat) {
    var i := Index(s.timers, id);
    i < |s.timers| && !s.timers[i].dead
  }

  function Add(s: State, delay: nat, interval: nat): State {
    s.(timers := s.timers + [Timer(s.nextId, s.now + delay, interval, false)], nextId := s.nextId + 1,
       repeating := if interval > 0 then s.repeating + {s.nextId} else s.repeating)
  }

  function CancelTimer(s: State, id: nat): State {
    var i := Index(s.timers, id);
    if i == |s.timers| then s
    else s.(timers := s.timers[i := s.timers[i].(dead := true)], dirty := true,
            cancelled := if s.timers[i].dead then s.cancelled else s.cancelled + {id})
  }

  function Act(s: State, a: Action): State {
    match a
    case AddTimer(delay) => Add(s, delay, 0)
    case AddRepeating(interval) =>
      var every := if interval == 0 then 1 else interval;
      Add(s, every, every)
    case Cancel(id) => CancelTimer(s, id)
    case Stop => s.(stopped := true)
  }

  function Perform(s: State, actions: seq<Action>): State {
    if actions == [] then s else Act(Perform(s, actions[..|actions| - 1]), actions[|actions| - 1])
  }

  /** The timer at `i` is rescheduled or spent before its callback runs. */
  function Ring(s: State, i: nat): State
    requires i < |s.timers|
  {
    var t := s.timers[i];
    var s1 := s.(fired := s.fired + [Firing(t.id, t.due, s.now)]);
    if t.interval > 0 then s1.(timers := s.timers[i := t.(due := s.now + t.interval)])
    else s1.(timers := s.timers[i := t.(dead := true)], dirty := true)
  }

  function Fire(s: State, id: nat, script: Script): State {
    var i := Index(s.timers, id);
    if i == |s.timers| || s.timers[i].dead then s
    else Perform(Ring(s, i), script(|s.fired|))
  }

  function FireAll(s: State, ids: seq<nat>, script: Script): State {
    if ids == [] then s else Fire(FireAll(s, ids[..|ids| - 1], script), ids[|ids| - 1], script)
  }

  function DueIds(timers: seq<Timer>, now: nat): seq<nat> {
    if timers == [] then [] else
      var t := timers[|timers| - 1];
      DueIds(timers[..|timers| - 1], now) + if !t.dead && Gap(t.due, now) <= 0 then [t.id] else []
  }

  /** The snapshot of ids is taken first: a callback may add or cancel timers. */
  function RunDue(s: State, script: Script): State {
    FireAll(s, DueIds(s.timers, s.now), script)
  }

  function Alive(timers: seq<Timer>): seq<Timer> {
    if timers == [] then [] else
      var t := timers[|timers| - 1];
      Alive(timers[..|timers| - 1]) + if t.dead then [] else [t]
  }

  function Reap(s: State): State {
    if !s.dirty then s else s.(timers := Alive(s.timers), dirty := false)
  }

  /** The least wrapped distance to a live timer's due time, if any is live. */
  function NextDue(timers: seq<Timer>, now: nat): Option<int> {
    if timers == [] then None else
      var t := timers[|timers| - 1];
      var rest := NextDue(timers[..|timers| - 1], now);
      if t.dead then rest
      else if rest.None? || Gap(t.due, now) < rest.value then Some(Gap(t.due, now))
      else rest
  }

  // ---- Well-formed loops -----------------------------------------------

  predicate Fits(t: Timer, s: State) {
    && t.id < s.nextId
    && if t.dead then s.dirty else -HALF <= t.due - s.now < HALF && t.interval < HALF
  }

  predicate Rising(ids: seq<nat>) {
    forall a, b :: 0 <= a < b < |ids| ==> ids[a] < ids[b]
  }

  predicate Ascending(timers: seq<Timer>) {
    forall i, j :: 0 <= i < j < |timers| ==> timers[i].id < timers[j].id
  }

  predicate WellFormed(s: State) {
    && Ascending(s.timers)
    && forall i :: 0 <= i < |s.timers| ==> Fits(s.timers[i], s)
  }

  /** Delays of at least one millisecond and under 2^31. */
  predicate TameAction(a: Action) {
    match a
    case AddTimer(delay) => 1 <= delay < HALF
    case AddRepeating(interval) => interval < HALF
    case _ => true
  }

  ghost predicate Tame(script: Script) {
    forall n: nat, a :: a in script(n) ==> TameAction(a)
  }

  predicate Overdue(t: Timer, now: nat) {
    !t.dead && t.due <= now
  }

  /** No live timer is due by `t`. */
  predicate NothingBy(s: State, t: nat) {
    forall i :: 0 <= i < |s.timers| ==> !Overdue(s.timers[i], t)
  }

  /** The timers of `s` are still where they were in `r`, later ones are new and
      in the future, and only those in `touched` were rescheduled. */
  predicate Keeps(s: State, r: State, touched: seq<nat>) {
    && r.now == s.now && s.nextId <= r.nextId && |s.timers| <= |r.timers|
    && (forall i :: 0 <= i < |s.timers| ==>
          && r.timers[i].id == s.timers[i].id && r.timers[i].interval == s.timers[i].interval
          && (s.timers[i].dead ==> r.timers[i].dead)
          && (s.timers[i].interval == 0 ==> r.timers[i].due == s.timers[i].due)
          && (r.timers[i].due == s.timers[i].due || (s.timers[i].id in touched && r.timers[i].due > r.now)))
    && (forall i :: |s.timers| <= i < |r.timers| ==> r.timers[i].due > r.now && r.timers[i].id >= s.nextId)
  }

  lemma ActKeeps(s: State, a: Action)
    requires WellFormed(s) && TameAction(a)
    ensures var r := Act(s, a); WellFormed(r) && Keeps(s, r, []) && r.fired == s.fired
  {
    match a
    case AddTimer(delay) => AddKeeps(s, delay, 0);
    case AddRepeating(interval) =>
      var every := if interval == 0 then 1 else interval;
      AddKeeps(s, every, every);
    case Cancel(id) => CancelKeeps(s, id);
    case Stop =>
      var r := Act(s, a);
      assert forall i :: 0 <= i < |s.timers| ==> Fits(s.timers[i], s) ==> Fits(r.timers[i], r);
  }

  lemma AddKeeps(s: State, delay: nat, interval: nat)
    requires WellFormed(s) && 1 <= delay < HALF && interval < HALF
    ensures var r := Add(s, delay, interval); WellFormed(r) && Keeps(s, r, []) && r.fired == s.fired
  {
    var r := Add(s, delay, interval);
    assert forall i :: 0 <= i < |s.timers| ==> Fits(s.timers[i], s) && r.timers[i] == s.timers[i];
  }

  /** A timer is due its delay from now, under an id of its own. */
  lemma AddedIsDue(s: State, delay: nat, interval: nat)
    requires forall i :: 0 <= i < |s.timers| ==> s.timers[i].id < s.nextId
    ensures var r := Add(s, delay, interval);
            var i := Index(r.timers, s.nextId);
            && i == |s.timers| < |r.timers| && !r.timers[i].dead && r.timers[i].due == s.now + delay
            && r.timers[i].interval == interval && r.nextId == s.nextId + 1
  {
    var r := Add(s, delay, interval);
    assert forall j :: 0 <= j < |s.timers| ==> r.timers[j] == s.timers[j];
    assert r.timers[|s.timers|].id == s.nextId;
  }

  lemma CancelKeeps(s: State, id: nat)
    requires WellFormed(s)
    ensures var r := CancelTimer(s, id); WellFormed(r) && Keeps(s, r, []) && r.fired == s.fired
  {
    var r := CancelTimer(s, id);
    assert forall i :: 0 <= i < |s.timers| ==> Fits(s.timers[i], s) && r.timers[i].id == s.timers[i].id;
  }

  lemma KeepsTrans(a: State, b: State, c: State, first: seq<nat>, second: seq<nat>)
    requires Keeps(a, b, first) && Keeps(b, c, second)
    ensures Keeps(a, c, first + second)
  {}

  lemma {:induction false} PerformKeeps(s: State, actions: seq<Action>)
    requires WellFormed(s) && forall a :: a in actions ==> TameAction(a)
    ensures var r := Perform(s, actions); WellFormed(r) && Keeps(s, r, []) && r.fired == s.fired
    decreases |actions|
  {
    if actions != [] {
      var before := Perform(s, actions[..|actions| - 1]);
      PerformKeeps(s, actions[..|actions| - 1]);
      ActKeeps(before, actions[|actions| - 1]);
      KeepsTrans(s, before, Perform(s, actions), [], []);
    }
  }

  lemma RingKeeps(s: State, i: nat)
    requires WellFormed(s) && i < |s.timers| && !s.timers[i].dead
    ensures WellFormed(Ring(s, i)) && Keeps(s, Ring(s, i), [s.timers[i].id])
    ensures !Overdue(Ring(s, i).timers[i], s.now)
  {}

  lemma {:induction false} FireKeeps(s: State, id: nat, script: Script)
    requires WellFormed(s) && Tame(script)
    ensures var r := Fire(s, id, script);
            && WellFormed(r) && Keeps(s, r, [id])
            && (forall i :: 0 <= i < |r.timers| && r.timers[i].id == id ==> !Overdue(r.timers[i], r.now))
            && var i := Index(s.timers, id);
               r.fired == if i == |s.timers| || s.timers[i].dead then s.fired
                          else s.fired + [Firing(id, s.timers[i].due, s.now)]
  {
    var i := Index(s.timers, id);
    if i < |s.timers| && !s.timers[i].dead {
      var rung := Ring(s, i);
      RingKeeps(s, i);
      PerformKeeps(rung, script(|s.fired|));
      KeepsTrans(s, rung, Fire(s, id, script), [id], []);
      assert [id] + [] == [id];
    } else {
      assert forall j :: 0 <= j < |s.timers| && s.timers[j].id == id ==> j == i;
    }
  }

  /** A pass leaves every timer it was asked to fire dead or in the future. */
  lemma {:induction false} FireAllKeeps(s: State, ids: seq<nat>, script: Script)
    requires WellFormed(s) && Tame(script)
    ensures var r := FireAll(s, ids, script);
            && WellFormed(r) && Keeps(s, r, ids)
            && (forall i :: 0 <= i < |r.timers| && r.timers[i].id in ids ==> !Overdue(r.timers[i], r.now))
    decreases |ids|
  {
    if ids != [] {
      var id := ids[|ids| - 1];
      var rest := ids[..|ids| - 1];
      var mid := FireAll(s, rest, script);
      assert ids == rest + [id];
      FireAllKeeps(s, rest, script);
      FireKeeps(mid, id, script);
      KeepsTrans(s, mid, Fire(mid, id, script), rest, [id]);
    }
  }

  /** Firings added between `s` and `r` are at the time of `r`, for due times
      from `lo` on that had come. */
  predicate FiredSince(s: State, r: State, lo: int) {
    && |s.fired| <= |r.fired| && r.fired[..|s.fired|] == s.fired
    && forall k :: |s.fired| <= k < |r.fired| ==> lo <= r.fired[k].due <= r.fired[k].at == r.now
  }

  lemma UntouchedDue(s: State, mid: State, touched: seq<nat>, id: nat)
    requires Keeps(s, mid, touched) && id !in touched && id < s.nextId
    ensures var i := Index(mid.timers, id);
            i < |mid.timers| ==> i < |s.timers| && s.timers[i].id == id && mid.timers[i].due == s.timers[i].due
  {}

  lemma FireOnTime(s: State, mid: State, touched: seq<nat>, id: nat, script: Script, lo: int)
    requires WellFormed(mid) && Tame(script)
    requires Keeps(s, mid, touched) && id !in touched && id < s.nextId
    requires forall i :: 0 <= i < |s.timers| && s.timers[i].id == id ==> lo <= s.timers[i].due <= s.now
    requires FiredSince(s, mid, lo)
    ensures FiredSince(s, Fire(mid, id, script), lo)
  {
    UntouchedDue(s, mid, touched, id);
    FireKeeps(mid, id, script);
  }

  /** It fires nothing early: each firing is at the time of the pass, for a due
      time the timer had when the pass began. */
  lemma {:induction false} FireAllTimes(s: State, ids: seq<nat>, script: Script, lo: int)
    requires WellFormed(s) && Tame(script) && Rising(ids)
    requires forall i :: 0 <= i < |s.timers| && s.timers[i].id in ids ==> lo <= s.timers[i].due <= s.now
    requires forall a :: 0 <= a < |ids| ==> ids[a] < s.nextId
    ensures FiredSince(s, FireAll(s, ids, script), lo)
    decreases |ids|
  {
    if ids != [] {
      var id := ids[|ids| - 1];
      var rest := ids[..|ids| - 1];
      assert ids == rest + [id];
      FireAllTimes(s, rest, script, lo);
      assert id !in rest by {
        assert forall a :: 0 <= a < |rest| ==> rest[a] == ids[a] < id;
      }
      FireAllKeeps(s, rest, script);
      FireOnTime(s, FireAll(s, rest, script), rest, id, script, lo);
    }
  }

  // ---- Stopping --------------------------------------------------------

  /** Whether one of the callbacks run from the `lo`-th on asked the loop to stop. */
  predicate Told(script: Script, lo: nat, hi: nat) {
    exists n :: lo <= n < hi && Stop in script(n)
  }

  lemma {:induction false} PerformStops(s: State, actions: seq<Action>)
    ensures Perform(s, actions).stopped <==> s.stopped || Stop in actions
    ensures Perform(s, actions).fired == s.fired
    decreases |actions|
  {
    if actions != [] {
      PerformStops(s, actions[..|actions| - 1]);
      assert actions == actions[..|actions| - 1] + [actions[|actions| - 1]];
    }
  }

  /** A pass stops the loop exactly when a callback it ran asked for that, and runs
      the rest of its callbacks all the same. */
  lemma {:induction false} StopsIffTold(s: State, ids: seq<nat>, script: Script)
    ensures var r := FireAll(s, ids, script);
            |s.fired| <= |r.fired| && (r.stopped <==> s.stopped || Told(script, |s.fired|, |r.fired|))
    decreases |ids|
  {
    if ids != [] {
      var rest, id := ids[..|ids| - 1], ids[|ids| - 1];
      StopsIffTold(s, rest, script);
      var mid := FireAll(s, rest, script);
      var i := Index(mid.timers, id);
      if i < |mid.timers| && !mid.timers[i].dead {
        PerformStops(Ring(mid, i), script(|mid.fired|));
      }
    }
  }

  /** Due by the loop's own reading of the clock. */
  predicate Pressing(t: Timer, now: nat) {
    !t.dead && Gap(t.due, now) <= 0
  }

  lemma {:induction false} DueIdsArePressing(timers: seq<Timer>, now: nat)
    requires Ascending(timers)
    ensures forall i :: 0 <= i < |timers| ==> (timers[i].id in DueIds(timers, now) <==> Pressing(timers[i], now))
    ensures forall id :: id in DueIds(timers, now) ==> exists i :: 0 <= i < |timers| && timers[i].id == id
    ensures Rising(DueIds(timers, now))
    decreases |timers|
  {
    if timers != [] {
      var rest := timers[..|timers| - 1];
      var t := timers[|timers| - 1];
      DueIdsArePressing(rest, now);
      var ids := DueIds(rest, now);
      forall a | 0 <= a < |ids| ensures ids[a] < t.id {
        assert ids[a] in ids;
        var i :| 0 <= i < |rest| && rest[i].id == ids[a];
        assert rest[i] == timers[i];
      }
      assert forall i :: 0 <= i < |rest| ==> rest[i] == timers[i];
      assert DueIds(timers, now) == ids || DueIds(timers, now) == ids + [t.id];
    }
  }

  lemma DueIdsAre(timers: seq<Timer>, now: nat)
    requires Ascending(timers)
    requires forall i :: 0 <= i < |timers| && !timers[i].dead ==> -HALF <= timers[i].due - now < HALF
    ensures forall i :: 0 <= i < |timers| ==> (timers[i].id in DueIds(timers, now) <==> Overdue(timers[i], now))
    ensures forall id :: id in DueIds(timers, now) ==> exists i :: 0 <= i < |timers| && timers[i].id == id
    ensures Rising(DueIds(timers, now))
  {
    DueIdsArePressing(timers, now);
    forall i | 0 <= i < |timers| ensures Pressing(timers[i], now) <==> Overdue(timers[i], now) {}
  }

  /** A pass leaves no live timer due, and fires only what was due. */
  lemma {:induction false} RunDueClears(s: State, script: Script, lo: int)
    requires WellFormed(s) && Tame(script)
    requires forall i :: 0 <= i < |s.timers| && Overdue(s.timers[i], s.now) ==> lo <= s.timers[i].due
    ensures var r := RunDue(s, script);
            && WellFormed(r) && NothingBy(r, r.now) && r.now == s.now
            && FiredSince(s, r, lo)
  {
    var ids := DueIds(s.timers, s.now);
    assert forall i :: 0 <= i < |s.timers| ==> Fits(s.timers[i], s);
    DueIdsAre(s.timers, s.now);
    forall a | 0 <= a < |ids| ensures ids[a] < s.nextId {
      assert ids[a] in ids;
      var i :| 0 <= i < |s.timers| && s.timers[i].id == ids[a];
    }
    FireAllKeeps(s, ids, script);
    FireAllTimes(s, ids, script, lo);
    var r := RunDue(s, script);
    forall i | 0 <= i < |r.timers| ensures !Overdue(r.timers[i], r.now) {
      if i < |s.timers| && s.timers[i].id !in ids {
        assert !Overdue(s.timers[i], s.now);
      }
    }
  }

  lemma {:induction false} AliveAre(timers: seq<Timer>)
    requires Ascending(timers)
    ensures Ascending(Alive(timers))
    ensures forall t :: t in Alive(timers) <==> t in timers && !t.dead
    decreases |timers|
  {
    if timers != [] {
      var rest := timers[..|timers| - 1];
      var t := timers[|timers| - 1];
      AliveAre(rest);
      assert timers == rest + [t];
      forall i | 0 <= i < |Alive(rest)| ensures Alive(rest)[i].id < t.id {
        assert Alive(rest)[i] in rest;
      }
    }
  }

  lemma ReapKeeps(s: State)
    requires WellFormed(s)
    ensures WellFormed(Reap(s))
    ensures forall t :: t in Reap(s).timers <==> t in s.timers && !t.dead
  {
    AliveAre(s.timers);
    forall i | 0 <= i < |Alive(s.timers)| ensures Fits(Alive(s.timers)[i], Reap(s)) || !s.dirty {
      assert Alive(s.timers)[i] in s.timers;
      var j :| 0 <= j < |s.timers| && s.timers[j] == Alive(s.timers)[i];
      assert Fits(s.timers[j], s);
    }
    forall t | t in s.timers && !s.dirty ensures !t.dead {
      var j :| 0 <= j < |s.timers| && s.timers[j] == t;
      assert Fits(s.timers[j], s);
    }
  }

  lemma {:induction false} NextDueIsSoonest(timers: seq<Timer>, now: nat)
    requires forall i :: 0 <= i < |timers| && !timers[i].dead ==> -HALF <= timers[i].due - now < HALF
    ensures var due := NextDue(timers, now);
            && (due.None? ==> forall i :: 0 <= i < |timers| ==> timers[i].dead)
            && (due.Some? ==>
                  && (forall i :: 0 <= i < |timers| && !timers[i].dead ==> now + due.value <= timers[i].due)
                  && exists i :: 0 <= i < |timers| && !timers[i].dead && timers[i].due == now + due.value)
    decreases |timers|
  {
    if timers != [] {
      var rest := timers[..|timers| - 1];
      NextDueIsSoonest(rest, now);
      assert forall i :: 0 <= i < |rest| ==> rest[i] == timers[i];
      if NextDue(rest, now).Some? {
        var i :| 0 <= i < |rest| && !rest[i].dead && rest[i].due == now + NextDue(rest, now).value;
        assert timers[i] == rest[i];
      }
    }
  }

  // ---- advance ---------------------------------------------------------

  /** Where the clock stands when the next pass runs, or None when nothing else
      lands before `target`. */
  function Moved(s: State, target: nat): Option<State> {
    var remaining := Gap(target, s.now);
    var due := NextDue(s.timers, s.now);
    if remaining <= 0 || due.None? || due.value > remaining then None
    else Some(if due.value > 0 then s.(now := s.now + due.value) else s)
  }

  lemma {:induction false} MovedKeeps(s: State, target: nat)
    requires WellFormed(s) && s.now <= target && target - s.now < HALF
    ensures var m := Moved(s, target);
            && (m.Some? ==>
                  && WellFormed(m.value) && s.now <= m.value.now <= target
                  && m.value == s.(now := m.value.now)
                  && (m.value.now == s.now ==> !NothingBy(s, s.now))
                  && (m.value.now > s.now ==>
                        forall i :: 0 <= i < |s.timers| && Overdue(s.timers[i], m.value.now) ==>
                             m.value.now <= s.timers[i].due))
            && (m.None? ==> s.now == target || NothingBy(s, target))
  {
    assert forall i :: 0 <= i < |s.timers| ==> Fits(s.timers[i], s);
    NextDueIsSoonest(s.timers, s.now);
    var due := NextDue(s.timers, s.now);
    var m := Moved(s, target);
    if m.Some? {
      var i :| 0 <= i < |s.timers| && !s.timers[i].dead && s.timers[i].due == s.now + due.value;
      assert Overdue(s.timers[i], m.value.now);
      assert forall j :: 0 <= j < |s.timers| ==> Fits(s.timers[j], m.value);
    }
  }

  /** The state the next pass of `advance` runs in, once the dead are reaped. */
  function Next(s: State, target: nat): Option<State> {
    Moved(Reap(s), target)
  }

  lemma {:induction false} ReapLeavesDue(s: State, t: nat)
    requires WellFormed(s)
    ensures NothingBy(Reap(s), t) <==> NothingBy(s, t)
  {
    ReapKeeps(s);
    var r := Reap(s);
    forall i | 0 <= i < |r.timers| && Overdue(r.timers[i], t) ensures !NothingBy(s, t) {
      assert r.timers[i] in r.timers;
      var j :| 0 <= j < |s.timers| && s.timers[j] == r.timers[i];
    }
    forall i | 0 <= i < |s.timers| && Overdue(s.timers[i], t) ensures !NothingBy(r, t) {
      assert s.timers[i] in r.timers;
      var j :| 0 <= j < |r.timers| && r.timers[j] == s.timers[i];
    }
  }

  lemma {:induction false} NextKeeps(s: State, target: nat)
    requires WellFormed(s) && s.now <= target && target - s.now < HALF
    ensures WellFormed(Reap(s)) && Reap(s).now == s.now
    ensures var n := Next(s, target);
            n.Some? ==>
              && WellFormed(n.value) && s.now <= n.value.now <= target
              && n.value == Reap(s).(now := n.value.now)
              && (n.value.now == s.now ==> !NothingBy(s, s.now))
              && (n.value.now > s.now ==>
                    forall i :: 0 <= i < |n.value.timers| && Overdue(n.value.timers[i], n.value.now) ==>
                      n.value.now <= n.value.timers[i].due)
    ensures Next(s, target).None? && (s.now < target || NothingBy(s, s.now)) ==> NothingBy(Reap(s), target)
  {
    ReapKeeps(s);
    MovedKeeps(Reap(s), target);
    ReapLeavesDue(s, s.now);
  }
}
