/**
 Which delays the loop's signed 32-bit reading of the clock can tell from the past.
 A `uint32_t` delay of 2^31 ms or more reads as overdue from the moment it is armed,
 so a timer with one fires at once, and a repeating one again in every pass.
 */
module TimerLimits {
  import opened Clock
  import opened EventLoop

  /** A delay reads as one exactly from one millisecond to just under 2^31. */
  lemma AheadIff(now: nat, delay: nat)
    requires delay < MODULUS
    ensures Gap(now + delay, now) > 0 <==> 1 <= delay < HALF
  {
    if delay >= HALF {
      assert Signed(delay) == Signed(delay - MODULUS) == delay - MODULUS;
    }
  }

  predicate Known(s: State) {
    Ascending(s.timers) && forall i :: 0 <= i < |s.timers| ==> s.timers[i].id < s.nextId
  }

  /** A timer is due the moment it is added unless its delay is within bounds. */
  lemma DueAtOnceIff(s: State, delay: nat, interval: nat)
    requires Known(s) && delay < MODULUS
    ensures var r := Add(s, delay, interval);
            s.nextId in DueIds(r.timers, r.now) <==> delay == 0 || delay >= HALF
  {
    var r := Add(s, delay, interval);
    DueIdsArePressing(r.timers, r.now);
    AheadIff(s.now, delay);
    assert r.timers[|s.timers|].id == s.nextId;
  }

  /** A repeating timer that has just been rung is due again at once exactly when
      its interval is 2^31 ms or more. */
  lemma DueAgainIff(s: State, i: nat)
    requires Known(s) && i < |s.timers| && !s.timers[i].dead && 0 < s.timers[i].interval < MODULUS
    ensures s.timers[i].id in DueIds(Ring(s, i).timers, s.now) <==> s.timers[i].interval >= HALF
  {
    var r := Ring(s, i);
    DueIdsArePressing(r.timers, s.now);
    AheadIff(s.now, s.timers[i].interval);
    assert r.timers[i].id == s.timers[i].id && r.timers[i].due == s.now + s.timers[i].interval;
  }

  // ---- A whole pass ------------------------------------------------------

  /** Cancels nothing and arms delays a `uint32_t` can hold. */
  predicate Adding(a: Action) {
    match a
    case AddTimer(delay) => delay < MODULUS
    case AddRepeating(interval) => interval < MODULUS
    case Cancel(_) => false
    case Stop => true
  }

  predicate Adds(actions: seq<Action>) {
    forall a :: a in actions ==> Adding(a)
  }

  predicate AllTame(actions: seq<Action>) {
    forall a :: a in actions ==> TameAction(a)
  }

  /** The callbacks run from the `from`-th to before the `to`-th are tame. */
  predicate TameBetween(script: Script, from: nat, to: nat) {
    forall k :: from <= k < to ==> AllTame(script(k))
  }

  /** No timer from `from` on is due. */
  predicate ClearFrom(s: State, from: nat) {
    forall i :: from <= i < |s.timers| ==> !Pressing(s.timers[i], s.now)
  }

  /** `r` is `s` with timers added at the end. */
  predicate Extends(s: State, r: State) {
    && Known(r) && r.now == s.now && r.fired == s.fired && s.nextId <= r.nextId
    && |s.timers| <= |r.timers| && r.timers[..|s.timers|] == s.timers
  }

  lemma {:induction false} ActExtends(s: State, a: Action)
    requires Known(s) && Adding(a)
    ensures Extends(s, Act(s, a))
    ensures forall from: nat :: from <= |s.timers| ==> (ClearFrom(Act(s, a), from) <==> ClearFrom(s, from) && TameAction(a))
  {
    var r := Act(s, a);
    if !a.Stop? {
      var delay := if a.AddTimer? then a.delay else if a.interval == 0 then 1 else a.interval;
      AheadIff(s.now, delay);
      assert r.timers == s.timers + [r.timers[|s.timers|]];
      assert Pressing(r.timers[|s.timers|], s.now) <==> !TameAction(a);
    }
  }

  lemma {:induction false} PerformExtends(s: State, actions: seq<Action>, from: nat)
    requires Known(s) && Adds(actions) && from <= |s.timers|
    ensures Extends(s, Perform(s, actions))
    ensures ClearFrom(Perform(s, actions), from) <==> ClearFrom(s, from) && AllTame(actions)
    decreases |actions|
  {
    if actions != [] {
      var before := actions[..|actions| - 1];
      var last := actions[|actions| - 1];
      assert actions == before + [last];
      PerformExtends(s, before, from);
      var mid := Perform(s, before);
      ActExtends(mid, last);
      var r := Perform(s, actions);
      assert r.timers[..|s.timers|] == r.timers[..|mid.timers|][..|s.timers|];
      assert AllTame(actions) <==> AllTame(before) && TameAction(last);
    }
  }

  /** Of the timers of `s`, those in `ids` have been rung in `m` and the others
      left alone. */
  ghost predicate RungIn(s: State, m: State, ids: seq<nat>) {
    && |s.timers| <= |m.timers|
    && forall i :: 0 <= i < |s.timers| ==>
         && m.timers[i].id == s.timers[i].id
         && if s.timers[i].id in ids then Pressing(m.timers[i], s.now) <==> s.timers[i].interval >= HALF
            else m.timers[i] == s.timers[i]
  }

  /** And what was added meanwhile is clear iff the callbacks were tame. */
  ghost predicate Rung(s: State, m: State, ids: seq<nat>, script: Script) {
    && Known(m) && m.now == s.now && s.nextId <= m.nextId && |m.fired| == |s.fired| + |ids|
    && RungIn(s, m, ids)
    && (ClearFrom(m, |s.timers|) <==> TameBetween(script, |s.fired|, |m.fired|))
  }

  ghost predicate OnlyAdds(script: Script) {
    forall n: nat :: Adds(script(n))
  }

  lemma {:induction false} RingsOne(s: State, m: State, ids: seq<nat>, i: nat)
    requires Known(s) && Known(m) && m.now == s.now && RungIn(s, m, ids) && i < |s.timers|
    requires !s.timers[i].dead && s.timers[i].interval < MODULUS && s.timers[i].id !in ids
    ensures Known(Ring(m, i)) && Index(m.timers, s.timers[i].id) == i && !m.timers[i].dead
    ensures RungIn(s, Ring(m, i), ids + [s.timers[i].id])
    ensures ClearFrom(Ring(m, i), |s.timers|) <==> ClearFrom(m, |s.timers|)
  {
    assert m.timers[i] == s.timers[i];
    AheadIff(m.now, m.timers[i].interval);
    RingIndex(m, i);
    var r := Ring(m, i);
    assert forall j :: 0 <= j < |m.timers| && j != i ==> r.timers[j] == m.timers[j];
    assert forall j :: 0 <= j < |s.timers| && j != i ==> s.timers[j].id != s.timers[i].id;
  }

  lemma RingIndex(m: State, i: nat)
    requires Known(m) && i < |m.timers|
    ensures Index(m.timers, m.timers[i].id) == i && Known(Ring(m, i))
  {}

  lemma ExtendsKeepsRung(s: State, m: State, r: State, ids: seq<nat>)
    requires RungIn(s, m, ids) && Extends(m, r)
    ensures RungIn(s, r, ids)
  {
    assert forall j :: 0 <= j < |m.timers| ==> r.timers[j] == r.timers[..|m.timers|][j];
  }

  lemma {:induction false} FireRings(s: State, m: State, ids: seq<nat>, i: nat, script: Script)
    requires Known(s) && OnlyAdds(script) && Rung(s, m, ids, script) && i < |s.timers|
    requires !s.timers[i].dead && s.timers[i].interval < MODULUS && s.timers[i].id !in ids
    ensures Rung(s, Fire(m, s.timers[i].id, script), ids + [s.timers[i].id], script)
  {
    var id := s.timers[i].id;
    RingsOne(s, m, ids, i);
    var rung := Ring(m, i);
    var actions := script(|m.fired|);
    assert Adds(actions);
    PerformExtends(rung, actions, |s.timers|);
    var r := Perform(rung, actions);
    assert Fire(m, id, script) == r;
    ExtendsKeepsRung(s, rung, r, ids + [id]);
    assert TameBetween(script, |s.fired|, |r.fired|) <==> TameBetween(script, |s.fired|, |m.fired|) && AllTame(actions);
  }

  lemma {:induction false} FireAllRings(s: State, ids: seq<nat>, script: Script)
    requires Known(s) && OnlyAdds(script) && Rising(ids)
    requires forall a :: 0 <= a < |ids| ==> Names(s, ids[a])
    ensures Rung(s, FireAll(s, ids, script), ids, script)
    decreases |ids|
  {
    if ids != [] {
      var rest := ids[..|ids| - 1];
      var id := ids[|ids| - 1];
      assert ids == rest + [id];
      assert forall a :: 0 <= a < |rest| ==> rest[a] == ids[a];
      FireAllRings(s, rest, script);
      assert id !in rest by {
        assert forall a :: 0 <= a < |rest| ==> rest[a] == ids[a] < id;
      }
      assert Names(s, ids[|ids| - 1]);
      var i :| 0 <= i < |s.timers| && s.timers[i].id == id && !s.timers[i].dead && s.timers[i].interval < MODULUS;
      FireRings(s, FireAll(s, rest, script), rest, i, script);
    }
  }

  /** The timer an id in `ids` stands for. */
  ghost predicate Names(s: State, id: nat) {
    exists i :: 0 <= i < |s.timers| && s.timers[i].id == id && !s.timers[i].dead && s.timers[i].interval < MODULUS
  }

  lemma DueIdsName(s: State)
    requires Known(s) && forall i :: 0 <= i < |s.timers| ==> s.timers[i].interval < MODULUS
    ensures Rising(DueIds(s.timers, s.now))
    ensures forall a :: 0 <= a < |DueIds(s.timers, s.now)| ==> Names(s, DueIds(s.timers, s.now)[a])
  {
    var ids := DueIds(s.timers, s.now);
    DueIdsArePressing(s.timers, s.now);
    forall a | 0 <= a < |ids| ensures Names(s, ids[a]) {
      assert ids[a] in ids;
      var i :| 0 <= i < |s.timers| && s.timers[i].id == ids[a];
      assert Pressing(s.timers[i], s.now);
    }
  }

  /** Of the timers there were, those still due are the ones rung in vain. */
  lemma RungInVain(s: State, r: State)
    requires Known(s) && r.now == s.now && RungIn(s, r, DueIds(s.timers, s.now))
    ensures forall i :: 0 <= i < |s.timers| ==>
              (Pressing(r.timers[i], r.now) <==> Pressing(s.timers[i], s.now) && s.timers[i].interval >= HALF)
  {
    DueIdsArePressing(s.timers, s.now);
  }

  /** Exactly when a pass leaves nothing due, for callbacks that cancel nothing:
      every due timer that repeats has an interval under 2^31 ms, and so has
      every delay its callback arms, which is also at least one millisecond. */
  lemma {:induction false} PassClearsIff(s: State, script: Script)
    requires Known(s) && OnlyAdds(script) && forall i :: 0 <= i < |s.timers| ==> s.timers[i].interval < MODULUS
    ensures var r := RunDue(s, script);
            ClearFrom(r, 0) <==>
              && (forall i :: 0 <= i < |s.timers| && Pressing(s.timers[i], s.now) ==> s.timers[i].interval < HALF)
              && TameBetween(script, |s.fired|, |s.fired| + |DueIds(s.timers, s.now)|)
  {
    DueIdsName(s);
    FireAllRings(s, DueIds(s.timers, s.now), script);
    var r := RunDue(s, script);
    RungInVain(s, r);
    ClearInParts(r, |s.timers|);
  }

  lemma ClearInParts(r: State, n: nat)
    requires n <= |r.timers|
    ensures ClearFrom(r, 0) <==> ClearFrom(r, n) && forall i :: 0 <= i < n ==> !Pressing(r.timers[i], r.now)
  {}
}
