/**
 The event loop object: the timer map and clock that `EventLoop` describes the
 steps of, changed in place, and `advance` over them.
 */
module VirtualLoop {
  import opened Clock
  import opened Bytes
  import E = EventLoop
  import opened EventLoopProofs
  import opened TimerLimits
  import opened Repeats

  class EventLoop {
    const script: E.Script
    var now: nat
    var timers: seq<E.Timer>
    var nextId: nat
    var dirty: bool
    var stopped: bool
    var fired: seq<E.Firing>
    ghost var repeating: set<nat>
    ghost var cancelled: set<nat>

    ghost function Model(): E.State
      reads this
    {
      E.State(now, timers, nextId, dirty, stopped, fired, repeating, cancelled)
    }

    constructor (now: nat, script: E.Script)
      ensures this.script == script && Model() == E.State(now, [], 1, false, false, [], {0}, {})
      ensures E.WellFormed(Model()) && AllTold(Model())
    {
      this.now, this.script := now, script;
      timers, nextId, dirty, stopped := [], 1, false, false;
      // Id 0 is never handed out: a handle that holds it is inert.
      fired, repeating, cancelled := [], {0}, {};
    }

    method AddEntry(delay: nat, interval: nat) returns (id: nat)
      modifies this
      ensures Model() == E.Add(old(Model()), delay, interval) && id == old(nextId)
    {
      id := nextId;
      nextId := nextId + 1;
      timers := timers + [E.Timer(id, now + delay, interval, false)];
      if interval > 0 {
        repeating := repeating + {id};
      }
    }

    method Find(id: nat) returns (i: nat)
      ensures i == E.Index(timers, id)
    {
      i := 0;
      while i < |timers| && timers[i].id != id
        invariant i <= |timers|
        invariant forall j :: 0 <= j < i ==> timers[j].id != id
      {
        i := i + 1;
      }
    }

    method CancelTimer(id: nat)
      modifies this
      ensures Model() == E.CancelTimer(old(Model()), id)
    {
      var i := Find(id);
      if i == |timers| {
        return;
      }
      if !timers[i].dead {
        cancelled := cancelled + {id};
      }
      timers := timers[i := timers[i].(dead := true)];
      dirty := true;
    }

    /** Runs one callback: what it does is its entry in the script. */
    method Perform(actions: seq<E.Action>)
      modifies this
      ensures Model() == E.Perform(old(Model()), actions)
    {
      for i := 0 to |actions|
        invariant Model() == E.Perform(old(Model()), actions[..i])
      {
        assert actions[..i + 1][..i] == actions[..i];
        match actions[i]
        case AddTimer(delay) =>
          var id := AddEntry(delay, 0);
        case AddRepeating(interval) =>
          var every := if interval == 0 then 1 else interval;
          var id := AddEntry(every, every);
        case Cancel(id) =>
          CancelTimer(id);
        case Stop =>
          stopped := true;
      }
      assert actions[..|actions|] == actions;
    }

    method Fire(id: nat)
      modifies this
      ensures Model() == E.Fire(old(Model()), id, script)
    {
      var i := Find(id);
      if i == |timers| || timers[i].dead {
        return;
      }
      var t := timers[i];
      var actions := script(|fired|);
      fired := fired + [E.Firing(id, t.due, now)];
      if t.interval > 0 {
        timers := timers[i := t.(due := now + t.interval)];
      } else {
        timers := timers[i := t.(dead := true)];
        dirty := true;
      }
      Perform(actions);
    }

    method RunDueTimers()
      modifies this
      ensures Model() == E.RunDue(old(Model()), script)
    {
      var due: seq<nat> := [];
      for i := 0 to |timers|
        invariant due == E.DueIds(timers[..i], now)
        invariant Model() == old(Model())
      {
        assert timers[..i + 1][..i] == timers[..i];
        if !timers[i].dead && Gap(timers[i].due, now) <= 0 {
          due := due + [timers[i].id];
        }
      }
      assert timers[..|timers|] == timers;
      for i := 0 to |due|
        invariant Model() == E.FireAll(old(Model()), due[..i], script)
      {
        assert due[..i + 1][..i] == due[..i];
        Fire(due[i]);
      }
      assert due[..|due|] == due;
    }

    method Reap()
      modifies this`timers, this`dirty
      ensures Model() == E.Reap(old(Model()))
    {
      if !dirty {
        return;
      }
      var kept: seq<E.Timer> := [];
      for i := 0 to |timers|
        invariant kept == E.Alive(timers[..i])
        invariant timers == old(timers)
      {
        assert timers[..i + 1][..i] == timers[..i];
        if !timers[i].dead {
          kept := kept + [timers[i]];
        }
      }
      assert timers[..|timers|] == timers;
      timers := kept;
      dirty := false;
    }

    method NextDueMs() returns (soonest: Option<int>)
      ensures soonest == E.NextDue(timers, now)
    {
      soonest := None;
      for i := 0 to |timers|
        invariant soonest == E.NextDue(timers[..i], now)
      {
        assert timers[..i + 1][..i] == timers[..i];
        if !timers[i].dead {
          var remaining := Gap(timers[i].due, now);
          if soonest.None? || remaining < soonest.value {
            soonest := Some(remaining);
          }
        }
      }
      assert timers[..|timers|] == timers;
    }

    /** One turn of the loop in `advance`, once the dead are reaped: move to the
        soonest timer and run what is due, or report that nothing else lands
        before the target. */
    method Turn(target: nat) returns (ran: bool)
      modifies this
      ensures ran == E.Next(old(Model()), target).Some?
      ensures Model() == if ran then E.RunDue(E.Next(old(Model()), target).value, script) else E.Reap(old(Model()))
    {
      ghost var before := Model();
      Reap();
      var remaining := Gap(target, now);
      var due := NextDueMs();
      if remaining <= 0 || due.None? || due.value > remaining {
        assert E.Next(before, target).None?;
        return false;
      }
      if due.value > 0 {
        now := now + due.value;
      }
      assert E.Next(before, target) == Some(Model());
      RunDueTimers();
      return true;
    }

    /** Turn after turn until nothing else lands before the target, or a callback
        stops the loop. */
    method Spin(target: nat, ghost start: E.State)
      requires E.WellFormed(Model()) && E.Tame(script) && Continues(start, Model(), target) && AllBeating(start, Model())
      requires !stopped && now == start.now && fired == start.fired && now <= target < now + MODULUS
      modifies this
      ensures E.WellFormed(Model()) && Continues(start, Model(), target) && AllBeating(start, Model())
      ensures start.now <= now <= target
      ensures 0 < target - start.now < HALF && !stopped ==> E.NothingBy(Model(), target)
      ensures target - start.now >= HALF ==> now == start.now && fired == start.fired
    {
      var done := false;
      while !stopped && !done
        invariant E.WellFormed(Model()) && Continues(start, Model(), target) && AllBeating(start, Model())
        invariant start.now <= now <= target
        invariant now == start.now || E.NothingBy(Model(), now)
        invariant done ==> (0 < target - start.now < HALF ==> E.NothingBy(Model(), target)) && !stopped
        invariant target - start.now >= HALF ==> now == start.now && fired == start.fired
        decreases !done, target - now, !E.NothingBy(Model(), now)
      {
        TurnContinues(start, Model(), script, target);
        TurnBeats(start, Model(), script, target);
        var ran := Turn(target);
        done := !ran;
      }
    }

    /** Moves the clock by `ms`. Under 2^31 ms, time lands exactly on the
        target with nothing due left behind unless a callback stops the loop;
        from there on the step reads as negative and nothing moves. */
    method Advance(ms: nat)
      requires E.WellFormed(Model()) && AllTold(Model()) && E.Tame(script) && ms < MODULUS
      modifies this
      ensures E.WellFormed(Model()) && Continues(old(Model()), Model(), old(now) + ms)
      ensures ms < HALF && !stopped ==> now == old(now) + ms && (ms > 0 ==> E.NothingBy(Model(), now))
      ensures ms >= HALF ==> now == old(now) && fired == old(fired)
      ensures 0 < ms < HALF && !stopped ==>
                forall i :: 0 <= i < |old(timers)| && E.Overdue(old(timers)[i], now) && old(timers)[i].interval == 0 ==>
                  FiredOnce(old(Model()), Model(), i)
      ensures 0 < ms < HALF && !stopped ==>
                forall i :: 0 <= i < |old(timers)| && Repeating(old(Model()), i) ==> FiredEachTime(old(Model()), Model(), i)
    {
      ghost var start := Model();
      var target := now + ms;
      stopped := false;
      ContinuesSelf(start, Model(), target);
      SelfBeats(start, Model());
      Restart(start);
      Spin(target, start);
      AheadIff(now, target - now);
      if !stopped && Gap(target, now) > 0 {
        Land(Model(), target);
        MoveContinues(start, Model(), target, target);
        MoveBeats(start, Model(), target);
        now := target;
      }
      if 0 < ms < HALF && !stopped {
        AllDueFired(start, Model());
        AllRepeatsFired(start, Model());
      }
    }
  }

  /** A live repeating timer that is still to come. */
  predicate Repeating(s: E.State, i: nat)
    requires i < |s.timers|
  {
    !s.timers[i].dead && s.timers[i].interval > 0 && s.timers[i].due > s.now
  }

  /** It fired at its due time and every interval after it, or was cancelled. */
  ghost predicate FiredEachTime(s: E.State, r: E.State, i: nat)
    requires i < |s.timers| && Repeating(s, i)
  {
    var t := s.timers[i];
    t.id in r.cancelled || Fires(r.fired, t.id) == Fires(s.fired, t.id) + Count(t.due, t.interval, r.now)
  }

  lemma AllRepeatsFired(s: E.State, r: E.State)
    requires AllBeating(s, r) && E.NothingBy(r, r.now)
    ensures forall i :: 0 <= i < |s.timers| && Repeating(s, i) ==> FiredEachTime(s, r, i)
  {
    forall i | 0 <= i < |s.timers| && Repeating(s, i) ensures FiredEachTime(s, r, i) {
      assert Beating(s, r, i);
      RepeatsFired(s, r, i);
    }
  }

  lemma {:induction false} TurnBeats(start: E.State, s: E.State, script: E.Script, target: nat)
    requires E.WellFormed(s) && E.Tame(script) && start.now <= s.now <= target && target - start.now < MODULUS
    requires AllBeating(start, s) && (s.now == start.now || E.NothingBy(s, s.now))
    ensures var n := E.Next(s, target);
            AllBeating(start, if n.Some? then E.RunDue(n.value, script) else E.Reap(s))
  {
    AheadIff(s.now, target - s.now);
    E.ReapKeeps(s);
    ReapBeats(start, s);
    if target - s.now < HALF {
      E.NextKeeps(s, target);
      var n := E.Next(s, target);
      if n.Some? {
        MoveBeats(start, E.Reap(s), n.value.now);
        assert NoneLate(n.value, start.now);
        RunDueBeats(start, n.value, script);
      }
    }
  }

  /** What one turn does to the story so far, whether or not it runs a pass. */
  lemma {:induction false} TurnContinues(start: E.State, s: E.State, script: E.Script, target: nat)
    requires E.WellFormed(s) && E.Tame(script) && start.now <= s.now <= target && target - start.now < MODULUS
    requires Continues(start, s, target) && (s.now == start.now || E.NothingBy(s, s.now))
    ensures var n := E.Next(s, target);
            && (n.None? ==> E.WellFormed(E.Reap(s)) && Continues(start, E.Reap(s), target))
            && (n.None? && target - s.now < HALF && (s.now < target || E.NothingBy(s, s.now)) ==>
                  E.NothingBy(E.Reap(s), target))
            && (target - s.now >= HALF ==> n.None?)
            && (n.Some? ==>
                  var r := E.RunDue(n.value, script);
                  && E.WellFormed(r) && Continues(start, r, target) && s.now <= r.now <= target && r.now == n.value.now
                  && E.NothingBy(r, r.now) && (r.now > s.now || !E.NothingBy(s, s.now)))
  {
    AheadIff(s.now, target - s.now);
    E.ReapKeeps(s);
    ReapContinues(start, s, target);
    if target - s.now < HALF {
      E.NextKeeps(s, target);
      var n := E.Next(s, target);
      if n.Some? {
        MoveContinues(start, E.Reap(s), n.value.now, target);
        RunDueContinues(start, n.value, script, target, if n.value.now > s.now then n.value.now else -HALF);
      }
    }
  }

  lemma AllDueFired(s: E.State, r: E.State)
    requires E.WellFormed(s) && AllTold(s) && Continues(s, r, r.now) && E.NothingBy(r, r.now)
    ensures forall i :: 0 <= i < |s.timers| && E.Overdue(s.timers[i], r.now) && s.timers[i].interval == 0 ==>
              FiredOnce(s, r, i)
  {
    forall i | 0 <= i < |s.timers| && E.Overdue(s.timers[i], r.now) && s.timers[i].interval == 0
      ensures FiredOnce(s, r, i)
    {
      DueOneShotsFired(s, r, i);
    }
  }

  lemma Restart(s: E.State)
    requires E.WellFormed(s)
    ensures E.WellFormed(s.(stopped := false))
  {
    assert forall i :: 0 <= i < |s.timers| ==> E.Fits(s.timers[i], s) ==> E.Fits(s.timers[i], s.(stopped := false));
  }

  lemma Land(s: E.State, target: nat)
    requires E.WellFormed(s) && s.now <= target && E.NothingBy(s, target)
    ensures E.WellFormed(s.(now := target)) && E.NothingBy(s.(now := target), target)
  {
    var r := s.(now := target);
    forall i | 0 <= i < |r.timers| ensures E.Fits(r.timers[i], r) && !E.Overdue(r.timers[i], target) {
      assert E.Fits(s.timers[i], s) && !E.Overdue(s.timers[i], target);
    }
  }
}
