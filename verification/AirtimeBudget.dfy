/**
 The rolling one-hour transmit budget (src/radio/radio.cpp). Entries carry the
 instant a transmission completed and its airtime; the scheduler asks how long a
 candidate has to wait and records what was spent.
 */
module AirtimeBudget {
  import opened Clock

  const WINDOW: int := 3_600_000

  datatype Entry = Entry(at: nat, airtime: nat)

  /** A percentage outside (0, 100) means no limit at all. */
  predicate Limited(percent: real) {
    0.0 < percent < 100.0
  }

  function Budget(percent: real): real {
    WINDOW as real * percent / 100.0
  }

  function Prune(entries: seq<Entry>, now: nat): seq<Entry> {
    if entries == [] then []
    else if Gap(now, entries[0].at) > WINDOW then Prune(entries[1..], now)
    else [entries[0]] + Prune(entries[1..], now)
  }

  function Total(entries: seq<Entry>): nat {
    if entries == [] then 0 else entries[0].airtime + Total(entries[1..])
  }

  /** How long until the oldest entries that together free `need` have left the
      window; a whole window when they never free that much. */
  function Release(entries: seq<Entry>, now: nat, need: real): nat {
    if entries == [] then WINDOW
    else if (entries[0].airtime as real) < need then
      Release(entries[1..], now, need - entries[0].airtime as real)
    else
      var remaining := WINDOW - Gap(now, entries[0].at);
      if remaining > 0 then remaining else 0
  }

  function Wait(entries: seq<Entry>, percent: real, now: nat, candidate: nat): nat {
    if !Limited(percent) then 0 else
      var kept := Prune(entries, now);
      var budget := Budget(percent);
      var wanted := (Total(kept) + candidate) as real;
      if wanted <= budget then 0
      else if candidate as real > budget then WINDOW
      else Release(kept, now, wanted - budget)
  }

  /** What a wait leaves in the table: it prunes whenever there is a limit. */
  function AfterWait(entries: seq<Entry>, percent: real, now: nat): seq<Entry> {
    if Limited(percent) then Prune(entries, now) else entries
  }

  class DutyCycle {
    var percent: real
    var entries: seq<Entry>

    constructor (percent: real)
      ensures this.percent == percent && entries == []
    {
      this.percent := percent;
      entries := [];
    }

    method SetPercent(percent: real)
      modifies this`percent
      ensures this.percent == percent
    {
      this.percent := percent;
    }

    method PruneOld(now: nat)
      modifies this`entries
      ensures entries == Prune(old(entries), now)
    {
      var kept := [];
      for i := 0 to |entries|
        invariant entries == old(entries)
        invariant kept + Prune(entries[i..], now) == Prune(entries, now)
      {
        assert entries[i..][1..] == entries[i + 1..];
        if Gap(now, entries[i].at) <= WINDOW {
          kept := kept + [entries[i]];
        }
      }
      entries := kept;
    }

    method Record(now: nat, airtime: nat)
      modifies this`entries
      ensures entries == Prune(old(entries), now) + [Entry(now, airtime)]
    {
      PruneOld(now);
      entries := entries + [Entry(now, airtime)];
    }

    method Sum() returns (total: nat)
      ensures total == Total(entries)
    {
      total := 0;
      for i := 0 to |entries|
        invariant total + Total(entries[i..]) == Total(entries)
      {
        assert entries[i..][1..] == entries[i + 1..];
        total := total + entries[i].airtime;
      }
    }

    method WaitMs(now: nat, candidate: nat) returns (wait: nat)
      modifies this`entries
      ensures wait == Wait(old(entries), percent, now, candidate)
      ensures entries == AfterWait(old(entries), percent, now)
    {
      if percent <= 0.0 || percent >= 100.0 {
        return 0;
      }
      PruneOld(now);
      var total := Sum();
      var budget := Budget(percent);
      if (total + candidate) as real <= budget {
        return 0;
      }
      if candidate as real > budget {
        return WINDOW;
      }
      var excess := (total + candidate) as real - budget;
      var released := 0;
      for i := 0 to |entries|
        invariant (released as real) < excess
        invariant Release(entries, now, excess) == Release(entries[i..], now, excess - released as real)
      {
        assert entries[i..][1..] == entries[i + 1..];
        released := released + entries[i].airtime;
        if released as real >= excess {
          var remaining := WINDOW - Gap(now, entries[i].at);
          return if remaining > 0 then remaining else 0;
        }
      }
      return WINDOW;
    }
  }

  // ---- What the budget means -------------------------------------------

  /** Entries are in the order they were recorded, none in the future. */
  predicate Ordered(entries: seq<Entry>, now: int) {
    && (forall i :: 0 <= i < |entries| ==> entries[i].at <= now)
    && (forall i, j :: 0 <= i < j < |entries| ==> entries[i].at <= entries[j].at)
  }

  /** Airtime of age strictly under the window at `t`. */
  function Young(entries: seq<Entry>, t: int): nat {
    if entries == [] then 0 else
      (if t - entries[0].at < WINDOW then entries[0].airtime else 0) + Young(entries[1..], t)
  }

  lemma {:induction false} PruneSelects(entries: seq<Entry>, now: nat)
    ensures forall e :: e in Prune(entries, now) ==> e in entries && Gap(now, e.at) <= WINDOW
  {
    if entries != [] {
      PruneSelects(entries[1..], now);
    }
  }

  lemma {:induction false} PruneKeepsOrder(entries: seq<Entry>, now: nat, t: int)
    requires Ordered(entries, t)
    ensures Ordered(Prune(entries, now), t)
    ensures forall e :: e in Prune(entries, now) ==> e in entries && Gap(now, e.at) <= WINDOW
  {
    PruneSelects(entries, now);
    if entries != [] {
      var rest := Prune(entries[1..], now);
      PruneKeepsOrder(entries[1..], now, t);
      FirstIsOldest(entries, t, rest);
    }
  }

  lemma FirstIsOldest(entries: seq<Entry>, t: int, rest: seq<Entry>)
    requires Ordered(entries, t) && entries != [] && Ordered(rest, t)
    requires forall e :: e in rest ==> e in entries[1..]
    ensures Ordered([entries[0]] + rest, t)
  {
    forall i | 0 <= i < |rest| ensures entries[0].at <= rest[i].at {
      assert rest[i] in entries[1..];
    }
  }

  /** Pruning never forgets airtime that still counts: even an entry whose age
      no longer fits a signed 32-bit integer only errs towards being kept. */
  lemma PruneKeepsYoung(entries: seq<Entry>, now: nat, t: int)
    requires Ordered(entries, now) && now <= t
    ensures Young(Prune(entries, now), t) == Young(entries, t)
  {
    if entries != [] {
      PruneKeepsYoung(entries[1..], now, t);
      assert ([entries[0]] + Prune(entries[1..], now))[1..] == Prune(entries[1..], now);
    }
  }

  lemma YoungAtMostTotal(entries: seq<Entry>, t: int)
    ensures Young(entries, t) <= Total(entries)
  {}

  lemma YoungShrinks(entries: seq<Entry>, t: int, later: int)
    requires t <= later
    ensures Young(entries, later) <= Young(entries, t)
  {}

  lemma YoungAppend(entries: seq<Entry>, e: Entry, t: int)
    ensures Young(entries + [e], t) == Young(entries, t) + (if t - e.at < WINDOW then e.airtime else 0)
  {
    if entries == [] {
    } else {
      assert (entries + [e])[1..] == entries[1..] + [e];
      YoungAppend(entries[1..], e, t);
    }
  }

  lemma {:induction false} ReleasedNowIsOld(entries: seq<Entry>, now: nat, need: real)
    requires Ordered(entries, now) && entries != []
    requires forall e :: e in entries ==> Gap(now, e.at) <= WINDOW
    requires Release(entries, now, need) == 0
    ensures now - entries[0].at >= WINDOW
    ensures Young(entries, now) as real <= Total(entries) as real - need
  {
    var e := entries[0];
    if (e.airtime as real) < need {
      ReleasedNowIsOld(entries[1..], now, need - e.airtime as real);
    } else {
      YoungAtMostTotal(entries[1..], now);
    }
  }

  /** Zero wait means the candidate fits beside every entry of age strictly
      under the window, whatever the clock has done in between. */
  lemma {:induction false} AdmittedFits(entries: seq<Entry>, percent: real, now: nat, candidate: nat)
    requires Ordered(entries, now) && Limited(percent)
    requires Wait(entries, percent, now, candidate) == 0
    ensures (Young(entries, now) + candidate) as real <= Budget(percent)
  {
    var kept := Prune(entries, now);
    PruneKeepsOrder(entries, now, now);
    PruneKeepsYoung(entries, now, now);
    YoungAtMostTotal(kept, now);
    if kept != [] && (Total(kept) + candidate) as real > Budget(percent) {
      ReleasedNowIsOld(kept, now, (Total(kept) + candidate) as real - Budget(percent));
    }
  }

  lemma NothingToPrune(entries: seq<Entry>, now: nat)
    requires forall e :: e in entries ==> 0 <= now - e.at <= WINDOW
    ensures Prune(entries, now) == entries
  {
    if entries != [] {
      NothingToPrune(entries[1..], now);
    }
  }

  lemma PruneFrees(entries: seq<Entry>, now: nat)
    ensures Total(Prune(entries, now)) <= Total(entries)
  {
    if entries != [] {
      PruneFrees(entries[1..], now);
      assert ([entries[0]] + Prune(entries[1..], now))[1..] == Prune(entries[1..], now);
    }
  }

  lemma ReleaseSkips(e: Entry, rest: seq<Entry>, now: nat, need: real)
    requires (e.airtime as real) < need
    ensures Release([e] + rest, now, need) == Release(rest, now, need - e.airtime as real)
    ensures Total([e] + rest) == e.airtime + Total(rest)
  {
    assert ([e] + rest)[1..] == rest;
  }

  /** Entries that leave the window while a wait runs are ones it was waiting
      for, so the rest of the wait is unchanged. */
  lemma {:induction false} ReleaseCountsDown(entries: seq<Entry>, now: nat, need: real, t: nat)
    requires Ordered(entries, now)
    requires forall e :: e in entries ==> now - e.at <= WINDOW
    requires 0.0 < need <= Total(entries) as real
    requires t <= Release(entries, now, need)
    ensures var left := Prune(entries, now + t);
            var freed := Total(entries) - Total(left);
            && 0 <= freed && (freed as real) < need
            && Release(left, now + t, need - freed as real) == Release(entries, now, need) - t
  {
    var e := entries[0];
    PruneFrees(entries, now + t);
    if (e.airtime as real) < need {
      assert Ordered(entries[1..], now);
      ReleaseCountsDown(entries[1..], now, need - e.airtime as real, t);
      var rest := Prune(entries[1..], now + t);
      var freed := Total(entries[1..]) - Total(rest);
      assert Total(entries) == e.airtime + Total(entries[1..]);
      if Gap(now + t, e.at) > WINDOW {
        assert Prune(entries, now + t) == rest;
        assert need - (e.airtime + freed) as real == need - e.airtime as real - freed as real;
      } else {
        assert Prune(entries, now + t) == [e] + rest;
        ReleaseSkips(e, rest, now + t, need - freed as real);
        assert need - freed as real - e.airtime as real == need - e.airtime as real - freed as real;
      }
    } else {
      OldestCountsDown(entries, now, need, t);
    }
  }

  lemma OldestCountsDown(entries: seq<Entry>, now: nat, need: real, t: nat)
    requires Ordered(entries, now) && entries != [] && need <= entries[0].airtime as real
    requires forall e :: e in entries ==> now - e.at <= WINDOW
    requires t <= Release(entries, now, need)
    ensures Prune(entries, now + t) == entries
    ensures Release(entries, now + t, need) == Release(entries, now, need) - t
  {
    var e := entries[0];
    assert Release(entries, now, need) == WINDOW - (now - e.at);
    NothingToPrune(entries, now + t);
  }

  lemma WaitIsRelease(entries: seq<Entry>, percent: real, now: nat, candidate: nat)
    requires Limited(percent) && candidate as real <= Budget(percent)
    requires (Total(Prune(entries, now)) + candidate) as real > Budget(percent)
    ensures Wait(entries, percent, now, candidate)
            == Release(Prune(entries, now), now, (Total(Prune(entries, now)) + candidate) as real - Budget(percent))
  {}

  lemma {:induction false} KeptWaitCountsDown(kept: seq<Entry>, percent: real, now: nat, candidate: nat, t: nat)
    requires Ordered(kept, now) && Limited(percent)
    requires forall e :: e in kept ==> now - e.at <= WINDOW
    requires candidate as real <= Budget(percent)
    requires t <= Wait(kept, percent, now, candidate)
    ensures Wait(kept, percent, now + t, candidate) == Wait(kept, percent, now, candidate) - t
  {
    var budget := Budget(percent);
    var need := (Total(kept) + candidate) as real - budget;
    NothingToPrune(kept, now);
    if need > 0.0 {
      WaitIsRelease(kept, percent, now, candidate);
      ReleaseCountsDown(kept, now, need, t);
      WaitIsRelease(kept, percent, now + t, candidate);
    }
  }

  lemma KeptIsYoung(entries: seq<Entry>, now: nat)
    requires Ordered(entries, now) && forall e :: e in entries ==> now - e.at < HALF
    ensures Ordered(Prune(entries, now), now)
    ensures forall e :: e in Prune(entries, now) ==> 0 <= now - e.at <= WINDOW
  {
    PruneKeepsOrder(entries, now, now);
  }

  lemma SameWait(entries: seq<Entry>, percent: real, now: nat, candidate: nat)
    requires Ordered(entries, now) && forall e :: e in entries ==> now - e.at < HALF
    ensures Wait(Prune(entries, now), percent, now, candidate) == Wait(entries, percent, now, candidate)
  {
    var kept := Prune(entries, now);
    assert Prune(kept, now) == kept by {
      KeptIsYoung(entries, now);
      NothingToPrune(kept, now);
    }
  }

  /** A wait is exact: with nothing new recorded, asking again after `t` of the
      promised `r` milliseconds gives `r - t`, and so zero at `r` and not before. */
  lemma {:induction false} WaitIsExact(entries: seq<Entry>, percent: real, now: nat, candidate: nat, t: nat)
    requires Ordered(entries, now) && Limited(percent)
    requires forall e :: e in entries ==> now - e.at < HALF
    requires candidate as real <= Budget(percent)
    requires t <= Wait(entries, percent, now, candidate)
    ensures Wait(AfterWait(entries, percent, now), percent, now + t, candidate)
         == Wait(entries, percent, now, candidate) - t
  {
    var kept := Prune(entries, now);
    KeptIsYoung(entries, now);
    SameWait(entries, percent, now, candidate);
    KeptWaitCountsDown(kept, percent, now, candidate, t);
  }

  lemma {:induction false} ReleaseWithinWindow(entries: seq<Entry>, now: nat, need: real)
    requires Ordered(entries, now) && forall e :: e in entries ==> now - e.at <= WINDOW
    ensures Release(entries, now, need) <= WINDOW
  {
    if entries != [] && (entries[0].airtime as real) < need {
      ReleaseWithinWindow(entries[1..], now, need - entries[0].airtime as real);
    }
  }

  lemma {:induction false} WaitWithinWindow(entries: seq<Entry>, percent: real, now: nat, candidate: nat)
    requires Ordered(entries, now) && forall e :: e in entries ==> now - e.at < HALF
    ensures Wait(entries, percent, now, candidate) <= WINDOW
  {
    var kept := Prune(entries, now);
    KeptIsYoung(entries, now);
    ReleaseWithinWindow(kept, now, (Total(kept) + candidate) as real - Budget(percent));
  }

  lemma OversizedWaits(entries: seq<Entry>, percent: real, now: nat, candidate: nat)
    requires Limited(percent) && candidate as real > Budget(percent)
    ensures Wait(entries, percent, now, candidate) == 3_600_000
  {
    assert (Total(Prune(entries, now)) + candidate) as real >= candidate as real;
  }

  /** No packet is ever held back exactly when the percentage is not one between
      0 and 100: zero is no limit, not a ban. */
  lemma UnlimitedIff(entries: seq<Entry>, percent: real, now: nat)
    ensures (percent <= 0.0 || percent >= 100.0) <==> forall candidate: nat :: Wait(entries, percent, now, candidate) == 0
  {
    if 0.0 < percent < 100.0 {
      var whole: nat := 3_600_000;
      OversizedWaits(entries, percent, now, whole);
    }
  }

  /** With nothing recorded since it was asked for at `now`, the candidate may
      go `t` milliseconds later. */
  predicate AdmittedAfter(entries: seq<Entry>, percent: real, now: nat, candidate: nat, t: nat) {
    Wait(AfterWait(entries, percent, now), percent, now + t, candidate) == 0
  }

  /** Holding a packet back ends exactly for those that can ever be sent: with
      nothing new recorded, one is admitted at some instant of the next hour if
      and only if it fits the whole budget on its own. */
  lemma {:induction false} AdmittedWithinWindow(entries: seq<Entry>, percent: real, now: nat, candidate: nat)
    requires Ordered(entries, now) && Limited(percent)
    requires forall e :: e in entries ==> now - e.at < HALF
    ensures candidate as real <= Budget(percent) <==>
              exists t: nat :: t <= WINDOW && AdmittedAfter(entries, percent, now, candidate, t)
  {
    if candidate as real <= Budget(percent) {
      var wait := Wait(entries, percent, now, candidate);
      WaitWithinWindow(entries, percent, now, candidate);
      WaitIsExact(entries, percent, now, candidate, wait);
      assert AdmittedAfter(entries, percent, now, candidate, wait);
    } else {
      forall t: nat ensures !AdmittedAfter(entries, percent, now, candidate, t) {
        OversizedWaits(AfterWait(entries, percent, now), percent, now + t, candidate);
      }
    }
  }
}
