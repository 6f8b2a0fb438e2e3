/**
 The two tables that recognise what was already handled: packets seen on the air
 (src/mesh/dispatcher.cpp, 60 s, unbounded) and messages already delivered to the
 app (src/mesh/node.cpp, 300 s, at most 512). Both map a hash to the instant its
 entry expires, refresh it on every sighting and are swept periodically.
 */
module DedupTable {
  import opened Clock
  import opened Bytes

  const SEEN_TTL := 60_000
  const DELIVERED_TTL := 300_000
  const MAX_DELIVERED := 512

  type Table = map<int, nat>

  /** `cap` is None for the packet table, which only the sweep bounds. */
  datatype Policy = Policy(ttl: nat, cap: Option<nat>)

  const SEEN := Policy(SEEN_TTL, None)
  const DELIVERED := Policy(DELIVERED_TTL, Some(MAX_DELIVERED))

  predicate Live(t: Table, key: int, now: nat) {
    key in t && Gap(t[key], now) > 0
  }

  function Expire(t: Table, now: nat): Table {
    map k | k in t && Gap(t[k], now) > 0 :: t[k]
  }

  predicate Full(t: Table, policy: Policy) {
    policy.cap.Some? && |t| >= policy.cap.value
  }

  /** Room for one more: expired entries go first and, when everything is live,
      whichever entry the hash map happens to list first. */
  function MakeRoom(t: Table, now: nat, policy: Policy, victim: int): Table {
    if !Full(t, policy) then t
    else if !Full(Expire(t, now), policy) then Expire(t, now)
    else Expire(t, now) - {victim}
  }

  /** The table after `key` is sighted; it was a repeat iff it was `Live`. */
  function Sight(t: Table, key: int, now: nat, policy: Policy, victim: int): Table {
    (if Live(t, key, now) then t else MakeRoom(t, now, policy, victim))[key := now + policy.ttl]
  }

  method AnyOf<T>(s: set<T>) returns (x: T)
    requires s != {}
    ensures x in s
  {
    x :| x in s;
  }

  method Sweep(t: Table, now: nat) returns (r: Table)
    ensures r == Expire(t, now)
  {
    var todo := t.Keys;
    r := t;
    while todo != {}
      invariant todo <= t.Keys
      invariant r == map k | k in t && (k in todo || Gap(t[k], now) > 0) :: t[k]
      decreases |todo|
    {
      var k := AnyOf(todo);
      todo := todo - {k};
      if Gap(t[k], now) <= 0 {
        r := r - {k};
      }
    }
  }

  method CheckAndMarkSeen(t: Table, key: int, now: nat) returns (r: Table, repeated: bool)
    ensures repeated == Live(t, key, now)
    ensures r == Sight(t, key, now, SEEN, 0)
  {
    if key in t && Gap(t[key], now) > 0 {
      return t[key := now + SEEN_TTL], true;
    }
    return t[key := now + SEEN_TTL], false;
  }

  method FirstDelivery(t: Table, key: int, now: nat, victim: int) returns (r: Table, first: bool)
    ensures first == !Live(t, key, now)
    ensures r == Sight(t, key, now, DELIVERED, victim)
  {
    if key in t && Gap(t[key], now) > 0 {
      return t[key := now + DELIVERED_TTL], false;
    }
    r := t;
    if |r| >= MAX_DELIVERED {
      r := Sweep(r, now);
      if |r| >= MAX_DELIVERED {
        r := r - {victim};
      }
    }
    r := r[key := now + DELIVERED_TTL];
    first := true;
  }

  /** The delivered table never exceeds its ceiling, however busy the mesh. */
  lemma CapHolds(t: Table, key: int, now: nat, policy: Policy, victim: int)
    requires policy.cap.Some? && policy.cap.value > 0 && |t| <= policy.cap.value
    requires Full(Expire(t, now), policy) ==> victim in Expire(t, now)
    ensures |Sight(t, key, now, policy, victim)| <= policy.cap.value
    ensures |Expire(t, now)| <= policy.cap.value
  {
    var e := Expire(t, now);
    Subset(e.Keys, t.Keys);
    var room := if Live(t, key, now) then t else MakeRoom(t, now, policy, victim);
    var r := Sight(t, key, now, policy, victim);
    assert r.Keys == room.Keys + {key};
    if Live(t, key, now) {
      assert room.Keys + {key} == t.Keys;
    } else if Full(t, policy) && Full(e, policy) {
      assert room.Keys == e.Keys - {victim};
    }
  }

  /** A live entry is forgotten exactly when it is the one chosen to make room for a
      new key in a table full of live ones; every other keeps its time. */
  lemma ForgottenIff(t: Table, key: int, now: nat, policy: Policy, victim: int, k: int)
    requires Live(t, k, now) && k != key
    ensures var after := Sight(t, key, now, policy, victim);
            && (k !in after <==> k == victim && !Live(t, key, now) && policy.cap.Some? && |Expire(t, now)| >= policy.cap.value)
            && (k in after ==> after[k] == t[k])
  {
    Subset(Expire(t, now).Keys, t.Keys);
  }

  lemma Subset<T>(a: set<T>, b: set<T>)
    requires a <= b
    ensures |a| <= |b|
  {
    assert b == a + (b - a);
  }

  // ---- Runs ------------------------------------------------------------

  datatype Event = Sighting(key: int, at: nat, victim: int) | Sweeping(at: nat)

  /** Whether each sighting was taken for a repeat. */
  function Answers(t: Table, policy: Policy, run: seq<Event>): seq<bool>
    decreases |run|
  {
    if run == [] then []
    else match run[0]
      case Sighting(key, at, victim) =>
        [Live(t, key, at)] + Answers(Sight(t, key, at, policy, victim), policy, run[1..])
      case Sweeping(at) => Answers(Expire(t, at), policy, run[1..])
  }

  /** The reference: unbounded time, nothing ever forgotten. A sighting is a
      repeat iff the previous one of that key is less than `ttl` old. */
  function Recent(last: map<int, nat>, key: int, at: nat, ttl: nat): bool {
    key in last && at - last[key] < ttl
  }

  function Reference(last: map<int, nat>, ttl: nat, run: seq<Event>): seq<bool>
    decreases |run|
  {
    if run == [] then []
    else match run[0]
      case Sighting(key, at, _) => [Recent(last, key, at, ttl)] + Reference(last[key := at], ttl, run[1..])
      case Sweeping(_) => Reference(last, ttl, run[1..])
  }

  /** Keys sighted within the last `ttl` milliseconds. */
  function LiveKeys(last: map<int, nat>, at: nat, ttl: nat): set<int> {
    set k | k in last && at - last[k] < ttl
  }

  /** Time moves forward, sweeps are less than 2^31 ms apart, and a capped table
      meets fewer live identities than its cap. */
  predicate Paced(last: map<int, nat>, policy: Policy, now: nat, swept: nat, run: seq<Event>)
    decreases |run|
  {
    run == [] ||
    (&& now <= run[0].at && run[0].at - swept < HALF
     && match run[0]
        case Sighting(key, at, _) =>
          && (policy.cap.Some? ==> |LiveKeys(last, at, policy.ttl)| < policy.cap.value)
          && Paced(last[key := at], policy, at, swept, run[1..])
        case Sweeping(at) => Paced(last, policy, at, at, run[1..]))
  }

  ghost predicate Tracks(t: Table, last: map<int, nat>, ttl: nat, now: nat, swept: nat) {
    && swept <= now
    && (forall k :: k in t ==> k in last && t[k] == last[k] + ttl && t[k] > swept)
    && (forall k :: k in last ==> last[k] <= now)
    && (forall k :: k in last && now - last[k] < ttl ==> k in t)
  }

  lemma LiveIsRecent(t: Table, last: map<int, nat>, ttl: nat, now: nat, swept: nat, at: nat)
    requires Tracks(t, last, ttl, now, swept) && now <= at && at - swept < HALF && 0 < ttl < HALF
    ensures forall k :: k in t ==> (Gap(t[k], at) > 0 <==> at - last[k] < ttl)
    ensures forall k :: Live(t, k, at) <==> Recent(last, k, at, ttl)
    ensures Tracks(Expire(t, at), last, ttl, at, at)
  {}

  lemma SightTracks(
    t: Table, last: map<int, nat>, policy: Policy, now: nat, swept: nat, key: int, at: nat, victim: int)
    requires 0 < policy.ttl < HALF && now <= at && at - swept < HALF
    requires Tracks(t, last, policy.ttl, now, swept)
    requires policy.cap.Some? ==> |LiveKeys(last, at, policy.ttl)| < policy.cap.value
    ensures Tracks(Sight(t, key, at, policy, victim), last[key := at], policy.ttl, at, swept)
  {
    LiveIsRecent(t, last, policy.ttl, now, swept, at);
    var e := Expire(t, at);
    assert e.Keys <= LiveKeys(last, at, policy.ttl) by {
      forall k | k in e.Keys ensures k in LiveKeys(last, at, policy.ttl) {
        assert k in t && Gap(t[k], at) > 0;
      }
    }
    Subset(e.Keys, LiveKeys(last, at, policy.ttl));
    assert !Full(e, policy);
    var room := if Live(t, key, at) then t else MakeRoom(t, at, policy, victim);
    assert room == t || room == e;
    assert Tracks(room, last, policy.ttl, at, swept);
  }

  /** On the wrapping clock, with its sweeps, a table gives exactly the answers
      of the unbounded-time reference: a repeat is recognised iff it comes less
      than `ttl` after the previous sighting. */
  lemma {:induction false} RefinesUnboundedTime(
    t: Table, last: map<int, nat>, policy: Policy, now: nat, swept: nat, run: seq<Event>)
    requires 0 < policy.ttl < HALF
    requires Tracks(t, last, policy.ttl, now, swept) && Paced(last, policy, now, swept, run)
    ensures Answers(t, policy, run) == Reference(last, policy.ttl, run)
    decreases |run|
  {
    if run != [] {
      var at := run[0].at;
      LiveIsRecent(t, last, policy.ttl, now, swept, at);
      match run[0]
      case Sighting(key, _, victim) =>
        SightTracks(t, last, policy, now, swept, key, at, victim);
        RefinesUnboundedTime(Sight(t, key, at, policy, victim), last[key := at], policy, at, swept, run[1..]);
      case Sweeping(_) =>
        RefinesUnboundedTime(Expire(t, at), last, policy, at, at, run[1..]);
    }
  }

  /** Suppression needs no sweep at all: a key is recognised exactly until `ttl`
      after its last sighting, whatever was swept in between. */
  lemma RepeatsAreSuppressed(t: Table, key: int, now: nat, policy: Policy, victim: int, later: nat, sweep: nat)
    requires now <= sweep <= later && later - now < HALF && policy.ttl < HALF
    ensures var marked := Sight(t, key, now, policy, victim);
            && (Live(marked, key, later) <==> later - now < policy.ttl)
            && (Live(Expire(marked, sweep), key, later) <==> later - now < policy.ttl)
  {}
}
