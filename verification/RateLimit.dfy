/**
  The fixed-window rate limiter over Redis counters. `consume` is two commands,
  INCR and, for the first of a window, EXPIRE; other clients' commands may come
  between them, and the second may never come.
*/
module RateLimit {
  import opened Common

  datatype Entry = Entry(count: nat, expiresAt: Option<int>)

  type Store = map<string, Entry>

  datatype Command =
    | Incr(key: string, limit: nat, at: int)
    | Expire(key: string, window: int, at: int)
    | Del(key: string, at: int)

  predicate Live(s: Store, key: string, at: int) {
    key in s && (s[key].expiresAt.Some? ==> at < s[key].expiresAt.value)
  }

  function CountAt(s: Store, key: string, at: int): nat {
    if Live(s, key, at) then s[key].count else 0
  }

  function Exec(s: Store, c: Command): Store {
    match c
    case Incr(key, _, at) =>
      s[key := if Live(s, key, at) then s[key].(count := s[key].count + 1) else Entry(1, None)]
    case Expire(key, window, at) =>
      if Live(s, key, at) then s[key := s[key].(expiresAt := Some(at + window))] else s - {key}
    case Del(key, _) => s - {key}
  }

  /** An INCR that `consume` answers with true. */
  predicate Allowed(s: Store, c: Command) {
    c.Incr? && CountAt(s, c.key, c.at) + 1 <= c.limit
  }

  // ------------------------------------------------------------- the service

  function AfterConsume(s: Store, key: string, limit: nat, window: int, at: int): (bool, Store) {
    var count := CountAt(s, key, at) + 1;
    var s1 := Exec(s, Incr(key, limit, at));
    (count <= limit, if count == 1 then Exec(s1, Expire(key, window, at)) else s1)
  }

  class RateLimitService {
    var redis: Store

    constructor ()
      ensures redis == map[]
    {
      redis := map[];
    }

    method IncrCommand(key: string, at: int) returns (count: nat)
      modifies this
      ensures forall limit :: redis == Exec(old(redis), Incr(key, limit, at))
      ensures count == CountAt(old(redis), key, at) + 1
    {
      var entry := if Live(redis, key, at) then redis[key].(count := redis[key].count + 1) else Entry(1, None);
      redis := redis[key := entry];
      count := entry.count;
    }

    method ExpireCommand(key: string, window: int, at: int)
      modifies this
      ensures redis == Exec(old(redis), Expire(key, window, at))
    {
      if Live(redis, key, at) {
        redis := redis[key := redis[key].(expiresAt := Some(at + window))];
      } else {
        redis := redis - {key};
      }
    }

    method Consume(key: string, limit: nat, window: int, at: int) returns (ok: bool)
      modifies this
      ensures (ok, redis) == AfterConsume(old(redis), key, limit, window, at)
    {
      var count := IncrCommand(key, at);
      assert redis == Exec(old(redis), Incr(key, limit, at));
      if count == 1 {
        ExpireCommand(key, window, at);
      }
      ok := count <= limit;
    }

    method Reset(key: string)
      modifies this
      ensures forall at :: redis == Exec(old(redis), Del(key, at))
    {
      redis := redis - {key};
    }
  }

  // --------------------------------------------------------- counting in a run

  predicate In(at: int, from: int, to: int) {
    from <= at < to
  }

  /** Allowed calls for `key` in [from, to). */
  function AllowedIn(s: Store, run: seq<Command>, key: string, from: int, to: int): nat
    decreases |run|
  {
    if run == [] then 0
    else
      (if Allowed(s, run[0]) && run[0].key == key && In(run[0].at, from, to) then 1 else 0)
      + AllowedIn(Exec(s, run[0]), run[1..], key, from, to)
  }

  function ResetsIn(run: seq<Command>, key: string, from: int, to: int): nat {
    if run == [] then 0
    else
      (if run[0].Del? && run[0].key == key && In(run[0].at, from, to) then 1 else 0)
      + ResetsIn(run[1..], key, from, to)
  }

  ghost predicate Chronological(run: seq<Command>) {
    forall i, j | 0 <= i < j < |run| :: run[i].at <= run[j].at
  }

  /** Every use of `key` has the same limit, and no window shorter than `window`. */
  ghost predicate Uses(run: seq<Command>, key: string, limit: nat, window: int) {
    forall c | c in run && c.key == key :: (c.Incr? ==> c.limit == limit) && (c.Expire? ==> c.window >= window)
  }

  // -------------------------------------------------------------- the bound

  function Min(a: nat, b: nat): nat {
    if a < b then a else b
  }

  /** What the counter that is stored, fresh or stale, still lets through. */
  function Left(s: Store, key: string, limit: nat): nat {
    limit - Min(if key in s then s[key].count else 0, limit)
  }

  /** The counter cannot run out of time before `to`. */
  predicate Lasts(s: Store, key: string, to: int) {
    key in s && s[key].expiresAt.Some? ==> s[key].expiresAt.value >= to
  }

  lemma Times(a: nat, b: nat)
    ensures a * (b + 1) == a * b + a
  {
  }

  lemma Tail(run: seq<Command>, key: string, limit: nat, window: int)
    requires run != [] && Chronological(run) && Uses(run, key, limit, window)
    ensures Chronological(run[1..]) && Uses(run[1..], key, limit, window)
    ensures forall c | c in run[1..] :: c.at >= run[0].at
    ensures run[0].key == key ==>
              (run[0].Incr? ==> run[0].limit == limit) && (run[0].Expire? ==> run[0].window >= window)
  {
    assert run[0] in run;
  }

  lemma {:induction false} NothingAfter(s: Store, run: seq<Command>, key: string, from: int, to: int)
    requires forall c | c in run :: c.at >= to
    ensures AllowedIn(s, run, key, from, to) == 0
    decreases |run|
  {
    if run != [] {
      assert run[0] in run;
      NothingAfter(Exec(s, run[0]), run[1..], key, from, to);
    }
  }

  function Gain(s: Store, c: Command, key: string): nat {
    if Allowed(s, c) && c.key == key then 1 else 0
  }

  function Refill(c: Command, key: string, limit: nat): nat {
    if c.Del? && c.key == key then limit else 0
  }

  /** What an allowed INCR takes, the counter had left. */
  lemma IncrTakes(s: Store, c: Command, key: string, limit: nat, to: int)
    requires c.Incr? && (c.key == key ==> c.limit == limit && Live(s, key, c.at))
    ensures Gain(s, c, key) + Left(Exec(s, c), key, limit) <= Left(s, key, limit)
    ensures Lasts(s, key, to) ==> Lasts(Exec(s, c), key, to)
  {
  }

  lemma ExpireTakes(s: Store, c: Command, key: string, limit: nat, to: int)
    requires c.Expire? && (c.key == key ==> Live(s, key, c.at))
    ensures Left(Exec(s, c), key, limit) == Left(s, key, limit)
    ensures (c.key == key ==> c.at + c.window >= to) && Lasts(s, key, to) ==> Lasts(Exec(s, c), key, to)
  {
  }

  lemma DelRefills(s: Store, c: Command, key: string, limit: nat, to: int)
    requires c.Del?
    ensures Left(Exec(s, c), key, limit) <= Left(s, key, limit) + Refill(c, key, limit)
    ensures Lasts(s, key, to) ==> Lasts(Exec(s, c), key, to)
  {
  }

  /** On a counter that is gone, or deletes it: a new one starts, which outlives the interval. */
  lemma StartsAnew(s: Store, c: Command, key: string, limit: nat, to: int)
    requires c.key == key && (c.Del? || !Live(s, key, c.at)) && (c.Incr? ==> c.limit == limit)
    ensures Gain(s, c, key) + Left(Exec(s, c), key, limit) <= limit
    ensures Lasts(Exec(s, c), key, to)
  {
  }

  /** A counter that is stored and lasts is live throughout. */
  lemma StepLasting(s: Store, c: Command, key: string, limit: nat, window: int, from: int)
    requires from <= c.at < from + window && Lasts(s, key, from + window)
    requires c.key == key ==> (c.Incr? ==> c.limit == limit) && (c.Expire? ==> c.window >= window)
    ensures Gain(s, c, key) + Left(Exec(s, c), key, limit) <= Left(s, key, limit) + Refill(c, key, limit)
    ensures Lasts(Exec(s, c), key, from + window)
  {
    if c.key == key && (c.Del? || !Live(s, key, c.at)) {
      StartsAnew(s, c, key, limit, from + window);
    } else {
      match c {
        case Incr(_, _, _) => IncrTakes(s, c, key, limit, from + window);
        case Expire(_, _, _) => ExpireTakes(s, c, key, limit, from + window);
        case Del(_, _) => DelRefills(s, c, key, limit, from + window);
      }
    }
  }

  /** What the resets of `key` in [from, to) give back, a whole limit each. */
  function Refills(run: seq<Command>, key: string, limit: nat, from: int, to: int): nat {
    if run == [] then 0
    else (if In(run[0].at, from, to) then Refill(run[0], key, limit) else 0) + Refills(run[1..], key, limit, from, to)
  }

  lemma {:induction false} RefillsAre(run: seq<Command>, key: string, limit: nat, from: int, to: int)
    ensures Refills(run, key, limit, from, to) == limit * ResetsIn(run, key, from, to)
  {
    if run != [] {
      RefillsAre(run[1..], key, limit, from, to);
      Times(limit, ResetsIn(run[1..], key, from, to));
    }
  }

  /** The first command of a run, counted. */
  lemma CountFirst(s: Store, run: seq<Command>, key: string, limit: nat, from: int, to: int)
    requires run != [] && from <= run[0].at < to
    ensures AllowedIn(s, run, key, from, to) ==
              Gain(s, run[0], key) + AllowedIn(Exec(s, run[0]), run[1..], key, from, to)
    ensures Refills(run, key, limit, from, to) == Refill(run[0], key, limit) + Refills(run[1..], key, limit, from, to)
  {
  }

  /** Inside the interval, with a counter that outlives it: each further window costs a reset. */
  lemma {:induction false} BoundLasting(s: Store, run: seq<Command>, key: string, limit: nat, window: int, from: int)
    requires Chronological(run) && Uses(run, key, limit, window)
    requires forall c | c in run :: c.at >= from
    requires Lasts(s, key, from + window)
    ensures AllowedIn(s, run, key, from, from + window) <=
            Refills(run, key, limit, from, from + window) + Left(s, key, limit)
    decreases |run|
  {
    if run != [] {
      var c := run[0];
      assert c in run;
      Tail(run, key, limit, window);
      if c.at >= from + window {
        NothingAfter(s, run, key, from, from + window);
      } else {
        StepLasting(s, c, key, limit, window, from);
        BoundLasting(Exec(s, c), run[1..], key, limit, window, from);
        CountFirst(s, run, key, limit, from, from + window);
      }
    }
  }

  /** Inside the interval, whatever counter was there: one window may still run out unreset. */
  lemma {:induction false} BoundInside(s: Store, run: seq<Command>, key: string, limit: nat, window: int, from: int)
    requires Chronological(run) && Uses(run, key, limit, window)
    requires forall c | c in run :: c.at >= from
    ensures AllowedIn(s, run, key, from, from + window) <=
            Refills(run, key, limit, from, from + window) + limit + Left(s, key, limit)
    decreases |run|, 1
  {
    if run != [] {
      var c := run[0];
      assert c in run;
      Tail(run, key, limit, window);
      if c.at >= from + window {
        NothingAfter(s, run, key, from, from + window);
      } else {
        CountFirst(s, run, key, limit, from, from + window);
        BoundInsideStep(s, run, key, limit, window, from);
      }
    }
  }

  lemma {:induction false} BoundInsideStep(s: Store, run: seq<Command>, key: string, limit: nat, window: int, from: int)
    requires run != [] && Chronological(run[1..]) && Uses(run[1..], key, limit, window)
    requires from <= run[0].at < from + window && forall c | c in run[1..] :: c.at >= from
    requires run[0].key == key ==> (run[0].Incr? ==> run[0].limit == limit)
    ensures Gain(s, run[0], key) + AllowedIn(Exec(s, run[0]), run[1..], key, from, from + window) <=
            Refill(run[0], key, limit) + Refills(run[1..], key, limit, from, from + window) + limit +
                Left(s, key, limit)
    decreases |run|, 0
  {
    var c := run[0];
    if c.key == key && (c.Del? || !Live(s, key, c.at)) {
      StartsAnew(s, c, key, limit, from + window);
      BoundLasting(Exec(s, c), run[1..], key, limit, window, from);
    } else {
      BoundInside(Exec(s, c), run[1..], key, limit, window, from);
      match c {
        case Incr(_, _, _) => IncrTakes(s, c, key, limit, from + window);
        case Expire(_, _, _) => ExpireTakes(s, c, key, limit, from + window);
        case Del(_, _) => DelRefills(s, c, key, limit, from + window);
      }
    }
  }

  lemma DoubleBound(a: nat, resets: nat, left: nat, limit: nat)
    requires a <= limit * resets + limit + left && left <= limit
    ensures a <= limit * (2 + resets)
  {
    Times(limit, resets);
    Times(limit, resets + 1);
  }

  /**
    The limiter's guarantee, for every interleaving of commands, lost EXPIREs
    included: any interval as long as the window holds at most
    limit * (2 + resets in the interval) allowed calls.
  */
  lemma {:induction false} AllowedBound(s: Store, run: seq<Command>, key: string, limit: nat, window: int, from: int)
    requires Chronological(run) && Uses(run, key, limit, window)
    ensures AllowedIn(s, run, key, from, from + window) <= limit * (2 + ResetsIn(run, key, from, from + window))
    decreases |run|
  {
    if run != [] && run[0].at < from {
      Tail(run, key, limit, window);
      AllowedBound(Exec(s, run[0]), run[1..], key, limit, window, from);
    } else {
      assert forall i | 0 <= i < |run| :: run[i].at >= from;
      BoundInside(s, run, key, limit, window, from);
      RefillsAre(run, key, limit, from, from + window);
      DoubleBound(AllowedIn(s, run, key, from, from + window), ResetsIn(run, key, from, from + window),
                  Left(s, key, limit), limit);
    }
  }

  // ---------------------------------------------------------- nobody is kept out

  /** The answers to calls for one key, one after the other. */
  function Answers(s: Store, key: string, limit: nat, window: int, times: seq<int>): seq<bool>
    decreases |times|
  {
    if times == [] then []
    else
      var (ok, next) := AfterConsume(s, key, limit, window, times[0]);
      [ok] + Answers(next, key, limit, window, times[1..])
  }

  /** From a counter that stands at `count` and lasts, exactly what is left of the limit is let through. */
  lemma {:induction false} RestAllowed(s: Store, key: string, limit: nat, window: int, times: seq<int>)
    requires key in s && s[key].count > 0 && forall t | t in times :: Live(s, key, t)
    ensures |Answers(s, key, limit, window, times)| == |times|
    ensures forall i | 0 <= i < |times| :: Answers(s, key, limit, window, times)[i] <==> s[key].count + i < limit
    decreases |times|
  {
    if times != [] {
      assert times[0] in times && forall t | t in times[1..] :: t in times;
      RestAllowed(AfterConsume(s, key, limit, window, times[0]).1, key, limit, window, times[1..]);
    }
  }

  /**
    A window lets through exactly the limit: with no counter standing at the first
    call, the first `limit` calls of the window are allowed and every further one
    refused; at its end, or after a reset, the count starts again.
  */
  lemma WindowLetsLimitThrough(s: Store, key: string, limit: nat, window: int, times: seq<int>)
    requires times != [] && !Live(s, key, times[0]) && forall t | t in times :: times[0] <= t < times[0] + window
    ensures |Answers(s, key, limit, window, times)| == |times|
    ensures forall i | 0 <= i < |times| :: Answers(s, key, limit, window, times)[i] <==> i < limit
    ensures !Live(AfterConsume(s, key, limit, window, times[0]).1, key, times[0] + window)
    ensures forall at, store :: !Live(Exec(store, Del(key, at)), key, at)
  {
    assert times[0] in times && forall t | t in times[1..] :: t in times;
    var next := AfterConsume(s, key, limit, window, times[0]).1;
    assert next[key] == Entry(1, Some(times[0] + window));
    RestAllowed(next, key, limit, window, times[1..]);
  }
}
