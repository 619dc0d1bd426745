/**
 The fixed-window rate limiter (shared/rate_limit.py): a counter per key in Redis that the
 first hit of a window gives a lifetime.

 `RateLimiter.Check` is the method; its parameters say when its three Redis commands run and
 which of them fail. The theorems are about one key on which any number of clients interleave
 their commands. Times are in any fixed unit, with the window in the same unit.
 */
module RateLimiter {
  import opened Wrappers
  import opened CompoundKeys

  type Positive = n: nat | n > 0 witness 1

  /** What Redis holds for a key; without an expiry it is kept for ever. */
  datatype Key = Key(count: Positive, expiry: Option<int>)

  predicate Live(key: Option<Key>, now: int) {
    key.Some? && (key.value.expiry.Some? ==> now < key.value.expiry.value)
  }

  function Incremented(key: Option<Key>, now: int): Key {
    if Live(key, now) then key.value.(count := key.value.count + 1) else Key(1, None)
  }

  // ---------------------------------------------------------------------------------------
  // One check
  // ---------------------------------------------------------------------------------------

  /** An INCR that has no effect, one that takes effect while its reply is lost, and one that
      succeeds; both of the former raise. */
  datatype Reply = Refused | Lost | Arrived

  /** How the three commands of a check go: when they run, and which of them take effect. */
  datatype Calls = Calls(incrAt: int, incr: Reply, expireAt: int, expireOk: bool, ttl: Option<int>)

  /** The key after a check: the client that reads 1 sets the lifetime. */
  function Checked(key: Option<Key>, window: int, calls: Calls): Option<Key> {
    var k := Incremented(key, calls.incrAt);
    match calls.incr
    case Refused => key
    case Lost => Some(k)
    case Arrived => Some(if k.count == 1 && calls.expireOk then k.(expiry := Some(calls.expireAt + window)) else k)
  }

  class Redis {
    var keys: map<string, Key>

    function Get(key: string): Option<Key>
      reads this
    {
      if key in keys then Some(keys[key]) else None
    }

    constructor ()
      ensures keys == map[]
    {
      keys := map[];
    }

    method Incr(key: string, now: int) returns (count: Positive)
      modifies this
      ensures keys == old(keys)[key := Incremented(old(Get(key)), now)] && count == keys[key].count
    {
      if Live(Get(key), now) {
        keys := keys[key := keys[key].(count := keys[key].count + 1)];
      } else {
        keys := keys[key := Key(1, None)];
      }
      count := keys[key].count;
    }

    /** Sets the lifetime of a key; does nothing for a key that is gone. */
    method Expire(key: string, now: int, window: int)
      modifies this
      ensures keys == if Live(old(Get(key)), now) then old(keys)[key := old(keys)[key].(expiry := Some(now + window))]
                      else old(keys)
    {
      if Live(Get(key), now) {
        keys := keys[key := keys[key].(expiry := Some(now + window))];
      }
    }
  }

  function KeyName(scope: string, principal: string): string {
    "rl:v1:" + scope + ":" + principal
  }

  /** Two scopes with their principals share a counter exactly if they are equal or one reads a
      colon of the principal as part of the scope, or the other way round. */
  lemma KeysEqualIff(scope: string, principal: string, scope': string, principal': string)
    ensures KeyName(scope, principal) == KeyName(scope', principal')
       <==> (scope == scope' && principal == principal')
            || Overlap(scope, principal, scope', principal')
            || Overlap(scope', principal', scope, principal)
  {
    var key, key' := KeyName(scope, principal), KeyName(scope', principal');
    assert key[6..] == CompoundKeys.KeyOf(scope, principal) && key'[6..] == CompoundKeys.KeyOf(scope', principal');
    assert key == "rl:v1:" + key[6..] && key' == "rl:v1:" + key'[6..];
    CompoundKeys.KeysEqualIff(scope, principal, scope', principal');
  }

  /** They do not, provided that scopes contain no colon. */
  lemma KeysApart(scope: string, principal: string, scope': string, principal': string)
    requires ':' !in scope && ':' !in scope'
    ensures KeyName(scope, principal) == KeyName(scope', principal') <==> scope == scope' && principal == principal'
  {
    KeysEqualIff(scope, principal, scope', principal');
    NoOverlap(scope, principal, scope', principal');
    NoOverlap(scope', principal', scope, principal);
  }

  /** The user 10 of the scope login:v6 and the user v6:10 of the scope login. */
  lemma KeysCollide()
    ensures KeyName("login:v6", "10") == KeyName("login", "v6:10")
  {
    assert Overlap("login", "v6:10", "login:v6", "10") by {
      assert "login:v6" == "login" + ":" + "v6" && "v6:10" == "v6" + ":" + "10";
    }
    KeysEqualIff("login:v6", "10", "login", "v6:10");
  }

  class RateLimiter {
    const redis: Redis

    constructor (redis: Redis)
      ensures this.redis == redis
    {
      this.redis := redis;
    }

    /** An INCR or EXPIRE that raises lets the request through; the count decides otherwise. */
    method Check(principal: string, scope: string, capacity: int, window: int, calls: Calls)
      returns (allowed: bool, retryAfter: int)
      requires calls.incrAt <= calls.expireAt
      modifies redis
      ensures var key, before := KeyName(scope, principal), old(redis.Get(KeyName(scope, principal)));
              if capacity <= 0 || window <= 0 then allowed && redis.keys == old(redis.keys)
              else
                && redis.Get(key) == Checked(before, window, calls) && redis.keys - {key} == old(redis.keys) - {key}
                && (allowed <==> calls.incr != Arrived || redis.keys[key].count <= capacity)
      ensures if allowed then retryAfter == 0 else retryAfter > 0
      ensures !allowed ==> retryAfter == if calls.ttl.Some? && calls.ttl.value > 0 then calls.ttl.value else window
    {
      if capacity <= 0 || window <= 0 {
        return true, 0;
      }
      var key := KeyName(scope, principal);
      if calls.incr == Refused {
        return true, 0;
      }
      var count := redis.Incr(key, calls.incrAt);
      if calls.incr == Lost {
        return true, 0;
      }
      if count == 1 {
        if !calls.expireOk {
          return true, 0;
        }
        redis.Expire(key, calls.expireAt, window);
      }
      if count <= capacity {
        return true, 0;
      }
      var ttl := if calls.ttl.Some? then calls.ttl.value else window;
      return false, if ttl > 0 then ttl else window;
    }
  }

  // ---------------------------------------------------------------------------------------
  // One key under any number of clients
  // ---------------------------------------------------------------------------------------

  /** An INCR whose reply arrives; one that takes effect while its reply is lost; and the
      EXPIRE of the client that read 1, which may come late, or fail. */
  datatype Event = Hit(time: int) | LostHit(time: int) | Expire(time: int) | LostExpire(time: int)

  /** A request let through by its count: when, in which lifetime of the key, and the count. */
  datatype Pass = Pass(time: int, life: nat, count: nat)

  /** The key, whether an EXPIRE is on its way, when each lifetime began, and who got through. */
  datatype State = State(key: Option<Key>, arming: bool, last: int, starts: seq<int>, passed: seq<Pass>)

  const FRESH := State(None, false, 0, [], [])

  function Bumped(s: State, time: int): State {
    State(Some(Incremented(s.key, time)), s.arming, time,
          if Live(s.key, time) then s.starts else s.starts + [time], s.passed)
  }

  function Next(s: State, capacity: int, window: int, e: Event): State {
    match e
    case Hit(time) =>
      var b := Bumped(s, time);
      var count := b.key.value.count;
      b.(arming := s.arming || count == 1,
         passed := if count > capacity || |b.starts| == 0 then s.passed
                   else s.passed + [Pass(time, |b.starts| - 1, count)])
    case LostHit(time) => Bumped(s, time)
    case Expire(time) =>
      if s.key.None? then s.(last := time)
      else s.(key := Some(s.key.value.(expiry := Some(time + window))), arming := false, last := time)
    case LostExpire(time) => s.(arming := false, last := time)
  }

  predicate Allowed(s: State, e: Event) {
    (s.starts == [] || s.last <= e.time) && (e.Expire? || e.LostExpire? ==> s.arming)
  }

  ghost predicate Leads(s: State, capacity: int, window: int, run: seq<Event>, r: State)
    decreases |run|
  {
    if run == [] then s == r
    else Allowed(s, run[0]) && Leads(Next(s, capacity, window, run[0]), capacity, window, run[1..], r)
  }

  // ---------------------------------------------------------------------------------------
  // What every interleaving keeps
  // ---------------------------------------------------------------------------------------

  /** Lifetimes are at least a window apart, and the current one lasts at least a window. */
  ghost predicate Spaced(s: State, window: int) {
    && (s.key.None? <==> s.starts == [])
    && (forall i :: 0 <= i < |s.starts| ==> s.starts[i] <= s.last)
    && (forall i, j :: 0 <= i < j < |s.starts| ==> s.starts[j] - s.starts[i] >= window)
    && (s.arming ==> s.key.Some? && s.key.value.expiry.None?)
    && (s.key.Some? && s.key.value.expiry.Some? ==> s.key.value.expiry.value >= s.starts[|s.starts| - 1] + window)
  }

  ghost predicate InLife(s: State, capacity: int, p: Pass) {
    && p.life < |s.starts|
    && 1 <= p.count <= capacity
    && s.starts[p.life] <= p.time <= s.last
    && (p.count == 1 ==> p.time == s.starts[p.life])
    && (p.life + 1 < |s.starts| ==> p.time <= s.starts[p.life + 1])
    && (p.life + 1 == |s.starts| ==> s.key.Some? && p.count <= s.key.value.count)
  }

  predicate Before(p: Pass, q: Pass) {
    p.time <= q.time && (p.life < q.life || (p.life == q.life && p.count < q.count))
  }

  ghost predicate Orderly(s: State, capacity: int) {
    && (forall i :: 0 <= i < |s.passed| ==> InLife(s, capacity, s.passed[i]))
    && (forall i, j :: 0 <= i < j < |s.passed| ==> Before(s.passed[i], s.passed[j]))
  }

  lemma StepSpaced(s: State, capacity: int, window: int, e: Event)
    requires Spaced(s, window) && Allowed(s, e) && window > 0
    ensures Spaced(Next(s, capacity, window, e), window)
  {
  }

  lemma StepOrderly(s: State, capacity: int, window: int, e: Event)
    requires Spaced(s, window) && Orderly(s, capacity) && Allowed(s, e) && window > 0
    ensures Orderly(Next(s, capacity, window, e), capacity)
  {
    var r := Next(s, capacity, window, e);
    forall i | 0 <= i < |s.passed| ensures InLife(r, capacity, s.passed[i]) {
      assert InLife(s, capacity, s.passed[i]);
    }
    if |r.passed| > |s.passed| {
      var new' := r.passed[|s.passed|];
      forall i | 0 <= i < |s.passed| ensures Before(s.passed[i], new') {
        assert InLife(s, capacity, s.passed[i]);
      }
    }
  }

  lemma {:induction false} RunKeeps(s: State, capacity: int, window: int, run: seq<Event>, r: State)
    requires Spaced(s, window) && Orderly(s, capacity) && Leads(s, capacity, window, run, r) && window > 0
    ensures Spaced(r, window) && Orderly(r, capacity)
    decreases |run|
  {
    if run == [] {
    } else {
      StepSpaced(s, capacity, window, run[0]);
      StepOrderly(s, capacity, window, run[0]);
      RunKeeps(Next(s, capacity, window, run[0]), capacity, window, run[1..], r);
    }
  }

  // ---------------------------------------------------------------------------------------
  // The bounds
  // ---------------------------------------------------------------------------------------

  function Rank(p: Pass, capacity: int): int {
    p.life * capacity + p.count
  }

  lemma Multiply(a: int, b: int, c: int)
    requires a <= b && c >= 0
    ensures a * c <= b * c
  {
  }

  lemma {:induction false} RanksGrow(s: State, capacity: int, i: nat, j: nat)
    requires Orderly(s, capacity) && i <= j < |s.passed|
    ensures j - i <= Rank(s.passed[j], capacity) - Rank(s.passed[i], capacity)
    decreases j
  {
    if i >= j {
    } else {
      RanksGrow(s, capacity, i, j - 1);
      var p, q := s.passed[j - 1], s.passed[j];
      assert InLife(s, capacity, p) && InLife(s, capacity, q) && Before(p, q);
      if p.life < q.life {
        Multiply(p.life + 1, q.life, capacity);
        assert (p.life + 1) * capacity == p.life * capacity + capacity;
      }
    }
  }

  /** Requests let through less than a window apart are fewer than twice the capacity. */
  lemma Crowd(s: State, capacity: int, window: int, i: nat, j: nat)
    requires Spaced(s, window) && Orderly(s, capacity) && i <= j < |s.passed|
    requires s.passed[j].time - s.passed[i].time < window
    ensures j - i + 1 <= 2 * capacity - 1
  {
    var p, q := s.passed[i], s.passed[j];
    assert InLife(s, capacity, p) && InLife(s, capacity, q);
    assert i < j ==> Before(p, q);
    RanksGrow(s, capacity, i, j);
    if q.life > p.life {
      assert s.starts[q.life] - s.starts[p.life] >= window;
      assert q.life == p.life + 1;
      assert q.life * capacity == p.life * capacity + capacity;
    }
  }

  /** How many requests got through in the half-open interval [from, to). */
  function Through(passed: seq<Pass>, from: int, to: int): nat {
    if passed == [] then 0
    else Through(passed[..|passed| - 1], from, to) + if from <= passed[|passed| - 1].time < to then 1 else 0
  }

  function ThroughLife(passed: seq<Pass>, life: nat): nat {
    if passed == [] then 0
    else ThroughLife(passed[..|passed| - 1], life) + if passed[|passed| - 1].life == life then 1 else 0
  }

  /** Some first and last request of the interval enclose all that got through in it. */
  lemma {:induction false} Enclosed(passed: seq<Pass>, from: int, to: int) returns (i: nat, j: nat)
    requires Through(passed, from, to) > 0
    ensures i <= j < |passed| && from <= passed[i].time < to && from <= passed[j].time < to
    ensures Through(passed, from, to) <= j - i + 1
    decreases |passed|
  {
    var front, last := passed[..|passed| - 1], |passed| - 1;
    if Through(front, from, to) == 0 {
      i, j := last, last;
    } else {
      i, j := Enclosed(front, from, to);
      if from <= passed[last].time < to { j := last; }
    }
  }

  lemma {:induction false} EnclosedLife(passed: seq<Pass>, life: nat) returns (i: nat, j: nat)
    requires ThroughLife(passed, life) > 0
    ensures i <= j < |passed| && passed[i].life == passed[j].life == life
    ensures ThroughLife(passed, life) <= j - i + 1
    decreases |passed|
  {
    var front, last := passed[..|passed| - 1], |passed| - 1;
    if ThroughLife(front, life) == 0 {
      i, j := last, last;
    } else {
      i, j := EnclosedLife(front, life);
      if passed[last].life == life { j := last; }
    }
  }

  /**
   However the clients' commands interleave, and whatever becomes of replies and EXPIREs, the
   count lets through at most `capacity` requests per lifetime of the key, and at most
   2 * capacity - 1 in any half-open interval of the length of the window.
   */
  lemma AtMostTwice(capacity: int, window: int, run: seq<Event>, r: State, from: int, life: nat)
    requires capacity > 0 && window > 0 && Leads(FRESH, capacity, window, run, r)
    ensures Through(r.passed, from, from + window) <= 2 * capacity - 1
    ensures ThroughLife(r.passed, life) <= capacity
  {
    RunKeeps(FRESH, capacity, window, run, r);
    hide *;
    WindowBound(r, capacity, window, from);
    LifeBound(r, capacity, life);
  }

  lemma WindowBound(s: State, capacity: int, window: int, from: int)
    requires capacity > 0 && Spaced(s, window) && Orderly(s, capacity)
    ensures Through(s.passed, from, from + window) <= 2 * capacity - 1
  {
    hide *;
    if Through(s.passed, from, from + window) > 0 {
      var i, j := Enclosed(s.passed, from, from + window);
      Crowd(s, capacity, window, i, j);
    }
  }

  lemma LifeBound(s: State, capacity: int, life: nat)
    requires capacity > 0 && Orderly(s, capacity)
    ensures ThroughLife(s.passed, life) <= capacity
  {
    hide *;
    if ThroughLife(s.passed, life) > 0 {
      var i, j := EnclosedLife(s.passed, life);
      SameLife(s, capacity, i, j);
    }
  }

  lemma SameLife(s: State, capacity: int, i: nat, j: nat)
    requires Orderly(s, capacity) && i <= j < |s.passed| && s.passed[i].life == s.passed[j].life
    ensures j - i + 1 <= capacity
  {
    assert InLife(s, capacity, s.passed[i]) && InLife(s, capacity, s.passed[j]);
    RanksGrow(s, capacity, i, j);
  }

  lemma {:induction false} Chain(a: State, capacity: int, window: int, x: seq<Event>, b: State, y: seq<Event>, c: State)
    requires Leads(a, capacity, window, x, b) && Leads(b, capacity, window, y, c)
    ensures Leads(a, capacity, window, x + y, c)
    decreases |x|
  {
    if x == [] {
      assert x + y == y;
    } else {
      assert (x + y)[1..] == x[1..] + y;
      Chain(Next(a, capacity, window, x[0]), capacity, window, x[1..], b, y, c);
    }
  }

  lemma Extend(a: State, capacity: int, window: int, run: seq<Event>, b: State, e: Event)
    requires Leads(a, capacity, window, run, b) && Allowed(b, e)
    ensures Leads(a, capacity, window, run + [e], Next(b, capacity, window, e))
  {
    var c := Next(b, capacity, window, e);
    assert [e][1..] == [];
    assert Leads(c, capacity, window, [], c);
    Chain(a, capacity, window, run, b, [e], c);
  }

  /** A check is a run of these events: it does to the key what they do, and lets the request
      through exactly when they do. */
  lemma CheckIsRun(s: State, capacity: int, window: int, calls: Calls) returns (run: seq<Event>, r: State)
    requires Spaced(s, window) && window > 0 && capacity > 0
    requires (s.starts == [] || s.last <= calls.incrAt) && calls.incrAt <= calls.expireAt
    ensures Leads(s, capacity, window, run, r)
    ensures r.key == Checked(s.key, window, calls)
    ensures |r.passed| > |s.passed| <==> calls.incr == Arrived && r.key.value.count <= capacity
  {
    if calls.incr == Refused {
      return [], s;
    }
    if calls.incr == Lost {
      Extend(s, capacity, window, [], s, LostHit(calls.incrAt));
      return [LostHit(calls.incrAt)], Next(s, capacity, window, LostHit(calls.incrAt));
    }
    var h := Next(s, capacity, window, Hit(calls.incrAt));
    Extend(s, capacity, window, [], s, Hit(calls.incrAt));
    if h.key.value.count == 1 && calls.expireOk {
      r := Next(h, capacity, window, Expire(calls.expireAt));
      Extend(s, capacity, window, [Hit(calls.incrAt)], h, Expire(calls.expireAt));
      run := [Hit(calls.incrAt)] + [Expire(calls.expireAt)];
    } else {
      run, r := [Hit(calls.incrAt)], h;
    }
  }

  // ---------------------------------------------------------------------------------------
  // The bound is reached
  // ---------------------------------------------------------------------------------------

  predicate Successful(run: seq<Event>) {
    forall i :: 0 <= i < |run| ==> run[i].Hit? || run[i].Expire?
  }

  lemma SuccessfulAppend(a: seq<Event>, b: seq<Event>)
    requires Successful(a) && Successful(b)
    ensures Successful(a + b)
  {
  }

  lemma {:induction false} HitMany(s: State, capacity: int, window: int, time: int, n: nat, from: int, to: int)
    returns (run: seq<Event>, r: State)
    requires s.starts != [] && s.last <= time && Live(s.key, time) && s.key.value.count + n <= capacity
    ensures Leads(s, capacity, window, run, r) && Successful(run)
    ensures r.starts == s.starts && r.arming == s.arming && r.last <= time
    ensures r.key == Some(s.key.value.(count := s.key.value.count + n))
    ensures Through(r.passed, from, to) == Through(s.passed, from, to) + if from <= time < to then n else 0
  {
    if n == 0 {
      run, r := [], s;
    } else {
      var before, b := HitMany(s, capacity, window, time, n - 1, from, to);
      Extend(s, capacity, window, before, b, Hit(time));
      run, r := before + [Hit(time)], Next(b, capacity, window, Hit(time));
      OneMoreHit(b, capacity, window, time, from, to);
      hide Leads, Through, Next, Live;
    }
  }

  /** A request that passes by its count while a lifetime goes on. */
  lemma OneMoreHit(s: State, capacity: int, window: int, time: int, from: int, to: int)
    requires s.starts != [] && Live(s.key, time) && s.key.value.count < capacity
    ensures var r := Next(s, capacity, window, Hit(time));
      && r.starts == s.starts && r.arming == s.arming && r.last == time
      && r.key == Some(s.key.value.(count := s.key.value.count + 1))
      && Through(r.passed, from, to) == Through(s.passed, from, to) + if from <= time < to then 1 else 0
  {
    var r := Next(s, capacity, window, Hit(time));
    assert r.passed[..|r.passed| - 1] == s.passed;
  }

  /** A client opens a lifetime at `time`, and more requests use up the capacity at `burst`. */
  lemma UseUp(s: State, capacity: int, window: int, time: int, burst: int, from: int, to: int)
    returns (run: seq<Event>, r: State)
    requires capacity > 0 && (s.starts == [] || s.last <= time) && !Live(s.key, time) && !s.arming
    requires time <= burst < time + window
    ensures Leads(s, capacity, window, run, r) && Successful(run)
    ensures r.starts != [] && r.last <= burst && !r.arming && r.key == Some(Key(capacity, Some(time + window)))
    ensures Through(r.passed, from, to)
         == Through(s.passed, from, to)
            + (if from <= time < to then 1 else 0) + if from <= burst < to then capacity - 1 else 0
  {
    var h := Next(s, capacity, window, Hit(time));
    Extend(s, capacity, window, [], s, Hit(time));
    assert h.passed[..|h.passed| - 1] == s.passed;
    var x := Next(h, capacity, window, Expire(time));
    Extend(s, capacity, window, [Hit(time)], h, Expire(time));
    assert Successful([Hit(time)] + [Expire(time)]);
    hide Next, Through, Leads, Successful;
    var more;
    more, r := HitMany(x, capacity, window, burst, capacity - 1, from, to);
    Chain(s, capacity, window, [Hit(time)] + [Expire(time)], x, more, r);
    run := [Hit(time)] + [Expire(time)] + more;
    SuccessfulAppend([Hit(time)] + [Expire(time)], more);
  }

  /** For every capacity, and every window of two units or more, some run of successful checks
      lets 2 * capacity - 1 requests through within one window. */
  lemma BoundIsReached(capacity: int, window: int) returns (run: seq<Event>, r: State, from: int)
    requires capacity > 0 && window >= 2
    ensures Leads(FRESH, capacity, window, run, r)
    ensures !r.arming && Successful(run)
    ensures Through(r.passed, from, from + window) == 2 * capacity - 1
  {
    from := window - 1;
    var first, b := FirstBurst(capacity, window);
    run, r := SecondBurst(capacity, window, first, b);
  }

  /** One lifetime from the instant 0 on, whose requests all but one come at its very end. */
  lemma FirstBurst(capacity: int, window: int) returns (run: seq<Event>, r: State)
    requires capacity > 0 && window >= 2
    ensures Leads(FRESH, capacity, window, run, r) && Successful(run)
    ensures r.starts != [] && r.last <= window && !r.arming && r.key == Some(Key(capacity, Some(window)))
    ensures Through(r.passed, window - 1, 2 * window - 1) == capacity - 1
  {
    assert Through(FRESH.passed, window - 1, 2 * window - 1) == 0;
    hide Leads, Through, Successful, Next;
    run, r := UseUp(FRESH, capacity, window, 0, window - 1, window - 1, 2 * window - 1);
  }

  /** And the next lifetime, whose requests all come at its beginning. */
  lemma SecondBurst(capacity: int, window: int, first: seq<Event>, b: State) returns (run: seq<Event>, r: State)
    requires capacity > 0 && window >= 2 && Leads(FRESH, capacity, window, first, b) && Successful(first)
    requires b.starts != [] && b.last <= window && !b.arming && b.key == Some(Key(capacity, Some(window)))
    ensures Leads(FRESH, capacity, window, run, r) && Successful(run) && !r.arming
    ensures Through(r.passed, window - 1, 2 * window - 1)
         == Through(b.passed, window - 1, 2 * window - 1) + capacity
  {
    hide Leads, Through, Successful, Next;
    var second;
    second, r := UseUp(b, capacity, window, window, window, window - 1, 2 * window - 1);
    Chain(FRESH, capacity, window, first, b, second, r);
    run := first + second;
    SuccessfulAppend(first, second);
  }

  // ---------------------------------------------------------------------------------------
  // A lost EXPIRE
  // ---------------------------------------------------------------------------------------

  /** A key without a lifetime and without an EXPIRE on its way. */
  predicate Stuck(s: State) {
    s.key.Some? && s.key.value.expiry.None? && !s.arming
  }

  lemma {:induction false} StaysStuck(s: State, capacity: int, window: int, run: seq<Event>, r: State)
    requires Stuck(s) && Leads(s, capacity, window, run, r)
    ensures Stuck(r) && r.key.value.count == s.key.value.count + |run|
    ensures s.key.value.count >= capacity ==> r.passed == s.passed
    ensures |r.passed| - |s.passed| <= if s.key.value.count >= capacity then 0 else capacity - s.key.value.count
    decreases |run|
  {
    if run == [] {
    } else {
      StaysStuck(Next(s, capacity, window, run[0]), capacity, window, run[1..], r);
    }
  }

  /**
   One failed EXPIRE, or one lost reply to the first INCR, is never repaired: the counter only
   grows, so that after at most `capacity` more requests every later one is refused, at any
   time. As long as no command of the first check fails, the key cannot get stuck.
   */
  lemma LostExpireNeverRecovers(s: State, capacity: int, window: int, e: Event, run: seq<Event>, r: State)
    requires Spaced(s, window) && window > 0 && capacity > 0 && Allowed(s, e) && !Stuck(s)
    requires Leads(Next(s, capacity, window, e), capacity, window, run, r)
    ensures Stuck(Next(s, capacity, window, e)) <==> e.LostExpire? || (e.LostHit? && !Live(s.key, e.time))
    ensures Stuck(Next(s, capacity, window, e)) ==> Stuck(r) && |r.passed| - |s.passed| <= capacity
  {
    var n := Next(s, capacity, window, e);
    if Stuck(n) {
      StaysStuck(n, capacity, window, run, r);
    }
  }
}
