/**
 The arm scheduler (services/detector/src/scheduler.py): a schedule gives, for every date, the
 instant at which the alarm is armed and the one at which it is disarmed. `TransitionsBetween`
 lists what falls in a half-open interval by visiting the UTC dates of its two ends and all the
 dates between; a background thread calls it on (last tick, now] once a minute.

 Times are microseconds since the epoch, dates are day numbers, all in UTC. Time zones and
 sunrise tables are behind the two getters of a schedule.
 */
module Scheduler {
  import opened Wrappers
  import opened TimeSort

  const DAY: int := 86_400_000_000

  function Date(t: int): int { t / DAY }

  type Getter = int -> Option<int>
  type Transition = (int, bool)

  datatype Schedule = Schedule(arm: Getter, disarm: Getter)

  // ---------------------------------------------------------------------------------------
  // What the readers of a schedule compute
  // ---------------------------------------------------------------------------------------

  function Within(t: Option<int>, armed: bool, start: int, end: int): seq<Transition> {
    if t.Some? && start < t.value <= end then [(t.value, armed)] else []
  }

  /** The transitions of dates lo, ..., hi - 1 that fall in (start, end], in date order. */
  function Raw(s: Schedule, lo: int, hi: int, start: int, end: int): seq<Transition>
    decreases hi - lo
  {
    if hi <= lo then []
    else Raw(s, lo, hi - 1, start, end)
         + Within(s.arm(hi - 1), true, start, end) + Within(s.disarm(hi - 1), false, start, end)
  }

  function Between(s: Schedule, start: int, end: int): seq<Transition> {
    Sorted(Raw(s, Date(start), Date(end) + 1, start, end))
  }

  method TransitionsBetween(s: Schedule, start: int, end: int) returns (found: seq<Transition>)
    ensures found == Between(s, start, end)
  {
    found := [];
    var current, last := Date(start), Date(end);
    while current <= last
      invariant Date(start) <= current && (current <= last + 1 || current == Date(start))
      invariant found == Raw(s, Date(start), current, start, end)
    {
      var t := s.arm(current);
      if t.Some? && start < t.value && t.value <= end {
        found := found + [(t.value, true)];
      }
      t := s.disarm(current);
      if t.Some? && start < t.value && t.value <= end {
        found := found + [(t.value, false)];
      }
      current := current + 1;
    }
    found := Sorted(found);
  }

  function After(t: Option<int>, armed: bool, after: int): seq<Transition> {
    if t.Some? && t.value > after then [(t.value, armed)] else []
  }

  /** The head of the first of `n` days from `d` on that has a transition later than `after`. */
  function FirstFrom(s: Schedule, after: int, d: int, n: nat): Option<Transition>
    decreases n
  {
    if n == 0 then None
    else
      var candidates := Sorted(After(s.arm(d), true, after) + After(s.disarm(d), false, after));
      if candidates != [] then Some(candidates[0]) else FirstFrom(s, after, d + 1, n - 1)
  }

  method NextTransitionAfter(s: Schedule, after: int) returns (next: Option<Transition>)
    ensures next == FirstFrom(s, after, Date(after), 3)
  {
    var current := Date(after);
    for i := 0 to 3
      invariant current == Date(after) + i
      invariant FirstFrom(s, after, Date(after), 3) == FirstFrom(s, after, current, 3 - i)
    {
      var candidates: seq<Transition> := [];
      var t := s.arm(current);
      if t.Some? && t.value > after { candidates := candidates + [(t.value, true)]; }
      t := s.disarm(current);
      if t.Some? && t.value > after { candidates := candidates + [(t.value, false)]; }
      assert candidates == After(s.arm(current), true, after) + After(s.disarm(current), false, after);
      if candidates != [] {
        candidates := Sorted(candidates);
        SortedOrdered(After(s.arm(current), true, after) + After(s.disarm(current), false, after));
        return Some(candidates[0]);
      }
      current := current + 1;
    }
    return None;
  }

  /** Whether a pending automatic rearm may go ahead at `now`. */
  function AllowsRearm(enabled: bool, s: Schedule, now: int): bool {
    var recent := Between(s, now - DAY, now);
    !enabled || recent == [] || recent[|recent| - 1].1
  }

  // ---------------------------------------------------------------------------------------
  // The scheduler object
  // ---------------------------------------------------------------------------------------

  /** The rearm key in Redis; a value that is no timestamp makes every check give up. */
  datatype Pending = Absent | Malformed | RearmAt(time: int)

  /** What the scheduler changes: the armed flag, its last tick and the key; and what it did:
      the scheduled transitions it fired and the instants of its automatic rearms. */
  datatype Arming = Arming(armed: bool, lastTick: int, pending: Pending, fired: seq<Transition>, rearms: seq<int>)

  function Fire(a: Arming, due: seq<Transition>): Arming {
    a.(armed := if due == [] then a.armed else due[|due| - 1].1, fired := a.fired + due)
  }

  function Rearmed(a: Arming, enabled: bool, s: Schedule, now: int, getOk: bool, deleteOk: bool): Arming {
    if !getOk || !a.pending.RearmAt? || now < a.pending.time || !deleteOk then a
    else
      var b := a.(pending := Absent);
      if AllowsRearm(enabled, s, now) then b.(armed := true, rearms := b.rearms + [now]) else b
  }

  function Ticked(a: Arming, enabled: bool, s: Schedule, now: int, getOk: bool, deleteOk: bool): Arming {
    var b := a.(lastTick := now);
    var c := if enabled then Fire(b, Between(s, a.lastTick, now)) else b;
    Rearmed(c, enabled, s, now, getOk, deleteOk)
  }

  class ArmScheduler {
    var schedule: Schedule
    var enabled: bool
    var armed: bool
    var lastTick: int
    var pending: Pending
    ghost var fired: seq<Transition>
    ghost var rearms: seq<int>

    ghost function View(): Arming
      reads this
    {
      Arming(armed, lastTick, pending, fired, rearms)
    }

    constructor (s: Schedule, armed: bool, now: int)
      ensures schedule == s && !enabled && View() == Arming(armed, now, Absent, [], [])
    {
      schedule, enabled, this.armed, lastTick := s, false, armed, now;
      pending, fired, rearms := Absent, [], [];
    }

    /** A new configuration leaves the last tick and the armed flag alone. */
    method Configure(s: Schedule, on: bool)
      modifies this
      ensures schedule == s && enabled == on && View() == old(View())
    {
      schedule, enabled := s, on;
    }

    method ScheduleAllowsRearm(now: int) returns (ok: bool)
      ensures ok == AllowsRearm(enabled, schedule, now)
    {
      if !enabled { return true; }
      var recent := TransitionsBetween(schedule, now - DAY, now);
      if recent == [] { return true; }
      return recent[|recent| - 1].1;
    }

    method CheckPendingRearm(now: int, getOk: bool, deleteOk: bool)
      modifies this`armed, this`pending, this`rearms
      ensures View() == Rearmed(old(View()), enabled, schedule, now, getOk, deleteOk)
    {
      if !getOk || !pending.RearmAt? { return; }
      if now < pending.time { return; }
      if !deleteOk { return; }
      pending := Absent;
      var ok := ScheduleAllowsRearm(now);
      if !ok { return; }
      armed := true;
      rearms := rearms + [now];
    }

    method Tick(now: int, getOk: bool, deleteOk: bool)
      modifies this`armed, this`lastTick, this`pending, this`fired, this`rearms
      ensures View() == Ticked(old(View()), enabled, schedule, now, getOk, deleteOk)
    {
      hide Between, AllowsRearm;
      if enabled {
        var last := lastTick;
        lastTick := now;
        var due := TransitionsBetween(schedule, last, now);
        for i := 0 to |due|
          invariant lastTick == now && pending == old(pending) && rearms == old(rearms)
          invariant fired == old(fired) + due[..i]
          invariant armed == if i == 0 then old(armed) else due[i - 1].1
        {
          armed := due[i].1;
          fired := fired + [due[i]];
          assert due[..i + 1] == due[..i] + [due[i]];
        }
        assert due[..|due|] == due;
      } else {
        lastTick := now;
      }
      CheckPendingRearm(now, getOk, deleteOk);
    }
  }

  // ---------------------------------------------------------------------------------------
  // What an interval holds at one instant
  // ---------------------------------------------------------------------------------------

  function Hit(t: Option<int>, armed: bool, at: int): seq<Transition> {
    if t == Some(at) then [(at, armed)] else []
  }

  /** The transitions that dates lo, ..., hi - 1 put at the instant `t`. */
  function Hits(s: Schedule, lo: int, hi: int, t: int): seq<Transition>
    decreases hi - lo
  {
    if hi <= lo then []
    else Hits(s, lo, hi - 1, t) + Hit(s.arm(hi - 1), true, t) + Hit(s.disarm(hi - 1), false, t)
  }

  lemma WithinAt(x: Option<int>, armed: bool, start: int, end: int, t: int)
    ensures AtTime(Within(x, armed, start, end), t) == if start < t <= end then Hit(x, armed, t) else []
  {
  }

  lemma {:induction false} RawAt(s: Schedule, lo: int, hi: int, start: int, end: int, t: int)
    ensures AtTime(Raw(s, lo, hi, start, end), t) == if start < t <= end then Hits(s, lo, hi, t) else []
    decreases hi - lo
  {
    if lo >= hi {
    } else {
      RawAt(s, lo, hi - 1, start, end, t);
      var r := Raw(s, lo, hi - 1, start, end);
      var a, b := Within(s.arm(hi - 1), true, start, end), Within(s.disarm(hi - 1), false, start, end);
      AtTimeAppend(r, a, t);
      AtTimeAppend(r + a, b, t);
      WithinAt(s.arm(hi - 1), true, start, end, t);
      WithinAt(s.disarm(hi - 1), false, start, end, t);
    }
  }

  lemma BetweenAt(s: Schedule, start: int, end: int, t: int)
    ensures AtTime(Between(s, start, end), t)
         == if start < t <= end then Hits(s, Date(start), Date(end) + 1, t) else []
    ensures Ordered(Between(s, start, end))
  {
    var raw := Raw(s, Date(start), Date(end) + 1, start, end);
    SortedAt(raw, t);
    SortedOrdered(raw);
    RawAt(s, Date(start), Date(end) + 1, start, end, t);
  }

  lemma {:induction false} HitsSplit(s: Schedule, lo: int, mid: int, hi: int, t: int)
    requires lo <= mid <= hi
    ensures Hits(s, lo, hi, t) == Hits(s, lo, mid, t) + Hits(s, mid, hi, t)
    decreases hi - mid
  {
    if mid >= hi {
    } else {
      HitsSplit(s, lo, mid, hi - 1, t);
    }
  }

  lemma {:induction false} HitsNone(s: Schedule, lo: int, hi: int, t: int)
    requires forall d :: lo <= d < hi ==> s.arm(d) != Some(t) && s.disarm(d) != Some(t)
    ensures Hits(s, lo, hi, t) == []
    decreases hi - lo
  {
    if lo >= hi {
    } else {
      HitsNone(s, lo, hi - 1, t);
    }
  }

  // ---------------------------------------------------------------------------------------
  // Telescoping
  // ---------------------------------------------------------------------------------------

  predicate Landed(t: Option<int>, d: int) {
    t.Some? ==> d * DAY <= t.value <= (d + 1) * DAY
  }

  /** What a date schedules falls on that UTC date, or on the midnight that ends it. */
  ghost predicate InDay(s: Schedule) {
    forall d :: Landed(s.arm(d), d) && Landed(s.disarm(d), d)
  }

  ghost predicate Telescopes(s: Schedule) {
    forall a, b, c :: a <= b <= c ==> Between(s, a, c) == Between(s, a, b) + Between(s, b, c)
  }

  /** Everything the schedule ever puts at the instant `t`. */
  function Scheduled(s: Schedule, t: int): seq<Transition> {
    Hits(s, Date(t - 1), Date(t) + 1, t)
  }

  lemma HitsInDay(s: Schedule, lo: int, hi: int, t: int)
    requires InDay(s) && lo <= Date(t - 1) && Date(t) < hi
    ensures Hits(s, lo, hi, t) == Scheduled(s, t)
  {
    forall d | d < Date(t - 1) || d > Date(t) ensures s.arm(d) != Some(t) && s.disarm(d) != Some(t) {
      assert Landed(s.arm(d), d) && Landed(s.disarm(d), d);
    }
    HitsSplit(s, lo, Date(t - 1), hi, t);
    HitsSplit(s, Date(t - 1), Date(t) + 1, hi, t);
    HitsNone(s, lo, Date(t - 1), t);
    HitsNone(s, Date(t) + 1, hi, t);
  }

  lemma BetweenInDay(s: Schedule, start: int, end: int, t: int)
    requires InDay(s)
    ensures AtTime(Between(s, start, end), t) == if start < t <= end then Scheduled(s, t) else []
  {
    BetweenAt(s, start, end, t);
    if start < t <= end {
      HitsInDay(s, Date(start), Date(end) + 1, t);
    }
  }

  lemma BetweenRange(s: Schedule, start: int, end: int)
    ensures Spans(Between(s, start, end), start + 1, end)
  {
    var due := Between(s, start, end);
    forall i | 0 <= i < |due| ensures start + 1 <= due[i].0 <= end {
      BetweenAt(s, start, end, due[i].0);
      AtTimeHas(due, due[i], due[i].0);
    }
  }

  lemma JoinOrdered(s: Schedule, a: int, b: int, c: int)
    requires a <= b <= c
    ensures Ordered(Between(s, a, b) + Between(s, b, c))
  {
    BetweenAt(s, a, b, 0);
    BetweenAt(s, b, c, 0);
    BetweenRange(s, a, b);
    BetweenRange(s, b, c);
    OrderedAppend(Between(s, a, b), Between(s, b, c), a, b, c);
  }

  lemma Join(s: Schedule, a: int, b: int, c: int)
    requires InDay(s) && a <= b <= c
    ensures Between(s, a, c) == Between(s, a, b) + Between(s, b, c)
  {
    var whole, parts := Between(s, a, c), Between(s, a, b) + Between(s, b, c);
    BetweenAt(s, a, c, 0);
    JoinOrdered(s, a, b, c);
    forall t ensures AtTime(whole, t) == AtTime(parts, t) {
      BetweenInDay(s, a, c, t);
      BetweenInDay(s, a, b, t);
      BetweenInDay(s, b, c, t);
      AtTimeAppend(Between(s, a, b), Between(s, b, c), t);
    }
    Unique(whole, parts);
  }

  lemma HitsMore(s: Schedule, lo: int, d: int, hi: int, t: int)
    requires lo <= d < hi && (s.arm(d) == Some(t) || s.disarm(d) == Some(t))
    ensures |Hits(s, lo, hi, t)| > |Hits(s, lo, d, t)|
    ensures |Hits(s, lo, hi, t)| > |Hits(s, d + 1, hi, t)|
  {
    HitsSplit(s, lo, d + 1, hi, t);
  }

  lemma DateOf(t: int, d: int)
    requires d * DAY <= t < (d + 1) * DAY
    ensures Date(t) == d
  {
  }

  lemma DateBelow(t: int, d: int)
    requires t < d * DAY
    ensures Date(t - 1) <= Date(t) < d
  {
  }

  lemma DateAbove(t: int, d: int)
    requires (d + 1) * DAY < t
    ensures d < Date(t - 1) <= Date(t)
  {
  }

  lemma StraysEarly(s: Schedule, d: int, t: int, c: int)
    requires s.arm(d) == Some(t) || s.disarm(d) == Some(t)
    requires Date(t - 1) <= Date(t) < d == Date(c) && t < c
    ensures Between(s, t - 1, c) != Between(s, t - 1, t) + Between(s, t, c)
  {
    hide *;
    BetweenAt(s, t - 1, c, t);
    BetweenAt(s, t - 1, t, t);
    BetweenAt(s, t, c, t);
    AtTimeAppend(Between(s, t - 1, t), Between(s, t, c), t);
    HitsMore(s, Date(t - 1), d, d + 1, t);
    HitsSplit(s, Date(t - 1), Date(t) + 1, d, t);
    assert |AtTime(Between(s, t - 1, c), t)| > |AtTime(Between(s, t - 1, t), t)|;
  }

  lemma StraysLate(s: Schedule, d: int, t: int, a: int)
    requires s.arm(d) == Some(t) || s.disarm(d) == Some(t)
    requires Date(a) == d < Date(t - 1) <= Date(t) && a < t
    ensures Between(s, a, t) != Between(s, a, t - 1) + Between(s, t - 1, t)
  {
    hide *;
    BetweenAt(s, a, t, t);
    BetweenAt(s, a, t - 1, t);
    BetweenAt(s, t - 1, t, t);
    AtTimeAppend(Between(s, a, t - 1), Between(s, t - 1, t), t);
    HitsMore(s, d, d, Date(t) + 1, t);
    HitsSplit(s, d + 1, Date(t - 1), Date(t) + 1, t);
    assert |AtTime(Between(s, a, t), t)| > |AtTime(Between(s, t - 1, t), t)|;
  }

  /**
   Polling at arbitrary instants sees what one look at the whole interval sees, exactly when
   every date schedules inside its own UTC day. Ties keep their order.
   */
  lemma TelescopesIff(s: Schedule)
    ensures Telescopes(s) <==> InDay(s)
  {
    if InDay(s) {
      forall a, b, c | a <= b <= c ensures Between(s, a, c) == Between(s, a, b) + Between(s, b, c) {
        Join(s, a, b, c);
      }
    } else {
      var d :| !(Landed(s.arm(d), d) && Landed(s.disarm(d), d));
      var t := if Landed(s.arm(d), d) then s.disarm(d).value else s.arm(d).value;
      DateOf(d * DAY, d);
      if t < d * DAY {
        DateBelow(t, d);
        StraysEarly(s, d, t, d * DAY);
      } else {
        DateAbove(t, d);
        StraysLate(s, d, t, d * DAY);
      }
    }
  }

  // ---------------------------------------------------------------------------------------
  // Runs
  // ---------------------------------------------------------------------------------------

  /** What one look at the clock and the configuration gave. `seen` is what the getters
      answered; they read the configuration anew for every date, so that after a reconfiguration
      in the middle of a look it need not be a schedule that was ever configured.
      ScheduleReads.dfy says what it can be. */
  datatype Reading = Reading(now: int, enabled: bool, seen: Schedule)

  /** A tick of the background thread, with its own reading for the rearm check; a tick that a
      getter aborts with an exception, when the last tick has been moved already; or another
      process writing the rearm key. */
  datatype Event =
    | Tick(look: Reading, check: Reading, getOk: bool, deleteOk: bool)
    | Aborted(now: int)
    | Request(time: int)

  ghost function Step(a: Arming, e: Event): Arming {
    match e
    case Tick(look, check, getOk, deleteOk) =>
      var b := a.(lastTick := look.now);
      var c := if look.enabled then Fire(b, Between(look.seen, a.lastTick, look.now)) else b;
      Rearmed(c, check.enabled, check.seen, check.now, getOk, deleteOk)
    case Aborted(now) => a.(lastTick := now)
    case Request(time) => a.(pending := RearmAt(time))
  }

  ghost function RunFrom(a: Arming, run: seq<Event>): Arming {
    if |run| == 0 then a else Step(RunFrom(a, run[..|run| - 1]), run[|run| - 1])
  }

  /** A tick that is not interrupted is the method. */
  lemma TickIsStep(a: Arming, enabled: bool, s: Schedule, now: int, getOk: bool, deleteOk: bool)
    ensures Ticked(a, enabled, s, now, getOk, deleteOk)
         == Step(a, Tick(Reading(now, enabled, s), Reading(now, enabled, s), getOk, deleteOk))
  {
  }

  ghost function LastTick(t0: int, run: seq<Event>): int {
    if |run| == 0 then t0
    else
      match run[|run| - 1]
      case Tick(look, _, _, _) => look.now
      case Aborted(now) => now
      case Request(_) => LastTick(t0, run[..|run| - 1])
  }

  /** Clock readings of ticks never go back. */
  ghost predicate Forward(t0: int, run: seq<Event>) {
    |run| > 0 ==>
      && Forward(t0, run[..|run| - 1])
      && LastTick(t0, run[..|run| - 1]) <= LastTick(t0, run)
  }

  /** The instant lies between the last tick of `front` and the tick `e`, which finds the
      schedule enabled. */
  ghost predicate Polls(t0: int, front: seq<Event>, e: Event, t: int) {
    e.Tick? && e.look.enabled && LastTick(t0, front) < t <= e.look.now
  }

  /** What is put at the instant `t` by the schedule that the tick covering it sees, if an
      enabled tick does. */
  ghost function Seen(t0: int, run: seq<Event>, t: int): seq<Transition> {
    if |run| == 0 then []
    else
      var front, e := run[..|run| - 1], run[|run| - 1];
      if Polls(t0, front, e, t) then Scheduled(e.look.seen, t) else Seen(t0, front, t)
  }

  ghost predicate AllInDay(run: seq<Event>) {
    forall i :: 0 <= i < |run| && run[i].Tick? ==> InDay(run[i].look.seen)
  }

  lemma {:induction false} LastTickOfRun(a: Arming, run: seq<Event>)
    ensures RunFrom(a, run).lastTick == LastTick(a.lastTick, run)
  {
    if |run| == 0 {
    } else {
      LastTickOfRun(a, run[..|run| - 1]);
    }
  }

  lemma {:induction false} Grows(t0: int, run: seq<Event>)
    requires Forward(t0, run)
    ensures t0 <= LastTick(t0, run)
  {
    if |run| == 0 {
    } else {
      Grows(t0, run[..|run| - 1]);
    }
  }

  lemma {:induction false} SeenBefore(t0: int, run: seq<Event>, t: int)
    requires Forward(t0, run) && !(t0 < t <= LastTick(t0, run))
    ensures Seen(t0, run, t) == []
  {
    if |run| == 0 {
    } else {
      var front := run[..|run| - 1];
      Grows(t0, front);
      SeenBefore(t0, front, t);
    }
  }

  /**
   Over every run, with reconfigurations between ticks and in the middle of them, with the
   schedule switched on and off and whatever the rearm key does: what a schedule puts at an
   instant fires exactly once if a tick that sees this schedule enabled covers the instant, and
   nothing else fires at it; transitions of one instant fire together in date order, an arm
   before a disarm. Nothing fires at an instant that only an aborted tick covers.
   */
  lemma {:induction false} FiresOnce(a: Arming, run: seq<Event>, t: int)
    requires AllInDay(run) && Forward(a.lastTick, run) && a.fired == []
    ensures AtTime(RunFrom(a, run).fired, t) == Seen(a.lastTick, run, t)
  {
    if |run| == 0 {
    } else {
      var front, e := run[..|run| - 1], run[|run| - 1];
      FiresOnce(a, front, t);
      LastTickOfRun(a, front);
      var last := LastTick(a.lastTick, front);
      if e.Tick? && e.look.enabled {
        AtTimeAppend(RunFrom(a, front).fired, Between(e.look.seen, last, e.look.now), t);
        BetweenInDay(e.look.seen, last, e.look.now, t);
        if last < t {
          SeenBefore(a.lastTick, front, t);
        }
      }
    }
  }

  lemma {:induction false} FiresInOrder(a: Arming, run: seq<Event>)
    requires Forward(a.lastTick, run) && a.fired == []
    ensures Ordered(RunFrom(a, run).fired)
    ensures Spans(RunFrom(a, run).fired, a.lastTick, LastTick(a.lastTick, run))
  {
    if |run| == 0 {
    } else {
      var front, e := run[..|run| - 1], run[|run| - 1];
      FiresInOrder(a, front);
      LastTickOfRun(a, front);
      Grows(a.lastTick, front);
      if e.Tick? && e.look.enabled {
        var s, last, now := e.look.seen, LastTick(a.lastTick, front), e.look.now;
        BetweenAt(s, last, now, 0);
        BetweenRange(s, last, now);
        OrderedAppend(RunFrom(a, front).fired, Between(s, last, now), a.lastTick, last, now);
      }
    }
  }

  /** Every tick sees the schedule `s`, enabled. */
  ghost predicate Steady(run: seq<Event>, s: Schedule) {
    forall i :: 0 <= i < |run| ==> !run[i].Aborted? && (run[i].Tick? ==> run[i].look.enabled && run[i].look.seen == s)
  }

  lemma {:induction false} SeenWhileSteady(t0: int, run: seq<Event>, s: Schedule, t: int)
    requires Forward(t0, run) && Steady(run, s)
    ensures Seen(t0, run, t) == if t0 < t <= LastTick(t0, run) then Scheduled(s, t) else []
  {
    if |run| == 0 {
    } else {
      var front := run[..|run| - 1];
      SeenWhileSteady(t0, front, s, t);
      Grows(t0, front);
    }
  }

  /** With one schedule enabled throughout, how often it is polled makes no difference. */
  lemma PollingUnobservable(a: Arming, s: Schedule, run: seq<Event>)
    requires InDay(s) && Forward(a.lastTick, run) && Steady(run, s) && a.fired == []
    ensures RunFrom(a, run).fired == Between(s, a.lastTick, LastTick(a.lastTick, run))
  {
    var fired, whole := RunFrom(a, run).fired, Between(s, a.lastTick, LastTick(a.lastTick, run));
    FiresInOrder(a, run);
    BetweenAt(s, a.lastTick, LastTick(a.lastTick, run), 0);
    forall t ensures AtTime(fired, t) == AtTime(whole, t) {
      FiresOnce(a, run, t);
      SeenWhileSteady(a.lastTick, run, s, t);
      BetweenInDay(s, a.lastTick, LastTick(a.lastTick, run), t);
    }
    Unique(fired, whole);
  }

  ghost function Requests(run: seq<Event>): nat {
    if |run| == 0 then 0
    else Requests(run[..|run| - 1]) + if run[|run| - 1].Request? then 1 else 0
  }

  /** A rearm request is acted on at most once, however long its key lingers. */
  lemma {:induction false} OneRearmPerRequest(a: Arming, run: seq<Event>)
    requires a.pending == Absent && a.rearms == []
    ensures |RunFrom(a, run).rearms| + (if RunFrom(a, run).pending.RearmAt? then 1 else 0) <= Requests(run)
  {
    if |run| == 0 {
    } else {
      OneRearmPerRequest(a, run[..|run| - 1]);
    }
  }

  function Last(due: seq<Transition>, otherwise: Transition): Transition {
    if due == [] then otherwise else due[|due| - 1]
  }

  /**
   The rearm check looks back one day, and what it finds is what the ticks last did: a rearm
   never goes against the last transition they fired on that day.
   */
  lemma RearmFollowsTicks(a: Arming, s: Schedule, run: seq<Event>)
    requires InDay(s) && Forward(a.lastTick, run) && Steady(run, s) && a.fired == []
    requires a.lastTick <= LastTick(a.lastTick, run) - DAY
    ensures var now := LastTick(a.lastTick, run);
            var last := Last(RunFrom(a, run).fired, (now - DAY, true));
            AllowsRearm(true, s, now) <==> last.0 <= now - DAY || last.1
  {
    hide *;
    PollingUnobservable(a, s, run);
    LooksBack(s, a.lastTick, LastTick(a.lastTick, run));
  }

  lemma LooksBack(s: Schedule, t0: int, now: int)
    requires InDay(s) && t0 <= now - DAY
    ensures var last := Last(Between(s, t0, now), (now - DAY, true));
            AllowsRearm(true, s, now) <==> last.0 <= now - DAY || last.1
  {
    Join(s, t0, now - DAY, now);
    var before, recent := Between(s, t0, now - DAY), Between(s, now - DAY, now);
    BetweenRange(s, t0, now - DAY);
    BetweenRange(s, now - DAY, now);
  }

  // ---------------------------------------------------------------------------------------
  // The readers agree
  // ---------------------------------------------------------------------------------------

  /** What a date offers to the search for the next transition. */
  function Candidates(s: Schedule, after: int, d: int): seq<Transition> {
    After(s.arm(d), true, after) + After(s.disarm(d), false, after)
  }

  function Ahead(s: Schedule, after: int, lo: int, hi: int): seq<Transition>
    decreases hi - lo
  {
    if hi <= lo then [] else Ahead(s, after, lo, hi - 1) + Candidates(s, after, hi - 1)
  }

  lemma CandidatesAt(s: Schedule, after: int, d: int, t: int)
    ensures AtTime(Candidates(s, after, d), t)
         == if t > after then Hit(s.arm(d), true, t) + Hit(s.disarm(d), false, t) else []
  {
    AtTimeAppend(After(s.arm(d), true, after), After(s.disarm(d), false, after), t);
  }

  lemma {:induction false} AheadAt(s: Schedule, after: int, lo: int, hi: int, t: int)
    ensures AtTime(Ahead(s, after, lo, hi), t) == if t > after then Hits(s, lo, hi, t) else []
    decreases hi - lo
  {
    if hi <= lo {
    } else {
      AheadAt(s, after, lo, hi - 1, t);
      CandidatesAt(s, after, hi - 1, t);
      AtTimeAppend(Ahead(s, after, lo, hi - 1), Candidates(s, after, hi - 1), t);
      LastDateHits(s, lo, hi, t);
      hide AtTime, Hits, Hit, Candidates;
    }
  }

  lemma LastDateHits(s: Schedule, lo: int, hi: int, t: int)
    requires lo < hi
    ensures Hits(s, lo, hi, t)
         == Hits(s, lo, hi - 1, t) + (Hit(s.arm(hi - 1), true, t) + Hit(s.disarm(hi - 1), false, t))
  {
    hide Hit;
  }

  lemma {:induction false} AheadFirst(s: Schedule, after: int, lo: int, hi: int)
    requires lo < hi
    ensures Ahead(s, after, lo, hi) == Candidates(s, after, lo) + Ahead(s, after, lo + 1, hi)
    decreases hi - lo
  {
    hide Candidates;
    if lo + 1 == hi {
      assert Ahead(s, after, lo, lo) == [];
    } else {
      AheadFirst(s, after, lo, hi - 1);
    }
  }

  lemma CandidatesSpan(s: Schedule, after: int, d: int, mid: int)
    requires InDay(s) && mid == (d + 1) * DAY
    ensures Spans(Candidates(s, after, d), mid - DAY, mid)
  {
    assert Landed(s.arm(d), d) && Landed(s.disarm(d), d);
  }

  lemma {:induction false} AheadSpans(s: Schedule, after: int, lo: int, hi: int, from: int, to: int)
    requires InDay(s) && lo <= hi && from <= lo * DAY && hi * DAY <= to
    ensures Spans(Ahead(s, after, lo, hi), from, to)
    decreases hi - lo
  {
    if lo == hi {
    } else {
      AheadSpans(s, after, lo, hi - 1, from, to);
      CandidatesSpan(s, after, hi - 1, hi * DAY);
    }
  }

  function Head(due: seq<Transition>): Option<Transition> {
    if due == [] then None else Some(due[0])
  }

  lemma HeadOfBoth(here: seq<Transition>, later: seq<Transition>, lo: int, mid: int, hi: int)
    requires lo <= mid <= hi && Spans(here, lo, mid) && Spans(later, mid, hi)
    ensures Head(Sorted(here + later)) == if Sorted(here) != [] then Some(Sorted(here)[0]) else Head(Sorted(later))
  {
    SortedAppend(here, later, lo, mid, hi);
  }

  lemma FirstUnfolds(s: Schedule, after: int, d: int, n: nat)
    requires n > 0
    ensures var here := Sorted(Candidates(s, after, d));
      FirstFrom(s, after, d, n) == if here != [] then Some(here[0]) else FirstFrom(s, after, d + 1, n - 1)
  {
  }

  lemma HeadOfDays(s: Schedule, after: int, d: int, hi: int)
    requires InDay(s) && d < hi
    ensures var here := Sorted(Candidates(s, after, d));
      Head(Sorted(Ahead(s, after, d, hi)))
      == if here != [] then Some(here[0]) else Head(Sorted(Ahead(s, after, d + 1, hi)))
  {
    AheadFirst(s, after, d, hi);
    var mid, end := (d + 1) * DAY, hi * DAY;
    CandidatesSpan(s, after, d, mid);
    AheadSpans(s, after, d + 1, hi, mid, end);
    hide *;
    HeadOfBoth(Candidates(s, after, d), Ahead(s, after, d + 1, hi), mid - DAY, mid, end);
  }

  /** The search finds the head of all that its days offer. */
  lemma {:induction false} FirstIsHead(s: Schedule, after: int, d: int, n: nat, hi: int)
    requires InDay(s) && hi == d + n
    ensures FirstFrom(s, after, d, n) == Head(Sorted(Ahead(s, after, d, hi)))
    decreases n
  {
    if n == 0 {
    } else {
      hide *;
      FirstIsHead(s, after, d + 1, n - 1, hi);
      FirstUnfolds(s, after, d, n);
      DayComesFirst(s, after, d, n, hi);
    }
  }

  lemma DayComesFirst(s: Schedule, after: int, d: int, n: nat, hi: int)
    requires InDay(s) && n > 0 && hi == d + n
    ensures var here := Sorted(Candidates(s, after, d));
      Head(Sorted(Ahead(s, after, d, hi)))
      == if here != [] then Some(here[0]) else Head(Sorted(Ahead(s, after, d + 1, hi)))
  {
    hide *;
    HeadOfDays(s, after, d, hi);
  }

  lemma {:induction false} HitsAtTime(s: Schedule, lo: int, hi: int, x: int, t: int)
    ensures AtTime(Hits(s, lo, hi, x), t) == if t == x then Hits(s, lo, hi, x) else []
    ensures Ordered(Hits(s, lo, hi, x)) && Spans(Hits(s, lo, hi, x), x, x)
    decreases hi - lo
  {
    if hi <= lo {
    } else {
      var front, a, b := Hits(s, lo, hi - 1, x), Hit(s.arm(hi - 1), true, x), Hit(s.disarm(hi - 1), false, x);
      assert Hits(s, lo, hi, x) == front + a + b;
      HitsAtTime(s, lo, hi - 1, x, t);
      HitAtTime(s.arm(hi - 1), true, x, t);
      HitAtTime(s.disarm(hi - 1), false, x, t);
      hide *;
      AtTimeAppend(front, a, t);
      AtTimeAppend(front + a, b, t);
      OrderedAppend(front, a, x, x, x);
      OrderedAppend(front + a, b, x, x, x);
    }
  }

  lemma HitAtTime(y: Option<int>, armed: bool, x: int, t: int)
    ensures AtTime(Hit(y, armed, x), t) == if t == x then Hit(y, armed, x) else []
    ensures Ordered(Hit(y, armed, x)) && Spans(Hit(y, armed, x), x, x)
  {
  }

  /** All that three days offer is what polling to the end of the third would fire, and what
      the third date puts at the midnight that ends it. */
  lemma ThreeDays(s: Schedule, after: int, d: int, midnight: int)
    requires InDay(s) && d == Date(after) && midnight == (d + 3) * DAY
    ensures Sorted(Ahead(s, after, d, d + 3)) == Between(s, after, midnight - 1) + Hits(s, d + 2, d + 3, midnight)
  {
    var all := Sorted(Ahead(s, after, d, d + 3));
    var due, rest := Between(s, after, midnight - 1), Hits(s, d + 2, d + 3, midnight);
    ThirdMidnight(after, d, midnight);
    hide *;
    SortedOrdered(Ahead(s, after, d, d + 3));
    BetweenAt(s, after, midnight - 1, 0);
    BetweenRange(s, after, midnight - 1);
    HitsAtTime(s, d + 2, d + 3, midnight, 0);
    OrderedAppend(due, rest, after, midnight, midnight);
    forall t ensures AtTime(all, t) == AtTime(due + rest, t) {
      LateHits(s, d, midnight, t);
      ThreeDaysAt(s, after, d, midnight, t);
    }
    Unique(all, due + rest);
  }

  lemma ThirdMidnight(after: int, d: int, midnight: int)
    requires d == Date(after) && midnight == (d + 3) * DAY
    ensures Date(midnight - 1) + 1 == d + 3 && after + 1 < midnight
  {
  }

  lemma ThreeDaysAt(s: Schedule, after: int, d: int, midnight: int, t: int)
    requires d == Date(after) && Date(midnight - 1) + 1 == d + 3 && after < midnight
    requires t > midnight ==> Hits(s, d, d + 3, t) == []
    requires t == midnight ==> Hits(s, d, d + 3, t) == Hits(s, d + 2, d + 3, t)
    ensures AtTime(Sorted(Ahead(s, after, d, d + 3)), t)
         == AtTime(Between(s, after, midnight - 1) + Hits(s, d + 2, d + 3, midnight), t)
  {
    hide *;
    var due, rest := Between(s, after, midnight - 1), Hits(s, d + 2, d + 3, midnight);
    SortedAt(Ahead(s, after, d, d + 3), t);
    AheadAt(s, after, d, d + 3, t);
    AtTimeAppend(due, rest, t);
    BetweenAt(s, after, midnight - 1, t);
    HitsAtTime(s, d + 2, d + 3, midnight, t);
    if t == midnight {
      assert AtTime(due, t) == [];
    } else {
      assert AtTime(rest, t) == [];
    }
  }

  lemma LateHits(s: Schedule, d: int, midnight: int, t: int)
    requires InDay(s) && midnight == (d + 3) * DAY
    ensures t > midnight ==> Hits(s, d, d + 3, t) == []
    ensures t == midnight ==> Hits(s, d, d + 3, t) == Hits(s, d + 2, d + 3, t)
  {
    forall e | d <= e < d + 3 ensures Landed(s.arm(e), e) && Landed(s.disarm(e), e) {
    }
    if t > midnight {
      HitsNone(s, d, d + 3, t);
    } else if t == midnight {
      HitsNone(s, d, d + 2, t);
      HitsSplit(s, d, d + 2, d + 3, t);
    }
  }

  lemma HeadsAgree(due: seq<Transition>, rest: seq<Transition>)
    ensures Head(due + rest) == Head(due) <==> due != [] || rest == []
  {
  }

  lemma OneDateHits(s: Schedule, d: int, t: int)
    ensures Hits(s, d, d + 1, t) == [] <==> s.arm(d) != Some(t) && s.disarm(d) != Some(t)
  {
    assert Hits(s, d, d, t) == [];
  }

  /**
   The search for the next transition finds the head of what polling to the end of the third
   UTC day would fire, exactly if polling would fire something or the third date puts nothing
   at the midnight that ends it.
   */
  lemma NextIsHeadIff(s: Schedule, after: int)
    requires InDay(s)
    ensures var d := Date(after);
      var midnight := (d + 3) * DAY;
      FirstFrom(s, after, d, 3) == Head(Between(s, after, midnight - 1))
      <==> Between(s, after, midnight - 1) != []
           || (s.arm(d + 2) != Some(midnight) && s.disarm(d + 2) != Some(midnight))
  {
    hide *;
    NextIsHeadAt(s, after, Date(after), (Date(after) + 3) * DAY);
  }

  lemma NextIsHeadAt(s: Schedule, after: int, d: int, midnight: int)
    requires InDay(s) && d == Date(after) && midnight == (d + 3) * DAY
    ensures FirstFrom(s, after, d, 3) == Head(Between(s, after, midnight - 1))
       <==> Between(s, after, midnight - 1) != []
            || (s.arm(d + 2) != Some(midnight) && s.disarm(d + 2) != Some(midnight))
  {
    ThreeDays(s, after, d, midnight);
    hide *;
    HeadsAgree(Between(s, after, midnight - 1), Hits(s, d + 2, d + 3, midnight));
    FirstIsHead(s, after, d, 3, d + 3);
    OneDateHits(s, d + 2, midnight);
  }

  /** So they agree when no date schedules anything at the midnight that ends it. */
  lemma NextIsHead(s: Schedule, after: int)
    requires InDay(s)
    requires forall d :: s.arm(d) != Some((d + 1) * DAY) && s.disarm(d) != Some((d + 1) * DAY)
    ensures FirstFrom(s, after, Date(after), 3) == Head(Between(s, after, (Date(after) + 3) * DAY - 1))
  {
    var d := Date(after);
    assert s.arm(d + 2) != Some((d + 3) * DAY) && s.disarm(d + 2) != Some((d + 3) * DAY);
    NextIsHeadIff(s, after);
  }

  /** A schedule whose only transition is at the midnight that ends the third date. */
  lemma NextDiffers()
    ensures var s := Schedule(d => if d == 2 then Some(3 * DAY) else None, d => None);
      InDay(s) && FirstFrom(s, 0, 0, 3) == Some((3 * DAY, true)) && Between(s, 0, 3 * DAY - 1) == []
  {
    var s := Schedule(d => if d == 2 then Some(3 * DAY) else None, d => None);
    FirstUnfolds(s, 0, 0, 3);
    FirstUnfolds(s, 0, 1, 2);
    FirstUnfolds(s, 0, 2, 1);
    assert Raw(s, 0, 3, 0, 3 * DAY - 1) == [];
  }

  // ---------------------------------------------------------------------------------------
  // Fixed daily times
  // ---------------------------------------------------------------------------------------

  /** The same times every day, as offsets from midnight UTC. A local time in a zone west of
      Greenwich can have an offset of a day or more, one east of it a negative offset. */
  function Daily(arm: int, disarm: int): Schedule {
    Schedule(d => Some(d * DAY + arm), d => Some(d * DAY + disarm))
  }

  /** A daily schedule survives polling exactly when both offsets lie within the day. */
  lemma DailyTelescopesIff(arm: int, disarm: int)
    ensures Telescopes(Daily(arm, disarm)) <==> 0 <= arm <= DAY && 0 <= disarm <= DAY
  {
    var s := Daily(arm, disarm);
    TelescopesIff(s);
    if InDay(s) {
      assert Landed(s.arm(0), 0) && Landed(s.disarm(0), 0);
    }
    if 0 <= arm <= DAY && 0 <= disarm <= DAY {
      forall d ensures Landed(s.arm(d), d) && Landed(s.disarm(d), d) {
      }
    }
  }

  function Time(s: Schedule, armed: bool, d: int): Option<int> {
    if armed then s.arm(d) else s.disarm(d)
  }

  lemma {:induction false} RawHas(s: Schedule, lo: int, hi: int, start: int, end: int, t: int, armed: bool)
    ensures (t, armed) in Raw(s, lo, hi, start, end)
       <==> start < t <= end && exists d :: lo <= d < hi && Time(s, armed, d) == Some(t)
    decreases hi - lo
  {
    if lo >= hi {
    } else {
      RawHas(s, lo, hi - 1, start, end, t, armed);
      if Time(s, armed, hi - 1) == Some(t) && start < t <= end {
        assert (t, armed) in Within(Time(s, armed, hi - 1), armed, start, end);
      }
    }
  }

  function Offset(arm: int, disarm: int, armed: bool): int {
    if armed then arm else disarm
  }

  function Daytime(offset: int, d: int): int {
    d * DAY + offset
  }

  lemma DailyHas(arm: int, disarm: int, start: int, end: int, t: int, armed: bool)
    ensures (t, armed) in Between(Daily(arm, disarm), start, end)
       <==> start < t <= end && exists d :: Date(start) <= d <= Date(end) && t == Daytime(Offset(arm, disarm, armed), d)
  {
    var s := Daily(arm, disarm);
    SortedHas(Raw(s, Date(start), Date(end) + 1, start, end), (t, armed));
    RawHas(s, Date(start), Date(end) + 1, start, end, t, armed);
    assert forall d :: Time(s, armed, d) == Some(Daytime(Offset(arm, disarm, armed), d));
    hide Raw, Sorted, Date, Daytime, Offset, Daily;
  }

  /**
   Outside the day, an arm or disarm time is seen only by a tick that spans the lapse: some tick
   no longer than `w` fires day d's transition exactly when its offset is less than `w` outside
   the day. With a tick a minute, an offset a minute or more outside is never fired at all.
   */
  lemma SeenByTickIff(arm: int, disarm: int, armed: bool, d: int, w: int)
    requires w >= 1
    ensures (exists start, end :: start <= end <= start + w
              && (Daytime(Offset(arm, disarm, armed), d), armed) in Between(Daily(arm, disarm), start, end))
       <==> -w < Offset(arm, disarm, armed) < DAY + w
  {
    var s, x := Daily(arm, disarm), Offset(arm, disarm, armed);
    var t := Daytime(x, d);
    if -w < x < DAY + w {
      var start := if x > DAY then (d + 1) * DAY - 1 else t - 1;
      var end := if x < 0 then d * DAY else t;
      SeenBetween(arm, disarm, armed, d, start, end);
      assert (t, armed) in Between(s, start, end);
    }
    forall start, end | start <= end <= start + w && (t, armed) in Between(s, start, end) ensures -w < x < DAY + w {
      SeenBetween(arm, disarm, armed, d, start, end);
    }
  }

  lemma SeenBetween(arm: int, disarm: int, armed: bool, d: int, start: int, end: int)
    ensures var t := Daytime(Offset(arm, disarm, armed), d);
      (t, armed) in Between(Daily(arm, disarm), start, end) <==>
        start < t <= end && start < (d + 1) * DAY && d * DAY <= end
  {
    DailyHas(arm, disarm, start, end, Daytime(Offset(arm, disarm, armed), d), armed);
  }

  /** The time of day lies in [from, to), going past midnight when `to` comes first. */
  predicate Cyclic(time: int, from: int, to: int) {
    if from < to then from <= time < to else from <= time || time < to
  }

  /** The last time up to `now` at which a daily offset came round. */
  function Latest(offset: int, now: int): int {
    (if offset <= now % DAY then now / DAY else now / DAY - 1) * DAY + offset
  }

  lemma LatestFacts(offset: int, now: int) returns (d: int)
    requires 0 <= offset < DAY
    ensures Date(now) - 1 == Date(now - DAY) <= d <= Date(now)
    ensures now - DAY < Daytime(offset, d) == Latest(offset, now) <= now
    ensures forall e :: Date(now - DAY) <= e <= Date(now) && now - DAY < Daytime(offset, e) <= now ==> e == d
  {
    d := if offset <= now % DAY then Date(now) else Date(now) - 1;
  }

  lemma DailyRecent(arm: int, disarm: int, now: int, t: int, armed: bool)
    requires 0 <= arm < DAY && 0 <= disarm < DAY
    ensures (t, armed) in Between(Daily(arm, disarm), now - DAY, now)
       <==> t == Latest(Offset(arm, disarm, armed), now)
  {
    var x := Offset(arm, disarm, armed);
    assert 0 <= x < DAY;
    hide *;
    var d := LatestFacts(x, now);
    DailyHas(arm, disarm, now - DAY, now, t, armed);
  }

  lemma LatestOrder(arm: int, disarm: int, now: int)
    requires 0 <= arm < DAY && 0 <= disarm < DAY && arm != disarm
    ensures Latest(arm, now) != Latest(disarm, now)
    ensures Latest(disarm, now) < Latest(arm, now) <==> Cyclic(now % DAY, arm, disarm)
  {
  }

  /** For distinct daily times, a rearm may go ahead exactly in the armed part of the day. */
  lemma DailyRearm(arm: int, disarm: int, now: int)
    requires 0 <= arm < DAY && 0 <= disarm < DAY && arm != disarm
    ensures AllowsRearm(true, Daily(arm, disarm), now) <==> Cyclic(now % DAY, arm, disarm)
  {
    var recent := Between(Daily(arm, disarm), now - DAY, now);
    BetweenAt(Daily(arm, disarm), now - DAY, now, 0);
    DailyRecent(arm, disarm, now, Latest(arm, now), true);
    DailyRecent(arm, disarm, now, Latest(disarm, now), false);
    var last := recent[|recent| - 1];
    DailyRecent(arm, disarm, now, last.0, last.1);
    LatestOrder(arm, disarm, now);
    BelowLast(recent, recent, (Latest(arm, now), true));
    BelowLast(recent, recent, (Latest(disarm, now), false));
  }
}
