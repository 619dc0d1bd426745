/**
 The FIFO lock that serialises inference on a shared detector
 (services/detector/src/fair_lock.py).

 `FairLock` is the object: its methods are the three blocks of code that run under the
 internal mutex. `Apply` interleaves those blocks, for any number of threads, with the two
 ways `event.wait` can return. The theorems are about every run of that system.
 */
module FairLock {

  // ---- The lock's own state, and its three critical sections ---------------------------

  /** A ticket numbers an acquire call by the order in which it entered its first critical
      section. `granted` lists the tickets whose event has been set, in the order of setting. */
  datatype Lock = Lock(held: bool, queue: seq<nat>, granted: seq<nat>, next: nat)

  datatype Outcome = Withdrawn | Accepted | Lost

  function Entered(l: Lock): Lock {
    if l.held
    then l.(queue := l.queue + [l.next], next := l.next + 1)
    else l.(held := true, granted := l.granted + [l.next], next := l.next + 1)
  }

  function IndexOf(queue: seq<nat>, ticket: nat): (i: nat)
    requires ticket in queue
    ensures i < |queue| && queue[i] == ticket && ticket !in queue[..i]
  {
    if queue[0] == ticket then 0 else 1 + IndexOf(queue[1..], ticket)
  }

  /** What a caller does once `event.wait` has returned False: leave the queue; or, if
      release() got there first, keep the lock it has just been handed. */
  function Settled(l: Lock, ticket: nat): (Lock, Outcome) {
    if ticket in l.queue then
      var i := IndexOf(l.queue, ticket);
      (l.(queue := l.queue[..i] + l.queue[i + 1..]), Withdrawn)
    else if ticket in l.granted then (l, Accepted)
    else (l, Lost)
  }

  function Released(l: Lock): Lock {
    if l.queue != []
    then l.(queue := l.queue[1..], granted := l.granted + [l.queue[0]])
    else l.(held := false)
  }

  // ---- The object ----------------------------------------------------------------------

  class Event {
    ghost const ticket: nat
    var flag: bool

    constructor (ghost ticket: nat)
      ensures this.ticket == ticket && !flag
    {
      this.ticket := ticket;
      flag := false;
    }
  }

  ghost function Tickets(queue: seq<Event>): seq<nat> {
    seq(|queue|, i requires 0 <= i < |queue| => queue[i].ticket)
  }

  class FairLock {
    var held: bool
    var queue: seq<Event>
    ghost var events: set<Event>
    ghost var granted: seq<nat>
    ghost var next: nat

    ghost predicate Valid()
      reads this, events
    {
      && (forall e :: e in queue ==> e in events)
      && (forall e, f :: e in events && f in events && e.ticket == f.ticket ==> e == f)
      && (forall e :: e in events ==> e.ticket < next && (e.flag <==> e.ticket in granted))
      && (forall t :: t in granted ==> t < next)
    }

    ghost function View(): Lock
      reads this
    {
      Lock(held, Tickets(queue), granted, next)
    }

    constructor ()
      ensures Valid() && fresh(events)
      ensures View() == Lock(false, [], [], 0)
    {
      held, queue := false, [];
      events, granted, next := {}, [], 0;
    }

    /** The first half of acquire(), up to the wait. */
    method AcquireEnter() returns (event: Event)
      requires Valid()
      modifies this
      ensures Valid() && events == old(events) + {event} && fresh(event)
      ensures event.ticket == old(next)
      ensures View() == Entered(old(View()))
      ensures event.flag <==> !old(held)
    {
      event := new Event(next);
      events := events + {event};
      next := next + 1;
      if !held {
        held := true;
        event.flag := true;
        granted := granted + [event.ticket];
      } else {
        queue := queue + [event];
      }
    }

    /** The critical section entered after the wait has timed out; True means that the
        caller owns the lock after all, False that acquire() raises TimeoutError. */
    method AcquireSettle(event: Event) returns (owner: bool)
      requires Valid() && event in events
      modifies this
      ensures Valid() && events == old(events)
      ensures View() == Settled(old(View()), event.ticket).0
      ensures owner <==> Settled(old(View()), event.ticket).1.Accepted?
    {
      var i := 0;
      while i < |queue| && queue[i] != event
        invariant 0 <= i <= |queue|
        invariant event.ticket !in Tickets(queue)[..i]
      {
        assert Tickets(queue)[..i + 1] == Tickets(queue)[..i] + [queue[i].ticket];
        i := i + 1;
      }
      if i < |queue| {
        ghost var before := Tickets(queue);
        assert before[i] == event.ticket;
        assert IndexOf(before, event.ticket) == i;
        queue := queue[..i] + queue[i + 1..];
        assert Tickets(queue) == before[..i] + before[i + 1..];
        return false;
      }
      assert Tickets(queue)[..i] == Tickets(queue);
      return event.flag;
    }

    method Release()
      requires Valid()
      modifies this, events
      ensures Valid() && events == old(events)
      ensures View() == Released(old(View()))
    {
      if |queue| > 0 {
        var nextEvent := queue[0];
        assert Tickets(queue)[0] == nextEvent.ticket;
        assert Tickets(queue[1..]) == Tickets(queue)[1..];
        queue := queue[1..];
        nextEvent.flag := true;
        granted := granted + [nextEvent.ticket];
      } else {
        held := false;
      }
    }
  }

  // ---- Any number of threads -----------------------------------------------------------

  /** Where a thread stands: outside acquire/release; blocked in `event.wait`; past a wait
      that returned False; owning the lock; or in the branch that raises although the event
      is neither queued nor set. */
  datatype Pc = Idle | Waiting(ticket: nat) | Expiring(ticket: nat) | Owner(ticket: nat) | Stranded

  datatype System = System(lock: Lock, threads: map<nat, Pc>)

  datatype Step =
    | EnterStep(t: nat)
    | WakeStep(t: nat)     // event.wait returns True
    | ExpireStep(t: nat)   // event.wait returns False; the event may be set meanwhile
    | SettleStep(t: nat)
    | ReleaseStep(t: nat)

  function PcOf(s: System, t: nat): Pc {
    if t in s.threads then s.threads[t] else Idle
  }

  ghost predicate Enabled(s: System, step: Step) {
    match step
    case EnterStep(t) => PcOf(s, t).Idle?
    case WakeStep(t) => PcOf(s, t).Waiting? && PcOf(s, t).ticket in s.lock.granted
    case ExpireStep(t) => PcOf(s, t).Waiting?
    case SettleStep(t) => PcOf(s, t).Expiring?
    case ReleaseStep(t) => PcOf(s, t).Owner?
  }

  ghost function Apply(s: System, step: Step): System
    requires Enabled(s, step)
  {
    match step
    case EnterStep(t) =>
      System(Entered(s.lock), s.threads[t := Waiting(s.lock.next)])
    case WakeStep(t) =>
      s.(threads := s.threads[t := Owner(PcOf(s, t).ticket)])
    case ExpireStep(t) =>
      s.(threads := s.threads[t := Expiring(PcOf(s, t).ticket)])
    case SettleStep(t) =>
      var (lock, outcome) := Settled(s.lock, PcOf(s, t).ticket);
      var pc := match outcome
        case Withdrawn => Idle
        case Accepted => Owner(PcOf(s, t).ticket)
        case Lost => Stranded;
      System(lock, s.threads[t := pc])
    case ReleaseStep(t) =>
      System(Released(s.lock), s.threads[t := Idle])
  }

  ghost predicate IsRun(s: System, steps: seq<Step>)
    decreases |steps|
  {
    steps != [] ==> Enabled(s, steps[0]) && IsRun(Apply(s, steps[0]), steps[1..])
  }

  ghost function After(s: System, steps: seq<Step>): System
    requires IsRun(s, steps)
    decreases |steps|
  {
    if steps == [] then s else After(Apply(s, steps[0]), steps[1..])
  }

  const INITIAL := System(Lock(false, [], [], 0), map[])

  // ---- The invariant -------------------------------------------------------------------

  ghost predicate Increasing(s: seq<nat>) {
    forall i, j :: 0 <= i < j < |s| ==> s[i] < s[j]
  }

  lemma Appended(s: seq<nat>, x: nat)
    requires Increasing(s) && (s != [] ==> s[|s| - 1] < x)
    ensures Increasing(s + [x])
  {
  }

  predicate HasTicket(pc: Pc) {
    pc.Waiting? || pc.Expiring? || pc.Owner?
  }

  /** The thread owns the lock, or has been handed it and cannot fail to find that out. */
  ghost predicate Holds(s: System, t: nat) {
    var pc := PcOf(s, t);
    pc.Owner? || (HasTicket(pc) && pc.ticket in s.lock.granted)
  }

  /** Everybody granted so far, everybody waiting, then the next to arrive: one line, in
      order of arrival. */
  ghost predicate Fifo(l: Lock) {
    Increasing(l.granted + l.queue + [l.next])
  }

  lemma FifoFacts(l: Lock)
    requires Fifo(l)
    ensures Increasing(l.granted) && Increasing(l.queue)
    ensures forall g, q :: g in l.granted && q in l.queue ==> g < q
    ensures forall x :: x in l.granted || x in l.queue ==> x < l.next
  {
    var line := l.granted + l.queue + [l.next];
    forall i | 0 <= i < |l.granted| ensures line[i] == l.granted[i] < l.next {
      assert line[i] < line[|line| - 1];
    }
    forall j | 0 <= j < |l.queue| ensures line[|l.granted| + j] == l.queue[j] < l.next {
      assert line[|l.granted| + j] < line[|line| - 1];
    }
  }

  ghost predicate Inv(s: System) {
    && Fifo(s.lock)
    && (s.lock.queue != [] ==> s.lock.held)
    && (s.lock.held <==> exists t :: Holds(s, t))
    && (forall t, u :: Holds(s, t) && Holds(s, u) ==> t == u)
    && (forall t :: !PcOf(s, t).Stranded?)
    && (forall t :: HasTicket(PcOf(s, t)) ==> PcOf(s, t).ticket < s.lock.next)
    && (forall t, u :: HasTicket(PcOf(s, t)) && HasTicket(PcOf(s, u)) && PcOf(s, t).ticket == PcOf(s, u).ticket ==>
          t == u)
    && (forall t :: PcOf(s, t).Owner? ==> PcOf(s, t).ticket in s.lock.granted)
    && (forall t :: PcOf(s, t).Waiting? || PcOf(s, t).Expiring? ==>
          PcOf(s, t).ticket in s.lock.queue || PcOf(s, t).ticket in s.lock.granted)
    && (forall q :: q in s.lock.queue ==> exists t :: WaitsOn(s, t, q))
  }

  ghost predicate WaitsOn(s: System, t: nat, ticket: nat) {
    var pc := PcOf(s, t);
    (pc.Waiting? || pc.Expiring?) && pc.ticket == ticket
  }

  lemma Removed(s: seq<nat>, i: nat)
    requires Increasing(s) && i < |s|
    ensures Increasing(s[..i] + s[i + 1..])
    ensures forall x :: x in s[..i] + s[i + 1..] <==> x in s && x != s[i]
  {
  }

  lemma EnterFifo(l: Lock)
    requires Fifo(l) && (l.queue != [] ==> l.held)
    ensures Fifo(Entered(l))
  {
    var line := l.granted + l.queue + [l.next];
    assert Entered(l).granted + Entered(l).queue == line;
    assert line[|line| - 1] == l.next;
    Appended(line, l.next + 1);
  }

  lemma SettleFifo(l: Lock, ticket: nat)
    requires Fifo(l)
    ensures Fifo(Settled(l, ticket).0)
  {
    if ticket in l.queue {
      var i := IndexOf(l.queue, ticket);
      var line, k := l.granted + l.queue + [l.next], |l.granted| + i;
      Removed(line, k);
      assert l.granted + (l.queue[..i] + l.queue[i + 1..]) + [l.next] == line[..k] + line[k + 1..];
    }
  }

  lemma SettleFacts(l: Lock, ticket: nat)
    requires Fifo(l)
    ensures var (l', outcome) := Settled(l, ticket);
      && l'.granted == l.granted && l'.held == l.held && l'.next == l.next
      && (forall q :: q in l'.queue <==> q in l.queue && q != ticket)
      && (l'.queue != [] ==> l.queue != [])
      && (outcome.Withdrawn? <==> ticket in l.queue)
      && (outcome.Withdrawn? ==> ticket !in l.granted)
      && (outcome.Accepted? <==> ticket in l.granted)
      && (outcome.Accepted? ==> l' == l)
  {
    FifoFacts(l);
    if ticket in l.queue {
      Removed(l.queue, IndexOf(l.queue, ticket));
    }
  }

  lemma ReleaseFifo(l: Lock)
    requires Fifo(l) && l.queue != []
    ensures Fifo(Released(l))
    ensures forall q :: q in l.queue <==> q == l.queue[0] || q in l.queue[1..]
    ensures forall g :: g in l.granted + [l.queue[0]] <==> g in l.granted || g == l.queue[0]
    ensures l.queue[0] in l.queue
  {
    assert l.queue == [l.queue[0]] + l.queue[1..];
    assert (l.granted + [l.queue[0]]) + l.queue[1..] == l.granted + l.queue;
  }

  lemma EnterKeeps(s: System, t: nat)
    requires Inv(s) && Enabled(s, EnterStep(t))
    ensures Inv(Apply(s, EnterStep(t)))
  {
    var s' := Apply(s, EnterStep(t));
    var l, l' := s.lock, s'.lock;
    EnterFifo(l);
    FifoFacts(l);
    hide Fifo;
    assert forall u :: u != t ==> PcOf(s', u) == PcOf(s, u);
    forall q | q in l'.queue ensures exists u :: WaitsOn(s', u, q) {
      if q in l.queue {
        var u :| WaitsOn(s, u, q);
        assert WaitsOn(s', u, q);
      } else {
        assert WaitsOn(s', t, q);
      }
    }
    if l.held {
      var holder :| Holds(s, holder);
      assert Holds(s', holder);
      assert forall u :: Holds(s', u) <==> Holds(s, u);
    } else {
      assert Holds(s', t);
      assert forall u :: Holds(s', u) && u != t ==> Holds(s, u);
    }
  }

  lemma WaitReturns(s: System, step: Step)
    requires Inv(s) && Enabled(s, step) && (step.WakeStep? || step.ExpireStep?)
    ensures Inv(Apply(s, step))
  {
    FifoFacts(s.lock);
    hide Fifo;
    var s' := Apply(s, step);
    assert forall u :: u != step.t ==> PcOf(s', u) == PcOf(s, u);
    assert forall u :: Holds(s', u) <==> Holds(s, u);
    forall q | q in s'.lock.queue ensures exists u :: WaitsOn(s', u, q) {
      var u :| WaitsOn(s, u, q);
      assert WaitsOn(s', u, q);
    }
  }

  lemma SettleKeeps(s: System, t: nat)
    requires Inv(s) && Enabled(s, SettleStep(t))
    ensures Inv(Apply(s, SettleStep(t)))
  {
    var s' := Apply(s, SettleStep(t));
    SettleFifo(s.lock, PcOf(s, t).ticket);
    SettleFacts(s.lock, PcOf(s, t).ticket);
    hide Fifo;
    hide Settled;
    assert forall u :: u != t ==> PcOf(s', u) == PcOf(s, u);
    assert forall u :: Holds(s', u) <==> Holds(s, u);
    forall q | q in s'.lock.queue ensures exists u :: WaitsOn(s', u, q) {
      var u :| WaitsOn(s, u, q);
      assert WaitsOn(s', u, q);
    }
  }

  lemma ReleaseKeeps(s: System, t: nat)
    requires Inv(s) && Enabled(s, ReleaseStep(t))
    ensures Inv(Apply(s, ReleaseStep(t)))
  {
    hide Inv, Apply;
    if s.lock.queue == [] {
      FreeingKeeps(s, t);
    } else {
      HandoverKeeps(s, t);
    }
  }

  lemma FreeingKeeps(s: System, t: nat)
    requires Inv(s) && PcOf(s, t).Owner? && s.lock.queue == []
    ensures Inv(Apply(s, ReleaseStep(t)))
  {
    var s' := Apply(s, ReleaseStep(t));
    assert forall u :: u != t ==> PcOf(s', u) == PcOf(s, u);
    assert Holds(s, t);
    hide Fifo;
    forall u ensures !Holds(s', u) {
      assert u != t ==> !Holds(s, u);
    }
  }

  lemma HandoverKeeps(s: System, t: nat)
    requires Inv(s) && PcOf(s, t).Owner? && s.lock.queue != []
    ensures Inv(Apply(s, ReleaseStep(t)))
  {
    var s' := Apply(s, ReleaseStep(t));
    assert forall u :: u != t ==> PcOf(s', u) == PcOf(s, u);
    ReleaseFifo(s.lock);
    FifoFacts(s.lock);
    hide Fifo;
    var heir := HeirHolds(s, t);
    assert Holds(s', heir);
    forall q | q in s'.lock.queue ensures exists u :: WaitsOn(s', u, q) {
      var u :| WaitsOn(s, u, q);
      assert WaitsOn(s', u, q);
    }
    hide Holds;
  }

  /** After a handover the thread whose ticket was first in the queue holds, and nobody else. */
  lemma HeirHolds(s: System, t: nat) returns (heir: nat)
    requires Inv(s) && PcOf(s, t).Owner? && s.lock.queue != []
    ensures forall u :: Holds(Apply(s, ReleaseStep(t)), u) <==> u == heir
  {
    var s', first := Apply(s, ReleaseStep(t)), s.lock.queue[0];
    assert first in s.lock.queue;
    heir :| WaitsOn(s, heir, first);
    hide Fifo;
    assert Holds(s, t);
    forall u ensures Holds(s', u) <==> u == heir {
      if u != t {
        assert PcOf(s', u) == PcOf(s, u) && !Holds(s, u);
        assert Holds(s', u) <==> HasTicket(PcOf(s, u)) && PcOf(s, u).ticket == first;
      }
    }
  }

  lemma StepKeeps(s: System, step: Step)
    requires Inv(s) && Enabled(s, step)
    ensures Inv(Apply(s, step))
  {
    match step
    case EnterStep(t) => EnterKeeps(s, t);
    case WakeStep(t) => WaitReturns(s, step);
    case ExpireStep(t) => WaitReturns(s, step);
    case SettleStep(t) => SettleKeeps(s, t);
    case ReleaseStep(t) => ReleaseKeeps(s, t);
  }

  lemma {:induction false} RunKeeps(s: System, steps: seq<Step>)
    requires Inv(s) && IsRun(s, steps)
    ensures Inv(After(s, steps))
    decreases |steps|
  {
    if steps == [] {
    } else {
      StepKeeps(s, steps[0]);
      RunKeeps(Apply(s, steps[0]), steps[1..]);
    }
  }

  // ---- Theorems ------------------------------------------------------------------------

  /** Safety in every interleaving: one owner at most, `held` exactly when somebody owns the
      lock or has been handed it, waiters only while held, and no thread ever reaches the
      raise for an event that is neither queued nor set. */
  lemma MutualExclusion(steps: seq<Step>)
    requires IsRun(INITIAL, steps)
    ensures var s := After(INITIAL, steps);
      && (forall t, u :: PcOf(s, t).Owner? && PcOf(s, u).Owner? ==> t == u)
      && (s.lock.held <==> exists t :: Holds(s, t))
      && (s.lock.queue != [] ==> s.lock.held)
      && (forall t :: !PcOf(s, t).Stranded?)
  {
    RunKeeps(INITIAL, steps);
    var s := After(INITIAL, steps);
    assert forall t :: PcOf(s, t).Owner? ==> Holds(s, t);
  }

  /** A handoff to a thread whose wait has already timed out is never lost: the thread's
      next block makes it the owner. A thread that withdraws instead was never granted, so
      ownership cannot leak through TimeoutError. */
  lemma HandoffSurvivesTimeout(steps: seq<Step>, t: nat)
    requires IsRun(INITIAL, steps)
    requires PcOf(After(INITIAL, steps), t).Expiring?
    ensures var s := After(INITIAL, steps);
      var s' := Apply(s, SettleStep(t));
      && (PcOf(s, t).ticket in s.lock.granted ==> PcOf(s', t) == Owner(PcOf(s, t).ticket) && s'.lock == s.lock)
      && (PcOf(s, t).ticket !in s.lock.granted ==>
            PcOf(s', t).Idle? && PcOf(s, t).ticket !in s'.lock.queue && s'.lock.granted == s.lock.granted)
  {
    RunKeeps(INITIAL, steps);
    var s := After(INITIAL, steps);
    SettleFacts(s.lock, PcOf(s, t).ticket);
  }

  /** Grants follow arrivals: in every run the tickets are granted in increasing order, and
      whoever is queued arrived after everybody granted so far, so nobody is overtaken. */
  lemma GrantsFollowArrivals(steps: seq<Step>)
    requires IsRun(INITIAL, steps)
    ensures var l := After(INITIAL, steps).lock;
      && Increasing(l.granted)
      && (forall g, q :: g in l.granted && q in l.queue ==> g < q)
      && (forall g :: g in l.granted ==> g < l.next)
  {
    RunKeeps(INITIAL, steps);
    FifoFacts(After(INITIAL, steps).lock);
  }

  function Releases(steps: seq<Step>): nat {
    if steps == [] then 0 else (if steps[0].ReleaseStep? then 1 else 0) + Releases(steps[1..])
  }

  /** While a ticket stays queued, every release moves it one place forward. */
  lemma {:induction false} QueueAdvances(s: System, steps: seq<Step>, k: nat)
    requires Inv(s) && IsRun(s, steps) && k < |s.lock.queue|
    ensures s.lock.queue[k] in After(s, steps).lock.queue ==>
      IndexOf(After(s, steps).lock.queue, s.lock.queue[k]) + Releases(steps) <= k
    decreases |steps|
  {
    var ticket := s.lock.queue[k];
    assert ticket in s.lock.queue;
    if steps == [] {
      FifoFacts(s.lock);
      AtIndex(s.lock.queue, k, ticket);
    } else {
      var s1 := Apply(s, steps[0]);
      StepKeeps(s, steps[0]);
      if ticket in s1.lock.queue {
        var k1 := IndexOf(s1.lock.queue, ticket);
        OneStepAdvances(s, steps[0], k);
        QueueAdvances(s1, steps[1..], k1);
      } else {
        NeverQueuedAgain(s1, steps[1..], ticket);
      }
    }
  }

  lemma OneStepAdvances(s: System, step: Step, k: nat)
    requires Inv(s) && Enabled(s, step) && k < |s.lock.queue|
    requires s.lock.queue[k] in Apply(s, step).lock.queue
    ensures IndexOf(Apply(s, step).lock.queue, s.lock.queue[k]) + (if step.ReleaseStep? then 1 else 0) <= k
  {
    var q, q' := s.lock.queue, Apply(s, step).lock.queue;
    StepKeeps(s, step);
    FifoFacts(s.lock);
    FifoFacts(Apply(s, step).lock);
    match step
    case EnterStep(t) => AtIndex(q', k, q[k]);
    case WakeStep(t) => AtIndex(q', k, q[k]);
    case ExpireStep(t) => AtIndex(q', k, q[k]);
    case ReleaseStep(t) =>
      assert k > 0;
      AtIndex(q', k - 1, q[k]);
    case SettleStep(t) =>
      var ticket := PcOf(s, t).ticket;
      if ticket in q {
        var i := IndexOf(q, ticket);
        SettleFacts(s.lock, ticket);
        assert i != k;
        AtIndex(q', if i < k then k - 1 else k, q[k]);
      } else {
        AtIndex(q', k, q[k]);
      }
  }

  lemma AtIndex(queue: seq<nat>, k: nat, ticket: nat)
    requires Increasing(queue) && k < |queue| && queue[k] == ticket
    ensures IndexOf(queue, ticket) == k
  {
  }

  lemma {:induction false} NeverQueuedAgain(s: System, steps: seq<Step>, ticket: nat)
    requires Inv(s) && IsRun(s, steps) && ticket < s.lock.next && ticket !in s.lock.queue
    ensures ticket !in After(s, steps).lock.queue
    decreases |steps|
  {
    if steps == [] {
    } else {
      StepKeeps(s, steps[0]);
      NeverQueuedAgain(Apply(s, steps[0]), steps[1..], ticket);
    }
  }

  /** A waiter either stays queued, or is granted, as long as its wait does not time out. */
  lemma {:induction false} PatientWaiterStays(s: System, steps: seq<Step>, t: nat)
    requires Inv(s) && IsRun(s, steps)
    requires PcOf(s, t).Waiting? && ExpireStep(t) !in steps
    ensures PcOf(s, t).ticket in After(s, steps).lock.queue || PcOf(s, t).ticket in After(s, steps).lock.granted
    decreases |steps|
  {
    if steps == [] {
    } else {
      var s1 := Apply(s, steps[0]);
      StepKeeps(s, steps[0]);
      if PcOf(s1, t).Waiting? {
        PatientWaiterStays(s1, steps[1..], t);
      } else {
        assert steps[0] == WakeStep(t);
        GrantsLast(s1, steps[1..], PcOf(s, t).ticket);
      }
    }
  }

  lemma {:induction false} GrantsLast(s: System, steps: seq<Step>, ticket: nat)
    requires IsRun(s, steps) && ticket in s.lock.granted
    ensures ticket in After(s, steps).lock.granted
    decreases |steps|
  {
    if steps == [] {
    } else {
      GrantsLast(Apply(s, steps[0]), steps[1..], ticket);
    }
  }

  /** Bounded waiting: whoever stands at index k of the queue and does not time out has been
      granted the lock once it has been released k + 1 times. */
  lemma GrantedWithinReleases(history: seq<Step>, steps: seq<Step>, t: nat, k: nat)
    requires IsRun(INITIAL, history) && IsRun(After(INITIAL, history), steps)
    requires k < |After(INITIAL, history).lock.queue|
    requires PcOf(After(INITIAL, history), t) == Waiting(After(INITIAL, history).lock.queue[k])
    requires ExpireStep(t) !in steps
    requires Releases(steps) >= k + 1
    ensures After(INITIAL, history).lock.queue[k] in After(After(INITIAL, history), steps).lock.granted
  {
    RunKeeps(INITIAL, history);
    var s := After(INITIAL, history);
    QueueAdvances(s, steps, k);
    PatientWaiterStays(s, steps, t);
  }
}
