/**
 The armed flag over runs of the scheduler, and the automatic rearms: what the ticks amount to
 for somebody who only looks at the flag.
 */
module ScheduleFlag {
  import opened Wrappers
  import opened TimeSort
  import opened Scheduler

  // ---------------------------------------------------------------------------------------
  // The flag is what was done last
  // ---------------------------------------------------------------------------------------

  /** What the last action of the run set the flag to, as the history shows it: an automatic
      rearm, which comes last in its tick, or the last of the transitions that a tick fired. */
  ghost function LastAction(a: Arming, run: seq<Event>): Option<bool> {
    if run == [] then None
    else
      var front := run[..|run| - 1];
      var before, now := RunFrom(a, front), RunFrom(a, run);
      if |now.rearms| > |before.rearms| then Some(true)
      else if |now.fired| > |before.fired| then Some(now.fired[|now.fired| - 1].1)
      else LastAction(a, front)
  }

  lemma RunUnfolds(a: Arming, run: seq<Event>)
    requires run != []
    ensures RunFrom(a, run) == Step(RunFrom(a, run[..|run| - 1]), run[|run| - 1])
  {
  }

  lemma LastActionUnfolds(a: Arming, run: seq<Event>)
    requires run != []
    ensures var before, now := RunFrom(a, run[..|run| - 1]), RunFrom(a, run);
      LastAction(a, run) == if |now.rearms| > |before.rearms| then Some(true)
                            else if |now.fired| > |before.fired| then Some(now.fired[|now.fired| - 1].1)
                            else LastAction(a, run[..|run| - 1])
  {
    hide RunFrom;
  }

  /** The flag is what the last action made it; without any, it is as it was. */
  lemma {:induction false} FlagIsLastAction(a: Arming, run: seq<Event>)
    ensures RunFrom(a, run).armed == match LastAction(a, run) case Some(on) => on case None => a.armed
  {
    if run == [] {
    } else {
      hide *;
      var front, e := run[..|run| - 1], run[|run| - 1];
      FlagIsLastAction(a, front);
      RunUnfolds(a, run);
      LastActionUnfolds(a, run);
      StepSetsFlag(RunFrom(a, front), e);
    }
  }

  /** What one event does to the flag shows in what it adds to the history. */
  lemma StepSetsFlag(a: Arming, e: Event)
    ensures var b := Step(a, e);
      b.armed == if |b.rearms| > |a.rearms| then true
                 else if |b.fired| > |a.fired| then b.fired[|b.fired| - 1].1
                 else a.armed
  {
    hide Between, AllowsRearm;
  }

  lemma StepHistory(a: Arming, e: Event)
    ensures var b := Step(a, e);
      |a.rearms| <= |b.rearms| && a.fired <= b.fired
  {
    hide Between, AllowsRearm;
  }

  lemma {:induction false} FlagIsLastFired(a: Arming, run: seq<Event>)
    requires a.fired == [] && |RunFrom(a, run).rearms| == |a.rearms|
    ensures RunFrom(a, run).armed == Last(RunFrom(a, run).fired, (0, a.armed)).1
  {
    if run == [] {
    } else {
      hide RunFrom, Step, Last;
      var front, e := run[..|run| - 1], run[|run| - 1];
      RunUnfolds(a, run);
      RearmsGrow(a, front);
      StepHistory(RunFrom(a, front), e);
      FlagIsLastFired(a, front);
      StepSetsFlag(RunFrom(a, front), e);
      LastOfMore(RunFrom(a, front).fired, RunFrom(a, run).fired, (0, a.armed));
    }
  }

  lemma LastOfMore(before: seq<Transition>, due: seq<Transition>, x: Transition)
    requires before <= due
    ensures Last(due, x) == if |due| > |before| then due[|due| - 1] else Last(before, x)
  {
  }

  lemma {:induction false} RearmsGrow(a: Arming, run: seq<Event>)
    ensures |a.rearms| <= |RunFrom(a, run).rearms|
  {
    if run == [] {
    } else {
      hide RunFrom, Step;
      RearmsGrow(a, run[..|run| - 1]);
      RunUnfolds(a, run);
      StepHistory(RunFrom(a, run[..|run| - 1]), run[|run| - 1]);
    }
  }

  /** With fixed daily times, after a day of ticks and without requests, the alarm is armed exactly
      in the armed part of the day. */
  lemma DailyFlag(a: Arming, arm: int, disarm: int, run: seq<Event>)
    requires 0 <= arm < DAY && 0 <= disarm < DAY && arm != disarm
    requires Forward(a.lastTick, run) && Steady(run, Daily(arm, disarm)) && Requests(run) == 0
    requires a.fired == [] && a.rearms == [] && a.pending == Absent
    requires a.lastTick <= LastTick(a.lastTick, run) - DAY
    ensures RunFrom(a, run).armed <==> Cyclic(LastTick(a.lastTick, run) % DAY, arm, disarm)
  {
    var s, now := Daily(arm, disarm), LastTick(a.lastTick, run);
    DailyInDay(arm, disarm);
    OneRearmPerRequest(a, run);
    FlagIsLastFired(a, run);
    RearmFollowsTicks(a, s, run);
    DailyRearm(arm, disarm, now);
    FiredToday(a, arm, disarm, run);
    hide *;
    LastIsLast(RunFrom(a, run).fired, (0, a.armed), (now - DAY, true));
  }

  lemma LastIsLast(due: seq<Transition>, x: Transition, y: Transition)
    requires due != []
    ensures Last(due, x) == Last(due, y)
  {
  }

  lemma DailyInDay(arm: int, disarm: int)
    requires 0 <= arm < DAY && 0 <= disarm < DAY
    ensures InDay(Daily(arm, disarm))
  {
    forall d ensures Landed(Daily(arm, disarm).arm(d), d) && Landed(Daily(arm, disarm).disarm(d), d) {
    }
  }

  /** The last day of ticks has fired something. */
  lemma FiredToday(a: Arming, arm: int, disarm: int, run: seq<Event>)
    requires 0 <= arm < DAY && 0 <= disarm < DAY && arm != disarm
    requires Forward(a.lastTick, run) && Steady(run, Daily(arm, disarm)) && a.fired == []
    requires a.lastTick <= LastTick(a.lastTick, run) - DAY
    ensures var fired := RunFrom(a, run).fired;
      fired != [] && Last(fired, (0, true)).0 > LastTick(a.lastTick, run) - DAY
  {
    hide *;
    var s, now := Daily(arm, disarm), LastTick(a.lastTick, run);
    DailyInDay(arm, disarm);
    PollingUnobservable(a, s, run);
    DailyRecent(arm, disarm, now, Latest(Offset(arm, disarm, true), now), true);
    Join(s, a.lastTick, now - DAY, now);
    BetweenRange(s, now - DAY, now);
    LastOfBoth(Between(s, a.lastTick, now - DAY), Between(s, now - DAY, now), now - DAY, now);
  }

  lemma LastOfBoth(before: seq<Transition>, recent: seq<Transition>, start: int, end: int)
    requires recent != [] && Spans(recent, start + 1, end)
    ensures before + recent != [] && Last(before + recent, (0, true)).0 > start
  {
  }

  // ---------------------------------------------------------------------------------------
  // When an automatic rearm happens
  // ---------------------------------------------------------------------------------------

  /** The tick reads a clock at or after the time asked for, and finds and deletes the key. */
  predicate Consumes(e: Event, time: int) {
    e.Tick? && e.getOk && e.deleteOk && time <= e.check.now
  }

  /** The rearm asked for by event `i` is still to be made. */
  ghost predicate Waiting(run: seq<Event>, i: nat, time: int) {
    && i < |run| && run[i] == Request(time)
    && forall j :: i < j < |run| ==> !run[j].Request? && !Consumes(run[j], time)
  }

  /** The key holds the last request, until a tick consumes it. */
  lemma {:induction false} PendingIff(a: Arming, run: seq<Event>, time: int)
    requires a.pending == Absent
    ensures RunFrom(a, run).pending == RearmAt(time) <==> exists i: nat :: Waiting(run, i, time)
    ensures RunFrom(a, run).pending != Malformed
  {
    if run == [] {
    } else {
      var front, e := run[..|run| - 1], run[|run| - 1];
      PendingIff(a, front, time);
      WaitingLonger(run, time);
      PendingStep(RunFrom(a, front), e, time);
    }
  }

  lemma PendingStep(a: Arming, e: Event, time: int)
    requires a.pending != Malformed
    ensures Step(a, e).pending != Malformed
    ensures Step(a, e).pending == RearmAt(time)
       <==> e == Request(time) || (a.pending == RearmAt(time) && !e.Request? && !Consumes(e, time))
  {
  }

  lemma WaitingLonger(run: seq<Event>, time: int)
    requires run != []
    ensures var front, e := run[..|run| - 1], run[|run| - 1];
      (exists i: nat :: Waiting(run, i, time))
      <==> e == Request(time) || ((exists i: nat :: Waiting(front, i, time)) && !e.Request? && !Consumes(e, time))
  {
    var front, n := run[..|run| - 1], |run| - 1;
    if run[n] == Request(time) {
      assert Waiting(run, n, time);
    } else {
      forall i: nat | Waiting(run, i, time) ensures Waiting(front, i, time) && i < n {
      }
      forall i: nat | Waiting(front, i, time) && !run[n].Request? && !Consumes(run[n], time)
        ensures Waiting(run, i, time)
      {
      }
    }
  }

  /** The schedule is off, or the last transition of the past day, if any, was an arming. */
  ghost predicate MayRearm(check: Reading) {
    !check.enabled || Last(Between(check.seen, check.now - DAY, check.now), (check.now, true)).1
  }

  /**
   A tick rearms exactly if a request has come whose time has been reached and that no later
   request and no earlier tick has taken away, and the schedule does not say otherwise; it then
   arms the alarm. A request whose time has been reached is taken away in any case.
   */
  lemma RearmsIff(a: Arming, run: seq<Event>, e: Event)
    requires a.pending == Absent && e.Tick?
    ensures var before, after := RunFrom(a, run), RunFrom(a, run + [e]);
      var due := exists i: nat, time :: Waiting(run, i, time) && Consumes(e, time);
      && after.rearms == before.rearms + (if due && MayRearm(e.check) then [e.check.now] else [])
      && (due && MayRearm(e.check) ==> after.armed)
      && (due ==> after.pending == Absent)
  {
    assert (run + [e])[..|run|] == run;
    var before := RunFrom(a, run);
    PendingIff(a, run, 0);
    if before.pending.RearmAt? {
      PendingIff(a, run, before.pending.time);
    }
    forall i: nat, time | Waiting(run, i, time) && Consumes(e, time) ensures before.pending == RearmAt(time) {
      PendingIff(a, run, time);
    }
    hide Waiting, RunFrom, Between, Fire;
  }
}
