/**
 How long a notification waits for its next attempt, and what one attempt makes of it, in the
 numbers that the retry queue documents: 30 seconds at first, twice as long after every failure,
 never more than ten minutes, and no attempt after a failure at an age of 24 hours.
 */
module RetryWaits {
  import opened NotificationQueue
  import opened CommitAndRestart
  import opened RetryRuns

  /** 30 seconds, doubled `k` times. */
  function Doubled(k: nat): int {
    if k == 0 then 30 else 2 * Doubled(k - 1)
  }

  lemma {:induction false} DoubledGrows(k: nat)
    requires k >= 5
    ensures Doubled(k) >= 960
  {
    if k == 5 {
      assert Doubled(0) == 30 && Doubled(1) == 60 && Doubled(2) == 120 && Doubled(3) == 240 && Doubled(4) == 480;
    } else {
      DoubledGrows(k - 1);
    }
  }

  /** Every single wait. */
  lemma BackoffIs(k: nat)
    ensures Backoff(k) == if Doubled(k) <= 600 then Doubled(k) else 600
  {
    if k >= 5 {
      DoubledGrows(k);
    } else {
      assert Doubled(0) == 30 && Doubled(1) == 60 && Doubled(2) == 120 && Doubled(3) == 240 && Doubled(4) == 480;
    }
  }

  /** In any state of any run: a new entry is due after 30 seconds; a due entry of an enabled
      channel that is tried is sent once more; if that fails, it is given up exactly at an age of
      24 hours or more, and otherwise waits for the doubled time, ten minutes at most. */
  lemma AttemptMakes(r: Queue, step: Step)
    requires Reachable(r) && Allowed(r, step)
    ensures step.Enqueue? ==>
      var id, s := |r.store|, Next(r, step);
      s.store[id] == Entry(step.event, step.channel, 0, step.now + 30 * SECOND, step.now) && id in s.entries
    ensures step.Try? ==>
      var id, s := r.phase.due[r.phase.tried], Next(r, step);
      var e := r.store[id];
      && id < |r.store| && e.nextRetry <= r.phase.now
      && s.sends == r.sends + (if e.channel in r.phase.targets then multiset{id} else multiset{})
      && s.deliveries == r.deliveries
         + (if e.channel in r.phase.targets && step.ok then multiset{id} else multiset{})
      && s.store[id].attempt == e.attempt + (if e.channel in r.phase.targets && !step.ok then 1 else 0)
    ensures step.Settle? ==>
      var id, s := r.phase.due[r.phase.tried], Next(r, step);
      var e := r.store[id];
      && (id in s.expired && id !in r.expired <==> r.phase.now - e.firstFailed >= 86_400 * SECOND)
      && (r.phase.now - e.firstFailed < 86_400 * SECOND ==>
            s.store[id] == e.(nextRetry := r.phase.now
                                + (if Doubled(e.attempt) <= 600 then Doubled(e.attempt) else 600) * SECOND))
  {
    ReachableInv(r);
    match step
    case Enqueue(event, channel, now, saved) => AddedList(r, event, channel, now);
    case Try(ok) => assert Pending(r, r.phase.tried);
    case Settle =>
      assert Pending(r, r.phase.tried);
      BackoffIs(r.store[r.phase.due[r.phase.tried]].attempt);
    case Look(_, _) =>
    case Commit(_) =>
    case Restart(_, _) =>
  }
}
