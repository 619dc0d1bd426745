/**
 The theorems about runs of the retry queue, with enqueues, restarts and the steps of the worker
 in any order, any clock readings, and saves that may fail.
 */
module RetryRuns {
  import opened NotificationQueue
  import opened CommitAndRestart

  // ---------------------------------------------------------------------------------------
  // Every run
  // ---------------------------------------------------------------------------------------

  lemma StepKeeps(q: Queue, step: Step)
    requires Inv(q) && Allowed(q, step)
    ensures Inv(Next(q, step))
  {
    match step
    case Enqueue(event, channel, now, saved) => EnqueueKeeps(q, event, channel, now, saved);
    case Look(now, targets) => LookKeeps(q, now, targets);
    case Try(ok) => TryKeeps(q, ok);
    case Settle => SettleKeeps(q);
    case Commit(saved) => CommitKeeps(q, saved);
    case Restart(now, readable) => RestartKeeps(q, now, readable);
  }

  lemma {:induction false} RunKeeps(q: Queue, run: seq<Step>, r: Queue)
    requires Inv(q) && Leads(q, run, r)
    ensures Inv(r)
    decreases |run|
  {
    if run == [] {
    } else {
      StepKeeps(q, run[0]);
      RunKeeps(Next(q, run[0]), run[1..], r);
    }
  }

  ghost predicate Reachable(r: Queue) {
    exists run :: Leads(EMPTY, run, r)
  }

  lemma EmptyInv()
    ensures Inv(EMPTY)
  {
    forall id: nat ensures Tallied(EMPTY, id) {
    }
  }

  lemma ReachableInv(r: Queue)
    requires Reachable(r)
    ensures Inv(r)
  {
    var run :| Leads(EMPTY, run, r);
    EmptyInv();
    RunKeeps(EMPTY, run, r);
  }

  /**
   In every interleaving of enqueues, worker phases and restarts, with any clock readings and
   with saves that may fail: a notification is sent at most 148 times and delivered at most
   once, not counting sends whose result a restart did not find in the file; and a waiting
   entry has waited out the schedule of all retries that do count.
   */
  lemma RetryBound(r: Queue, id: nat)
    requires Reachable(r)
    ensures r.sends[id] <= 148 + r.wasted[id] && r.deliveries[id] <= 1 + r.wasted[id]
    ensures id in r.entries && !Decided(r, id) && !InFailure(r, id) ==>
      && id < |r.store| && r.sends[id] <= 147 + r.wasted[id]
      && (r.sends[id] >= r.wasted[id] ==>
            r.store[id].nextRetry - r.store[id].firstFailed >= Elapsed(r.sends[id] - r.wasted[id]) * SECOND)
  {
    ReachableInv(r);
    assert Tallied(r, id);
    if id < |r.store| {
      assert EntryPaced(r, id);
    }
  }

  /** The queue is in arrival order, holds at most 500 entries, and every entry is queued or has
      left in one of the known ways. Between passes these exclude each other. */
  lemma NothingLost(r: Queue, id: nat)
    requires Reachable(r) && id < |r.store|
    ensures Increasing(r.entries) && |r.entries| <= 500
    ensures id in r.entries || HasLeft(r, id)
    ensures r.phase.Idle? ==> !(id in r.entries && HasLeft(r, id))
  {
    ReachableInv(r);
  }

  /**
   The ways to leave the queue: at a commit, delivered or given up a day or more after the
   first failure, or removed by mistake; as the oldest of 500 when another comes; or at a
   restart, if the file could not be read, or had no copy less than a day old.
   */
  ghost predicate WayOut(r: Queue, step: Step, id: nat)
    requires id < |r.store|
  {
    match step
    case Commit(_) =>
      && r.phase.Sending?
      && (|| id in r.delivered
          || (id in r.expired && r.expired[id] - r.store[id].firstFailed >= 86_400 * SECOND)
          || |Ahead(r, id)| < |PushedOut(r, id)|)
    case Enqueue(_, _, _, _) => |r.entries| == 500 && id == r.entries[0]
    case Restart(now, readable) =>
      !readable || forall c :: c in r.disk && c.id == id ==> now - c.fields.firstFailed > MAX_AGE
    case _ => false
  }

  lemma LeavesOnly(r: Queue, step: Step, id: nat)
    requires Reachable(r) && Allowed(r, step)
    requires id in r.entries && id !in Next(r, step).entries
    ensures id < |r.store| && WayOut(r, step, id)
  {
    ReachableInv(r);
    match step
    case Enqueue(event, channel, now, _) => AddedList(r, event, channel, now);
    case Look(_, _) =>
    case Try(_) =>
    case Settle =>
    case Commit(_) =>
      ClearedIff(r, id);
      assert Tallied(r, id);
      if id in r.phase.remove { assert Removal(r, id); }
    case Restart(now, readable) =>
      FoundFacts(r, now, readable);
      forall c | readable && c in r.disk && c.id == id ensures now - c.fields.firstFailed > MAX_AGE {
        HasId(Found(r, now, readable), c);
      }
  }

  lemma HasId(items: seq<Copy>, c: Copy)
    ensures c in items ==> c.id in Ids(items)
  {
    if c in items {
      var i :| 0 <= i < |items| && items[i] == c;
      assert Ids(items)[i] == c.id;
    }
  }

  /**
   Which entries a commit takes out, in every reachable state: all that the pass delivered or
   gave up, though removal goes by equality; and an undecided one exactly if fewer undecided
   equals come before it than equals to be removed were pushed out during the pass.
   */
  lemma CommitTakes(r: Queue, id: nat, saved: bool)
    requires Reachable(r) && Allowed(r, Commit(saved)) && id in r.entries
    ensures id < |r.store|
    ensures id !in Committed(r, saved).entries <==> Decided(r, id) || |Ahead(r, id)| < |PushedOut(r, id)|
  {
    ReachableInv(r);
    ClearedIff(r, id);
    if id in r.phase.remove { assert Removal(r, id); }
  }

  // ---------------------------------------------------------------------------------------
  // Losing an entry
  // ---------------------------------------------------------------------------------------

  /** An undecided entry `y` is queued, and an equal one, `x`, is to be removed but was pushed
      out of the queue. */
  ghost predicate Mistaken(q: Queue, y: nat, x: nat)
    requires q.phase.Sending?
  {
    && y in q.entries && y !in q.phase.remove && x in q.phase.remove && x !in q.entries
    && y < |q.store| && x < |q.store| && q.store[x] == q.store[y]
  }

  lemma {:induction false} FirstMistaken(q: Queue, y: nat, x: nat) returns (z: nat)
    requires q.phase.Sending? && Mistaken(q, y, x)
    ensures Mistaken(q, z, x) && Ahead(q, z) == {}
    decreases y
  {
    if Ahead(q, y) == {} {
      z := y;
    } else {
      var w :| w in Ahead(q, y);
      z := FirstMistaken(q, w, x);
    }
  }

  /** A commit removes an undecided entry exactly if an entry equal to one on the removal list
      is queued while that one was pushed out. */
  lemma LosesIff(r: Queue, saved: bool)
    requires Reachable(r) && Allowed(r, Commit(saved))
    ensures Committed(r, saved).lost != r.lost <==> exists y, x :: Mistaken(r, y, x)
  {
    ReachableInv(r);
    if exists y, x :: Mistaken(r, y, x) {
      var y, x :| Mistaken(r, y, x);
      MistakenGoes(r, y, x);
    }
    forall z | z in Cleared(r).lost && z !in r.lost ensures exists y, x :: Mistaken(r, y, x) {
      LostIsMistaken(r, z);
    }
  }

  lemma MistakenGoes(q: Queue, y: nat, x: nat)
    requires Inv(q) && Ready(q) && Mistaken(q, y, x)
    ensures Cleared(q).lost != q.lost
  {
    var z := FirstMistaken(q, y, x);
    ClearedIff(q, z);
    Inhabited(PushedOut(q, z), x);
    assert z in Cleared(q).lost && z !in q.lost;
  }

  lemma LostIsMistaken(q: Queue, z: nat)
    requires Inv(q) && Ready(q) && z in Cleared(q).lost && z !in q.lost
    ensures exists y, x :: Mistaken(q, y, x)
  {
    ClearedIff(q, z);
    var x :| x in PushedOut(q, z);
    assert Mistaken(q, z, x);
  }

  lemma Inhabited(s: set<nat>, x: nat)
    requires x in s
    ensures |s| > 0
  {
  }

  /** During a pass the clock readings of enqueues are less than 30 seconds older than that of
      the pass. */
  ghost predicate Prompt(q: Queue, run: seq<Step>)
    decreases |run|
  {
    run != [] && Allowed(q, run[0]) ==>
      && (run[0].Enqueue? && q.phase.Sending? ==> q.phase.now < run[0].now + Backoff(0) * SECOND)
      && Prompt(Next(q, run[0]), run[1..])
  }

  ghost predicate Fresh(q: Queue) {
    && q.lost == {}
    && (q.phase.Sending? ==>
         forall id :: id in q.entries && q.phase.seen <= id < |q.store| ==> q.store[id].nextRetry > q.phase.now)
  }

  lemma StepFresh(q: Queue, step: Step)
    requires Inv(q) && Fresh(q) && Allowed(q, step)
    requires step.Enqueue? && q.phase.Sending? ==> q.phase.now < step.now + Backoff(0) * SECOND
    ensures Fresh(Next(q, step))
  {
    match step
    case Enqueue(event, channel, now, _) => AddedList(q, event, channel, now);
    case Look(_, _) =>
    case Try(_) =>
    case Settle =>
    case Commit(_) =>
      forall z ensures z !in Cleared(q).lost {
        if z in Cleared(q).lost {
          ClearedIff(q, z);
          var x :| x in PushedOut(q, z);
          assert Removal(q, x);
          Twins(q, z, x);
          assert false;
        }
      }
    case Restart(_, _) =>
  }

  lemma {:induction false} RunFresh(q: Queue, run: seq<Step>, r: Queue)
    requires Inv(q) && Fresh(q) && Leads(q, run, r) && Prompt(q, run)
    ensures Fresh(r)
    decreases |run|
  {
    if run == [] {
    } else {
      StepKeeps(q, run[0]);
      StepFresh(q, run[0]);
      RunFresh(Next(q, run[0]), run[1..], r);
    }
  }

  /** With prompt enqueues nothing is ever removed by mistake, equal entries or not. */
  lemma PromptNeverLoses(run: seq<Step>, r: Queue)
    requires Leads(EMPTY, run, r) && Prompt(EMPTY, run)
    ensures r.lost == {}
  {
    EmptyInv();
    RunFresh(EMPTY, run, r);
  }

  lemma {:induction false} Extend(a: Queue, run: seq<Step>, b: Queue, step: Step)
    requires Leads(a, run, b) && Allowed(b, step)
    ensures Leads(a, run + [step], Next(b, step))
    decreases |run|
  {
    var more := run + [step];
    if run == [] {
      assert more[1..] == [];
    } else {
      assert more[1..] == run[1..] + [step];
      Extend(Next(a, run[0]), run[1..], b, step);
    }
    hide Next, Allowed;
  }

  /** One entry due after 30 seconds and others due later, with nothing else going on. */
  ghost predicate Filled(q: Queue, n: nat) {
    && q.phase.Idle? && |q.entries| == |q.store| == n > 0 && (forall i :: 0 <= i < n ==> q.entries[i] == i)
    && q.store[0] == Entry("a", "mail", 0, 30 * SECOND, 0)
    && (forall i :: 1 <= i < n ==> q.store[i].nextRetry > 30 * SECOND)
    && q.lost == {} && q.delivered == {} && q.expired == map[] && q.sends == multiset{}
  }

  lemma {:induction false} FillUp(n: nat) returns (run: seq<Step>, r: Queue)
    requires 1 <= n <= 500
    ensures Leads(EMPTY, run, r) && Filled(r, n)
  {
    if n == 1 {
      Extend(EMPTY, [], EMPTY, Enqueue("a", "mail", 0, true));
      run, r := [Enqueue("a", "mail", 0, true)], Enqueued(EMPTY, "a", "mail", 0, true);
    } else {
      var before, b := FillUp(n - 1);
      Extend(EMPTY, before, b, Enqueue("b", "mail", SECOND, true));
      run, r := before + [Enqueue("b", "mail", SECOND, true)], Enqueued(b, "b", "mail", SECOND, true);
    }
  }

  lemma OnlyFirstDue(entries: seq<nat>, store: seq<Entry>, now: int)
    requires Known(entries, |store|) && Increasing(entries) && entries != [] && entries[0] == 0 && |store| > 0
    requires store[0].nextRetry <= now && forall i :: 1 <= i < |store| ==> store[i].nextRetry > now
    ensures DueAt(entries, store, now) == [0]
  {
    DueFacts(entries, store, now);
    var due := DueAt(entries, store, now);
    assert entries[0] in due;
    assert forall y :: y in due ==> y == 0;
  }

  /** The oldest of 500 was delivered in this pass and pushed out by an equal one. */
  ghost predicate Squeezed(q: Queue) {
    && Ready(q) && q.phase.remove == [0] && |q.store| == 501 && q.store[500] == q.store[0]
    && (forall y :: y in q.entries <==> 1 <= y <= 500)
    && (forall y :: 1 <= y < 500 ==> q.store[y] != q.store[0])
    && q.lost == {} && q.delivered == {0} && q.expired == map[] && q.sends == multiset{0}
  }

  lemma Delivering(q: Queue)
    requires Filled(q, 500)
    ensures Allowed(q, Look(30 * SECOND, {"mail"}))
    ensures var q1 := Snapshot(q, 30 * SECOND, {"mail"});
      && Allowed(q1, Try(true))
      && Tried(q1, true) == q.(phase := Sending(30 * SECOND, {"mail"}, 500, [0], 1, false, [0]), delivered := {0},
           sends := multiset{0}, open := q.open + multiset{0}, deliveries := q.deliveries + multiset{0})
  {
    OnlyFirstDue(q.entries, q.store, 30 * SECOND);
    assert {} + {0} == {0} && multiset{} + multiset{0} == multiset{0} && [] + [0] == [0];
    assert q.delivered + {0} == {0};
  }

  lemma Squeeze(q: Queue, q2: Queue)
    requires Filled(q, 500)
    requires q2 == q.(phase := Sending(30 * SECOND, {"mail"}, 500, [0], 1, false, [0]), delivered := {0},
               sends := multiset{0}, open := q.open + multiset{0}, deliveries := q.deliveries + multiset{0})
    ensures Allowed(q2, Enqueue("a", "mail", 0, true)) && Squeezed(Enqueued(q2, "a", "mail", 0, true))
  {
    var r := Enqueued(q2, "a", "mail", 0, true);
    assert r.entries == q.entries[1..] + [500];
    forall y: nat ensures y in r.entries <==> 1 <= y <= 500 {
      if 1 <= y < 500 {
        assert q.entries[1..][y - 1] == y;
      }
    }
  }

  lemma SqueezedFacts(q: Queue)
    requires Squeezed(q)
    ensures Ready(q) && 500 in q.entries && 500 !in q.phase.remove && |q.store| == 501
    ensures !Decided(q, 500) && q.sends[500] == 0 && |Ahead(q, 500)| < |PushedOut(q, 500)|
  {
    assert Ahead(q, 500) == {};
    Inhabited(PushedOut(q, 500), 0);
  }

  lemma CommitLoses(q: Queue, id: nat)
    requires Inv(q) && Ready(q) && id in q.entries && id !in q.phase.remove && id < |q.store|
    requires |Ahead(q, id)| < |PushedOut(q, id)|
    ensures var r := Committed(q, true);
      && id in r.lost && id !in r.entries
      && r.delivered == q.delivered && r.expired == q.expired && r.sends == q.sends
  {
    ClearedIff(q, id);
    hide Inv, Ahead, PushedOut, RemoveAll, Copies;
  }

  lemma SqueezedLoses(q: Queue)
    requires Inv(q) && Squeezed(q)
    ensures Allowed(q, Commit(true))
    ensures var r := Committed(q, true); 500 in r.lost && 500 !in r.entries && !Decided(r, 500) && r.sends[500] == 0
  {
    hide Inv, Squeezed, Ahead, PushedOut, Committed, Ready;
    SqueezedFacts(q);
    CommitLoses(q, 500);
  }

  /**
   With a clock set back during a pass an entry is lost: the oldest of 500 is delivered, a new
   one with equal fields pushes it out, and the commit removes the new one, which was neither
   sent nor given up nor dropped.
   */
  lemma LosingRun() returns (run: seq<Step>, r: Queue)
    ensures Leads(EMPTY, run, r)
    ensures 500 in r.lost && 500 !in r.entries && !Decided(r, 500) && r.sends[500] == 0
  {
    var q;
    run, q := SqueezedRun();
    EmptyInv();
    hide *;
    RunKeeps(EMPTY, run, q);
    SqueezedLoses(q);
    Extend(EMPTY, run, q, Commit(true));
    run, r := run + [Commit(true)], Next(q, Commit(true));
    NextCommit(q, true);
  }

  lemma NextCommit(q: Queue, saved: bool)
    requires Allowed(q, Commit(saved))
    ensures Next(q, Commit(saved)) == Committed(q, saved)
  {
  }

  lemma SqueezedRun() returns (run: seq<Step>, r: Queue)
    ensures Leads(EMPTY, run, r) && Squeezed(r)
  {
    var q0;
    run, q0 := FillUp(500);
    Delivering(q0);
    var q1 := Snapshot(q0, 30 * SECOND, {"mail"});
    var q2 := Tried(q1, true);
    Squeeze(q0, q2);
    r := Enqueued(q2, "a", "mail", 0, true);
    hide Leads, Squeezed, Filled, Inv;
    Extend(EMPTY, run, q0, Look(30 * SECOND, {"mail"}));
    run := run + [Look(30 * SECOND, {"mail"})];
    Extend(EMPTY, run, q1, Try(true));
    run := run + [Try(true)];
    Extend(EMPTY, run, q2, Enqueue("a", "mail", 0, true));
    run := run + [Enqueue("a", "mail", 0, true)];
  }

  // ---------------------------------------------------------------------------------------
  // What a restart costs
  // ---------------------------------------------------------------------------------------

  /** The pass in progress has been at this entry. */
  ghost predicate Touched(q: Queue, id: nat) {
    q.phase.Sending? && q.phase.tried <= |q.phase.due| && (id in q.phase.due[..q.phase.tried] || InFailure(q, id))
  }

  /** No save of the run fails. */
  predicate Saving(run: seq<Step>) {
    forall i :: 0 <= i < |run| ==> Saves(run[i])
  }

  predicate Saves(step: Step) {
    match step
    case Enqueue(_, _, _, saved) => saved
    case Commit(saved) => saved
    case _ => true
  }

  /** How many restarts of the run cut off a pass that had been at this entry. */
  ghost function CutOffs(q: Queue, run: seq<Step>, id: nat): nat
    decreases |run|
  {
    if run == [] || !Allowed(q, run[0]) then 0
    else (if run[0].Restart? && Touched(q, id) then 1 else 0) + CutOffs(Next(q, run[0]), run[1..], id)
  }

  /** Sends without a result in the file are those of the pass in progress, one per entry; and
      the file has every queued entry, with its current fields unless the pass has been at it. */
  ghost predicate InSync(q: Queue) {
    && (forall id: nat :: q.open[id] <= if Touched(q, id) then 1 else 0)
    && (forall id :: id in q.entries && id < |q.store| ==> OnDisk(q, id))
  }

  ghost predicate OnDisk(q: Queue, id: nat)
    requires id < |q.store|
  {
    exists c :: c in q.disk && c.id == id && (c.fields == q.store[id] || Touched(q, id))
  }

  lemma UnsettledOnce(q: Queue, id: nat)
    requires InStep(q)
    ensures Unsettled(q.phase)[id] <= if Touched(q, id) then 1 else 0
  {
    if q.phase.Sending? {
      Once(q.phase.remove, id);
      if q.phase.failing {
        RemovedBefore(q);
      }
    }
  }

  lemma {:induction false} Once(s: seq<nat>, x: nat)
    requires Increasing(s)
    ensures multiset(s)[x] == if x in s then 1 else 0
  {
    if s == [] {
    } else {
      var front, last := s[..|s| - 1], s[|s| - 1];
      assert s == front + [last];
      Once(front, x);
      assert last !in front;
    }
  }

  lemma SavedInSync(q: Queue)
    requires Inv(q)
    ensures InSync(Saved(q, true))
  {
    var r := Saved(q, true);
    forall id: nat ensures r.open[id] <= if Touched(r, id) then 1 else 0 {
      UnsettledOnce(q, id);
    }
    forall id | id in r.entries && id < |r.store| ensures OnDisk(r, id) {
      var i :| 0 <= i < |r.entries| && r.entries[i] == id;
      assert r.disk[i] in r.disk;
    }
  }

  lemma TriedInSync(q: Queue, ok: bool)
    requires Inv(q) && InSync(q) && Trying(q)
    ensures InSync(Tried(q, ok))
  {
    var r := Tried(q, ok);
    assert q.phase.due[..q.phase.tried + 1] == q.phase.due[..q.phase.tried] + [Turn(q)];
    forall id: nat ensures r.open[id] <= if Touched(r, id) then 1 else 0 {
      NotYet(q, id);
    }
    forall id | id in r.entries && id < |r.store| ensures OnDisk(r, id) {
      assert OnDisk(q, id);
      var c :| c in q.disk && c.id == id && (c.fields == q.store[id] || Touched(q, id));
      assert c in r.disk && (c.fields == r.store[id] || Touched(r, id));
    }
  }

  lemma NotYet(q: Queue, id: nat)
    requires Inv(q) && Trying(q)
    ensures Touched(q, id) ==> id != Turn(q)
  {
    if id in q.phase.due[..q.phase.tried] {
      var k :| 0 <= k < q.phase.tried && q.phase.due[..q.phase.tried][k] == id;
      assert q.phase.due[k] == id;
    }
  }

  lemma SettledInSync(q: Queue)
    requires Inv(q) && InSync(q) && Failing(q)
    ensures InSync(Settled(q))
  {
    var r := Settled(q);
    assert q.phase.due[..q.phase.tried + 1] == q.phase.due[..q.phase.tried] + [Turn(q)];
    forall id: nat ensures Touched(r, id) <==> Touched(q, id) {
    }
    forall id | id in r.entries && id < |r.store| ensures OnDisk(r, id) {
      assert OnDisk(q, id);
      var c :| c in q.disk && c.id == id && (c.fields == q.store[id] || Touched(q, id));
      assert c in r.disk && (c.fields == r.store[id] || Touched(r, id));
    }
  }

  lemma RestartedInSync(q: Queue, now: int, readable: bool)
    requires Inv(q) && Allowed(q, Restart(now, readable))
    ensures InSync(Restarted(q, now, readable))
  {
    var f, r := Found(q, now, readable), Restarted(q, now, readable);
    FoundFacts(q, now, readable);
    RestoredFields(q, now, readable);
    forall id | id in r.entries && id < |r.store| ensures OnDisk(r, id) {
      var i :| 0 <= i < |f| && f[i].id == id;
      assert f[i] in f && f[i] in r.disk;
    }
  }

  lemma LookInSync(q: Queue, now: int, targets: set<string>)
    requires Inv(q) && InSync(q) && Allowed(q, Look(now, targets))
    ensures InSync(Snapshot(q, now, targets))
  {
    var r := Snapshot(q, now, targets);
    forall id | id in r.entries && id < |r.store| ensures OnDisk(r, id) {
      assert OnDisk(q, id);
    }
  }

  lemma StepInSync(q: Queue, step: Step)
    requires Inv(q) && InSync(q) && Allowed(q, step) && Saves(step)
    ensures InSync(Next(q, step))
  {
    match step
    case Enqueue(event, channel, now, _) =>
      AddedList(q, event, channel, now);
      AddedHistory(q, event, channel, now);
      AddedInStep(q, event, channel, now);
      SavedInSync(Added(q, event, channel, now));
    case Look(now, targets) => LookInSync(q, now, targets);
    case Try(ok) => TriedInSync(q, ok);
    case Settle => SettledInSync(q);
    case Commit(_) =>
      ClearedKeeps(q);
      SavedInSync(Cleared(q));
    case Restart(now, readable) => RestartedInSync(q, now, readable);
  }

  lemma {:induction false} RunInSync(q: Queue, run: seq<Step>, r: Queue, id: nat)
    requires Inv(q) && InSync(q) && Leads(q, run, r) && Saving(run)
    ensures InSync(r) && r.wasted[id] <= q.wasted[id] + CutOffs(q, run, id)
    decreases |run|
  {
    if run == [] {
    } else {
      assert Saves(run[0]);
      StepKeeps(q, run[0]);
      StepInSync(q, run[0]);
      RunInSync(Next(q, run[0]), run[1..], r, id);
      WastedGrows(q, run[0], id);
    }
  }

  lemma WastedGrows(q: Queue, step: Step, id: nat)
    requires InSync(q) && Allowed(q, step)
    ensures Next(q, step).wasted[id] <= q.wasted[id] + if step.Restart? && Touched(q, id) then 1 else 0
  {
  }

  /** When no save fails, an entry is sent at most 148 times, plus once for every restart that
      cut off a pass which had been at it. */
  lemma CutOffBound(run: seq<Step>, r: Queue, id: nat)
    requires Leads(EMPTY, run, r) && Saving(run)
    ensures r.sends[id] <= 148 + CutOffs(EMPTY, run, id)
    ensures r.deliveries[id] <= 1 + CutOffs(EMPTY, run, id)
  {
    EmptyInv();
    RunInSync(EMPTY, run, r, id);
    assert Reachable(r);
    RetryBound(r, id);
  }

  /**
   What a restart finds: the entries of the file that are at most a day old, in order and with
   the fields written last. When no save has failed, that is every queued entry of that age,
   with its current fields unless the pass cut off had been at it.
   */
  lemma RestartFinds(run: seq<Step>, r: Queue, now: int, id: nat)
    requires Leads(EMPTY, run, r)
    ensures Allowed(r, Restart(now, true))
    ensures var s := Restarted(r, now, true);
      && Inv(s)
      && (id in s.entries <==> exists c :: c in r.disk && c.id == id && now - c.fields.firstFailed <= MAX_AGE)
      && (Saving(run) && id in r.entries && id < |r.store| && now - r.store[id].firstFailed <= MAX_AGE ==>
            id in s.entries && (s.store[id] == r.store[id] || Touched(r, id)))
  {
    EmptyInv();
    RunKeeps(EMPTY, run, r);
    FoundFacts(r, now, true);
    RestartKeeps(r, now, true);
    FoundIff(r, now, id);
    if Saving(run) && id in r.entries && id < |r.store| && now - r.store[id].firstFailed <= MAX_AGE {
      RunInSync(EMPTY, run, r, id);
      InSyncFound(r, now, id);
    }
  }

  lemma FoundIff(r: Queue, now: int, id: nat)
    requires Inv(r) && Allowed(r, Restart(now, true))
    ensures id in Restarted(r, now, true).entries
       <==> exists c :: c in r.disk && c.id == id && now - c.fields.firstFailed <= MAX_AGE
  {
    var f := Found(r, now, true);
    FoundFacts(r, now, true);
    if id in Ids(f) {
      var i :| 0 <= i < |f| && Ids(f)[i] == id;
      assert f[i] in f;
    }
    forall c | c in r.disk && c.id == id && now - c.fields.firstFailed <= MAX_AGE ensures id in Ids(f) {
      HasId(f, c);
    }
  }

  lemma InSyncFound(r: Queue, now: int, id: nat)
    requires Inv(r) && InSync(r) && Allowed(r, Restart(now, true))
    requires id in r.entries && id < |r.store| && now - r.store[id].firstFailed <= MAX_AGE
    ensures var s := Restarted(r, now, true); id in s.entries && (s.store[id] == r.store[id] || Touched(r, id))
  {
    FoundIff(r, now, id);
    FoundStored(r, now);
    assert OnDisk(r, id);
    var c :| c in r.disk && c.id == id && (c.fields == r.store[id] || Touched(r, id));
    DiskAge(r, c);
    var j :| 0 <= j < |r.disk| && r.disk[j] == c;
    LoadableAt(r.disk, Restarted(r, now, true).store, now, j);
    hide *;
  }

  lemma DiskAge(r: Queue, c: Copy)
    requires DiskListed(r) && c in r.disk
    ensures c.id < |r.store| && c.fields.firstFailed == r.store[c.id].firstFailed
  {
    var i :| 0 <= i < |r.disk| && r.disk[i] == c;
    assert Ids(r.disk)[i] == c.id;
  }

  /** One entry waits, as the file says. */
  ghost predicate Lone(q: Queue, n: nat) {
    var e := Entry("a", "mail", 0, 30 * SECOND, 0);
    q.phase.Idle? && q.entries == [0] && q.store == [e] && q.disk == [Copy(0, e)] && q.sends[0] == n && q.open[0] == 0
  }

  lemma SendAgain(q: Queue, n: nat)
    requires Lone(q, n)
    ensures Allowed(q, Look(30 * SECOND, {"mail"}))
    ensures var q1 := Snapshot(q, 30 * SECOND, {"mail"});
      && Allowed(q1, Try(false)) && Allowed(Tried(q1, false), Restart(30 * SECOND, true))
      && Lone(Restarted(Tried(q1, false), 30 * SECOND, true), n + 1)
  {
    OnlyFirstDue(q.entries, q.store, 30 * SECOND);
    var q1 := Snapshot(q, 30 * SECOND, {"mail"});
    var q2 := Tried(q1, false);
    assert Young(q2.disk[..0], 30 * SECOND) == [];
    assert Found(q2, 30 * SECOND, true) == q2.disk;
    assert Ids(q2.disk) == [0];
    assert Restored(q2.store, q2.disk[..0]) == q2.store;
    assert Restored(q2.store, q2.disk) == q2.store[0 := q2.disk[0].fields];
  }

  /** Without a bound on restarts there is none on sends: a process that dies after each failed
      send and before the commit sends one entry again and again, as if for the first time. */
  lemma {:induction false} RepeatingRun(n: nat) returns (run: seq<Step>, r: Queue)
    ensures Leads(EMPTY, run, r) && Saving(run) && Lone(r, n)
  {
    if n == 0 {
      run, r := LoneStart();
    } else {
      var q;
      run, q := RepeatingRun(n - 1);
      run, r := CutOffPass(run, q, n - 1);
    }
  }

  lemma LoneStart() returns (run: seq<Step>, r: Queue)
    ensures Leads(EMPTY, run, r) && Saving(run) && Lone(r, 0)
  {
    run, r := [Enqueue("a", "mail", 0, true)], Enqueued(EMPTY, "a", "mail", 0, true);
    Extend(EMPTY, [], EMPTY, Enqueue("a", "mail", 0, true));
    assert r.disk == [Copy(0, Entry("a", "mail", 0, 30 * SECOND, 0))];
  }

  lemma CutOffPass(run: seq<Step>, q: Queue, n: nat) returns (more: seq<Step>, r: Queue)
    requires Leads(EMPTY, run, q) && Saving(run) && Lone(q, n)
    ensures Leads(EMPTY, more, r) && Saving(more) && Lone(r, n + 1)
  {
    SendAgain(q, n);
    hide *;
    var q1 := Snapshot(q, 30 * SECOND, {"mail"});
    var q2 := Tried(q1, false);
    r := Restarted(q2, 30 * SECOND, true);
    Extend(EMPTY, run, q, Look(30 * SECOND, {"mail"}));
    Extend(EMPTY, run + [Look(30 * SECOND, {"mail"})], q1, Try(false));
    more := run + [Look(30 * SECOND, {"mail"})] + [Try(false)];
    Extend(EMPTY, more, q2, Restart(30 * SECOND, true));
    more := more + [Restart(30 * SECOND, true)];
    SavingMore(run);
  }

  lemma SavingMore(run: seq<Step>)
    requires Saving(run)
    ensures Saving(run + [Look(30 * SECOND, {"mail"})] + [Try(false)] + [Restart(30 * SECOND, true)])
  {
  }

  /** One entry waits after `n` failed retries, each made as soon as it was due. */
  ghost predicate Persistent(q: Queue, n: nat) {
    && q.phase.Idle? && q.entries == [0] && |q.store| == 1
    && q.store[0] == Entry("a", "mail", n, Elapsed(n) * SECOND, 0) && q.sends[0] == n
  }

  lemma FirstInPass(q: Queue, n: nat)
    requires Persistent(q, n)
    ensures Allowed(q, Look(Elapsed(n) * SECOND, {"mail"}))
    ensures Snapshot(q, Elapsed(n) * SECOND, {"mail"})
         == q.(phase := Sending(Elapsed(n) * SECOND, {"mail"}, 1, [0], 0, false, []))
  {
    OnlyFirstDue(q.entries, q.store, Elapsed(n) * SECOND);
  }

  lemma FailsInPass(q: Queue, q1: Queue, n: nat)
    requires Persistent(q, n) && n <= MAX_ATTEMPT
    requires q1 == q.(phase := Sending(Elapsed(n) * SECOND, {"mail"}, 1, [0], 0, false, []))
    ensures Allowed(q1, Try(false)) && Allowed(Tried(q1, false), Settle)
    ensures var q3 := Settled(Tried(q1, false));
      && Allowed(q3, Commit(true)) && q3.sends[0] == n + 1 && q3.entries == [0] && |q3.store| == 1
      && (n < MAX_ATTEMPT ==>
           && q3.phase.remove == []
           && q3.store[0] == Entry("a", "mail", n + 1, Elapsed(n + 1) * SECOND, 0))
  {
    InADay(n);
  }

  lemma EndOfPass(q3: Queue, n: nat)
    requires Allowed(q3, Commit(true)) && q3.sends[0] == n + 1 && q3.entries == [0] && |q3.store| == 1
    requires n < MAX_ATTEMPT ==>
      q3.phase.remove == [] && q3.store[0] == Entry("a", "mail", n + 1, Elapsed(n + 1) * SECOND, 0)
    ensures Committed(q3, true).sends[0] == n + 1
    ensures n < MAX_ATTEMPT ==> Persistent(Committed(q3, true), n + 1)
  {
  }

  lemma InADay(n: nat)
    requires n <= MAX_ATTEMPT
    ensures n < MAX_ATTEMPT ==> Elapsed(n) < 86_400
  {
    if n < MAX_ATTEMPT {
      ElapsedValue(MAX_ATTEMPT - 1);
      ElapsedGrows(n, MAX_ATTEMPT - 1);
    }
  }

  predicate NoRestart(run: seq<Step>) {
    forall i :: 0 <= i < |run| ==> !run[i].Restart?
  }

  /** A pass over one due entry, as a run. */
  lemma PassRun(a: Queue, run: seq<Step>, q: Queue, now: int, targets: set<string>, ok: bool)
    requires Leads(a, run, q) && NoRestart(run)
    requires Allowed(q, Look(now, targets)) && Allowed(Snapshot(q, now, targets), Try(false))
    requires Allowed(Tried(Snapshot(q, now, targets), false), Settle)
    requires Allowed(Settled(Tried(Snapshot(q, now, targets), false)), Commit(ok))
    ensures var all := run + [Look(now, targets)] + [Try(false)] + [Settle] + [Commit(ok)];
      Leads(a, all, Committed(Settled(Tried(Snapshot(q, now, targets), false)), ok)) && NoRestart(all)
  {
    hide Leads, Snapshot, Tried, Settled, Committed, Trying, Failing, Ready;
    Extend(a, run, q, Look(now, targets));
    Extend(a, run + [Look(now, targets)], Snapshot(q, now, targets), Try(false));
    Extend(a, run + [Look(now, targets)] + [Try(false)], Tried(Snapshot(q, now, targets), false), Settle);
    Extend(a, run + [Look(now, targets)] + [Try(false)] + [Settle],
           Settled(Tried(Snapshot(q, now, targets), false)), Commit(ok));
  }

  lemma PersistentPass(q: Queue, n: nat)
    requires Persistent(q, n) && n <= MAX_ATTEMPT
    ensures var now := Elapsed(n) * SECOND;
      && Allowed(q, Look(now, {"mail"})) && Allowed(Snapshot(q, now, {"mail"}), Try(false))
      && Allowed(Tried(Snapshot(q, now, {"mail"}), false), Settle)
      && Allowed(Settled(Tried(Snapshot(q, now, {"mail"}), false)), Commit(true))
    ensures var r := Committed(Settled(Tried(Snapshot(q, Elapsed(n) * SECOND, {"mail"}), false)), true);
      r.sends[0] == n + 1 && (n < MAX_ATTEMPT ==> Persistent(r, n + 1))
  {
    FirstInPass(q, n);
    hide Persistent, Tried, Settled, Committed, Ready, Failing, Trying, Snapshot, Elapsed;
    FailsInPass(q, Snapshot(q, Elapsed(n) * SECOND, {"mail"}), n);
    EndOfPass(Settled(Tried(Snapshot(q, Elapsed(n) * SECOND, {"mail"}), false)), n);
  }

  lemma PersistentStart() returns (run: seq<Step>, r: Queue)
    ensures Leads(EMPTY, run, r) && NoRestart(run) && Persistent(r, 0) && r.sends[0] == 0
  {
    Extend(EMPTY, [], EMPTY, Enqueue("a", "mail", 0, true));
    run, r := [] + [Enqueue("a", "mail", 0, true)], Enqueued(EMPTY, "a", "mail", 0, true);
  }

  lemma Persist(a: Queue, run: seq<Step>, q: Queue, n: nat) returns (more: seq<Step>, r: Queue)
    requires Leads(a, run, q) && NoRestart(run) && Persistent(q, n) && n <= MAX_ATTEMPT
    ensures Leads(a, more, r) && NoRestart(more) && r.sends[0] == n + 1
    ensures n < MAX_ATTEMPT ==> Persistent(r, n + 1)
  {
    hide Leads, NoRestart, Persistent, Elapsed, Snapshot, Tried, Settled, Committed, Trying, Failing, Ready, Known;
    var now := Elapsed(n) * SECOND;
    PersistentPass(q, n);
    PassRun(a, run, q, now, {"mail"}, true);
    more := run + [Look(now, {"mail"})] + [Try(false)] + [Settle] + [Commit(true)];
    r := Committed(Settled(Tried(Snapshot(q, now, {"mail"}), false)), true);
  }

  lemma {:induction false} PersistentRun(n: nat) returns (run: seq<Step>, r: Queue)
    requires n <= MAX_ATTEMPT + 1
    ensures Leads(EMPTY, run, r) && NoRestart(run) && r.sends[0] == n
    ensures n <= MAX_ATTEMPT ==> Persistent(r, n)
  {
    hide *;
    if n == 0 {
      run, r := PersistentStart();
    } else {
      var q;
      run, q := PersistentRun(n - 1);
      run, r := Persist(EMPTY, run, q, n - 1);
    }
  }

  /** The bound is exact: without any restart an entry can be sent 148 times. */
  lemma BoundIsReached() returns (run: seq<Step>, r: Queue)
    ensures Leads(EMPTY, run, r) && NoRestart(run) && r.sends[0] == 148
  {
    hide Leads, NoRestart;
    run, r := PersistentRun(148);
  }
}
