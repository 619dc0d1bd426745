/**
 The retry queue for failed notifications (services/notifier/src/notification_queue.py).

 Any thread may enqueue; one worker thread calls `process_due`, which takes a snapshot of the
 entries that are due, sends them without holding the lock and commits its removals at the
 end. An entry is an object, here numbered by arrival; `list.remove` finds the first object
 with equal fields, which need not be the one it is given. The list is written to disk by an
 enqueue and by a commit; a restart reads what was written last. Times are microseconds.

 This file holds the values, the steps and the invariant, which enqueueing and sending keep.
 CommitAndRestart.dfy has the two other steps, RetryRuns.dfy the theorems about runs and
 RetryQueue.dfy the objects.
 */
module NotificationQueue {

  const SECOND: int := 1_000_000
  const MAX_AGE: int := 86_400 * SECOND
  const MAX_SIZE: nat := 500

  /** The wait after the given number of failed retries, in seconds. */
  function Backoff(attempt: nat): int {
    if attempt < 5 then [30, 60, 120, 240, 480][attempt] else 600
  }

  /** The fields of an entry. */
  datatype Entry = Entry(event: string, channel: string, attempt: nat, nextRetry: int, firstFailed: int)

  /** What `process_due` holds in its local variables between two of its steps: the time it
      read, the enabled channels, how many entries had arrived by the snapshot, the due ones,
      how many of them it is done with, whether it is in the middle of the next one's failure,
      and to_remove. */
  datatype Phase =
    | Idle
    | Sending(now: int, targets: set<string>, seen: nat, due: seq<nat>, tried: nat, failing: bool, remove: seq<nat>)

  /** An entry in the file. The number is not written; it says which entry this is. */
  datatype Copy = Copy(id: nat, fields: Entry)

  /** The queue, all entries ever made, the worker, the file, and a history: all sends; those
      of which the file shows no result yet; those of which it never did, because of a restart;
      and what became of the entries. `expired` has the time of the pass that gave up,
      `lost` what a commit removed by mistake, `forgotten` what a restart did not find. */
  datatype Queue = Queue(
    entries: seq<nat>,
    store: seq<Entry>,
    phase: Phase,
    disk: seq<Copy>,
    sends: multiset<nat>,
    open: multiset<nat>,
    wasted: multiset<nat>,
    deliveries: multiset<nat>,
    delivered: set<nat>,
    expired: map<nat, int>,
    dropped: set<nat>,
    lost: set<nat>,
    forgotten: set<nat>)

  const EMPTY := Queue([], [], Idle, [], multiset{}, multiset{}, multiset{}, multiset{}, {}, map[], {}, {}, {})

  predicate Known(s: seq<nat>, n: nat) {
    forall i :: 0 <= i < |s| ==> s[i] < n
  }

  predicate Increasing(s: seq<nat>) {
    forall i, j :: 0 <= i < j < |s| ==> s[i] < s[j]
  }

  function Elements(s: seq<nat>): set<nat> {
    set x | x in s
  }

  // ---------------------------------------------------------------------------------------
  // The steps
  // ---------------------------------------------------------------------------------------

  function Copies(entries: seq<nat>, store: seq<Entry>): (r: seq<Copy>)
    requires Known(entries, |store|)
    ensures |r| == |entries| && forall i :: 0 <= i < |r| ==> r[i] == Copy(entries[i], store[entries[i]])
  {
    seq(|entries|, i requires 0 <= i < |entries| => Copy(entries[i], store[entries[i]]))
  }

  /** The sends of the pass whose result the fields of the listed entries do not show: those
      of the entries to be removed, and of the one whose failure is being dealt with. */
  function Unsettled(p: Phase): multiset<nat> {
    if p.Idle? then multiset{}
    else multiset(p.remove) + if p.failing && p.tried < |p.due| then multiset{p.due[p.tried]} else multiset{}
  }

  /** `_save`; a failure to write is logged and nothing else. */
  function Saved(q: Queue, ok: bool): Queue
    requires Known(q.entries, |q.store|)
  {
    if ok then q.(disk := Copies(q.entries, q.store), open := Unsettled(q.phase)) else q
  }

  function Added(q: Queue, event: string, channel: string, now: int): Queue {
    var full := |q.entries| >= MAX_SIZE;
    q.(entries := (if full then q.entries[1..] else q.entries) + [|q.store|],
       store := q.store + [Entry(event, channel, 0, now + Backoff(0) * SECOND, now)],
       dropped := if full then q.dropped + {q.entries[0]} else q.dropped)
  }

  function Enqueued(q: Queue, event: string, channel: string, now: int, saved: bool): Queue
    requires Known(q.entries, |q.store|)
  {
    Saved(Added(q, event, channel, now), saved)
  }

  function DueAt(entries: seq<nat>, store: seq<Entry>, now: int): seq<nat>
    requires Known(entries, |store|)
  {
    if entries == [] then []
    else
      var last := entries[|entries| - 1];
      DueAt(entries[..|entries| - 1], store, now) + if store[last].nextRetry <= now then [last] else []
  }

  function Snapshot(q: Queue, now: int, targets: set<string>): Queue
    requires Known(q.entries, |q.store|)
  {
    var due := DueAt(q.entries, q.store, now);
    if due == [] then q else q.(phase := Sending(now, targets, |q.store|, due, 0, false, []))
  }

  predicate Trying(q: Queue) {
    && q.phase.Sending?
    && !q.phase.failing
    && q.phase.tried < |q.phase.due|
    && q.phase.due[q.phase.tried] < |q.store|
  }

  /** The next due entry is skipped, delivered, or its attempts are counted up. */
  function Tried(q: Queue, ok: bool): Queue
    requires Trying(q)
  {
    var p := q.phase;
    var id := p.due[p.tried];
    var e := q.store[id];
    var next := p.(tried := p.tried + 1);
    if e.channel !in p.targets then q.(phase := next)
    else
      var sent := q.(sends := q.sends + multiset{id}, open := q.open + multiset{id});
      if ok then
        sent.(phase := next.(remove := p.remove + [id]), delivered := q.delivered + {id},
              deliveries := q.deliveries + multiset{id})
      else sent.(phase := p.(failing := true), store := q.store[id := e.(attempt := e.attempt + 1)])
  }

  predicate Failing(q: Queue) {
    && q.phase.Sending?
    && q.phase.failing
    && q.phase.tried < |q.phase.due|
    && q.phase.due[q.phase.tried] < |q.store|
  }

  /** The rest of a failure: the entry is given up when it is too old, and waits otherwise. */
  function Settled(q: Queue): Queue
    requires Failing(q)
  {
    var p := q.phase;
    var id := p.due[p.tried];
    var e := q.store[id];
    var next := p.(tried := p.tried + 1, failing := false);
    if p.now - e.firstFailed >= MAX_AGE then
      q.(phase := next.(remove := p.remove + [id]), expired := q.expired[id := p.now])
    else q.(phase := next, store := q.store[id := e.(nextRetry := p.now + Backoff(e.attempt) * SECOND)])
  }

  /** The list without its first entry whose fields equal those of entry `id`. */
  function RemoveEqual(entries: seq<nat>, store: seq<Entry>, id: nat): (r: seq<nat>)
    requires Known(entries, |store|) && id < |store|
    ensures Known(r, |store|)
  {
    if entries == [] then []
    else if store[entries[0]] == store[id] then entries[1..]
    else [entries[0]] + RemoveEqual(entries[1..], store, id)
  }

  function RemoveAll(entries: seq<nat>, store: seq<Entry>, ids: seq<nat>): (r: seq<nat>)
    requires Known(entries, |store|) && Known(ids, |store|)
    ensures Known(r, |store|)
    decreases |ids|
  {
    if ids == [] then entries
    else RemoveEqual(RemoveAll(entries, store, ids[..|ids| - 1]), store, ids[|ids| - 1])
  }

  predicate Ready(q: Queue) {
    && q.phase.Sending?
    && !q.phase.failing
    && q.phase.tried == |q.phase.due|
    && Known(q.entries, |q.store|)
    && Known(q.phase.remove, |q.store|)
  }

  function Cleared(q: Queue): Queue
    requires Ready(q)
  {
    var kept := RemoveAll(q.entries, q.store, q.phase.remove);
    q.(entries := kept, phase := Idle,
       lost := q.lost + (Elements(q.entries) - Elements(kept) - Elements(q.phase.remove)))
  }

  function Committed(q: Queue, saved: bool): Queue
    requires Ready(q)
  {
    Saved(Cleared(q), saved)
  }

  function Young(items: seq<Copy>, now: int): (r: seq<Copy>)
    ensures |r| <= |items|
  {
    if items == [] then []
    else
      var last := items[|items| - 1];
      Young(items[..|items| - 1], now) + if now - last.fields.firstFailed <= MAX_AGE then [last] else []
  }

  function Ids(items: seq<Copy>): (r: seq<nat>)
    ensures |r| == |items| && forall i :: 0 <= i < |r| ==> r[i] == items[i].id
  {
    seq(|items|, i requires 0 <= i < |items| => items[i].id)
  }

  function Restored(store: seq<Entry>, items: seq<Copy>): (r: seq<Entry>)
    requires Known(Ids(items), |store|)
    ensures |r| == |store|
  {
    if items == [] then store
    else
      var front, last := items[..|items| - 1], items[|items| - 1];
      assert forall i :: 0 <= i < |front| ==> Ids(front)[i] == Ids(items)[i];
      assert Ids(items)[|items| - 1] == last.id;
      Restored(store, front)[last.id := last.fields]
  }

  /** A new process takes over: `_load` keeps what is at most a day old, and starts with
      nothing if the file cannot be read. */
  function Found(q: Queue, now: int, readable: bool): seq<Copy> {
    if readable then Young(q.disk, now) else []
  }

  function Restarted(q: Queue, now: int, readable: bool): Queue
    requires Known(Ids(Found(q, now, readable)), |q.store|)
  {
    var found := Found(q, now, readable);
    var back := Elements(Ids(found));
    Queue(Ids(found), Restored(q.store, found), Idle, q.disk,
          q.sends, multiset{}, q.wasted + q.open, q.deliveries,
          q.delivered - back, q.expired - back, q.dropped - back, q.lost - back,
          q.forgotten + Elements(q.entries) - back)
  }

  // ---------------------------------------------------------------------------------------
  // Runs
  // ---------------------------------------------------------------------------------------

  datatype Step =
    | Enqueue(event: string, channel: string, now: int, saved: bool)
    | Look(now: int, targets: set<string>)
    | Try(ok: bool)
    | Settle
    | Commit(saved: bool)
    | Restart(now: int, readable: bool)

  /** The worker goes through its phases in order; enqueues and restarts come at any moment,
      with any clock reading. */
  predicate Allowed(q: Queue, step: Step) {
    match step
    case Enqueue(_, _, _, _) => Known(q.entries, |q.store|)
    case Look(_, _) => q.phase.Idle? && Known(q.entries, |q.store|)
    case Try(_) => Trying(q)
    case Settle => Failing(q)
    case Commit(_) => Ready(q)
    case Restart(now, readable) => Known(Ids(Found(q, now, readable)), |q.store|)
  }

  function Next(q: Queue, step: Step): Queue
    requires Allowed(q, step)
  {
    match step
    case Enqueue(event, channel, now, saved) => Enqueued(q, event, channel, now, saved)
    case Look(now, targets) => Snapshot(q, now, targets)
    case Try(ok) => Tried(q, ok)
    case Settle => Settled(q)
    case Commit(saved) => Committed(q, saved)
    case Restart(now, readable) => Restarted(q, now, readable)
  }

  /** The steps lead from queue `q` to queue `r`. */
  ghost predicate Leads(q: Queue, run: seq<Step>, r: Queue)
    decreases |run|
  {
    if run == [] then q == r
    else Allowed(q, run[0]) && Leads(Next(q, run[0]), run[1..], r)
  }

  // ---------------------------------------------------------------------------------------
  // The invariant
  // ---------------------------------------------------------------------------------------

  /** The least time, in seconds, between an entry's first failure and its retry after
      `attempt` failed retries. */
  function Elapsed(attempt: nat): int {
    Backoff(attempt) + if attempt == 0 then 0 else Elapsed(attempt - 1)
  }

  const MAX_ATTEMPT: nat := 147

  /** The entry counts `n` failed retries at least, and has waited out that many steps. */
  ghost predicate Paced(e: Entry, n: int) {
    && n <= e.attempt && n <= MAX_ATTEMPT
    && e.nextRetry - e.firstFailed >= Elapsed(if n < 0 then 0 else n) * SECOND
  }

  ghost predicate Decided(q: Queue, id: nat) {
    id in q.delivered || id in q.expired
  }

  ghost predicate InFailure(q: Queue, id: nat) {
    Failing(q) && id == q.phase.due[q.phase.tried]
  }

  /** The failed retries of an entry that count: all sends but those wasted by a restart and
      the one that decided its fate or is still being dealt with. */
  ghost function Retries(q: Queue, id: nat): int {
    q.sends[id] as int - q.wasted[id] as int - if Decided(q, id) || InFailure(q, id) then 1 else 0
  }

  ghost predicate EntryPaced(q: Queue, id: nat)
    requires id < |q.store|
  {
    && Paced(q.store[id], Retries(q, id))
    && q.store[id].attempt <= q.sends[id]
    && (InFailure(q, id) ==> Retries(q, id) < q.store[id].attempt && q.open[id] > 0)
  }

  ghost predicate AllPaced(q: Queue) {
    forall id :: 0 <= id < |q.store| ==> EntryPaced(q, id)
  }

  ghost predicate CopyPaced(q: Queue, c: Copy) {
    && Paced(c.fields, q.sends[c.id] as int - q.wasted[c.id] as int - q.open[c.id] as int)
    && c.fields.attempt <= q.sends[c.id]
    && q.deliveries[c.id] <= q.wasted[c.id] + q.open[c.id]
  }

  ghost predicate DiskPaced(q: Queue) {
    forall i :: 0 <= i < |q.disk| ==> CopyPaced(q, q.disk[i])
  }

  /** The file lists entries in order of arrival, with what never changes about them. */
  ghost predicate DiskListed(q: Queue) {
    && Known(Ids(q.disk), |q.store|) && Increasing(Ids(q.disk)) && |q.disk| <= MAX_SIZE
    && forall i :: 0 <= i < |q.disk| ==> Alike(q.disk[i].fields, q.store[q.disk[i].id])
  }

  predicate Alike(a: Entry, b: Entry) {
    a.event == b.event && a.channel == b.channel && a.firstFailed == b.firstFailed
  }

  /** Only entries have a history. A delivery is repeated only after a restart has wasted the
      one before, and giving up needs an age of a day. */
  ghost predicate Tallied(q: Queue, id: nat) {
    && q.deliveries[id] <= q.wasted[id] + (if id in q.delivered then 1 else 0)
    && (id in q.expired && id < |q.store| ==> q.expired[id] - q.store[id].firstFailed >= MAX_AGE)
    && (Decided(q, id) || id in q.dropped || id in q.lost || id in q.forgotten || q.sends[id] > 0 ==> id < |q.store|)
  }

  ghost predicate Counted(q: Queue) {
    forall id: nat :: Tallied(q, id)
  }

  ghost predicate Listed(q: Queue) {
    Known(q.entries, |q.store|) && Increasing(q.entries) && |q.entries| <= MAX_SIZE
  }

  ghost predicate HasLeft(q: Queue, id: nat) {
    Decided(q, id) || id in q.dropped || id in q.lost || id in q.forgotten
  }

  ghost predicate Accounted(q: Queue) {
    forall id :: 0 <= id < |q.store| && id !in q.entries ==> HasLeft(q, id)
  }

  ghost predicate Doomed(q: Queue, id: nat) {
    q.phase.Sending? && id in q.phase.remove
  }

  /** An entry in the queue is undecided, or on the worker's list of removals. */
  ghost predicate Waiting(q: Queue) {
    forall id :: id in q.entries ==>
      && id !in q.dropped && id !in q.lost && id !in q.forgotten
      && (Decided(q, id) ==> Doomed(q, id))
  }

  ghost predicate Pending(q: Queue, k: nat)
    requires q.phase.Sending? && k < |q.phase.due| && Known(q.phase.due, |q.store|)
  {
    var id := q.phase.due[k];
    if k >= q.phase.tried then
      q.store[id].nextRetry <= q.phase.now && !Decided(q, id)
    else
      id in q.phase.remove || q.store[id].nextRetry > q.phase.now || q.store[id].channel !in q.phase.targets
  }

  ghost predicate Removal(q: Queue, id: nat)
    requires q.phase.Sending?
  {
    && id < |q.store|
    && q.store[id].nextRetry <= q.phase.now
    && q.store[id].channel in q.phase.targets
    && Decided(q, id)
  }

  ghost predicate Placed(q: Queue)
    requires q.phase.Sending? && Known(q.phase.due, |q.store|)
  {
    && q.phase.tried <= |q.phase.due|
    && (q.phase.failing ==>
          q.phase.tried < |q.phase.due| && q.store[q.phase.due[q.phase.tried]].channel in q.phase.targets)
    && q.phase.seen <= |q.store|
    && Increasing(q.phase.remove)
  }

  ghost predicate InStep(q: Queue) {
    q.phase.Sending? ==>
      && Known(q.phase.due, |q.store|)
      && Increasing(q.phase.due)
      && Known(q.phase.due, q.phase.seen)
      && Placed(q)
      && (forall k :: 0 <= k < |q.phase.due| ==> Pending(q, k))
      && (forall id :: id in q.phase.remove ==> Removal(q, id) && id in q.phase.due[..q.phase.tried])
      && (forall id :: id in q.entries && id < |q.store| ==>
           id in q.phase.due || q.store[id].nextRetry > q.phase.now || id >= q.phase.seen)
  }

  ghost predicate Inv(q: Queue) {
    && Listed(q) && DiskListed(q) && AllPaced(q) && DiskPaced(q)
    && Counted(q) && Accounted(q) && Waiting(q) && InStep(q)
  }

  // ---------------------------------------------------------------------------------------
  // Lists of numbers
  // ---------------------------------------------------------------------------------------

  lemma ConsHas(x: nat, s: seq<nat>)
    ensures forall y :: y in [x] + s <==> y == x || y in s
  {
  }

  lemma ConsElim(x: nat, s: seq<nat>)
    requires Increasing([x] + s)
    ensures Increasing(s) && forall y :: y in s ==> x < y
  {
    var t := [x] + s;
    forall i, j | 0 <= i < j < |s| ensures s[i] < s[j] {
      assert t[i + 1] < t[j + 1];
    }
    forall i | 0 <= i < |s| ensures x < s[i] {
      assert t[0] < t[i + 1];
    }
  }

  lemma ConsIntro(x: nat, s: seq<nat>)
    requires Increasing(s) && forall y :: y in s ==> x < y
    ensures Increasing([x] + s)
  {
    var t := [x] + s;
    forall i, j | 0 <= i < j < |t| ensures t[i] < t[j] {
      assert t[j] == s[j - 1] && s[j - 1] in s;
      assert if i > 0 then t[i] == s[i - 1] else t[i] == x;
    }
  }

  lemma Snoc(s: seq<nat>, x: nat, n: nat)
    requires Increasing(s) && (forall y :: y in s ==> y < x) && x < n
    ensures Increasing(s + [x]) && Known(s + [x], n)
    ensures forall y :: y in s + [x] <==> y in s || y == x
  {
    forall i | 0 <= i < |s| ensures s[i] < x {
      assert s[i] in s;
    }
  }

  // ---------------------------------------------------------------------------------------
  // Saving
  // ---------------------------------------------------------------------------------------

  lemma {:induction false} ElapsedGrows(m: nat, n: nat)
    requires m <= n
    ensures Elapsed(m) <= Elapsed(n)
    decreases n
  {
    if m == n {
    } else {
      ElapsedGrows(m, n - 1);
    }
  }

  lemma PacedLess(e: Entry, m: int, n: int)
    requires Paced(e, n) && m <= n
    ensures Paced(e, m)
  {
    ElapsedGrows(if m < 0 then 0 else m, if n < 0 then 0 else n);
  }

  /** The fields of a listed entry say what the file must: its sends but the unsettled ones. */
  lemma CopyOf(q: Queue, id: nat)
    requires Inv(q) && id in q.entries && id < |q.store|
    ensures CopyPaced(q.(open := Unsettled(q.phase)), Copy(id, q.store[id]))
  {
    var n := if Decided(q, id) || InFailure(q, id) then 1 else 0;
    assert Tallied(q, id) && EntryPaced(q, id);
    assert n <= Unsettled(q.phase)[id] by {
      if Decided(q, id) { assert Doomed(q, id); }
    }
    PacedLess(q.store[id], q.sends[id] as int - q.wasted[id] as int - Unsettled(q.phase)[id] as int, Retries(q, id));
  }

  lemma SavedKeeps(q: Queue, ok: bool)
    requires Inv(q)
    ensures Inv(Saved(q, ok))
  {
    if ok {
      var r := Saved(q, ok);
      forall i | 0 <= i < |r.disk| ensures CopyPaced(r, r.disk[i]) {
        CopyOf(q, q.entries[i]);
      }
      assert Ids(r.disk) == q.entries;
      forall id: nat ensures Tallied(r, id) {
        assert Tallied(q, id);
      }
      SameUpToDisk(q, r);
    }
  }

  /** Only the file and the open sends differ. */
  lemma SameUpToDisk(q: Queue, r: Queue)
    requires AllPaced(q) && Accounted(q) && Waiting(q) && InStep(q)
    requires r == q.(disk := r.disk, open := r.open)
    requires forall id: nat :: InFailure(q, id) ==> r.open[id] > 0
    ensures AllPaced(r) && Accounted(r) && Waiting(r) && InStep(r)
  {
    forall id | 0 <= id < |q.store| ensures EntryPaced(r, id) {
      assert EntryPaced(q, id) && Retries(r, id) == Retries(q, id);
    }
    if q.phase.Sending? {
      forall k | 0 <= k < |q.phase.due| ensures Pending(r, k) {
        assert Pending(q, k);
      }
      forall id | id in r.phase.remove ensures Removal(r, id) {
        assert Removal(q, id);
      }
    }
  }

  // ---------------------------------------------------------------------------------------
  // Enqueue
  // ---------------------------------------------------------------------------------------

  /** What an enqueue does to the list: the oldest goes if there is no room. */
  lemma AddedList(q: Queue, event: string, channel: string, now: int)
    requires Listed(q)
    ensures var r := Added(q, event, channel, now);
            && Listed(r)
            && forall y :: y in r.entries <==>
                 y == |q.store| || (y in q.entries && (|q.entries| >= MAX_SIZE ==> y != q.entries[0]))
  {
    var kept := if |q.entries| >= MAX_SIZE then q.entries[1..] else q.entries;
    if |q.entries| >= MAX_SIZE {
      assert q.entries == [q.entries[0]] + kept;
      ConsElim(q.entries[0], kept);
      ConsHas(q.entries[0], kept);
    }
    Snoc(kept, |q.store|, |q.store| + 1);
  }

  lemma AddedHistory(q: Queue, event: string, channel: string, now: int)
    requires Inv(q)
    ensures var r := Added(q, event, channel, now);
            DiskListed(r) && AllPaced(r) && DiskPaced(r) && Counted(r) && Accounted(r) && Waiting(r)
  {
    var r := Added(q, event, channel, now);
    AddedList(q, event, channel, now);
    assert Tallied(q, |q.store|);
    forall id: nat ensures Tallied(r, id) {
      assert Tallied(q, id);
    }
    forall id | 0 <= id < |r.store| ensures EntryPaced(r, id) {
      if id < |q.store| { assert EntryPaced(q, id) && Retries(r, id) == Retries(q, id); }
    }
    forall i | 0 <= i < |r.disk| ensures CopyPaced(r, r.disk[i]) && Alike(r.disk[i].fields, r.store[r.disk[i].id]) {
      assert CopyPaced(q, q.disk[i]) && Ids(q.disk)[i] < |q.store|;
    }
  }

  lemma AddedInStep(q: Queue, event: string, channel: string, now: int)
    requires Inv(q)
    ensures InStep(Added(q, event, channel, now))
  {
    var r := Added(q, event, channel, now);
    AddedList(q, event, channel, now);
    if q.phase.Sending? {
      forall k | 0 <= k < |q.phase.due| ensures Pending(r, k) {
        assert Pending(q, k);
      }
      forall id | id in r.phase.remove ensures Removal(r, id) {
        assert Removal(q, id);
      }
    }
  }

  lemma EnqueueKeeps(q: Queue, event: string, channel: string, now: int, saved: bool)
    requires Inv(q)
    ensures Inv(Enqueued(q, event, channel, now, saved))
  {
    AddedList(q, event, channel, now);
    AddedHistory(q, event, channel, now);
    AddedInStep(q, event, channel, now);
    SavedKeeps(Added(q, event, channel, now), saved);
  }

  // ---------------------------------------------------------------------------------------
  // Snapshot
  // ---------------------------------------------------------------------------------------

  lemma {:induction false} DueFacts(entries: seq<nat>, store: seq<Entry>, now: int)
    requires Known(entries, |store|) && Increasing(entries)
    ensures Known(DueAt(entries, store, now), |store|) && Increasing(DueAt(entries, store, now))
    ensures forall y :: y in DueAt(entries, store, now) <==> y in entries && y < |store| && store[y].nextRetry <= now
  {
    if entries == [] {
    } else {
      var front, last := entries[..|entries| - 1], entries[|entries| - 1];
      DueFacts(front, store, now);
      assert entries == front + [last];
      assert forall y :: y in front ==> y < last;
      if store[last].nextRetry <= now {
        Snoc(DueAt(front, store, now), last, |store|);
      }
    }
  }

  lemma LookKeeps(q: Queue, now: int, targets: set<string>)
    requires Inv(q) && Allowed(q, Look(now, targets))
    ensures Inv(Snapshot(q, now, targets))
  {
    var r := Snapshot(q, now, targets);
    DueFacts(q.entries, q.store, now);
    if r.phase.Sending? {
      forall k | 0 <= k < |r.phase.due| ensures Pending(r, k) {
        assert r.phase.due[k] in q.entries;
      }
    }
    forall id: nat ensures Tallied(r, id) {
      assert Tallied(q, id);
    }
    forall id | 0 <= id < |r.store| ensures EntryPaced(r, id) {
      assert EntryPaced(q, id) && Retries(r, id) == Retries(q, id);
    }
    forall i | 0 <= i < |r.disk| ensures CopyPaced(r, r.disk[i]) {
      assert CopyPaced(q, q.disk[i]);
    }
  }

  // ---------------------------------------------------------------------------------------
  // Sending
  // ---------------------------------------------------------------------------------------

  /** The entry the worker is at. */
  ghost function Turn(q: Queue): nat
    requires q.phase.Sending? && q.phase.tried < |q.phase.due|
  {
    q.phase.due[q.phase.tried]
  }

  lemma RemovedBefore(q: Queue)
    requires InStep(q) && q.phase.Sending? && q.phase.tried < |q.phase.due|
    ensures forall id :: id in q.phase.remove ==> id < Turn(q)
  {
    var p := q.phase;
    forall id | id in p.remove ensures id < p.due[p.tried] {
      var k :| 0 <= k < |p.due[..p.tried]| && p.due[..p.tried][k] == id;
      assert p.due[k] == id;
    }
  }

  lemma TriedHistory(q: Queue, ok: bool)
    requires Inv(q) && Trying(q)
    ensures AllPaced(Tried(q, ok)) && Counted(Tried(q, ok))
  {
    var r, i := Tried(q, ok), Turn(q);
    assert Pending(q, q.phase.tried);
    forall id: nat ensures Tallied(r, id) {
      assert Tallied(q, id);
    }
    forall id | 0 <= id < |r.store| ensures EntryPaced(r, id) {
      assert EntryPaced(q, id);
      assert Retries(r, id) == Retries(q, id);
    }
  }

  lemma TriedDisk(q: Queue, ok: bool)
    requires Inv(q) && Trying(q)
    ensures DiskPaced(Tried(q, ok)) && DiskListed(Tried(q, ok))
  {
    var r := Tried(q, ok);
    forall i | 0 <= i < |r.disk| ensures CopyPaced(r, r.disk[i]) && Alike(r.disk[i].fields, r.store[r.disk[i].id]) {
      assert CopyPaced(q, q.disk[i]) && Ids(q.disk)[i] < |q.store|;
    }
  }

  lemma TriedInStep(q: Queue, ok: bool)
    requires Inv(q) && Trying(q)
    ensures InStep(Tried(q, ok)) && Waiting(Tried(q, ok)) && Accounted(Tried(q, ok))
  {
    var r, p, i := Tried(q, ok), q.phase, Turn(q);
    assert Pending(q, p.tried);
    RemovedBefore(q);
    Snoc(p.remove, i, |q.store|);
    assert p.due[..p.tried + 1] == p.due[..p.tried] + [i];
    forall k | 0 <= k < |p.due| ensures Pending(r, k) {
      assert Pending(q, k);
      assert k != p.tried ==> p.due[k] != i;
    }
    forall id | id in r.phase.remove ensures Removal(r, id) && id in r.phase.due[..r.phase.tried] {
      assert id != i ==> Removal(q, id);
    }
  }

  lemma TryKeeps(q: Queue, ok: bool)
    requires Inv(q) && Trying(q)
    ensures Inv(Tried(q, ok))
  {
    TriedHistory(q, ok);
    TriedDisk(q, ok);
    TriedInStep(q, ok);
  }

  lemma {:induction false} ElapsedValue(k: nat)
    requires k >= 4
    ensures Elapsed(k) == 930 + 600 * (k - 4)
  {
    if k == 4 {
      assert Elapsed(0) == 30 && Elapsed(1) == 90 && Elapsed(2) == 210 && Elapsed(3) == 450;
    } else {
      ElapsedValue(k - 1);
    }
  }

  /** A retry that fails in time keeps to the schedule: 147 steps of it do not fit in a day. */
  lemma FailedPaced(e: Entry, n: int, now: int)
    requires Paced(e, n) && n + 1 <= e.attempt
    requires e.nextRetry <= now && now - e.firstFailed < MAX_AGE
    ensures Paced(e.(nextRetry := now + Backoff(e.attempt) * SECOND), n + 1)
  {
    if n == MAX_ATTEMPT {
      ElapsedValue(MAX_ATTEMPT);
      assert false;
    }
    assert n >= 0 ==> Elapsed(n + 1) == Elapsed(n) + Backoff(n + 1);
    assert n >= 0 ==> Backoff(n + 1) <= Backoff(e.attempt);
  }

  lemma SettledHistory(q: Queue)
    requires Inv(q) && Failing(q)
    ensures AllPaced(Settled(q)) && Counted(Settled(q))
  {
    var r, i := Settled(q), Turn(q);
    assert Pending(q, q.phase.tried);
    forall id: nat ensures Tallied(r, id) {
      assert Tallied(q, id);
    }
    forall id | 0 <= id < |r.store| ensures EntryPaced(r, id) {
      assert EntryPaced(q, id);
      if id == i && q.phase.now - q.store[i].firstFailed < MAX_AGE {
        assert Retries(r, i) == Retries(q, i) + 1;
        FailedPaced(q.store[i], Retries(q, i), q.phase.now);
      }
    }
  }

  lemma SettledDisk(q: Queue)
    requires Inv(q) && Failing(q)
    ensures DiskPaced(Settled(q)) && DiskListed(Settled(q))
  {
    var r := Settled(q);
    forall i | 0 <= i < |r.disk| ensures CopyPaced(r, r.disk[i]) && Alike(r.disk[i].fields, r.store[r.disk[i].id]) {
      assert CopyPaced(q, q.disk[i]) && Ids(q.disk)[i] < |q.store|;
    }
  }

  lemma SettledInStep(q: Queue)
    requires Inv(q) && Failing(q)
    ensures InStep(Settled(q)) && Waiting(Settled(q)) && Accounted(Settled(q))
  {
    var r, p, i := Settled(q), q.phase, Turn(q);
    assert Pending(q, p.tried);
    RemovedBefore(q);
    Snoc(p.remove, i, |q.store|);
    assert p.due[..p.tried + 1] == p.due[..p.tried] + [i];
    forall k | 0 <= k < |p.due| ensures Pending(r, k) {
      assert Pending(q, k);
      assert k != p.tried ==> p.due[k] != i;
    }
    forall id | id in r.phase.remove ensures Removal(r, id) && id in r.phase.due[..r.phase.tried] {
      assert id != i ==> Removal(q, id);
    }
  }

  lemma SettleKeeps(q: Queue)
    requires Inv(q) && Failing(q)
    ensures Inv(Settled(q))
  {
    SettledHistory(q);
    SettledDisk(q);
    SettledInStep(q);
  }
}
