/**
 The objects behind NotificationQueue.dfy: the list of entry objects and the file, with the
 methods of services/notifier/src/notification_queue.py proved against its functions.
 */
module RetryQueue {
  import opened Q = NotificationQueue
  import opened CommitAndRestart
  import opened RetryRuns

  /** The rest of a pass during which nothing else happens. */
  function Worked(q: Queue, outcomes: nat -> bool, saved: bool): Queue
    decreases if q.phase.Sending? then |q.phase.due| - q.phase.tried else 0,
              if q.phase.Sending? && q.phase.failing then 0 else 1
  {
    if Trying(q) then Worked(Tried(q, outcomes(q.phase.tried)), outcomes, saved)
    else if Failing(q) then Worked(Settled(q), outcomes, saved)
    else if Ready(q) then Committed(q, saved)
    else q
  }

  /** One turn of the sending loop. */
  function Turned(q: Queue, ok: bool): Queue
    requires Trying(q)
  {
    var r := Tried(q, ok);
    if Failing(r) then Settled(r) else r
  }

  /** A step of the worker. */
  predicate OfWorker(step: Step) {
    step.Try? || step.Settle? || step.Commit?
  }

  /** What is left of the pass is a run of the worker's steps to the end of the pass. */
  lemma {:induction false} WorkedIsRun(q: Queue, outcomes: nat -> bool, saved: bool) returns (run: seq<Step>)
    requires Inv(q) && q.phase.Sending?
    ensures Leads(q, run, Worked(q, outcomes, saved)) && Worked(q, outcomes, saved).phase.Idle?
    ensures forall i :: 0 <= i < |run| ==> OfWorker(run[i])
    decreases |q.phase.due| - q.phase.tried, if q.phase.failing then 0 else 1
  {
    var step, r := NextOfWorker(q, outcomes, saved);
    StepKeeps(q, step);
    hide Inv, Next, Allowed;
    if step.Commit? {
      run := [step];
      assert run[1..] == [];
      assert Leads(r, [], r);
    } else {
      var rest := WorkedIsRun(r, outcomes, saved);
      run := [step] + rest;
      assert run[1..] == rest;
    }
  }

  lemma NextOfWorker(q: Queue, outcomes: nat -> bool, saved: bool) returns (step: Step, r: Queue)
    requires Inv(q) && q.phase.Sending?
    ensures OfWorker(step) && Allowed(q, step) && r == Next(q, step)
    ensures step.Commit? ==> r.phase.Idle? && r == Worked(q, outcomes, saved)
    ensures !step.Commit? ==>
      && r.phase.Sending? && Worked(r, outcomes, saved) == Worked(q, outcomes, saved)
      && r.phase.due == q.phase.due && q.phase.tried <= r.phase.tried <= |r.phase.due|
      && (r.phase.tried > q.phase.tried || (r.phase.failing && !q.phase.failing))
  {
    if q.phase.failing {
      step, r := Settle, Settled(q);
    } else {
      Phases(q);
      if q.phase.tried < |q.phase.due| {
        step, r := Try(outcomes(q.phase.tried)), Tried(q, outcomes(q.phase.tried));
      } else {
        step, r := Commit(saved), Committed(q, saved);
      }
    }
  }

  lemma TurnKeeps(q: Queue, outcomes: nat -> bool, saved: bool)
    requires Inv(q) && Trying(q)
    ensures var ok := outcomes(q.phase.tried);
      && Inv(Turned(q, ok)) && Worked(q, outcomes, saved) == Worked(Turned(q, ok), outcomes, saved)
      && Turned(q, ok).phase == q.phase.(tried := q.phase.tried + 1, remove := Turned(q, ok).phase.remove)
  {
    var ok := outcomes(q.phase.tried);
    var r := Tried(q, ok);
    assert Worked(q, outcomes, saved) == Worked(r, outcomes, saved);
    assert Failing(r) ==> Worked(r, outcomes, saved) == Worked(Settled(r), outcomes, saved);
    TurnedPhase(q, ok);
    hide Inv, Tried, Settled, Worked, Failing;
    TryKeeps(q, ok);
    if Failing(r) {
      SettleKeeps(r);
    }
  }

  lemma TurnedPhase(q: Queue, ok: bool)
    requires Trying(q)
    ensures Turned(q, ok).phase == q.phase.(tried := q.phase.tried + 1, remove := Turned(q, ok).phase.remove)
  {
  }

  lemma Phases(q: Queue)
    requires Inv(q) && q.phase.Sending? && !q.phase.failing
    ensures q.phase.tried <= |q.phase.due|
    ensures if q.phase.tried < |q.phase.due| then Trying(q) else Ready(q)
  {
    forall i | 0 <= i < |q.phase.remove| ensures q.phase.remove[i] < |q.store| {
      assert Removal(q, q.phase.remove[i]);
    }
  }

  lemma {:induction false} RemoveEqualAt(entries: seq<nat>, store: seq<Entry>, id: nat, i: nat)
    requires Known(entries, |store|) && id < |store| && i <= |entries|
    requires i < |entries| ==> store[entries[i]] == store[id]
    requires forall j :: 0 <= j < i ==> store[entries[j]] != store[id]
    ensures RemoveEqual(entries, store, id) == if i < |entries| then entries[..i] + entries[i + 1..] else entries
    decreases i
  {
    if i == 0 {
    } else {
      var rest := entries[1..];
      assert Known(rest, |store|);
      forall j | 0 <= j < i - 1 ensures store[rest[j]] != store[id] {
        assert rest[j] == entries[j + 1];
      }
      RemoveEqualAt(rest, store, id, i - 1);
      assert RemoveEqual(entries, store, id) == [entries[0]] + RemoveEqual(rest, store, id);
      hide *;
      Shifted(entries, i);
    }
  }

  lemma Shifted(s: seq<nat>, i: nat)
    requires 0 < i <= |s|
    ensures s == [s[0]] + s[1..]
    ensures i < |s| ==> s[..i] + s[i + 1..] == [s[0]] + (s[1..][..i - 1] + s[1..][i..])
  {
  }

  /** What is left of the list when there is room for another entry. */
  function Kept(entries: seq<nat>): seq<nat> {
    if |entries| >= MAX_SIZE then entries[1..] else entries
  }

  lemma AddedFields(q: Queue, event: string, channel: string, now: int)
    ensures var r := Added(q, event, channel, now);
      && r.entries == Kept(q.entries) + [|q.store|] && |r.store| == |q.store| + 1
      && r.store[|q.store|] == Entry(event, channel, 0, now + Backoff(0) * SECOND, now)
  {
  }

  /** The objects of a list still answer to its numbers after both lose the same place. */
  lemma CutOut(list: seq<QueueEntry>, ids: seq<nat>, objects: map<nat, QueueEntry>, i: nat)
    requires |list| == |ids| && i < |list|
    requires forall j :: 0 <= j < |list| ==> ids[j] in objects && list[j] == objects[ids[j]]
    ensures var l, n := list[..i] + list[i + 1..], ids[..i] + ids[i + 1..];
            |l| == |n| && forall j :: 0 <= j < |l| ==> n[j] in objects && l[j] == objects[n[j]]
  {
  }

  class QueueEntry {
    ghost const id: nat
    const event: string
    const channel: string
    const firstFailed: int
    var attempt: nat
    var nextRetry: int

    ghost function Value(): Entry
      reads this
    {
      Entry(event, channel, attempt, nextRetry, firstFailed)
    }

    constructor (ghost id: nat, fields: Entry)
      ensures this.id == id && Value() == fields
    {
      this.id, event, channel, firstFailed := id, fields.event, fields.channel, fields.firstFailed;
      attempt, nextRetry := fields.attempt, fields.nextRetry;
    }

    method Equals(other: QueueEntry) returns (same: bool)
      ensures same == (Value() == other.Value())
    {
      same := event == other.event && channel == other.channel && attempt == other.attempt
              && nextRetry == other.nextRetry && firstFailed == other.firstFailed;
    }

    method Fields() returns (fields: Entry)
      ensures fields == Value()
    {
      fields := Entry(event, channel, attempt, nextRetry, firstFailed);
    }
  }

  class NotificationQueue {
    var entries: seq<QueueEntry>
    var file: seq<Entry>
    ghost var objects: map<nat, QueueEntry>
    ghost var view: Queue

    ghost predicate Shows(id: nat)
      reads this, objects.Values
    {
      && id in objects && id < |view.store|
      && objects[id].id == id && objects[id].Value() == view.store[id]
    }

    /** The list holds the objects with the given numbers. */
    ghost predicate Matches(list: seq<QueueEntry>, ids: seq<nat>)
      reads this`objects
    {
      |list| == |ids| && forall i :: 0 <= i < |list| ==> ids[i] in objects && list[i] == objects[ids[i]]
    }

    ghost predicate Written()
      reads this`file, this`view
    {
      |file| == |view.disk| && forall i :: 0 <= i < |file| ==> file[i] == view.disk[i].fields
    }

    ghost predicate Valid()
      reads this, objects.Values
    {
      AllShow() && Matches(entries, view.entries) && Written()
    }

    /** A new process with the file left by the old one. */
    constructor (file: seq<Entry>, now: int, readable: bool, ghost before: Queue)
      requires Inv(before)
      requires |file| == |before.disk| && forall i :: 0 <= i < |file| ==> file[i] == before.disk[i].fields
      ensures Known(Ids(Found(before, now, readable)), |before.store|)
      ensures Valid() && view == Restarted(before, now, readable) && forall k :: k in objects ==> fresh(objects[k])
    {
      FoundFacts(before, now, readable);
      entries, objects, this.file := [], map[], file;
      view := Restarted(before, now, readable);
      new;
      ghost var found := Found(before, now, readable);
      if readable {
        FoundStored(before, now);
        Load(now, before.disk);
      } else {
        assert Matches(entries, Ids(found));
      }
    }

    ghost predicate AllShow()
      reads this, objects.Values
    {
      forall id :: id in objects ==> Shows(id)
    }

    method Append(fields: Entry, ghost id: nat, ghost ids: seq<nat>)
      requires AllShow() && Matches(entries, ids) && id !in objects && id < |view.store| && view.store[id] == fields
      modifies this`entries, this`objects
      ensures AllShow() && Matches(entries, ids + [id])
      ensures objects.Keys == old(objects).Keys + {id} && fresh(objects[id])
      ensures forall k :: k in old(objects) ==> objects[k] == old(objects)[k]
    {
      var entry := new QueueEntry(id, fields);
      entries := entries + [entry];
      objects := objects[id := entry];
      forall k | k in objects ensures Shows(k) {
        assert k != id ==> old(Shows(k));
      }
    }

    method AppendYoung(fields: Entry, now: int, ghost id: nat, ghost ids: seq<nat>)
      requires AllShow() && Matches(entries, ids) && id !in objects
      requires now - fields.firstFailed <= MAX_AGE ==> id < |view.store| && view.store[id] == fields
      modifies this`entries, this`objects
      ensures AllShow() && Matches(entries, ids + if now - fields.firstFailed <= MAX_AGE then [id] else [])
      ensures forall k :: k in objects ==>
                if k in old(objects) then objects[k] == old(objects)[k] else k == id && fresh(objects[k])
    {
      if now - fields.firstFailed <= MAX_AGE {
        Append(fields, id, ids);
      } else {
        assert ids + [] == ids;
      }
    }

    /** The list comprehension of `_load`. */
    method Load(now: int, ghost disk: seq<Copy>)
      requires entries == [] && objects == map[] && Written() && view.disk == disk
      requires view.entries == Ids(Young(disk, now))
      requires Loadable(disk, view.store, now)
      modifies this`entries, this`objects
      ensures Valid() && forall k :: k in objects ==> fresh(objects[k])
    {
      ghost var last := 0;
      for i := 0 to |file|
        invariant AllShow() && Matches(entries, Ids(Young(disk[..i], now)))
        invariant forall id :: id in objects ==> fresh(objects[id]) && id < last
        invariant last <= if i == 0 then 0 else disk[i - 1].id + 1
      {
        YoungSnoc(disk, i, now);
        LoadableAt(disk, view.store, now, i);
        hide Matches, AllShow, Young, Loadable;
        AppendYoung(file[i], now, disk[i].id, Ids(Young(disk[..i], now)));
        last := disk[i].id + 1;
      }
      assert disk[..|file|] == disk;
    }

    method Save(ok: bool)
      requires Valid() && Known(view.entries, |view.store|)
      modifies this`file, this`view
      ensures Valid() && view == Saved(old(view), ok)
    {
      if !ok { return; }
      var items: seq<Entry> := [];
      for i := 0 to |entries|
        invariant |items| == i && forall j :: 0 <= j < i ==> items[j] == view.store[view.entries[j]]
        modifies {}
      {
        assert Shows(view.entries[i]);
        var fields := entries[i].Fields();
        items := items + [fields];
      }
      file := items;
      view := Saved(view, true);
      forall id | id in objects ensures Shows(id) {
        assert old(Shows(id));
      }
    }

    /** The oldest is dropped when there are 500. */
    method MakeRoom()
      requires Valid()
      modifies this`entries
      ensures AllShow() && Written()
      ensures Matches(entries, Kept(view.entries))
    {
      if |entries| >= 500 {
        entries := entries[1..];
      }
      forall k | k in objects ensures Shows(k) {
        assert old(Shows(k));
      }
    }

    method Add(event: string, channel: string, now: int)
      requires Valid()
      modifies this`entries, this`objects, this`view
      ensures Valid() && view == Added(old(view), event, channel, now)
      ensures objects.Keys == old(objects).Keys + {|old(view).store|} && fresh(objects[|old(view).store|])
      ensures forall id :: id in old(objects) ==> objects[id] == old(objects)[id]
    {
      AddedFields(view, event, channel, now);
      hide Added, AllShow, Matches, Written, Backoff;
      ghost var id, kept := |view.store|, Kept(view.entries);
      MakeRoom();
      Announce(event, channel, now);
      Append(Entry(event, channel, 0, now + Backoff(0) * SECOND, now), id, kept);
    }

    /** The specification learns of an entry; the objects are as they were. */
    ghost method Announce(event: string, channel: string, now: int)
      requires AllShow() && Written()
      modifies this`view
      ensures view == Added(old(view), event, channel, now) && AllShow() && Written()
      ensures |old(view).store| !in objects
    {
      view := Added(view, event, channel, now);
      forall k | k in objects ensures Shows(k) && k < |old(view).store| {
        assert old(Shows(k));
      }
    }

    method Enqueue(event: string, channel: string, now: int, saved: bool)
      requires Valid() && Known(view.entries, |view.store|)
      modifies this
      ensures Valid() && view == Enqueued(old(view), event, channel, now, saved)
      ensures objects.Keys == old(objects).Keys + {|old(view).store|} && fresh(objects[|old(view).store|])
      ensures forall id :: id in old(objects) ==> objects[id] == old(objects)[id]
    {
      hide Valid, Saved;
      Add(event, channel, now);
      Save(saved);
    }

    /** The snapshot of `process_due`. */
    method Look(now: int, targets: set<string>) returns (due: seq<QueueEntry>)
      requires Valid() && Known(view.entries, |view.store|)
      modifies this`view
      ensures Valid() && view == Snapshot(old(view), now, targets)
      ensures Matches(due, DueAt(old(view).entries, old(view).store, now))
    {
      due := [];
      for i := 0 to |entries|
        invariant Matches(due, DueAt(view.entries[..i], view.store, now))
      {
        assert Shows(view.entries[i]);
        assert view.entries[..i + 1][..i] == view.entries[..i];
        if entries[i].nextRetry <= now {
          due := due + [entries[i]];
        }
      }
      assert view.entries[..|entries|] == view.entries;
      view := Snapshot(view, now, targets);
      forall id | id in objects ensures Shows(id) {
        assert old(Shows(id));
      }
    }

    /** The first half of a turn of the sending loop; `ok` is how the send would end. */
    method Try(entry: QueueEntry, targets: set<string>, ok: bool, toRemove: seq<QueueEntry>)
      returns (remove: seq<QueueEntry>, failing: bool)
      requires Valid() && Trying(view) && view.phase.targets == targets
      requires view.phase.due[view.phase.tried] in objects && entry == objects[view.phase.due[view.phase.tried]]
      requires Matches(toRemove, view.phase.remove)
      modifies this`view, entry
      ensures Valid() && view == Tried(old(view), ok) && Matches(remove, view.phase.remove) && failing == Failing(view)
    {
      assert Shows(view.phase.due[view.phase.tried]);
      remove, failing := toRemove, false;
      view := Tried(view, ok);
      if entry.channel in targets {
        if ok {
          remove := remove + [entry];
        } else {
          entry.attempt := entry.attempt + 1;
          failing := true;
        }
      }
      forall k | k in objects ensures Shows(k) {
        assert old(Shows(k));
      }
    }

    /** The second half, after a failure. */
    method Settle(entry: QueueEntry, now: int, toRemove: seq<QueueEntry>) returns (remove: seq<QueueEntry>)
      requires Valid() && Failing(view) && view.phase.now == now
      requires view.phase.due[view.phase.tried] in objects && entry == objects[view.phase.due[view.phase.tried]]
      requires Matches(toRemove, view.phase.remove)
      modifies this`view, entry
      ensures Valid() && view == Settled(old(view)) && Matches(remove, view.phase.remove)
    {
      assert Shows(view.phase.due[view.phase.tried]);
      remove := toRemove;
      view := Settled(view);
      if now - entry.firstFailed >= MAX_AGE {
        remove := remove + [entry];
      } else {
        entry.nextRetry := now + Backoff(entry.attempt) * SECOND;
      }
      forall k | k in objects ensures Shows(k) {
        assert old(Shows(k));
      }
    }

    method Turn(entry: QueueEntry, now: int, targets: set<string>, ok: bool, toRemove: seq<QueueEntry>)
      returns (remove: seq<QueueEntry>)
      requires Valid() && Trying(view) && view.phase.targets == targets && view.phase.now == now
      requires view.phase.due[view.phase.tried] in objects && entry == objects[view.phase.due[view.phase.tried]]
      requires Matches(toRemove, view.phase.remove)
      modifies this`view, entry
      ensures Valid() && view == Turned(old(view), ok) && Matches(remove, view.phase.remove)
    {
      var failing;
      remove, failing := Try(entry, targets, ok, toRemove);
      if failing {
        remove := Settle(entry, now, remove);
      }
    }

    method FirstEqual(entry: QueueEntry) returns (i: nat)
      requires Valid() && Known(view.entries, |view.store|)
      requires entry.id in objects && entry == objects[entry.id] && entry.id < |view.store|
      ensures i <= |entries|
      ensures i < |entries| ==> view.store[view.entries[i]] == view.store[entry.id]
      ensures forall j :: 0 <= j < i ==> view.store[view.entries[j]] != view.store[entry.id]
    {
      i := 0;
      assert Shows(entry.id);
      while i < |entries|
        invariant 0 <= i <= |entries|
        invariant forall j :: 0 <= j < i ==> view.store[view.entries[j]] != view.store[entry.id]
        modifies {}
      {
        assert Shows(view.entries[i]);
        var found := entries[i].Equals(entry);
        if found { return; }
        i := i + 1;
      }
    }

    /** `list.remove`: the first equal entry goes; nothing happens if there is none. */
    method Remove(entry: QueueEntry)
      requires Valid() && Known(view.entries, |view.store|)
      requires entry.id in objects && entry == objects[entry.id] && entry.id < |view.store|
      modifies this`entries, this`view
      ensures Valid()
      ensures view == old(view).(entries := RemoveEqual(old(view).entries, old(view).store, entry.id))
    {
      var i := FirstEqual(entry);
      RemoveEqualAt(view.entries, view.store, entry.id, i);
      ghost var ids := view.entries;
      view := view.(entries := RemoveEqual(ids, view.store, entry.id));
      if i < |entries| {
        entries := entries[..i] + entries[i + 1..];
        CutOut(old(entries), ids, objects, i);
      }
      forall id | id in objects ensures Shows(id) {
        assert old(Shows(id));
      }
    }

    method Commit(toRemove: seq<QueueEntry>, saved: bool)
      requires Valid() && Ready(view) && Matches(toRemove, view.phase.remove)
      modifies this`entries, this`view, this`file
      ensures Valid() && view == Committed(old(view), saved)
    {
      ghost var ids := view.phase.remove;
      for i := 0 to |toRemove|
        invariant Valid() && file == old(file)
        invariant Known(view.entries, |view.store|) && view.store == old(view).store
        invariant view == old(view).(entries := RemoveAll(old(view).entries, old(view).store, ids[..i]))
      {
        assert Shows(ids[i]);
        assert ids[..i + 1][..i] == ids[..i];
        Remove(toRemove[i]);
      }
      assert ids[..|toRemove|] == ids;
      view := Cleared(old(view));
      forall id | id in objects ensures Shows(id) {
        assert old(Shows(id));
      }
      Save(saved);
    }

    /** The sending loop. */
    method SendAll(due: seq<QueueEntry>, now: int, targets: set<string>, outcomes: nat -> bool, ghost saved: bool)
      returns (toRemove: seq<QueueEntry>)
      requires Valid() && Inv(view) && view.phase.Sending?
      requires !view.phase.failing && view.phase.tried == 0 && view.phase.remove == []
      requires view.phase.now == now && view.phase.targets == targets && Matches(due, view.phase.due)
      modifies this`view, objects.Values
      ensures Valid() && Inv(view) && Ready(view) && Matches(toRemove, view.phase.remove)
      ensures Worked(view, outcomes, saved) == Worked(old(view), outcomes, saved)
    {
      toRemove := [];
      hide Inv, Valid, Worked, Turned, Trying, Ready;
      for i := 0 to |due|
        invariant Valid() && Inv(view)
        invariant view.phase.Sending? && view.phase == old(view).phase.(tried := i, remove := view.phase.remove)
        invariant Matches(toRemove, view.phase.remove)
        invariant Worked(view, outcomes, saved) == Worked(old(view), outcomes, saved)
      {
        Phases(view);
        TurnKeeps(view, outcomes, saved);
        toRemove := Turn(due[i], now, targets, outcomes(i), toRemove);
      }
      Phases(view);
    }

    /** `process_due` when nothing else runs; otherwise its parts interleave with `Enqueue`. */
    method ProcessDue(now: int, targets: set<string>, outcomes: nat -> bool, saved: bool)
      requires Valid() && view.phase.Idle? && Inv(view)
      modifies this, objects.Values
      ensures Valid() && Inv(view)
      ensures view == Worked(Snapshot(old(view), now, targets), outcomes, saved)
    {
      LookKeeps(view, now, targets);
      var due := Look(now, targets);
      if due == [] { return; }
      hide Inv, Valid, Worked;
      var toRemove := SendAll(due, now, targets, outcomes, saved);
      CommitKeeps(view, saved);
      Commits(view, outcomes, saved);
      Commit(toRemove, saved);
    }
  }

  lemma YoungSnoc(items: seq<Copy>, i: nat, now: int)
    requires i < |items|
    ensures Ids(Young(items[..i + 1], now))
         == Ids(Young(items[..i], now)) + if now - items[i].fields.firstFailed <= MAX_AGE then [items[i].id] else []
  {
    assert items[..i + 1][..i] == items[..i];
  }

  lemma Commits(q: Queue, outcomes: nat -> bool, saved: bool)
    requires Ready(q)
    ensures Worked(q, outcomes, saved) == Committed(q, saved)
  {
  }
}
