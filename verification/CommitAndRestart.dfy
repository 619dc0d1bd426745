/**
 The retry queue at a commit, which removes by equality, and at a restart, which reads the file:
 what they do to the list, and that they keep the invariant of NotificationQueue.dfy.
 */
module CommitAndRestart {
  import opened NotificationQueue

  // ---------------------------------------------------------------------------------------
  // Removal by equality
  // ---------------------------------------------------------------------------------------

  /** The first entry with equal fields is what goes, if there is one. */
  lemma {:induction false} RemoveEqualFacts(entries: seq<nat>, store: seq<Entry>, id: nat)
    returns (gone: nat)
    requires Known(entries, |store|) && id < |store| && Increasing(entries)
    ensures Increasing(RemoveEqual(entries, store, id)) && |RemoveEqual(entries, store, id)| <= |entries|
    ensures forall y :: y in RemoveEqual(entries, store, id) <==> y in entries && y != gone
    ensures gone == |store| || (gone in entries && gone < |store| && store[gone] == store[id])
    ensures forall y :: y in entries && y < |store| && store[y] == store[id] ==> gone <= y
    decreases |entries|
  {
    if entries == [] {
      gone := |store|;
    } else {
      var x, rest := entries[0], entries[1..];
      assert entries == [x] + rest;
      ConsElim(x, rest);
      ConsHas(x, rest);
      if store[x] == store[id] {
        gone := x;
      } else {
        gone := RemoveEqualFacts(rest, store, id);
        ConsIntro(x, RemoveEqual(rest, store, id));
        ConsHas(x, RemoveEqual(rest, store, id));
      }
    }
  }

  /** How many of the first `j` entries have the given fields. */
  function Before(s: seq<nat>, store: seq<Entry>, e: Entry, j: nat): nat
    requires Known(s, |store|) && j <= |s|
  {
    if j == 0 then 0 else Before(s, store, e, j - 1) + if store[s[j - 1]] == e then 1 else 0
  }

  lemma {:induction false} BeforeGrows(s: seq<nat>, store: seq<Entry>, e: Entry, i: nat, j: nat)
    requires Known(s, |store|) && i < j <= |s|
    ensures Before(s, store, e, i) + (if store[s[i]] == e then 1 else 0) <= Before(s, store, e, j)
    decreases j
  {
    if i == j - 1 {
    } else {
      BeforeGrows(s, store, e, i, j - 1);
    }
  }

  lemma {:induction false} Nth(s: seq<nat>, store: seq<Entry>, e: Entry, c: nat, j: nat) returns (i: nat)
    requires Known(s, |store|) && j <= |s| && Before(s, store, e, j) > c
    ensures i < j && store[s[i]] == e && Before(s, store, e, i) == c
    decreases j
  {
    if store[s[j - 1]] == e && Before(s, store, e, j - 1) == c {
      i := j - 1;
    } else {
      i := Nth(s, store, e, c, j - 1);
    }
  }

  lemma {:induction false} BeforeSame(s: seq<nat>, t: seq<nat>, store: seq<Entry>, e: Entry, j: nat)
    requires Known(s, |store|) && Known(t, |store|) && j <= |s| && j <= |t| && s[..j] == t[..j]
    ensures Before(s, store, e, j) == Before(t, store, e, j)
  {
    if j == 0 {
    } else {
      assert s[j - 1] == s[..j][j - 1] == t[j - 1];
      assert s[..j - 1] == s[..j][..j - 1] && t[..j - 1] == t[..j][..j - 1];
      BeforeSame(s, t, store, e, j - 1);
    }
  }

  /** Entry number `j` of the list outlives the removal of `ids`: at least as many equal
      entries come before it as equal ones are removed. */
  ghost predicate Outlives(entries: seq<nat>, store: seq<Entry>, ids: seq<nat>, j: nat)
    requires Known(entries, |store|) && Known(ids, |store|) && j < |entries|
  {
    var e := store[entries[j]];
    Before(entries, store, e, j) >= Before(ids, store, e, |ids|)
  }

  ghost predicate RemovesTo(entries: seq<nat>, store: seq<Entry>, ids: seq<nat>, r: seq<nat>)
    requires Known(entries, |store|) && Known(ids, |store|)
  {
    && Increasing(r) && |r| <= |entries|
    && (forall y :: y in r ==> y in entries)
    && (forall j :: 0 <= j < |entries| ==> (entries[j] in r <==> Outlives(entries, store, ids, j)))
  }

  /** Removing one entry after the other, each by equality, keeps exactly those entries that
      have enough equals before them. */
  lemma {:induction false} RemoveAllIff(entries: seq<nat>, store: seq<Entry>, ids: seq<nat>)
    requires Known(entries, |store|) && Known(ids, |store|) && Increasing(entries)
    ensures RemovesTo(entries, store, ids, RemoveAll(entries, store, ids))
    decreases |ids|
  {
    if ids == [] {
    } else {
      var front, x := ids[..|ids| - 1], ids[|ids| - 1];
      var r := RemoveAll(entries, store, front);
      RemoveAllIff(entries, store, front);
      var gone := RemoveEqualFacts(r, store, x);
      forall j | 0 <= j < |entries|
        ensures entries[j] in RemoveEqual(r, store, x) <==> Outlives(entries, store, ids, j)
      {
        OneMoreRemoved(entries, store, front, x, r, gone, j);
        BeforeSame(front, ids, store, store[entries[j]], |front|);
      }
    }
  }

  lemma OneMoreRemoved(entries: seq<nat>, store: seq<Entry>, front: seq<nat>, x: nat, r: seq<nat>, gone: nat, j: nat)
    requires Known(entries, |store|) && Known(front, |store|) && Increasing(entries) && x < |store| && j < |entries|
    requires RemovesTo(entries, store, front, r)
    requires gone == |store| || (gone in r && gone < |store| && store[gone] == store[x])
    requires forall y :: y in r && y < |store| && store[y] == store[x] ==> gone <= y
    ensures var e, n := store[entries[j]], if store[x] == store[entries[j]] then 1 else 0;
            entries[j] in r && entries[j] != gone
            <==> Before(entries, store, e, j) >= Before(front, store, e, |front|) + n
  {
    var e := store[entries[j]];
    var c := Before(front, store, e, |front|);
    if entries[j] in r && store[x] == e {
      var g := IndexOf(entries, r, gone);
      assert Outlives(entries, store, front, g) && Outlives(entries, store, front, j);
      forall i | 0 <= i < |entries| && store[entries[i]] == e && Before(entries, store, e, i) >= c ensures g <= i {
        assert Outlives(entries, store, front, i);
        assert entries[i] in r && gone <= entries[i];
      }
      hide RemovesTo, Outlives;
      FirstGoes(entries, store, e, c, g, j);
    } else if entries[j] in r {
      assert gone != entries[j];
    }
  }

  lemma IndexOf(entries: seq<nat>, r: seq<nat>, x: nat) returns (g: nat)
    requires x in r && forall y :: y in r ==> y in entries
    ensures g < |entries| && entries[g] == x
  {
    assert x in entries;
    g :| 0 <= g < |entries| && entries[g] == x;
  }

  /** The first entry with at least `c` equals before it is the one with exactly `c`. */
  lemma FirstGoes(s: seq<nat>, store: seq<Entry>, e: Entry, c: nat, g: nat, j: nat)
    requires Known(s, |store|) && g <= j < |s| && store[s[g]] == e && store[s[j]] == e
    requires Before(s, store, e, g) >= c
    requires forall i :: 0 <= i < |s| && store[s[i]] == e && Before(s, store, e, i) >= c ==> g <= i
    ensures g == j <==> Before(s, store, e, j) == c
  {
    if g < j {
      BeforeGrows(s, store, e, g, j);
    } else if Before(s, store, e, j) > c {
      var i := Nth(s, store, e, c, j);
      assert false;
    }
  }

  // ---------------------------------------------------------------------------------------
  // Commit
  // ---------------------------------------------------------------------------------------

  ghost function EqualTo(s: set<nat>, store: seq<Entry>, e: Entry): set<nat> {
    set y | y in s && y < |store| && store[y] == e
  }

  lemma {:induction false} BeforeIsSize(s: seq<nat>, store: seq<Entry>, e: Entry, j: nat)
    requires Known(s, |store|) && Increasing(s) && j <= |s|
    ensures Before(s, store, e, j) == |EqualTo(Elements(s[..j]), store, e)|
  {
    if j == 0 {
      assert EqualTo(Elements(s[..j]), store, e) == {};
    } else {
      BeforeIsSize(s, store, e, j - 1);
      EqualToSnoc(s[..j - 1], s[j - 1], store, e);
      assert s[..j] == s[..j - 1] + [s[j - 1]];
    }
  }

  lemma EqualToSnoc(s: seq<nat>, x: nat, store: seq<Entry>, e: Entry)
    requires x !in s && x < |store|
    ensures |EqualTo(Elements(s + [x]), store, e)|
         == |EqualTo(Elements(s), store, e)| + if store[x] == e then 1 else 0
  {
    var front := EqualTo(Elements(s), store, e);
    assert EqualTo(Elements(s + [x]), store, e) == if store[x] == e then front + {x} else front;
  }

  /** Equal entries in front of this one that are not to be removed. */
  ghost function Ahead(q: Queue, id: nat): set<nat>
    requires q.phase.Sending? && id < |q.store|
  {
    set y | y in q.entries && y < id && y !in q.phase.remove && y < |q.store| && q.store[y] == q.store[id]
  }

  /** Equal entries that are to be removed but were pushed out of the queue meanwhile. */
  ghost function PushedOut(q: Queue, id: nat): set<nat>
    requires q.phase.Sending? && id < |q.store|
  {
    set x | x in q.phase.remove && x !in q.entries && x < |q.store| && q.store[x] == q.store[id]
  }

  /** At the commit, an entry with the fields of one that is to be removed is to be removed
      itself, or came during the pass. */
  lemma Twins(q: Queue, y: nat, x: nat)
    requires Inv(q) && Ready(q) && y in q.entries && x in q.phase.remove
    requires y < |q.store| && x < |q.store| && q.store[y] == q.store[x]
    ensures y in q.phase.remove || y >= q.phase.seen > x
  {
    assert Removal(q, x) && x in q.phase.due[..q.phase.tried];
    if y in q.phase.due {
      var k :| 0 <= k < |q.phase.due| && q.phase.due[k] == y;
      assert Pending(q, k);
    }
  }

  lemma Halves(a: set<nat>, b: set<nat>, common: set<nat>)
    requires a * b == common
    ensures |a| < |b| <==> |a - common| < |b - common|
  {
    assert a == (a - common) + common && b == (b - common) + common;
    assert |a| == |a - common| + |common| && |b| == |b - common| + |common|;
  }

  /** Equal entries that come first in the list. */
  ghost function Earlier(q: Queue, id: nat): set<nat>
    requires id < |q.store|
  {
    set y | y in q.entries && y < id && y < |q.store| && q.store[y] == q.store[id]
  }

  /** Equal entries on the removal list. */
  ghost function Removed(q: Queue, id: nat): set<nat>
    requires q.phase.Sending? && id < |q.store|
  {
    set x | x in q.phase.remove && x < |q.store| && q.store[x] == q.store[id]
  }

  lemma ElementsBefore(s: seq<nat>, j: nat, y: nat)
    requires Increasing(s) && j < |s|
    ensures y in s[..j] <==> y in s && y < s[j]
  {
    if y in s && y < s[j] {
      var i :| 0 <= i < |s| && s[i] == y;
      assert s[..j][i] == y;
    }
  }

  lemma EarlierIsBefore(q: Queue, j: nat)
    requires Listed(q) && j < |q.entries|
    ensures Before(q.entries, q.store, q.store[q.entries[j]], j) == |Earlier(q, q.entries[j])|
  {
    var id := q.entries[j];
    BeforeIsSize(q.entries, q.store, q.store[id], j);
    forall y ensures y in q.entries[..j] <==> y in q.entries && y < id {
      ElementsBefore(q.entries, j, y);
    }
    assert EqualTo(Elements(q.entries[..j]), q.store, q.store[id]) == Earlier(q, id);
  }

  lemma RemovedIsBefore(q: Queue, id: nat)
    requires q.phase.Sending? && Known(q.phase.remove, |q.store|) && Increasing(q.phase.remove) && id < |q.store|
    ensures Before(q.phase.remove, q.store, q.store[id], |q.phase.remove|) == |Removed(q, id)|
  {
    BeforeIsSize(q.phase.remove, q.store, q.store[id], |q.phase.remove|);
    assert q.phase.remove[..|q.phase.remove|] == q.phase.remove;
    assert EqualTo(Elements(q.phase.remove), q.store, q.store[id]) == Removed(q, id);
  }

  lemma ClearedCounts(q: Queue, id: nat)
    requires Listed(q) && Ready(q) && Increasing(q.phase.remove) && id in q.entries
    ensures id < |q.store| && (id !in Cleared(q).entries <==> |Earlier(q, id)| < |Removed(q, id)|)
  {
    var j :| 0 <= j < |q.entries| && q.entries[j] == id;
    RemoveAllIff(q.entries, q.store, q.phase.remove);
    assert Outlives(q.entries, q.store, q.phase.remove, j) <==> id in Cleared(q).entries;
    EarlierIsBefore(q, j);
    RemovedIsBefore(q, id);
  }

  lemma DoomedGo(q: Queue, id: nat)
    requires Inv(q) && Ready(q) && id in q.entries && id in q.phase.remove && id < |q.store|
    ensures |Earlier(q, id)| < |Removed(q, id)|
  {
    forall y | y in Earlier(q, id) ensures y in Removed(q, id) {
      Twins(q, y, id);
    }
    hide *;
    Subset(Earlier(q, id), Removed(q, id), id);
  }

  lemma UndecidedGo(q: Queue, id: nat)
    requires Inv(q) && Ready(q) && id in q.entries && id !in q.phase.remove && id < |q.store|
    ensures |Earlier(q, id)| < |Removed(q, id)| <==> |Ahead(q, id)| < |PushedOut(q, id)|
  {
    var common := set x | x in Removed(q, id) && x in q.entries;
    forall x | x in common ensures x in Earlier(q, id) {
      Twins(q, id, x);
    }
    assert Earlier(q, id) * Removed(q, id) == common;
    assert Earlier(q, id) - common == Ahead(q, id) && Removed(q, id) - common == PushedOut(q, id);
    Halves(Earlier(q, id), Removed(q, id), common);
  }

  /**
   Which entries a commit takes out: every one on the removal list; and one that is not on it
   exactly if fewer equal ones like it come first than equal ones on the removal list have been
   pushed out during the pass.
   */
  lemma ClearedIff(q: Queue, id: nat)
    requires Inv(q) && Ready(q) && id in q.entries
    ensures id < |q.store|
    ensures id !in Cleared(q).entries <==> id in q.phase.remove || |Ahead(q, id)| < |PushedOut(q, id)|
  {
    ClearedCounts(q, id);
    if id in q.phase.remove {
      DoomedGo(q, id);
    } else {
      UndecidedGo(q, id);
    }
  }

  lemma Subset(a: set<nat>, b: set<nat>, x: nat)
    requires a <= b && x in b && x !in a
    ensures |a| < |b|
  {
    assert b == a + {x} + (b - a - {x});
    assert |b| == |a + {x}| + |b - a - {x}|;
  }

  lemma ClearedList(q: Queue)
    requires Inv(q) && Ready(q)
    ensures Listed(Cleared(q))
    ensures forall id :: id in Cleared(q).entries ==> id in q.entries && id !in q.phase.remove
  {
    RemoveAllIff(q.entries, q.store, q.phase.remove);
    forall id | id in Cleared(q).entries ensures id in q.entries && id !in q.phase.remove {
      ClearedIff(q, id);
    }
  }

  lemma ClearedKeeps(q: Queue)
    requires Inv(q) && Ready(q)
    ensures Inv(Cleared(q))
  {
    var r := Cleared(q);
    ClearedList(q);
    forall id | id in q.phase.remove ensures Decided(q, id) {
      assert Removal(q, id);
    }
    forall id: nat ensures Tallied(r, id) {
      assert Tallied(q, id);
      assert id in r.lost && id !in q.lost ==> id in q.entries;
    }
    forall id | 0 <= id < |q.store| ensures EntryPaced(r, id) {
      assert EntryPaced(q, id) && Retries(r, id) == Retries(q, id);
    }
    forall i | 0 <= i < |r.disk| ensures CopyPaced(r, r.disk[i]) {
      assert CopyPaced(q, q.disk[i]);
    }
    forall id | id in r.entries ensures id !in r.lost {
    }
  }

  lemma CommitKeeps(q: Queue, saved: bool)
    requires Inv(q) && Ready(q)
    ensures Inv(Committed(q, saved))
  {
    ClearedKeeps(q);
    SavedKeeps(Cleared(q), saved);
  }

  // ---------------------------------------------------------------------------------------
  // Restart
  // ---------------------------------------------------------------------------------------

  lemma {:induction false} YoungFacts(items: seq<Copy>, now: int)
    requires Increasing(Ids(items))
    ensures Increasing(Ids(Young(items, now)))
    ensures forall c :: c in Young(items, now) <==> c in items && now - c.fields.firstFailed <= MAX_AGE
  {
    if items == [] {
    } else {
      var front, last := items[..|items| - 1], items[|items| - 1];
      FrontIds(items);
      YoungFacts(front, now);
      assert items == front + [last];
      YoungBelow(front, now, last.id);
      if now - last.fields.firstFailed <= MAX_AGE {
        assert Ids(Young(items, now)) == Ids(Young(front, now)) + [last.id];
        Snoc(Ids(Young(front, now)), last.id, last.id + 1);
      }
    }
  }

  lemma FrontIds(items: seq<Copy>)
    requires items != [] && Increasing(Ids(items))
    ensures Ids(items) == Ids(items[..|items| - 1]) + [items[|items| - 1].id]
    ensures Increasing(Ids(items[..|items| - 1]))
    ensures forall i :: 0 <= i < |items| - 1 ==> Ids(items[..|items| - 1])[i] == items[i].id < items[|items| - 1].id
  {
    var front := items[..|items| - 1];
    forall i | 0 <= i < |front| ensures Ids(front)[i] == Ids(items)[i] {
    }
  }

  lemma YoungBelow(items: seq<Copy>, now: int, n: nat)
    requires forall c :: c in Young(items, now) ==> c in items
    requires forall i :: 0 <= i < |items| ==> Ids(items)[i] < n
    ensures forall y :: y in Ids(Young(items, now)) ==> y < n
  {
    forall y | y in Ids(Young(items, now)) ensures y < n {
      var i :| 0 <= i < |Young(items, now)| && Ids(Young(items, now))[i] == y;
      assert Young(items, now)[i] in items;
      var j :| 0 <= j < |items| && items[j] == Young(items, now)[i];
      assert Ids(items)[j] == y;
    }
  }

  lemma {:induction false} RestoredAt(store: seq<Entry>, items: seq<Copy>)
    requires Known(Ids(items), |store|) && Increasing(Ids(items))
    ensures forall i :: 0 <= i < |items| ==> Restored(store, items)[items[i].id] == items[i].fields
    ensures forall id :: 0 <= id < |store| && id !in Ids(items) ==> Restored(store, items)[id] == store[id]
  {
    if items == [] {
    } else {
      var front, last := items[..|items| - 1], items[|items| - 1];
      FrontIds(items);
      RestoredAt(store, front);
    }
  }

  /** What a restart finds: entries of the file, in order. */
  lemma FoundFacts(q: Queue, now: int, readable: bool)
    requires Inv(q)
    ensures var f := Found(q, now, readable);
      && Increasing(Ids(f)) && Known(Ids(f), |q.store|) && |f| <= MAX_SIZE
      && (forall c :: c in f <==> readable && c in q.disk && now - c.fields.firstFailed <= MAX_AGE)
      && (forall c :: c in f ==> c.id < |q.store| && CopyPaced(q, c) && Alike(c.fields, q.store[c.id]))
  {
    var f := Found(q, now, readable);
    YoungFacts(q.disk, now);
    forall c | c in q.disk ensures c.id < |q.store| && CopyPaced(q, c) && Alike(c.fields, q.store[c.id]) {
      var i :| 0 <= i < |q.disk| && q.disk[i] == c;
      assert Ids(q.disk)[i] < |q.store|;
    }
    forall i | 0 <= i < |f| ensures Ids(f)[i] < |q.store| {
      assert f[i] in f;
    }
  }

  /** After a restart an entry has the fields that were found, or its old ones. */
  lemma RestoredFields(q: Queue, now: int, readable: bool)
    requires Inv(q) && Allowed(q, Restart(now, readable))
    ensures var f, r := Found(q, now, readable), Restarted(q, now, readable);
      && (forall i :: 0 <= i < |f| ==>
            r.entries[i] == f[i].id && f[i].id < |q.store| && r.store[f[i].id] == f[i].fields)
      && (forall id :: 0 <= id < |q.store| && id !in r.entries ==> r.store[id] == q.store[id])
      && (forall id :: 0 <= id < |q.store| ==> Alike(r.store[id], q.store[id]))
      && (forall id :: id in r.entries ==> exists i :: 0 <= i < |f| && f[i].id == id)
  {
    var f, r := Found(q, now, readable), Restarted(q, now, readable);
    FoundFacts(q, now, readable);
    RestoredAt(q.store, f);
    forall i | 0 <= i < |f| ensures f[i].id < |q.store| {
      assert f[i] in f;
    }
    forall id | 0 <= id < |q.store| ensures Alike(r.store[id], q.store[id]) {
      if id in Ids(f) {
        var i :| 0 <= i < |f| && Ids(f)[i] == id;
        assert f[i] in f;
      }
    }
  }

  /** An entry found in the file has the fields found there, and no send of it is undecided. */
  lemma RestartedEntry(q: Queue, now: int, readable: bool, id: nat)
    requires Inv(q) && Allowed(q, Restart(now, readable)) && id < |q.store|
    ensures var r := Restarted(q, now, readable);
      if id in r.entries then
        exists c :: CopyPaced(q, c) && c.id == id && c.fields == r.store[id] && !Decided(r, id)
      else r.store[id] == q.store[id] && Decided(r, id) == Decided(q, id)
  {
    var f, r := Found(q, now, readable), Restarted(q, now, readable);
    FoundFacts(q, now, readable);
    RestoredFields(q, now, readable);
    if id in r.entries {
      var i :| 0 <= i < |f| && f[i].id == id;
      assert f[i] in f && CopyPaced(q, f[i]);
    }
  }

  lemma RestartedPaced(q: Queue, now: int, readable: bool, id: nat)
    requires Inv(q) && Allowed(q, Restart(now, readable)) && id < |q.store|
    ensures EntryPaced(Restarted(q, now, readable), id)
  {
    var r := Restarted(q, now, readable);
    RestartedEntry(q, now, readable, id);
    assert EntryPaced(q, id);
    if id !in r.entries {
      PacedLess(q.store[id], Retries(r, id), Retries(q, id));
    }
    hide Inv, Paced, Found;
  }

  lemma RestartedTallied(q: Queue, now: int, readable: bool, id: nat)
    requires Inv(q) && Allowed(q, Restart(now, readable))
    ensures Tallied(Restarted(q, now, readable), id)
  {
    var f, r := Found(q, now, readable), Restarted(q, now, readable);
    FoundFacts(q, now, readable);
    RestoredFields(q, now, readable);
    assert Tallied(q, id);
    if id in r.entries {
      var i :| 0 <= i < |f| && f[i].id == id;
      assert f[i] in f && CopyPaced(q, f[i]);
    }
  }

  lemma RestartedDisk(q: Queue, now: int, readable: bool)
    requires Inv(q) && Allowed(q, Restart(now, readable))
    ensures var r := Restarted(q, now, readable); DiskListed(r) && DiskPaced(r)
  {
    var r := Restarted(q, now, readable);
    RestoredFields(q, now, readable);
    forall i | 0 <= i < |r.disk| ensures CopyPaced(r, r.disk[i]) && Alike(r.disk[i].fields, r.store[r.disk[i].id]) {
      assert CopyPaced(q, q.disk[i]) && Ids(q.disk)[i] < |q.store|;
    }
  }

  lemma RestartKeeps(q: Queue, now: int, readable: bool)
    requires Inv(q) && Allowed(q, Restart(now, readable))
    ensures Inv(Restarted(q, now, readable))
  {
    var r := Restarted(q, now, readable);
    FoundFacts(q, now, readable);
    RestartedDisk(q, now, readable);
    forall id | 0 <= id < |r.store| ensures EntryPaced(r, id) {
      RestartedPaced(q, now, readable, id);
    }
    forall id: nat ensures Tallied(r, id) {
      RestartedTallied(q, now, readable, id);
    }
    assert forall id :: id in r.entries <==> id in Elements(Ids(Found(q, now, readable)));
  }

  /** The young entries of the file are those that the store has after the restart. */
  ghost predicate Loadable(disk: seq<Copy>, store: seq<Entry>, now: int) {
    && (forall i :: 0 <= i < |disk| && now - disk[i].fields.firstFailed <= MAX_AGE ==>
         disk[i].id < |store| && store[disk[i].id] == disk[i].fields)
    && Increasing(Ids(disk))
  }

  lemma LoadableAt(disk: seq<Copy>, store: seq<Entry>, now: int, i: nat)
    requires Loadable(disk, store, now) && i < |disk|
    ensures now - disk[i].fields.firstFailed <= MAX_AGE ==> disk[i].id < |store| && store[disk[i].id] == disk[i].fields
    ensures i > 0 ==> disk[i - 1].id < disk[i].id
  {
    assert i > 0 ==> Ids(disk)[i - 1] < Ids(disk)[i];
  }

  lemma FoundStored(q: Queue, now: int)
    requires Inv(q) && Allowed(q, Restart(now, true))
    ensures var r := Restarted(q, now, true); r.entries == Ids(Young(q.disk, now)) && Loadable(q.disk, r.store, now)
  {
    var f, r := Found(q, now, true), Restarted(q, now, true);
    FoundFacts(q, now, true);
    RestoredFields(q, now, true);
    hide Inv, Restarted, Allowed;
    forall j | 0 <= j < |q.disk| && now - q.disk[j].fields.firstFailed <= MAX_AGE
      ensures q.disk[j].id < |r.store| && r.store[q.disk[j].id] == q.disk[j].fields
    {
      assert q.disk[j] in f;
      var i :| 0 <= i < |f| && f[i] == q.disk[j];
    }
  }
}
