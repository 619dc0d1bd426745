/**
 The order in which visits are listed, and so the order in which a sweep closes them: that of the
 detections that opened their keys. A visit that is closed and reopened by one detection keeps
 its place, as a key of a dict does that is assigned again.
 */
module VisitOrder {
  import opened Wrappers
  import opened CompoundKeys
  import opened VisitTracker

  ghost predicate IsRun(states: seq<Tracker>, timeout: int, events: seq<Event>) {
    && |states| == |events| + 1 && states[0] == EMPTY
    && (forall i :: 0 <= i < |states| ==> Wf(states[i]))
    && forall i :: 0 <= i < |events| ==> states[i + 1] == Step(states[i], timeout, events[i])
  }

  /** The key came in with event `m` and has been there ever since. */
  ghost predicate Since(states: seq<Tracker>, key: string, m: nat, n: nat) {
    m < n < |states| && key !in states[m].active && forall i :: m < i <= n ==> key in states[i].active
  }

  ghost predicate Before(keys: seq<string>, k: string, l: string) {
    exists i, j :: 0 <= i < j < |keys| && keys[i] == k && keys[j] == l
  }

  /** A step keeps the order of the keys that stay, and a new one comes last. */
  lemma StepOrder(t: Tracker, timeout: int, e: Event, k: string, l: string)
    requires Wf(t) && Before(Step(t, timeout, e).order, k, l)
    ensures k in t.active && (l in t.active ==> Before(t.order, k, l))
  {
    match e
    case Detect(camera, className, ts) =>
      var key, order := KeyOf(camera, className), Step(t, timeout, e).order;
      if key !in t.active {
        assert order == t.order + [key];
      }
      var i, j :| 0 <= i < j < |order| && order[i] == k && order[j] == l;
      assert t.order[i] == k;
    case Sweep(now) =>
      OnlyBefore(t.order, t.active.Keys - Expired(t, timeout, now), k, l);
  }

  lemma {:induction false} OnlyBefore(keys: seq<string>, chosen: set<string>, k: string, l: string)
    requires Before(Only(keys, chosen), k, l)
    ensures Before(keys, k, l)
  {
    var front, last, rest := keys[..|keys| - 1], keys[|keys| - 1], Only(keys[..|keys| - 1], chosen);
    var i, j :| 0 <= i < j < |Only(keys, chosen)| && Only(keys, chosen)[i] == k && Only(keys, chosen)[j] == l;
    if j < |rest| {
      assert Before(rest, k, l);
      OnlyBefore(front, chosen, k, l);
      var a, b :| 0 <= a < b < |front| && front[a] == k && front[b] == l;
      assert keys[a] == k && keys[b] == l;
    } else {
      OnlyFacts(front, chosen);
      assert rest[i] == k && k in front;
      var a :| 0 <= a < |front| && front[a] == k;
      assert keys[a] == k && keys[|keys| - 1] == l;
    }
  }

  /** In every run, of two keys the one that came in first is listed first. */
  lemma {:induction false} ListedByOpening(states: seq<Tracker>, timeout: int, events: seq<Event>, n: nat,
                                           k: string, l: string, a: nat, b: nat)
    requires IsRun(states, timeout, events) && n < |states| && Before(states[n].order, k, l)
    requires Since(states, k, a, n) && Since(states, l, b, n)
    ensures a < b
    decreases n
  {
    var m := n - 1;
    assert states[n] == Step(states[m], timeout, events[m]);
    StepOrder(states[m], timeout, events[m], k, l);
    hide Step, Wf;
    if l in states[m].active {
      assert b < m && a < m;
      ListedByOpening(states, timeout, events, m, k, l, a, b);
    } else {
      assert b == m && a != m;
    }
  }

  /** A sweep and a shutdown persist the visits that they close in the order of the list. */
  lemma {:induction false} ClosedInOrder(keys: seq<string>, active: map<string, Visit>, i: nat)
    requires i < |keys| && forall k :: k in keys ==> k in active
    ensures |Closing(keys, active)| == |keys| && Closing(keys, active)[i] == Close(active[keys[i]])
  {
    if i == |keys| - 1 {
    } else {
      ClosedInOrder(keys[..|keys| - 1], active, i);
    }
  }
}
