/**
 Grouping detections into visit sessions (services/detector/src/visit_tracker.py).

 `VisitTracker` is the object; its methods are proved against the functions `Recorded`,
 `Swept` and `Drained` on the value `Tracker`. The theorems compare every interleaving of
 detections and sweeps with a one-shot split of each key's timestamps at long gaps.
 Times are integers in any fixed unit.
 */
module VisitTracker {

  import opened Wrappers
  import opened CompoundKeys

  datatype Visit = Visit(camera: string, className: string, start: int, last: int, count: nat)

  datatype Record = Record(camera: string, className: string, start: int, end: int, duration: int, count: nat)

  /** `order` is the insertion order of the dict `active`; `log` lists the persisted records. */
  datatype Tracker = Tracker(order: seq<string>, active: map<string, Visit>, log: seq<Record>)

  function Close(v: Visit): Record {
    Record(v.camera, v.className, v.start, v.last, v.last - v.start, v.count)
  }

  // ---- Specification of the three operations -------------------------------------------

  function Opened(t: Tracker, key: string, camera: string, className: string, ts: int): Tracker {
    t.(order := if key in t.active then t.order else t.order + [key],
       active := t.active[key := Visit(camera, className, ts, ts, 1)])
  }

  function Extended(t: Tracker, key: string, ts: int): Tracker
    requires key in t.active
  {
    var v := t.active[key];
    t.(active := t.active[key := v.(last := ts, count := v.count + 1)])
  }

  function Recorded(t: Tracker, timeout: int, camera: string, className: string, ts: int): Tracker {
    var key := KeyOf(camera, className);
    if key !in t.active then Opened(t, key, camera, className, ts)
    else if ts - t.active[key].last >= timeout then
      Opened(t.(log := t.log + [Close(t.active[key])]), key, camera, className, ts)
    else Extended(t, key, ts)
  }

  /** The keys of `keys` that are in `chosen`, in the same order. */
  function Only(keys: seq<string>, chosen: set<string>): seq<string> {
    if keys == [] then []
    else Only(keys[..|keys| - 1], chosen) + if keys[|keys| - 1] in chosen then [keys[|keys| - 1]] else []
  }

  function Closing(keys: seq<string>, active: map<string, Visit>): (r: seq<Record>)
    requires forall k :: k in keys ==> k in active
    ensures |r| == |keys|
  {
    if keys == [] then [] else Closing(keys[..|keys| - 1], active) + [Close(active[keys[|keys| - 1]])]
  }

  function Expired(t: Tracker, timeout: int, now: int): set<string> {
    set k | k in t.active && now - t.active[k].last >= timeout
  }

  function Swept(t: Tracker, timeout: int, now: int): Tracker
    requires Wf(t)
  {
    var gone := Expired(t, timeout, now);
    OnlyFacts(t.order, gone);
    Tracker(Only(t.order, t.active.Keys - gone), t.active - gone, t.log + Closing(Only(t.order, gone), t.active))
  }

  function Drained(t: Tracker): Tracker
    requires Wf(t)
  {
    Tracker([], map[], t.log + Closing(t.order, t.active))
  }

  predicate Distinct(keys: seq<string>) {
    forall i, j :: 0 <= i < j < |keys| ==> keys[i] != keys[j]
  }

  /** One place in the dict's order for every key. */
  ghost predicate Wf(t: Tracker) {
    && Distinct(t.order)
    && (forall k :: k in t.order <==> k in t.active)
  }

  lemma {:induction false} OnlyFacts(keys: seq<string>, chosen: set<string>)
    ensures forall k :: k in Only(keys, chosen) <==> k in keys && k in chosen
    ensures Distinct(keys) ==> Distinct(Only(keys, chosen))
  {
    if keys == [] {
    } else {
      var front, last := keys[..|keys| - 1], keys[|keys| - 1];
      OnlyFacts(front, chosen);
      assert keys == front + [last];
      assert last in keys[|keys| - 1..];
      if Distinct(keys) {
        assert last !in front;
      }
    }
  }

  lemma {:induction false} OnlyNone(keys: seq<string>)
    ensures Only(keys, {}) == []
  {
    if keys == [] {
    } else {
      OnlyNone(keys[..|keys| - 1]);
    }
  }

  lemma OpenedKeepsWf(t: Tracker, key: string, camera: string, className: string, ts: int)
    requires Wf(t)
    ensures Wf(Opened(t, key, camera, className, ts))
  {
  }

  function Popped(t: Tracker, key: string): Tracker {
    Tracker(Only(t.order, t.active.Keys - {key}), t.active - {key}, t.log)
  }

  function PoppedAll(t: Tracker, gone: set<string>): Tracker {
    Tracker(Only(t.order, t.active.Keys - gone), t.active - gone, t.log)
  }

  lemma PoppedNone(t: Tracker)
    requires forall k :: k in t.order ==> k in t.active
    ensures PoppedAll(t, {}) == t
  {
    assert t.active.Keys - {} == t.active.Keys;
    assert t.active - {} == t.active;
    OnlyAll(t.order, t.active.Keys);
  }

  lemma PoppedOneMore(t: Tracker, gone: set<string>, key: string)
    ensures Popped(PoppedAll(t, gone), key) == PoppedAll(t, gone + {key})
  {
    var left := t.active.Keys - gone;
    OnlyTwice(t.order, left, left - {key});
    assert (t.active - gone).Keys == left;
    assert left * (left - {key}) == t.active.Keys - (gone + {key});
  }

  lemma OneMore(keys: seq<string>, i: nat)
    requires Distinct(keys) && i < |keys|
    ensures keys[..i + 1][..i] == keys[..i]
    ensures Elements(keys[..i + 1]) == Elements(keys[..i]) + {keys[i]}
    ensures keys[i] !in Elements(keys[..i])
  {
  }

  lemma ClosingOneMore(keys: seq<string>, i: nat, active: map<string, Visit>)
    requires i < |keys| && forall k :: k in keys ==> k in active
    ensures Closing(keys[..i + 1], active) == Closing(keys[..i], active) + [Close(active[keys[i]])]
  {
    assert keys[..i + 1][..i] == keys[..i];
  }

  lemma PoppedEverything(t: Tracker)
    requires Wf(t)
    ensures PoppedAll(t, Elements(t.order)) == Tracker([], map[], t.log)
  {
    assert t.active.Keys == Elements(t.order);
    OnlyNone(t.order);
    assert t.active.Keys - t.active.Keys == {};
  }

  lemma PoppedKeepsWf(t: Tracker, key: string)
    requires Wf(t)
    ensures Wf(Popped(t, key))
  {
    OnlyFacts(t.order, t.active.Keys - {key});
  }

  lemma {:induction false} OnlyTwice(keys: seq<string>, a: set<string>, b: set<string>)
    ensures Only(Only(keys, a), b) == Only(keys, a * b)
  {
    if keys == [] {
    } else {
      var front, last := keys[..|keys| - 1], keys[|keys| - 1];
      OnlyTwice(front, a, b);
      var kept := Only(keys, a);
      if last in a {
        assert kept == Only(front, a) + [last];
        assert kept[..|kept| - 1] == Only(front, a) && kept[|kept| - 1] == last;
        assert Only(kept, b) == Only(Only(front, a), b) + if last in b then [last] else [];
      } else {
        assert kept == Only(front, a);
      }
    }
  }

  lemma {:induction false} OnlyAll(keys: seq<string>, a: set<string>)
    requires forall k :: k in keys ==> k in a
    ensures Only(keys, a) == keys
  {
    if keys == [] {
    } else {
      OnlyAll(keys[..|keys| - 1], a);
      assert keys == keys[..|keys| - 1] + [keys[|keys| - 1]];
    }
  }

  // ---- The object ----------------------------------------------------------------------

  class ActiveVisit {
    ghost const key: string
    var camera: string
    var className: string
    var start: int
    var last: int
    var count: nat

    constructor (ghost key: string, camera: string, className: string, ts: int)
      ensures this.key == key && Value() == Visit(camera, className, ts, ts, 1)
    {
      this.key := key;
      this.camera, this.className, start, last, count := camera, className, ts, ts, 1;
    }

    function Value(): Visit
      reads this
    {
      Visit(camera, className, start, last, count)
    }
  }

  class VisitTracker {
    const timeout: int
    var active: map<string, ActiveVisit>
    var order: seq<string>              // the insertion order of `active`
    ghost var log: seq<Record>          // the table visit_sessions
    ghost var view: Tracker
    ghost var visits: set<ActiveVisit>  // every visit ever created

    ghost predicate Valid()
      reads this, visits
    {
      && Wf(view)
      && view.order == order && view.log == log
      && (forall k :: k in active <==> k in view.active)
      && (forall k :: k in active ==> Shows(k))
    }

    ghost predicate Shows(k: string)
      requires k in active && k in view.active
      reads this, visits
    {
      active[k] in visits && active[k].key == k && active[k].Value() == view.active[k]
    }

    constructor (timeout: int)
      ensures Valid() && this.timeout == timeout && visits == {}
      ensures view == Tracker([], map[], [])
    {
      this.timeout := timeout;
      active, order, log, visits := map[], [], [], {};
      view := Tracker([], map[], []);
    }

    /** The insert into SQLite, made after the mutex has been released. */
    method Persist(record: Record)
      requires Valid()
      modifies this`log, this`view
      ensures Valid()
      ensures view == old(view).(log := old(view).log + [record])
    {
      log := log + [record];
      view := view.(log := view.log + [record]);
      forall k | k in active ensures Shows(k) { assert old(Shows(k)); }
    }

    /** self._active[key] = _ActiveVisit(...) */
    method Open(key: string, camera: string, className: string, ts: int)
      requires Valid()
      modifies this`active, this`order, this`visits, this`view
      ensures Valid() && fresh(visits - old(visits))
      ensures view == Opened(old(view), key, camera, className, ts)
    {
      OpenedKeepsWf(view, key, camera, className, ts);
      var visit := new ActiveVisit(key, camera, className, ts);
      if key !in active {
        order := order + [key];
      }
      visits := visits + {visit};
      active := active[key := visit];
      view := Opened(view, key, camera, className, ts);
      forall k | k in active ensures Shows(k) {
        if k != key { assert old(Shows(k)); }
      }
    }

    /** visit.last_detection_time = timestamp; visit.detection_count += 1 */
    method Extend(key: string, ts: int)
      requires Valid() && key in active
      modifies active[key], this`view
      ensures Valid()
      ensures view == Extended(old(view), key, ts)
    {
      assert Shows(key);
      var visit := active[key];
      visit.last := ts;
      visit.count := visit.count + 1;
      view := Extended(view, key, ts);
      forall k | k in active ensures Shows(k) {
        assert old(Shows(k));
      }
    }

    method RecordDetection(camera: string, className: string, ts: int)
      requires Valid()
      modifies this, visits
      ensures Valid() && fresh(visits - old(visits))
      ensures view == Recorded(old(view), timeout, camera, className, ts)
    {
      hide KeyOf;
      var key := KeyOf(camera, className);
      var closed: Option<Record> := None;
      if key in active {
        assert Shows(key);
        var visit := active[key];
        if ts - visit.last >= timeout {
          closed := Some(Close(visit.Value()));
          Open(key, camera, className, ts);
        } else {
          Extend(key, ts);
        }
      } else {
        Open(key, camera, className, ts);
      }
      if closed.Some? {
        Persist(closed.value);
      }
    }

    /** Pop one visit and turn it into a record. */
    method Pop(key: string) returns (record: Record)
      requires Valid() && key in view.active
      modifies this`active, this`order, this`view
      ensures Valid()
      ensures record == Close(old(view).active[key])
      ensures view == Popped(old(view), key)
    {
      PoppedKeepsWf(view, key);
      assert Shows(key);
      record := Close(active[key].Value());
      order := Only(order, active.Keys - {key});
      assert active.Keys == view.active.Keys;
      active := active - {key};
      view := Popped(view, key);
      forall k | k in active ensures Shows(k) { assert old(Shows(k)); }
    }

    /** Pop the visits of `keys` and collect their records. */
    method PopAll(keys: seq<string>) returns (closed: seq<Record>)
      requires Valid() && Distinct(keys) && forall k :: k in keys ==> k in view.active
      modifies this`active, this`order, this`view
      ensures Valid()
      ensures view == PoppedAll(old(view), Elements(keys))
      ensures closed == Closing(keys, old(view).active)
    {
      ghost var before, gone := view, {};
      closed := [];
      PoppedNone(before);
      for i := 0 to |keys|
        invariant Valid()
        invariant gone == Elements(keys[..i])
        invariant view == PoppedAll(before, gone)
        invariant closed == Closing(keys[..i], before.active)
      {
        OneMore(keys, i);
        ClosingOneMore(keys, i, before.active);
        PoppedOneMore(before, gone, keys[i]);
        var record := Pop(keys[i]);
        gone := gone + {keys[i]};
        closed := closed + [record];
      }
      assert keys[..|keys|] == keys;
    }

    /** The scan for keys whose gap has reached the timeout. */
    method FindExpired(now: int) returns (expired: seq<string>)
      requires Valid()
      ensures expired == Only(view.order, Expired(view, timeout, now))
    {
      ghost var gone := Expired(view, timeout, now);
      expired := [];
      for i := 0 to |order|
        invariant expired == Only(order[..i], gone)
      {
        assert order[i] in view.order && Shows(order[i]);
        assert order[..i + 1][..i] == order[..i];
        if now - active[order[i]].last >= timeout {
          expired := expired + [order[i]];
        }
      }
      assert order[..|order|] == order;
    }

    method FlushExpired(now: int) returns (closed: seq<Record>)
      requires Valid()
      modifies this`active, this`order, this`log, this`view
      ensures Valid()
      ensures view == Swept(old(view), timeout, now)
      ensures view.log == old(view).log + closed
    {
      ghost var gone := Expired(view, timeout, now);
      var expired := FindExpired(now);
      OnlyFacts(order, gone);
      assert Elements(expired) == gone;
      closed := PopAll(expired);
      PersistAll(closed);
    }

    method FlushAll() returns (closed: seq<Record>)
      requires Valid()
      modifies this`active, this`order, this`log, this`view
      ensures Valid()
      ensures view == Drained(old(view))
      ensures view.log == old(view).log + closed
    {
      PoppedEverything(view);
      closed := PopAll(order);
      PersistAll(closed);
    }

    method PersistAll(records: seq<Record>)
      requires Valid()
      modifies this`log, this`view
      ensures Valid()
      ensures view == old(view).(log := old(view).log + records)
    {
      for i := 0 to |records|
        invariant Valid()
        invariant view == old(view).(log := old(view).log + records[..i])
      {
        Persist(records[i]);
      }
    }
  }

  ghost function Elements(keys: seq<string>): set<string> {
    set k | k in keys
  }

  // ---- Whole runs ----------------------------------------------------------------------

  /** What reaches the tracker, in the order in which the mutex is taken. */
  datatype Event = Detect(camera: string, className: string, ts: int) | Sweep(now: int)

  function Step(t: Tracker, timeout: int, e: Event): Tracker
    requires Wf(t)
  {
    match e
    case Detect(camera, className, ts) => Recorded(t, timeout, camera, className, ts)
    case Sweep(now) => Swept(t, timeout, now)
  }

  lemma StepKeepsWf(t: Tracker, timeout: int, e: Event)
    requires Wf(t)
    ensures Wf(Step(t, timeout, e))
  {
    match e
    case Detect(camera, className, ts) =>
      OpenedKeepsWf(t, KeyOf(camera, className), camera, className, ts);
    case Sweep(now) =>
      OnlyFacts(t.order, t.active.Keys - Expired(t, timeout, now));
  }

  ghost function After(t: Tracker, timeout: int, events: seq<Event>): Tracker
    requires Wf(t)
    decreases |events|
  {
    if events == [] then t
    else
      StepKeepsWf(t, timeout, events[0]);
      After(Step(t, timeout, events[0]), timeout, events[1..])
  }

  lemma {:induction false} AfterWf(t: Tracker, timeout: int, events: seq<Event>)
    requires Wf(t)
    ensures Wf(After(t, timeout, events))
    decreases |events|
  {
    if events == [] {
    } else {
      StepKeepsWf(t, timeout, events[0]);
      AfterWf(Step(t, timeout, events[0]), timeout, events[1..]);
    }
  }

  const EMPTY := Tracker([], map[], [])

  /** Everything persisted by a run that ends with flush_all. */
  ghost function Persisted(timeout: int, events: seq<Event>): seq<Record> {
    AfterWf(EMPTY, timeout, events);
    Drained(After(EMPTY, timeout, events)).log
  }

  // ---- The same run seen by one key ----------------------------------------------------

  datatype Session = Session(start: int, end: int, duration: int, count: nat)

  datatype KeyEvent = Saw(ts: int) | SweptAt(now: int)

  function SessionOf(r: Record): Session {
    Session(r.start, r.end, r.duration, r.count)
  }

  predicate About(r: Record, key: string) {
    KeyOf(r.camera, r.className) == key
  }

  function SessionsOf(log: seq<Record>, key: string): seq<Session> {
    if log == [] then []
    else SessionsOf(log[..|log| - 1], key) + if About(log[|log| - 1], key) then [SessionOf(log[|log| - 1])] else []
  }

  function Seen(e: Event, key: string): Option<KeyEvent> {
    match e
    case Detect(camera, className, ts) => if KeyOf(camera, className) == key then Some(Saw(ts)) else None
    case Sweep(now) => Some(SweptAt(now))
  }

  function KeyEvents(events: seq<Event>, key: string): seq<KeyEvent> {
    if events == [] then []
    else
      var rest := KeyEvents(events[1..], key);
      match Seen(events[0], key)
      case Some(e) => [e] + rest
      case None => rest
  }

  /** One event for a key with the given open session: the sessions it closes, and the
      session open afterwards. */
  function KeyStep(open: Option<Session>, timeout: int, e: KeyEvent): (seq<Session>, Option<Session>) {
    match e
    case Saw(ts) =>
      if open.None? then ([], Some(Session(ts, ts, 0, 1)))
      else if ts - open.value.end >= timeout then ([open.value], Some(Session(ts, ts, 0, 1)))
      else ([], Some(Grown(open.value, ts)))
    case SweptAt(now) =>
      if open.Some? && now - open.value.end >= timeout then ([open.value], None) else ([], open)
  }

  /** The sessions one key still produces when its events end with flush_all. */
  function Online(open: Option<Session>, timeout: int, events: seq<KeyEvent>): seq<Session>
    decreases |events|
  {
    if events == [] then
      if open.Some? then [open.value] else []
    else
      var (closed, open') := KeyStep(open, timeout, events[0]);
      closed + Online(open', timeout, events[1..])
  }

  function Grown(s: Session, ts: int): Session {
    Session(s.start, ts, ts - s.start, s.count + 1)
  }

  function OpenOf(t: Tracker, key: string): Option<Session> {
    if key in t.active then Some(SessionOf(Close(t.active[key]))) else None
  }

  ghost predicate Named(t: Tracker) {
    forall k :: k in t.active ==> About(Close(t.active[k]), k)
  }

  lemma {:induction false} SessionsAppend(a: seq<Record>, b: seq<Record>, key: string)
    ensures SessionsOf(a + b, key) == SessionsOf(a, key) + SessionsOf(b, key)
  {
    if b == [] {
      assert a + b == a;
    } else {
      assert (a + b)[..|a + b| - 1] == a + b[..|b| - 1];
      SessionsAppend(a, b[..|b| - 1], key);
    }
  }

  lemma {:induction false} ClosingOf(keys: seq<string>, active: map<string, Visit>, key: string)
    requires Distinct(keys) && forall k :: k in keys ==> k in active && About(Close(active[k]), k)
    ensures SessionsOf(Closing(keys, active), key)
         == if key in keys then [SessionOf(Close(active[key]))] else []
  {
    hide KeyOf;
    if keys == [] {
    } else {
      var front, last := keys[..|keys| - 1], keys[|keys| - 1];
      assert keys == front + [last] && last !in front;
      ClosingOf(front, active, key);
      var closing := Closing(keys, active);
      assert closing[..|closing| - 1] == Closing(front, active);
    }
  }

  ghost function SessionsAfter(t: Tracker, timeout: int, events: seq<Event>, key: string): seq<Session>
    requires Wf(t)
  {
    AfterWf(t, timeout, events);
    SessionsOf(Drained(After(t, timeout, events)).log, key)
  }

  /** The sessions persisted so far for a key, and those its own machine will still produce. */
  ghost function Foreseen(t: Tracker, timeout: int, events: seq<Event>, key: string): seq<Session> {
    SessionsOf(t.log, key) + Online(OpenOf(t, key), timeout, KeyEvents(events, key))
  }

  /** From `t` to `t1` the key's own machine has taken the step it sees, if it sees one. */
  ghost predicate Follows(t: Tracker, t1: Tracker, timeout: int, seen: Option<KeyEvent>, key: string) {
    match seen
    case Some(e) =>
      var (closed, open') := KeyStep(OpenOf(t, key), timeout, e);
      SessionsOf(t1.log, key) == SessionsOf(t.log, key) + closed && OpenOf(t1, key) == open'
    case None =>
      SessionsOf(t1.log, key) == SessionsOf(t.log, key) && OpenOf(t1, key) == OpenOf(t, key)
  }

  /** No step changes what is foreseen for a key. */
  lemma ForeseenStays(t: Tracker, t1: Tracker, timeout: int, events: seq<Event>, key: string)
    requires events != [] && Follows(t, t1, timeout, Seen(events[0], key), key)
    ensures Foreseen(t1, timeout, events[1..], key) == Foreseen(t, timeout, events, key)
  {
  }

  /** For every key, the tracker as a whole does what that key's own machine does. */
  lemma {:induction false} ProjectRun(t: Tracker, timeout: int, events: seq<Event>, key: string)
    requires Wf(t) && Named(t)
    ensures SessionsAfter(t, timeout, events, key) == Foreseen(t, timeout, events, key)
    decreases |events|
  {
    if events == [] {
      ProjectDrain(t, timeout, key);
    } else {
      StepKeepsWf(t, timeout, events[0]);
      ProjectStep(t, timeout, events[0], key);
      ForeseenStays(t, Step(t, timeout, events[0]), timeout, events, key);
      ProjectRun(Step(t, timeout, events[0]), timeout, events[1..], key);
    }
  }

  lemma ProjectDrain(t: Tracker, timeout: int, key: string)
    requires Wf(t) && Named(t)
    ensures SessionsOf(Drained(t).log, key) == SessionsOf(t.log, key) + Online(OpenOf(t, key), timeout, [])
  {
    ClosingOf(t.order, t.active, key);
    SessionsAppend(t.log, Closing(t.order, t.active), key);
  }

  /** One step of the tracker is, for each key, a step of that key's own machine or none. */
  lemma ProjectStep(t: Tracker, timeout: int, e: Event, key: string)
    requires Wf(t) && Named(t)
    ensures Named(Step(t, timeout, e))
    ensures Follows(t, Step(t, timeout, e), timeout, Seen(e, key), key)
  {
    match e
    case Detect(camera, className, ts) => ProjectDetection(t, timeout, camera, className, ts, key);
    case Sweep(now) => ProjectSweep(t, timeout, now, key);
  }

  lemma ProjectSweep(t: Tracker, timeout: int, now: int, key: string)
    requires Wf(t) && Named(t)
    ensures Named(Swept(t, timeout, now))
    ensures Follows(t, Swept(t, timeout, now), timeout, Some(SweptAt(now)), key)
  {
    hide KeyOf;
    var gone := Expired(t, timeout, now);
    var keys := Only(t.order, gone);
    OnlyFacts(t.order, gone);
    assert key in keys <==> key in gone;
    assert SessionsOf(Swept(t, timeout, now).log, key)
        == SessionsOf(t.log, key) + (if key in gone then [SessionOf(Close(t.active[key]))] else []) by {
      ClosingOf(keys, t.active, key);
      SessionsAppend(t.log, Closing(keys, t.active), key);
    }
    assert OpenOf(Swept(t, timeout, now), key) == if key in gone then None else OpenOf(t, key);
  }

  lemma ProjectDetection(t: Tracker, timeout: int, camera: string, className: string, ts: int, key: string)
    requires Wf(t) && Named(t)
    ensures Named(Recorded(t, timeout, camera, className, ts))
    ensures Follows(t, Recorded(t, timeout, camera, className, ts), timeout,
                    Seen(Detect(camera, className, ts), key), key)
  {
    var k := KeyOf(camera, className);
    assert Seen(Detect(camera, className, ts), key) == if k == key then Some(Saw(ts)) else None;
    if k !in t.active {
      OpenedShows(t, k, camera, className, ts, key);
    } else if ts - t.active[k].last >= timeout {
      var record := Close(t.active[k]);
      assert About(record, k);
      assert (t.log + [record])[..|t.log|] == t.log;
      OpenedShows(t.(log := t.log + [record]), k, camera, className, ts, key);
    } else {
      ExtendedShows(t, k, ts, key);
    }
  }

  lemma OpenedShows(t: Tracker, k: string, camera: string, className: string, ts: int, key: string)
    requires Named(t) && k == KeyOf(camera, className)
    ensures Named(Opened(t, k, camera, className, ts))
    ensures OpenOf(Opened(t, k, camera, className, ts), key)
         == if k == key then Some(Session(ts, ts, 0, 1)) else OpenOf(t, key)
  {
  }

  lemma ExtendedShows(t: Tracker, k: string, ts: int, key: string)
    requires Named(t) && k in t.active
    ensures Named(Extended(t, k, ts))
    ensures OpenOf(Extended(t, k, ts), key)
         == if k == key then Some(Grown(SessionOf(Close(t.active[k])), ts)) else OpenOf(t, key)
  {
  }

  // ---- The reference: splitting a list of timestamps at long gaps -----------------------

  function Runs(times: seq<int>, timeout: int): (runs: seq<seq<int>>)
    ensures times != [] ==> runs != [] && runs[0] != [] && runs[0][0] == times[0]
  {
    if times == [] then []
    else if |times| == 1 || times[1] - times[0] >= timeout then [[times[0]]] + Runs(times[1..], timeout)
    else
      var rest := Runs(times[1..], timeout);
      [[times[0]] + rest[0]] + rest[1..]
  }

  function Concat(parts: seq<seq<int>>): seq<int> {
    if parts == [] then [] else parts[0] + Concat(parts[1..])
  }

  predicate Tight(part: seq<int>, timeout: int) {
    |part| <= 1 || (part[1] - part[0] < timeout && Tight(part[1..], timeout))
  }

  /** Consecutive timestamps are closer than the timeout inside a part, and at least the
      timeout apart from one part to the next. */
  predicate SplitsAtGaps(parts: seq<seq<int>>, timeout: int) {
    parts == [] ||
    (&& parts[0] != [] && Tight(parts[0], timeout)
     && (|parts| > 1 ==> parts[1] != [] && parts[1][0] - parts[0][|parts[0]| - 1] >= timeout)
     && SplitsAtGaps(parts[1..], timeout))
  }

  lemma {:induction false} RunsSplit(times: seq<int>, timeout: int)
    ensures Concat(Runs(times, timeout)) == times
    ensures SplitsAtGaps(Runs(times, timeout), timeout)
  {
    if times == [] {
    } else {
      var runs, rest := Runs(times, timeout), Runs(times[1..], timeout);
      RunsSplit(times[1..], timeout);
      assert [times[0]] + times[1..] == times;
      if |times| == 1 || times[1] - times[0] >= timeout {
        assert runs[1..] == rest;
      } else {
        assert runs[0][1..] == rest[0] && runs[1..] == rest[1..];
        assert runs[0] + Concat(rest[1..]) == [times[0]] + Concat(rest);
      }
    }
  }

  /** The split is determined by the timestamps: no other partition has the same shape. */
  lemma {:induction false} RunsUnique(parts: seq<seq<int>>, timeout: int)
    requires SplitsAtGaps(parts, timeout)
    ensures parts == Runs(Concat(parts), timeout)
    decreases |Concat(parts)|
  {
    if parts == [] {
    } else {
      var times, head, tail := Concat(parts), parts[0], parts[1..];
      if |head| == 1 {
        assert times[1..] == Concat(tail);
        RunsUnique(tail, timeout);
        assert tail != [] ==> Concat(tail)[0] == tail[0][0];
        assert head == [times[0]];
      } else {
        var less := [head[1..]] + tail;
        assert less[1..] == tail;
        assert times[1..] == Concat(less);
        RunsUnique(less, timeout);
        assert times[1] == head[1];
        assert [head[0]] + head[1..] == head;
      }
      assert [head] + tail == parts;
    }
  }

  function Summary(run: seq<int>): Session
    requires run != []
  {
    Session(run[0], run[|run| - 1], run[|run| - 1] - run[0], |run|)
  }

  function Summaries(parts: seq<seq<int>>, timeout: int): seq<Session>
    requires SplitsAtGaps(parts, timeout)
  {
    if parts == [] then [] else [Summary(parts[0])] + Summaries(parts[1..], timeout)
  }

  /** The sessions of a list of timestamps: one summary for each part of its gap split. */
  ghost function GapSplit(times: seq<int>, timeout: int): seq<Session> {
    RunsSplit(times, timeout);
    Summaries(Runs(times, timeout), timeout)
  }

  /** GapSplit computed from the front, with one session open. */
  function SplitFrom(open: Session, times: seq<int>, timeout: int): seq<Session>
    decreases |times|
  {
    if times == [] then [open]
    else if times[0] - open.end >= timeout
    then [open] + SplitFrom(Session(times[0], times[0], 0, 1), times[1..], timeout)
    else SplitFrom(Grown(open, times[0]), times[1..], timeout)
  }

  /** The sessions of a split whose first part continues a session already open. */
  function Continued(open: Session, runs: seq<seq<int>>, timeout: int): seq<Session>
    requires SplitsAtGaps(runs, timeout) && runs != []
  {
    var end := runs[0][|runs[0]| - 1];
    [Session(open.start, end, end - open.start, open.count + |runs[0]| - 1)] + Summaries(runs[1..], timeout)
  }

  lemma {:induction false} SplitFromIsGapSplit(open: Session, times: seq<int>, timeout: int)
    requires open.duration == open.end - open.start
    ensures var runs := Runs([open.end] + times, timeout);
      SplitsAtGaps(runs, timeout) && runs != [] && SplitFrom(open, times, timeout) == Continued(open, runs, timeout)
    decreases |times|
  {
    var all := [open.end] + times;
    RunsSplit(all, timeout);
    assert all[1..] == times;
    if times == [] {
      assert Runs(all, timeout) == [[open.end]];
    } else {
      RunsSplit(times, timeout);
      assert [times[0]] + times[1..] == times;
      var rest := Runs(times, timeout);
      if times[0] - open.end >= timeout {
        SplitFromIsGapSplit(Session(times[0], times[0], 0, 1), times[1..], timeout);
        ContinueApart(open, rest, timeout);
      } else {
        SplitFromIsGapSplit(Grown(open, times[0]), times[1..], timeout);
        ContinueInto(open, rest, timeout);
      }
    }
  }

  lemma ContinueApart(open: Session, rest: seq<seq<int>>, timeout: int)
    requires SplitsAtGaps(rest, timeout) && rest != [] && SplitsAtGaps([[open.end]] + rest, timeout)
    requires open.duration == open.end - open.start
    ensures Continued(open, [[open.end]] + rest, timeout)
         == [open] + Continued(Session(rest[0][0], rest[0][0], 0, 1), rest, timeout)
  {
  }

  lemma ContinueInto(open: Session, rest: seq<seq<int>>, timeout: int)
    requires SplitsAtGaps(rest, timeout) && rest != []
    requires SplitsAtGaps([[open.end] + rest[0]] + rest[1..], timeout)
    ensures Continued(open, [[open.end] + rest[0]] + rest[1..], timeout)
         == Continued(Grown(open, rest[0][0]), rest, timeout)
  {
  }

  lemma GapSplitFromFirst(times: seq<int>, timeout: int)
    requires times != []
    ensures GapSplit(times, timeout) == SplitFrom(Session(times[0], times[0], 0, 1), times[1..], timeout)
  {
    RunsSplit(times, timeout);
    assert [times[0]] + times[1..] == times;
    SplitFromIsGapSplit(Session(times[0], times[0], 0, 1), times[1..], timeout);
  }

  // ---- When the timing of flush_expired is unobservable --------------------------------

  function Times(events: seq<KeyEvent>): seq<int> {
    if events == [] then []
    else (if events[0].Saw? then [events[0].ts] else []) + Times(events[1..])
  }

  /** No sweep closes a session that the next detection would still have extended. `last` is
      the latest detection so far; `swept` records that a sweep has closed its session. */
  predicate NoEarlySweep(last: Option<int>, swept: bool, timeout: int, events: seq<KeyEvent>)
    decreases |events|
  {
    events == [] ||
    match events[0]
    case Saw(ts) =>
      (last.Some? && swept ==> ts - last.value >= timeout) && NoEarlySweep(Some(ts), false, timeout, events[1..])
    case SweptAt(now) =>
      NoEarlySweep(last, swept || (last.Some? && now - last.value >= timeout), timeout, events[1..])
  }

  /** Every sweep was given a clock reading no later than the detections that follow it. */
  ghost predicate Timely(events: seq<KeyEvent>) {
    forall i, j :: 0 <= i < j < |events| && events[i].SweptAt? && events[j].Saw? ==> events[i].now <= events[j].ts
  }

  /** The sessions of a key, given its latest detection and whether that session was swept. */
  function Expected(open: Session, swept: bool, times: seq<int>, timeout: int): seq<Session> {
    if !swept then SplitFrom(open, times, timeout)
    else if times == [] then []
    else SplitFrom(Session(times[0], times[0], 0, 1), times[1..], timeout)
  }

  lemma {:induction false} OnlineWhileOpen(open: Session, swept: bool, timeout: int, events: seq<KeyEvent>)
    ensures var online := Online(if swept then None else Some(open), timeout, events);
      var expected := Expected(open, swept, Times(events), timeout);
      && (NoEarlySweep(Some(open.end), swept, timeout, events) ==> online == expected)
      && (!NoEarlySweep(Some(open.end), swept, timeout, events) ==>
            |online| + (if swept then 1 else 0) > |SplitFrom(open, Times(events), timeout)|)
    decreases |events|
  {
    if events == [] {
    } else {
      var rest, times := events[1..], Times(events);
      match events[0]
      case Saw(ts) =>
        assert times[0] == ts && times[1..] == Times(rest);
        var newSession := Session(ts, ts, 0, 1);
        if swept || ts - open.end >= timeout {
          OnlineWhileOpen(newSession, false, timeout, rest);
          if ts - open.end < timeout {
            SplitLength(Grown(open, ts), newSession, Times(rest), timeout);
            OnlineAtLeast(newSession, false, timeout, rest);
          }
        } else {
          OnlineWhileOpen(Grown(open, ts), false, timeout, rest);
        }
      case SweptAt(now) =>
        assert times == Times(rest);
        var swept' := swept || now - open.end >= timeout;
        OnlineWhileOpen(open, swept', timeout, rest);
        if swept' && NoEarlySweep(Some(open.end), swept', timeout, rest) {
          SweptThenGap(open.end, timeout, rest);
        }
    }
  }

  lemma {:induction false} SweptThenGap(last: int, timeout: int, events: seq<KeyEvent>)
    requires NoEarlySweep(Some(last), true, timeout, events)
    ensures Times(events) == [] || Times(events)[0] - last >= timeout
    decreases |events|
  {
    if events == [] || !events[0].SweptAt? {
    } else {
      SweptThenGap(last, timeout, events[1..]);
      assert Times(events) == Times(events[1..]);
    }
  }

  /** How many sessions follow depends only on the latest timestamp. */
  lemma {:induction false} SplitLength(a: Session, b: Session, times: seq<int>, timeout: int)
    requires a.end == b.end
    ensures |SplitFrom(a, times, timeout)| == |SplitFrom(b, times, timeout)|
    decreases |times|
  {
    if times == [] || times[0] - a.end >= timeout {
    } else {
      SplitLength(Grown(a, times[0]), Grown(b, times[0]), times[1..], timeout);
    }
  }

  /** Sweeping can add sessions but never merge two. */
  lemma {:induction false} OnlineAtLeast(open: Session, swept: bool, timeout: int, events: seq<KeyEvent>)
    ensures |Online(if swept then None else Some(open), timeout, events)| + (if swept then 1 else 0)
         >= |SplitFrom(open, Times(events), timeout)|
    decreases |events|
  {
    if events == [] {
    } else {
      var rest, times := events[1..], Times(events);
      match events[0]
      case Saw(ts) =>
        assert times[0] == ts && times[1..] == Times(rest);
        var newSession := Session(ts, ts, 0, 1);
        if swept || ts - open.end >= timeout {
          OnlineAtLeast(newSession, false, timeout, rest);
          if ts - open.end < timeout {
            SplitLength(Grown(open, ts), newSession, Times(rest), timeout);
          }
        } else {
          OnlineAtLeast(Grown(open, ts), false, timeout, rest);
        }
      case SweptAt(now) =>
        assert times == Times(rest);
        OnlineAtLeast(open, swept || now - open.end >= timeout, timeout, rest);
    }
  }

  lemma {:induction false} OnlineFromNothing(timeout: int, events: seq<KeyEvent>)
    ensures Online(None, timeout, events) == GapSplit(Times(events), timeout)
       <==> NoEarlySweep(None, false, timeout, events)
    decreases |events|
  {
    if events == [] {
      assert GapSplit([], timeout) == [];
    } else {
      var rest, times := events[1..], Times(events);
      match events[0]
      case Saw(ts) =>
        assert times[0] == ts && times[1..] == Times(rest);
        GapSplitFromFirst(times, timeout);
        OnlineWhileOpen(Session(ts, ts, 0, 1), false, timeout, rest);
      case SweptAt(now) =>
        assert times == Times(rest);
        OnlineFromNothing(timeout, rest);
    }
  }

  lemma {:induction false} TimelyIsHarmless(last: Option<int>, swept: bool, timeout: int, events: seq<KeyEvent>)
    requires Timely(events)
    requires swept ==>
      last.Some? && forall i :: 0 <= i < |events| && events[i].Saw? ==> events[i].ts - last.value >= timeout
    ensures NoEarlySweep(last, swept, timeout, events)
    decreases |events|
  {
    if events == [] {
    } else {
      var rest := events[1..];
      assert forall i :: 0 <= i < |rest| ==> rest[i] == events[i + 1];
      match events[0]
      case Saw(ts) => TimelyIsHarmless(Some(ts), false, timeout, rest);
      case SweptAt(now) =>
        TimelyIsHarmless(last, swept || (last.Some? && now - last.value >= timeout), timeout, rest);
    }
  }

  function Total(sessions: seq<Session>): nat {
    if sessions == [] then 0 else sessions[0].count + Total(sessions[1..])
  }

  lemma {:induction false} OnlineTotal(open: Option<Session>, timeout: int, events: seq<KeyEvent>)
    ensures Total(Online(open, timeout, events)) == (if open.Some? then open.value.count else 0) + |Times(events)|
    decreases |events|
  {
    if events == [] {
    } else {
      var (closed, open') := KeyStep(open, timeout, events[0]);
      OnlineTotal(open', timeout, events[1..]);
      var online := Online(open, timeout, events);
      if closed != [] {
        assert online[1..] == Online(open', timeout, events[1..]);
      } else {
        assert online == Online(open', timeout, events[1..]);
      }
    }
  }

  // ---- Theorems ------------------------------------------------------------------------

  lemma PersistedIsOnline(timeout: int, events: seq<Event>, key: string)
    ensures SessionsOf(Persisted(timeout, events), key) == Online(None, timeout, KeyEvents(events, key))
  {
    AfterWf(EMPTY, timeout, events);
    ProjectRun(EMPTY, timeout, events, key);
  }

  /** However detections of any keys and sweeps interleave, what is persisted for a key is
      the gap split of that key's own timestamps exactly when no sweep was early for it. */
  lemma SweepsUnobservableIff(timeout: int, events: seq<Event>, key: string)
    ensures SessionsOf(Persisted(timeout, events), key) == GapSplit(Times(KeyEvents(events, key)), timeout)
       <==> NoEarlySweep(None, false, timeout, KeyEvents(events, key))
  {
    PersistedIsOnline(timeout, events, key);
    OnlineFromNothing(timeout, KeyEvents(events, key));
  }

  /** With clock readings in mutex order the flush timing cannot be observed. */
  lemma SweepsUnobservable(timeout: int, events: seq<Event>, key: string)
    requires Timely(KeyEvents(events, key))
    ensures SessionsOf(Persisted(timeout, events), key) == GapSplit(Times(KeyEvents(events, key)), timeout)
  {
    SweepsUnobservableIff(timeout, events, key);
    TimelyIsHarmless(None, false, timeout, KeyEvents(events, key));
  }

  /** No detection is lost or counted twice, even by an early sweep. */
  lemma EveryDetectionCounted(timeout: int, events: seq<Event>, key: string)
    ensures Total(SessionsOf(Persisted(timeout, events), key)) == |Times(KeyEvents(events, key))|
  {
    PersistedIsOnline(timeout, events, key);
    OnlineTotal(None, timeout, KeyEvents(events, key));
  }

  /** A sweep whose clock reading is later than the next detection's splits a visit in two,
      for every camera, class and timeout. */
  lemma EarlySweepSplitsVisit(camera: string, className: string, timeout: int)
    requires timeout > 0
    ensures var events := [Detect(camera, className, 0), Sweep(timeout), Detect(camera, className, timeout - 1)];
      SessionsOf(Persisted(timeout, events), KeyOf(camera, className)) != GapSplit([0, timeout - 1], timeout)
  {
    hide KeyOf;
    var key := KeyOf(camera, className);
    var last := [Detect(camera, className, timeout - 1)];
    var events := [Detect(camera, className, 0), Sweep(timeout)] + last;
    assert events == [Detect(camera, className, 0), Sweep(timeout), Detect(camera, className, timeout - 1)];
    var seen := KeyEvents(events, key);
    assert KeyEvents(last, key) == [Saw(timeout - 1)];
    assert events[1..][1..] == last;
    assert KeyEvents(events[1..], key) == [SweptAt(timeout), Saw(timeout - 1)];
    assert seen == [Saw(0), SweptAt(timeout), Saw(timeout - 1)];
    assert seen[1..] == [SweptAt(timeout), Saw(timeout - 1)];
    assert seen[1..][1..] == [Saw(timeout - 1)];
    assert Times(seen[1..][1..]) == [timeout - 1];
    assert Times(seen) == [0, timeout - 1];
    assert !NoEarlySweep(Some(0), true, timeout, seen[1..][1..]);
    SweepsUnobservableIff(timeout, events, key);
  }
}
