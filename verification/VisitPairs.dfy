/**
 The sessions of one camera and class. The tracker works with keys; these are the theorems of
 VisitTracker.dfy in terms of the two names, for pairs whose key no other pair of the run has.
 */
module VisitPairs {
  import opened Wrappers
  import opened CompoundKeys
  import opened VisitTracker

  predicate OfPair(r: Record, camera: string, className: string) {
    r.camera == camera && r.className == className
  }

  /** The sessions persisted with these names. */
  function PairSessions(log: seq<Record>, camera: string, className: string): seq<Session> {
    if log == [] then []
    else
      var last := log[|log| - 1];
      PairSessions(log[..|log| - 1], camera, className)
      + if OfPair(last, camera, className) then [SessionOf(last)] else []
  }

  /** The detections with these names, and all sweeps. */
  function PairEvents(events: seq<Event>, camera: string, className: string): seq<KeyEvent> {
    if events == [] then []
    else
      var rest := PairEvents(events[1..], camera, className);
      match events[0]
      case Detect(c, k, ts) => if c == camera && k == className then [Saw(ts)] + rest else rest
      case Sweep(now) => [SweptAt(now)] + rest
  }

  /** No other pair that is detected overlaps with this one. */
  ghost predicate Apart(events: seq<Event>, camera: string, className: string) {
    forall i :: 0 <= i < |events| && events[i].Detect? ==>
      ApartFrom(events[i].camera, events[i].className, camera, className)
  }

  ghost predicate ApartFrom(c: string, k: string, camera: string, className: string) {
    (c == camera && k == className) || (!Overlap(c, k, camera, className) && !Overlap(camera, className, c, k))
  }

  lemma ApartIff(c: string, k: string, camera: string, className: string)
    ensures ApartFrom(c, k, camera, className)
       <==> (KeyOf(c, k) == KeyOf(camera, className) ==> c == camera && k == className)
  {
    KeysEqualIff(c, k, camera, className);
  }

  lemma {:induction false} SameEvents(events: seq<Event>, camera: string, className: string)
    requires Apart(events, camera, className)
    ensures PairEvents(events, camera, className) == KeyEvents(events, KeyOf(camera, className))
  {
    if events == [] {
    } else {
      SameEvents(events[1..], camera, className);
      if events[0].Detect? {
        ApartIff(events[0].camera, events[0].className, camera, className);
      }
    }
  }

  /** A record under the key of the pair has the names of the pair. */
  predicate Named(r: Record, camera: string, className: string) {
    About(r, KeyOf(camera, className)) ==> OfPair(r, camera, className)
  }

  ghost predicate AllNamed(t: Tracker, camera: string, className: string) {
    && (forall i :: 0 <= i < |t.log| ==> Named(t.log[i], camera, className))
    && (forall k :: k in t.active ==> Named(Close(t.active[k]), camera, className))
  }

  lemma {:induction false} ClosingNamed(keys: seq<string>, active: map<string, Visit>,
                                        camera: string, className: string)
    requires forall k :: k in keys ==> k in active && Named(Close(active[k]), camera, className)
    ensures forall i :: 0 <= i < |Closing(keys, active)| ==> Named(Closing(keys, active)[i], camera, className)
  {
    if keys == [] {
    } else {
      ClosingNamed(keys[..|keys| - 1], active, camera, className);
    }
  }

  lemma StepNamed(t: Tracker, timeout: int, e: Event, camera: string, className: string)
    requires Wf(t) && AllNamed(t, camera, className)
    requires e.Detect? ==> ApartFrom(e.camera, e.className, camera, className)
    ensures AllNamed(Step(t, timeout, e), camera, className)
  {
    match e
    case Detect(c, k, ts) => ApartIff(c, k, camera, className);
    case Sweep(now) =>
      var gone := Expired(t, timeout, now);
      OnlyFacts(t.order, gone);
      ClosingNamed(Only(t.order, gone), t.active, camera, className);
  }

  lemma {:induction false} RunNamed(t: Tracker, timeout: int, events: seq<Event>, camera: string, className: string)
    requires Wf(t) && AllNamed(t, camera, className) && Apart(events, camera, className)
    ensures AllNamed(After(t, timeout, events), camera, className)
    decreases |events|
  {
    if events == [] {
    } else {
      StepNamed(t, timeout, events[0], camera, className);
      StepKeepsWf(t, timeout, events[0]);
      RunNamed(Step(t, timeout, events[0]), timeout, events[1..], camera, className);
    }
  }

  lemma {:induction false} SameSessions(log: seq<Record>, camera: string, className: string)
    requires forall i :: 0 <= i < |log| ==> Named(log[i], camera, className)
    ensures PairSessions(log, camera, className) == SessionsOf(log, KeyOf(camera, className))
  {
    if log == [] {
    } else {
      SameSessions(log[..|log| - 1], camera, className);
    }
  }

  lemma PersistedNamed(timeout: int, events: seq<Event>, camera: string, className: string)
    requires Apart(events, camera, className)
    ensures PairSessions(Persisted(timeout, events), camera, className)
         == SessionsOf(Persisted(timeout, events), KeyOf(camera, className))
  {
    RunNamed(EMPTY, timeout, events, camera, className);
    AfterWf(EMPTY, timeout, events);
    var t := After(EMPTY, timeout, events);
    ClosingNamed(t.order, t.active, camera, className);
    SameSessions(Persisted(timeout, events), camera, className);
  }

  /** What is persisted for a camera and a class is the gap split of their own timestamps exactly
      when no sweep was early for them. */
  lemma PairSweepsUnobservableIff(timeout: int, events: seq<Event>, camera: string, className: string)
    requires Apart(events, camera, className)
    ensures var own := PairEvents(events, camera, className);
      PairSessions(Persisted(timeout, events), camera, className) == GapSplit(Times(own), timeout)
      <==> NoEarlySweep(None, false, timeout, own)
  {
    SameEvents(events, camera, className);
    PersistedNamed(timeout, events, camera, className);
    SweepsUnobservableIff(timeout, events, KeyOf(camera, className));
  }

  /** None of their detections is lost or counted twice, even by an early sweep. */
  lemma PairDetectionsCounted(timeout: int, events: seq<Event>, camera: string, className: string)
    requires Apart(events, camera, className)
    ensures Total(PairSessions(Persisted(timeout, events), camera, className))
         == |Times(PairEvents(events, camera, className))|
  {
    SameEvents(events, camera, className);
    PersistedNamed(timeout, events, camera, className);
    EveryDetectionCounted(timeout, events, KeyOf(camera, className));
  }

  /** Of two pairs that overlap, the first one's visit takes in the second one's detection, which
      leaves no session. */
  lemma OverlapMerges(camera: string, className: string, c: string, k: string, timeout: int, ts: int)
    requires KeyOf(camera, className) == KeyOf(c, k) && (camera != c || className != k) && timeout > 0
    ensures var events := [Detect(camera, className, ts), Detect(c, k, ts)];
      PairSessions(Persisted(timeout, events), c, k) == []
  {
    TwoDetections(camera, className, c, k, timeout, ts);
    var log := Persisted(timeout, [Detect(camera, className, ts), Detect(c, k, ts)]);
    assert log[..0] == [];
  }

  lemma TwoDetections(camera: string, className: string, c: string, k: string, timeout: int, ts: int)
    requires KeyOf(camera, className) == KeyOf(c, k) && timeout > 0
    ensures Persisted(timeout, [Detect(camera, className, ts), Detect(c, k, ts)])
         == [Record(camera, className, ts, ts, 0, 2)]
  {
    hide KeyOf;
    var key := KeyOf(camera, className);
    var a, b := Detect(camera, className, ts), Detect(c, k, ts);
    AfterTwo(a, b, timeout);
    var v := Visit(camera, className, ts, ts, 2);
    var t := Step(Step(EMPTY, timeout, a), timeout, b);
    assert Step(EMPTY, timeout, a) == Tracker([key], map[key := v.(count := 1)], []);
    assert t == Tracker([key], map[key := v], []);
    hide Step, After;
    assert t.order[..0] == [];
  }

  lemma AfterTwo(a: Event, b: Event, timeout: int)
    ensures Wf(Step(EMPTY, timeout, a)) && Wf(Step(Step(EMPTY, timeout, a), timeout, b))
    ensures Persisted(timeout, [a, b]) == Drained(Step(Step(EMPTY, timeout, a), timeout, b)).log
  {
    var t1 := Step(EMPTY, timeout, a);
    StepKeepsWf(EMPTY, timeout, a);
    StepKeepsWf(t1, timeout, b);
    assert [a, b][1..] == [b] && [b][1..] == [];
    hide Step, Drained, Wf;
    assert After(t1, timeout, [b]) == Step(t1, timeout, b);
  }
}
