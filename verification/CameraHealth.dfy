/**
 Camera outages and their alerts (services/detector/src/camera_health.py).

 `CameraHealthTracker` keeps a record per camera; its methods are proved against functions on
 the value `Cam`. The theorems compare what a record says, and which alerts it leads to, with
 the outages that can be read off the camera's frames and failures alone. Times are readings
 of a monotonic clock, in any fixed unit; a last frame at 0 stands for "no frame yet".
 */
module CameraHealth {
  import opened Wrappers

  datatype Config = Config(threshold: int, debounce: int)

  datatype Cam = Cam(
    lastFrame: int,
    lastFailure: int,
    offlineSince: Option<int>,
    onlineSince: Option<int>,
    reconnects: nat,
    reconnectStart: int,
    reconnectDuration: Option<int>,
    alertSent: bool,
    outageAlerted: bool,
    outageDuration: Option<int>)

  const UNSEEN := Cam(0, 0, None, None, 0, 0, None, false, false, None)

  datatype Alert = Offline(seconds: int, reconnects: nat) | Recovered(down: int, up: int, reconnects: nat)

  // ---------------------------------------------------------------------------------------
  // What the methods do to one record
  // ---------------------------------------------------------------------------------------

  function Framed(c: Cam, now: int): Cam {
    var d := c.(lastFrame := now);
    if c.offlineSince.Some? then
      var duration := now - c.offlineSince.value;
      d.(reconnectDuration := Some(duration), reconnects := c.reconnects + 1,
         outageDuration := if c.outageAlerted then Some(duration) else c.outageDuration,
         offlineSince := None, onlineSince := Some(now), alertSent := false)
    else if c.onlineSince.None? then d.(onlineSince := Some(now))
    else d
  }

  function Failed(c: Cam, now: int, cfg: Config): Cam {
    var d := c.(lastFailure := now);
    if c.offlineSince.None? && (c.lastFrame == 0 || now - c.lastFrame > cfg.debounce) then
      d.(offlineSince := Some(now), onlineSince := None, reconnectStart := now)
    else d
  }

  predicate OfflineDue(c: Cam, now: int, cfg: Config) {
    c.offlineSince.Some? && !c.alertSent && now - c.offlineSince.value >= cfg.threshold
  }

  predicate RecoveryDue(c: Cam, now: int, cfg: Config) {
    c.outageAlerted && c.offlineSince.None? && c.onlineSince.Some? && now - c.onlineSince.value >= cfg.threshold
  }

  function OfflinePart(c: Cam, now: int, cfg: Config): (Cam, seq<Alert>) {
    if OfflineDue(c, now, cfg) then
      (c.(alertSent := true, outageAlerted := true), [Offline(now - c.offlineSince.value, c.reconnects)])
    else (c, [])
  }

  function RecoveryPart(c: Cam, now: int, cfg: Config): (Cam, seq<Alert>) {
    if RecoveryDue(c, now, cfg) then
      var down := if c.outageDuration.Some? then c.outageDuration.value else 0;
      (c.(outageAlerted := false, outageDuration := None), [Recovered(down, now - c.onlineSince.value, c.reconnects)])
    else (c, [])
  }

  /** Both loops of a check, for one camera. */
  function Checked(c: Cam, now: int, cfg: Config): (Cam, seq<Alert>) {
    var (d, offline) := OfflinePart(c, now, cfg);
    var (e, recovered) := RecoveryPart(d, now, cfg);
    (e, offline + recovered)
  }

  // ---------------------------------------------------------------------------------------
  // One camera over a run
  // ---------------------------------------------------------------------------------------

  datatype Event = Frame(time: int) | Failure(time: int) | Check(time: int)

  /** The record of a camera and all alerts about it. */
  datatype Life = Life(cam: Cam, alerts: seq<Alert>)

  function Stepped(l: Life, e: Event, cfg: Config): Life {
    match e
    case Frame(t) => l.(cam := Framed(l.cam, t))
    case Failure(t) => l.(cam := Failed(l.cam, t, cfg))
    case Check(t) => CheckedLife(l, t, cfg)
  }

  function CheckedLife(l: Life, now: int, cfg: Config): Life {
    var (c, a) := Checked(l.cam, now, cfg);
    Life(c, l.alerts + a)
  }

  function Live(run: seq<Event>, cfg: Config): Life {
    if run == [] then Life(UNSEEN, []) else Stepped(Live(run[..|run| - 1], cfg), run[|run| - 1], cfg)
  }

  /** What can be read off the frames and failures: the first and the last frame, and the
      outages in order, of which only the last can be without an end. */
  datatype Outage = Outage(start: int, end: Option<int>)
  datatype Truth = Truth(first: Option<int>, seen: Option<int>, outages: seq<Outage>)

  predicate Down(t: Truth) {
    t.outages != [] && t.outages[|t.outages| - 1].end.None?
  }

  predicate Silent(seen: Option<int>, now: int, cfg: Config) {
    seen.None? || seen.value == 0 || now - seen.value > cfg.debounce
  }

  function Observed(run: seq<Event>, cfg: Config): Truth {
    if run == [] then Truth(None, None, []) else Noted(Observed(run[..|run| - 1], cfg), run[|run| - 1], cfg)
  }

  function Noted(t: Truth, e: Event, cfg: Config): Truth {
    match e
    case Frame(now) =>
      var n := |t.outages|;
      Truth(if t.first.None? then Some(now) else t.first, Some(now),
            if Down(t) then t.outages[..n - 1] + [Outage(t.outages[n - 1].start, Some(now))] else t.outages)
    case Failure(now) =>
      if !Down(t) && Silent(t.seen, now, cfg) then t.(outages := t.outages + [Outage(now, None)]) else t
    case Check(_) => t
  }

  /** Since when the camera has been up: the end of its last outage, or its first frame. */
  function UpSince(t: Truth): Option<int> {
    if t.outages != [] then t.outages[|t.outages| - 1].end else t.first
  }

  /** How many outages are over. */
  function Over(t: Truth): nat {
    if Down(t) then |t.outages| - 1 else |t.outages|
  }

  function Length(o: Outage): int {
    if o.end.Some? then o.end.value - o.start else 0
  }

  ghost predicate Matches(c: Cam, t: Truth) {
    && c.lastFrame == (if t.seen.Some? then t.seen.value else 0)
    && c.offlineSince == (if Down(t) then Some(t.outages[|t.outages| - 1].start) else None)
    && c.onlineSince == UpSince(t)
    && c.reconnects == Over(t)
    && (forall i :: 0 <= i < Over(t) ==> t.outages[i].end.Some?)
    && c.reconnectDuration == (if Over(t) == 0 then None else Some(Length(t.outages[Over(t) - 1])))
    && (t.seen.Some? <==> t.first.Some?)
  }

  lemma FrameIsNoted(c: Cam, t: Truth, now: int, cfg: Config)
    requires Matches(c, t)
    ensures Matches(Framed(c, now), Noted(t, Frame(now), cfg))
  {
  }

  lemma FailureIsNoted(c: Cam, t: Truth, now: int, cfg: Config)
    requires Matches(c, t)
    ensures Matches(Failed(c, now, cfg), Noted(t, Failure(now), cfg))
  {
  }

  lemma {:induction false} RecordIsTrue(run: seq<Event>, cfg: Config)
    ensures Matches(Live(run, cfg).cam, Observed(run, cfg))
  {
    if run == [] {
    } else {
      var front, e := run[..|run| - 1], run[|run| - 1];
      RecordIsTrue(front, cfg);
      var l, t := Live(front, cfg), Observed(front, cfg);
      match e
      case Frame(now) => FrameIsNoted(l.cam, t, now, cfg);
      case Failure(now) => FailureIsNoted(l.cam, t, now, cfg);
      case Check(_) =>
    }
  }

  /** The time of the last failure, and 0 before the first. */
  function LastFailure(run: seq<Event>): int {
    if run == [] then 0
    else if run[|run| - 1].Failure? then run[|run| - 1].time
    else LastFailure(run[..|run| - 1])
  }

  /** The two other stamps: the last failure, and when the last outage began. */
  lemma {:induction false} StampsAreTrue(run: seq<Event>, cfg: Config)
    ensures var c, outages := Live(run, cfg).cam, Observed(run, cfg).outages;
      && c.lastFailure == LastFailure(run)
      && c.reconnectStart == if outages == [] then 0 else outages[|outages| - 1].start
  {
    if run == [] {
    } else {
      var front, e := run[..|run| - 1], run[|run| - 1];
      StampsAreTrue(front, cfg);
      RecordIsTrue(front, cfg);
      StepStamps(Live(front, cfg), Observed(front, cfg), e, cfg);
    }
  }

  lemma StepStamps(l: Life, t: Truth, e: Event, cfg: Config)
    requires Matches(l.cam, t)
    ensures var c, d, u := l.cam, Stepped(l, e, cfg).cam, Noted(t, e, cfg);
      && d.lastFailure == (if e.Failure? then e.time else c.lastFailure)
      && (c.reconnectStart == (if t.outages == [] then 0 else t.outages[|t.outages| - 1].start) ==>
          d.reconnectStart == if u.outages == [] then 0 else u.outages[|u.outages| - 1].start)
  {
    if e.Check? { CheckGives(l.cam, e.time, cfg); }
  }

  /** From the first frame or failure on, exactly one of the two times is set. */
  lemma {:induction false} ExactlyOneSince(run: seq<Event>, cfg: Config)
    ensures (exists i :: 0 <= i < |run| && !run[i].Check?)
       <==> Live(run, cfg).cam.offlineSince.Some? != Live(run, cfg).cam.onlineSince.Some?
    ensures (forall i :: 0 <= i < |run| ==> run[i].Check?)
       <==> Live(run, cfg).cam.offlineSince.None? && Live(run, cfg).cam.onlineSince.None?
  {
    if run == [] {
    } else {
      var front, e := run[..|run| - 1], run[|run| - 1];
      ExactlyOneSince(front, cfg);
      assert forall i :: 0 <= i < |front| ==> run[i] == front[i];
      Unset(front, cfg);
      if !e.Check? { assert !run[|run| - 1].Check?; }
    }
  }

  lemma {:induction false} Unset(run: seq<Event>, cfg: Config)
    ensures var c := Live(run, cfg).cam; c.offlineSince.None? && c.onlineSince.None? ==> c.lastFrame == 0
  {
    if run == [] {
    } else {
      Unset(run[..|run| - 1], cfg);
    }
  }

  // ---------------------------------------------------------------------------------------
  // Alerts over a run
  // ---------------------------------------------------------------------------------------

  /** How many offline alerts name outage number `k`; an alert names its outage by the number
      of reconnects before it. */
  function Raised(alerts: seq<Alert>, k: nat): nat {
    if alerts == [] then 0
    else
      var last := alerts[|alerts| - 1];
      Raised(alerts[..|alerts| - 1], k) + if last.Offline? && last.reconnects == k then 1 else 0
  }

  /** Some check of the run found outage number `k` going on for the threshold or longer. */
  predicate Overdue(run: seq<Event>, k: nat, cfg: Config) {
    && run != []
    && var front, e := run[..|run| - 1], run[|run| - 1];
       var t := Observed(front, cfg);
       || Overdue(front, k, cfg)
       || (e.Check? && k + 1 == |t.outages| && Down(t) && e.time - t.outages[k].start >= cfg.threshold)
  }

  lemma {:induction false} OverdueHappened(run: seq<Event>, k: nat, cfg: Config)
    requires Overdue(run, k, cfg)
    ensures k < |Observed(run, cfg).outages|
  {
    var front := run[..|run| - 1];
    if !Overdue(front, k, cfg) {
    } else {
      OverdueHappened(front, k, cfg);
    }
  }

  lemma RaisedSnoc(alerts: seq<Alert>, a: Alert, k: nat)
    ensures Raised(alerts + [a], k) == Raised(alerts, k) + if a.Offline? && a.reconnects == k then 1 else 0
  {
  }

  lemma {:induction false} SentIffOverdue(run: seq<Event>, cfg: Config)
    ensures var c, t := Live(run, cfg).cam, Observed(run, cfg);
            c.alertSent <==> Down(t) && Overdue(run, |t.outages| - 1, cfg)
  {
    if run == [] {
    } else {
      var front, e := run[..|run| - 1], run[|run| - 1];
      SentIffOverdue(front, cfg);
      RecordIsTrue(front, cfg);
      var c, t := Live(front, cfg).cam, Observed(front, cfg);
      if Overdue(front, |t.outages|, cfg) { OverdueHappened(front, |t.outages|, cfg); }
      match e
      case Frame(now) => FrameClears(c, t, now, cfg);
      case Failure(now) => FailureOpens(c, t, now, cfg);
      case Check(now) => CheckGives(c, now, cfg);
    }
  }

  lemma FrameClears(c: Cam, t: Truth, now: int, cfg: Config)
    requires Matches(c, t) && (c.alertSent ==> Down(t))
    ensures !Framed(c, now).alertSent && !Down(Noted(t, Frame(now), cfg))
  {
  }

  lemma FailureOpens(c: Cam, t: Truth, now: int, cfg: Config)
    ensures Failed(c, now, cfg).alertSent == c.alertSent
    ensures var u := Noted(t, Failure(now), cfg);
            u == t || (!Down(t) && Down(u) && |u.outages| == |t.outages| + 1)
  {
  }

  /**
   An outage gets one offline alert if some check finds it going on for the threshold or
   longer, and none otherwise.
   */
  lemma {:induction false} OneAlertPerOutage(run: seq<Event>, cfg: Config, k: nat)
    ensures Raised(Live(run, cfg).alerts, k) == if Overdue(run, k, cfg) then 1 else 0
  {
    if run == [] {
    } else {
      var front, e := run[..|run| - 1], run[|run| - 1];
      OneAlertPerOutage(front, cfg, k);
      if e.Check? {
        var l := Live(front, cfg);
        RecordIsTrue(front, cfg);
        SentIffOverdue(front, cfg);
        var new' := Checked(l.cam, e.time, cfg).1;
        CheckGives(l.cam, e.time, cfg);
        if new' != [] {
          RaisedSnoc(l.alerts, new'[0], k);
        } else {
          assert l.alerts + [] == l.alerts;
        }
      }
    }
  }

  /** A check gives at most one alert about a camera. */
  lemma CheckGives(c: Cam, now: int, cfg: Config)
    ensures var (d, a) := Checked(c, now, cfg);
      if OfflineDue(c, now, cfg) then
        d == c.(alertSent := true, outageAlerted := true) && a == [Offline(now - c.offlineSince.value, c.reconnects)]
      else if RecoveryDue(c, now, cfg) then
        && d == c.(outageAlerted := false, outageDuration := None)
        && a == [Recovered(if c.outageDuration.Some? then c.outageDuration.value else 0,
                           now - c.onlineSince.value, c.reconnects)]
      else d == c && a == []
  {
  }

  predicate LastIsOffline(alerts: seq<Alert>) {
    alerts != [] && alerts[|alerts| - 1].Offline?
  }

  /** What the flap suppressor remembers: an alert not yet recovered from, and how long the
      last outage was. */
  ghost predicate Remembers(l: Life, t: Truth) {
    && (l.cam.outageAlerted <==> LastIsOffline(l.alerts))
    && (l.cam.outageAlerted ==> t.outages != [])
    && (l.cam.outageAlerted && !Down(t) ==>
        var last := t.outages[|t.outages| - 1];
        l.cam.outageDuration == Some(last.end.value - last.start))
  }

  lemma {:induction false} FlapsRemembered(run: seq<Event>, cfg: Config)
    ensures Remembers(Live(run, cfg), Observed(run, cfg))
  {
    if run == [] {
    } else {
      var front, e := run[..|run| - 1], run[|run| - 1];
      FlapsRemembered(front, cfg);
      RecordIsTrue(front, cfg);
      var l, t := Live(front, cfg), Observed(front, cfg);
      assert Live(run, cfg) == Stepped(l, e, cfg) && Observed(run, cfg) == Noted(t, e, cfg);
      hide *;
      match e
      case Frame(now) => FrameRemembers(l, t, now, cfg);
      case Failure(now) => FailureRemembers(l, t, now, cfg);
      case Check(now) => CheckRemembers(l, t, now, cfg);
    }
  }

  lemma FrameRemembers(l: Life, t: Truth, now: int, cfg: Config)
    requires Remembers(l, t) && Matches(l.cam, t)
    ensures Remembers(Stepped(l, Frame(now), cfg), Noted(t, Frame(now), cfg))
  {
  }

  lemma FailureRemembers(l: Life, t: Truth, now: int, cfg: Config)
    requires Remembers(l, t) && Matches(l.cam, t)
    ensures Remembers(Stepped(l, Failure(now), cfg), Noted(t, Failure(now), cfg))
  {
  }

  lemma CheckRemembers(l: Life, t: Truth, now: int, cfg: Config)
    requires Remembers(l, t) && Matches(l.cam, t)
    ensures Remembers(Stepped(l, Check(now), cfg), Noted(t, Check(now), cfg))
  {
    CheckGives(l.cam, now, cfg);
  }

  /** Between two recovery alerts, and before the first, there is an offline alert. */
  lemma {:induction false} RecoveryFollowsOffline(run: seq<Event>, cfg: Config, i: nat)
    requires i < |Live(run, cfg).alerts| && Live(run, cfg).alerts[i].Recovered?
    ensures i > 0 && Live(run, cfg).alerts[i - 1].Offline?
  {
    var front, e := run[..|run| - 1], run[|run| - 1];
    if i < |Live(front, cfg).alerts| {
      RecoveryFollowsOffline(front, cfg, i);
    } else {
      FlapsRemembered(front, cfg);
      CheckGives(Live(front, cfg).cam, e.time, cfg);
    }
  }

  /**
   Exactly when a check reports a recovery: the last alert was an offline alert, and the camera
   has been up without an outage for the threshold or longer. The report gives the true length
   of the last outage and of the uptime since.
   */
  lemma RecoveredIff(run: seq<Event>, cfg: Config, now: int)
    ensures var l, t := Live(run, cfg), Observed(run, cfg);
            var alerts := Live(run + [Check(now)], cfg).alerts;
            if LastIsOffline(l.alerts) && t.outages != [] && !Down(t) && now - UpSince(t).value >= cfg.threshold then
              var last := t.outages[|t.outages| - 1];
              alerts == l.alerts + [Recovered(last.end.value - last.start, now - last.end.value, |t.outages|)]
            else |alerts| > |l.alerts| ==> LastIsOffline(alerts)
  {
    RecordIsTrue(run, cfg);
    FlapsRemembered(run, cfg);
    LiveSnoc(run, Check(now), cfg);
    hide *;
    CheckTells(Live(run, cfg), Observed(run, cfg), now, cfg);
  }

  /** Exactly when a check reports a camera offline: its current outage has lasted for the
      threshold or longer, and no check before has found so. The report gives the length of the
      outage so far, and how many there were before it. */
  lemma OfflineIff(run: seq<Event>, cfg: Config, now: int)
    ensures var l, t := Live(run, cfg), Observed(run, cfg);
            var alerts, k := Live(run + [Check(now)], cfg).alerts, |t.outages| - 1;
            if Down(t) && now - t.outages[k].start >= cfg.threshold && !Overdue(run, k, cfg) then
              alerts == l.alerts + [Offline(now - t.outages[k].start, k)]
            else |alerts| > |l.alerts| ==> !alerts[|alerts| - 1].Offline?
  {
    RecordIsTrue(run, cfg);
    SentIffOverdue(run, cfg);
    LiveSnoc(run, Check(now), cfg);
    hide Live, Observed, Overdue;
    CheckGives(Live(run, cfg).cam, now, cfg);
    hide Checked;
  }

  lemma CheckTells(l: Life, t: Truth, now: int, cfg: Config)
    requires Matches(l.cam, t) && Remembers(l, t)
    ensures var alerts := Stepped(l, Check(now), cfg).alerts;
            if LastIsOffline(l.alerts) && t.outages != [] && !Down(t) && now - UpSince(t).value >= cfg.threshold then
              var last := t.outages[|t.outages| - 1];
              alerts == l.alerts + [Recovered(last.end.value - last.start, now - last.end.value, |t.outages|)]
            else |alerts| > |l.alerts| ==> LastIsOffline(alerts)
  {
    CheckGives(l.cam, now, cfg);
  }

  // ---------------------------------------------------------------------------------------
  // All cameras
  // ---------------------------------------------------------------------------------------

  datatype TrackerEvent =
    | RecordFrame(name: string, time: int)
    | RecordFailure(name: string, time: int)
    | CheckAlerts(time: int)
    | RemoveCamera(name: string)

  function Get(lives: map<string, Life>, name: string): Life {
    if name in lives then lives[name] else Life(UNSEEN, [])
  }

  function CheckedAll(lives: map<string, Life>, now: int, cfg: Config): map<string, Life> {
    map name | name in lives :: CheckedLife(lives[name], now, cfg)
  }

  /** The tracked cameras, each with the alerts given about it since it was last added. */
  function Next(lives: map<string, Life>, e: TrackerEvent, cfg: Config): map<string, Life> {
    match e
    case RecordFrame(name, t) => var l := Get(lives, name); lives[name := l.(cam := Framed(l.cam, t))]
    case RecordFailure(name, t) => var l := Get(lives, name); lives[name := l.(cam := Failed(l.cam, t, cfg))]
    case CheckAlerts(t) => CheckedAll(lives, t, cfg)
    case RemoveCamera(name) => lives - {name}
  }

  function After(run: seq<TrackerEvent>, cfg: Config): map<string, Life> {
    if run == [] then map[] else Next(After(run[..|run| - 1], cfg), run[|run| - 1], cfg)
  }

  /** The events about a camera since it was last removed. */
  function Own(run: seq<TrackerEvent>, name: string): seq<Event> {
    if run == [] then [] else OwnNext(Own(run[..|run| - 1], name), run[|run| - 1], name)
  }

  function OwnNext(own: seq<Event>, e: TrackerEvent, name: string): seq<Event> {
    match e
    case RecordFrame(n, t) => if n == name then own + [Frame(t)] else own
    case RecordFailure(n, t) => if n == name then own + [Failure(t)] else own
    case CheckAlerts(t) => own + [Check(t)]
    case RemoveCamera(n) => if n == name then [] else own
  }

  lemma LiveSnoc(run: seq<Event>, e: Event, cfg: Config)
    ensures Live(run + [e], cfg) == Stepped(Live(run, cfg), e, cfg)
  {
  }

  lemma ProjectStep(lives: map<string, Life>, e: TrackerEvent, name: string, own: seq<Event>, cfg: Config)
    requires Get(lives, name) == Live(own, cfg)
    ensures Get(Next(lives, e, cfg), name) == Live(OwnNext(own, e, name), cfg)
  {
  }

  /** Every camera goes its own way: what the tracker knows and says about it depends on its
      own events alone. */
  lemma {:induction false} ProjectRun(run: seq<TrackerEvent>, name: string, cfg: Config)
    ensures Get(After(run, cfg), name) == Live(Own(run, name), cfg)
  {
    if run != [] {
      ProjectRun(run[..|run| - 1], name, cfg);
      hide Live, Next, Get, OwnNext;
      ProjectStep(After(run[..|run| - 1], cfg), run[|run| - 1], name, Own(run[..|run| - 1], name), cfg);
    } else {
      assert Live([], cfg) == Life(UNSEEN, []);
    }
  }

  // ---------------------------------------------------------------------------------------
  // The objects
  // ---------------------------------------------------------------------------------------

  class CameraState {
    ghost const name: string
    var lastFrame: int
    var lastFailure: int
    var offlineSince: Option<int>
    var onlineSince: Option<int>
    var reconnects: nat
    var reconnectStart: int
    var reconnectDuration: Option<int>
    var alertSent: bool
    var outageAlerted: bool
    var outageDuration: Option<int>

    ghost function Value(): Cam
      reads this
    {
      Cam(lastFrame, lastFailure, offlineSince, onlineSince, reconnects, reconnectStart, reconnectDuration,
          alertSent, outageAlerted, outageDuration)
    }

    constructor (ghost name: string)
      ensures Value() == UNSEEN && this.name == name
    {
      this.name := name;
      lastFrame, lastFailure, offlineSince, onlineSince := 0, 0, None, None;
      reconnects, reconnectStart, reconnectDuration := 0, 0, None;
      alertSent, outageAlerted, outageDuration := false, false, None;
    }

    method Frame(now: int)
      modifies this
      ensures Value() == Framed(old(Value()), now)
    {
      lastFrame := now;
      if offlineSince.Some? {
        var duration := now - offlineSince.value;
        reconnectDuration := Some(duration);
        reconnects := reconnects + 1;
        if outageAlerted {
          outageDuration := Some(duration);
        }
        offlineSince := None;
        onlineSince := Some(now);
        alertSent := false;
      } else if onlineSince.None? {
        onlineSince := Some(now);
      }
    }

    method Failure(now: int, cfg: Config)
      modifies this
      ensures Value() == Failed(old(Value()), now, cfg)
    {
      lastFailure := now;
      if offlineSince.None? {
        if lastFrame == 0 || now - lastFrame > cfg.debounce {
          offlineSince := Some(now);
          onlineSince := None;
          reconnectStart := now;
        }
      }
    }

    method CheckOffline(now: int, cfg: Config) returns (out: seq<Alert>)
      modifies this
      ensures (Value(), out) == OfflinePart(old(Value()), now, cfg)
    {
      out := [];
      if offlineSince.Some? && !alertSent && now - offlineSince.value >= cfg.threshold {
        alertSent := true;
        outageAlerted := true;
        out := [Offline(now - offlineSince.value, reconnects)];
      }
    }

    method CheckRecovered(now: int, cfg: Config) returns (out: seq<Alert>)
      modifies this
      ensures (Value(), out) == RecoveryPart(old(Value()), now, cfg)
    {
      out := [];
      if outageAlerted && offlineSince.None? && onlineSince.Some? && now - onlineSince.value >= cfg.threshold {
        var down := if outageDuration.Some? then outageDuration.value else 0;
        out := [Recovered(down, now - onlineSince.value, reconnects)];
        outageAlerted := false;
        outageDuration := None;
      }
    }
  }

  /** The alerts of a list that are about one camera. */
  function About(alerts: seq<(string, Alert)>, name: string): seq<Alert> {
    if alerts == [] then []
    else
      var last := alerts[|alerts| - 1];
      About(alerts[..|alerts| - 1], name) + if last.0 == name then [last.1] else []
  }

  function Tagged(name: string, out: seq<Alert>): seq<(string, Alert)> {
    seq(|out|, i requires 0 <= i < |out| => (name, out[i]))
  }

  lemma {:induction false} AboutAppend(a: seq<(string, Alert)>, b: seq<(string, Alert)>, name: string)
    ensures About(a + b, name) == About(a, name) + About(b, name)
  {
    if b == [] {
      assert a + b == a;
    } else {
      assert (a + b)[..|a + b| - 1] == a + b[..|b| - 1];
      AboutAppend(a, b[..|b| - 1], name);
    }
  }

  lemma {:induction false} AboutTagged(name: string, out: seq<Alert>, other: string)
    ensures About(Tagged(name, out), other) == if name == other then out else []
  {
    if out == [] {
    } else {
      AboutTagged(name, out[..|out| - 1], other);
      assert Tagged(name, out)[..|out| - 1] == Tagged(name, out[..|out| - 1]);
    }
  }

  lemma AboutMore(alerts: seq<(string, Alert)>, name: string, out: seq<Alert>)
    ensures forall n :: About(alerts + Tagged(name, out), n) == About(alerts, n) + if n == name then out else []
  {
    forall n ensures About(alerts + Tagged(name, out), n) == About(alerts, n) + if n == name then out else [] {
      AboutAppend(alerts, Tagged(name, out), n);
      AboutTagged(name, out, n);
    }
  }

  /** The loops of a check: the first raises offline alerts, the second recoveries. */
  function Part(second: bool, c: Cam, now: int, cfg: Config): (Cam, seq<Alert>) {
    if second then RecoveryPart(c, now, cfg) else OfflinePart(c, now, cfg)
  }

  /** A loop has dealt with all cameras but those to do. */
  ghost predicate Dealt(second: bool, was: map<string, Cam>, now': map<string, Cam>, alerts: seq<(string, Alert)>,
                        todo: set<string>, now: int, cfg: Config)
  {
    && was.Keys == now'.Keys && todo <= was.Keys
    && (forall n :: n in was ==>
         (now'[n], About(alerts, n)) == if n in todo then (was[n], []) else Part(second, was[n], now, cfg))
    && (forall n :: n !in was ==> About(alerts, n) == [])
  }

  lemma DealtStep(second: bool, was: map<string, Cam>, now': map<string, Cam>, alerts: seq<(string, Alert)>,
                  todo: set<string>, now: int, cfg: Config, name: string)
    requires Dealt(second, was, now', alerts, todo, now, cfg) && name in todo
    ensures name in now'
    ensures Dealt(second, was, now'[name := Part(second, now'[name], now, cfg).0],
                  alerts + Tagged(name, Part(second, now'[name], now, cfg).1), todo - {name}, now, cfg)
  {
    hide Part, About, Tagged;
    var out := Part(second, now'[name], now, cfg).1;
    AboutMore(alerts, name, out);
    assert About(alerts, name) == [] && [] + out == out;
    assert forall n :: About(alerts, n) + [] == About(alerts, n);
  }

  class CameraHealthTracker {
    const cfg: Config
    var cameras: map<string, CameraState>
    ghost var view: map<string, Cam>

    ghost predicate Shows(name: string)
      reads this, cameras.Values
    {
      && name in cameras && name in view
      && cameras[name].name == name && cameras[name].Value() == view[name]
    }

    ghost predicate Valid()
      reads this, cameras.Values
    {
      cameras.Keys == view.Keys && forall name :: name in cameras ==> Shows(name)
    }

    constructor (cfg: Config)
      ensures Valid() && view == map[] && this.cfg == cfg
    {
      this.cfg, cameras, view := cfg, map[], map[];
    }

    /** `setdefault`. */
    method Ensure(name: string) returns (state: CameraState)
      requires Valid()
      modifies this
      ensures Valid() && name in cameras && state == cameras[name]
      ensures view == if name in old(view) then old(view) else old(view)[name := UNSEEN]
      ensures fresh(state) || state in old(cameras.Values)
      ensures cameras.Values <= old(cameras.Values) + {state}
    {
      if name !in cameras {
        state := new CameraState(name);
        cameras := cameras[name := state];
        view := view[name := UNSEEN];
        forall n | n in cameras ensures Shows(n) {
          assert n != name ==> old(Shows(n));
        }
      }
      state := cameras[name];
    }

    method FrameTurn(name: string, now: int)
      requires Valid() && name in cameras
      modifies this`view, cameras[name]
      ensures Valid() && view == old(view)[name := Framed(old(view)[name], now)]
    {
      hide Framed;
      assert Shows(name);
      cameras[name].Frame(now);
      view := view[name := Framed(view[name], now)];
      forall n | n in cameras ensures Shows(n) {
        assert old(Shows(n));
      }
    }

    method RecordFrame(name: string, now: int)
      requires Valid()
      modifies this, cameras.Values
      ensures Valid()
      ensures view == old(view)[name := Framed(if name in old(view) then old(view)[name] else UNSEEN, now)]
    {
      hide Framed, Shows;
      var state := Ensure(name);
      FrameTurn(name, now);
    }

    method FailureTurn(name: string, now: int)
      requires Valid() && name in cameras
      modifies this`view, cameras[name]
      ensures Valid() && view == old(view)[name := Failed(old(view)[name], now, cfg)]
    {
      hide Failed;
      assert Shows(name);
      cameras[name].Failure(now, cfg);
      view := view[name := Failed(view[name], now, cfg)];
      forall n | n in cameras ensures Shows(n) {
        assert old(Shows(n));
      }
    }

    method RecordFailure(name: string, now: int)
      requires Valid()
      modifies this, cameras.Values
      ensures Valid()
      ensures view == old(view)[name := Failed(if name in old(view) then old(view)[name] else UNSEEN, now, cfg)]
    {
      hide Failed, Shows;
      var state := Ensure(name);
      FailureTurn(name, now);
    }

    method RemoveCamera(name: string)
      requires Valid()
      modifies this
      ensures Valid() && view == old(view) - {name}
    {
      cameras := cameras - {name};
      view := view - {name};
      forall n | n in cameras ensures Shows(n) {
        assert old(Shows(n));
      }
    }

    method Turn(second: bool, name: string, now: int) returns (out: seq<Alert>)
      requires Valid() && name in cameras
      modifies this`view, cameras[name]
      ensures Valid() && view == old(view)[name := Part(second, old(view)[name], now, cfg).0]
      ensures out == Part(second, old(view)[name], now, cfg).1
    {
      hide OfflinePart, RecoveryPart;
      assert Shows(name);
      if second {
        out := cameras[name].CheckRecovered(now, cfg);
      } else {
        out := cameras[name].CheckOffline(now, cfg);
      }
      view := view[name := Part(second, view[name], now, cfg).0];
      forall n | n in cameras ensures Shows(n) {
        assert old(Shows(n));
      }
    }

    /** One of the two loops of a check, in any order of the cameras. */
    method Loop(second: bool, now: int) returns (alerts: seq<(string, Alert)>)
      requires Valid()
      modifies this`view, cameras.Values
      ensures Valid() && Dealt(second, old(view), view, alerts, {}, now, cfg)
    {
      alerts := [];
      var todo := cameras.Keys;
      assert Dealt(second, view, view, alerts, todo, now, cfg);
      hide Dealt, Part, Valid, About, Tagged;
      while todo != {}
        invariant Valid() && todo <= cameras.Keys && Dealt(second, old(view), view, alerts, todo, now, cfg)
        decreases |todo|
      {
        var name :| name in todo;
        alerts := Deal(second, name, now, alerts, old(view), todo);
        todo := todo - {name};
      }
    }

    method Deal(second: bool, name: string, now: int, alerts: seq<(string, Alert)>,
                ghost was: map<string, Cam>, ghost todo: set<string>) returns (more: seq<(string, Alert)>)
      requires Valid() && name in cameras && name in todo && Dealt(second, was, view, alerts, todo, now, cfg)
      modifies this`view, cameras[name]
      ensures Valid() && Dealt(second, was, view, more, todo - {name}, now, cfg)
    {
      DealtStep(second, was, view, alerts, todo, now, cfg, name);
      hide Dealt, Part, Valid, About, Tagged;
      var out := Turn(second, name, now);
      more := alerts + Tagged(name, out);
    }

    /** All offline alerts of a check come before all recoveries. */
    method CheckAlerts(now: int) returns (offline: seq<(string, Alert)>, recovered: seq<(string, Alert)>)
      requires Valid()
      modifies this`view, cameras.Values
      ensures Valid() && view.Keys == old(view).Keys
      ensures forall n :: n in view ==>
        (view[n], About(offline, n) + About(recovered, n)) == Checked(old(view)[n], now, cfg)
      ensures forall n :: n !in view ==> About(offline, n) + About(recovered, n) == []
    {
      hide OfflinePart, RecoveryPart, Shows;
      offline := Loop(false, now);
      recovered := Loop(true, now);
    }
  }
}
