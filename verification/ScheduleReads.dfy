/**
 What the getters of services/detector/src/scheduler.py answer while a reconfiguration is going
 on. `configure` assigns the fields one after the other under a lock, the getters read them one
 after the other without it. So an answer can belong to neither configuration, and a getter that
 finds a time and then reads it again can find none, and raises.
 */
module ScheduleReads {
  import opened Wrappers
  import opened Scheduler

  /** The fields in the order in which they are assigned; times are offsets from local midnight. */
  datatype Fields = Fields(
    zone: string,
    solar: bool,
    latitude: Option<real>,
    longitude: Option<real>,
    arm: Option<int>,
    disarm: Option<int>)

  /** Time zones, by date, local time and zone; sunrise and sunset, by date and place. */
  datatype World = World(
    utc: (int, int, string) -> int,
    sunrise: (int, real, real) -> Option<int>,
    sunset: (int, real, real) -> Option<int>)

  function TimeOf(f: Fields, armed: bool): Option<int> {
    if armed then f.arm else f.disarm
  }

  function Sun(w: World, armed: bool, d: int, latitude: Option<real>, longitude: Option<real>): Option<int> {
    if latitude.None? || longitude.None? then None
    else if armed then w.sunrise(d, latitude.value, longitude.value)
    else w.sunset(d, latitude.value, longitude.value)
  }

  /** What a getter answers for a date when nothing interferes. */
  function Answer(w: World, f: Fields, armed: bool, d: int): Option<int> {
    if f.solar then Sun(w, armed, d, f.latitude, f.longitude)
    else if TimeOf(f, armed).Some? then Some(w.utc(d, TimeOf(f, armed).value, f.zone))
    else None
  }

  function ScheduleOf(w: World, f: Fields): Schedule {
    Schedule(d => Answer(w, f, true, d), d => Answer(w, f, false, d))
  }

  /** By the sun, the alarm is armed at sunrise and disarmed at sunset of the place, and never if
      a coordinate is missing; otherwise at the two times in the zone, each only if it is set. */
  lemma AnswersAre(w: World, f: Fields, d: int)
    ensures f.solar && f.latitude.Some? && f.longitude.Some? ==>
      && ScheduleOf(w, f).arm(d) == w.sunrise(d, f.latitude.value, f.longitude.value)
      && ScheduleOf(w, f).disarm(d) == w.sunset(d, f.latitude.value, f.longitude.value)
    ensures f.solar && (f.latitude.None? || f.longitude.None?) ==>
      ScheduleOf(w, f).arm(d) == None && ScheduleOf(w, f).disarm(d) == None
    ensures !f.solar ==>
      && (ScheduleOf(w, f).arm(d).Some? <==> f.arm.Some?) && (ScheduleOf(w, f).disarm(d).Some? <==> f.disarm.Some?)
      && (f.arm.Some? ==> ScheduleOf(w, f).arm(d) == Some(w.utc(d, f.arm.value, f.zone)))
      && (f.disarm.Some? ==> ScheduleOf(w, f).disarm(d) == Some(w.utc(d, f.disarm.value, f.zone)))
  {
  }

  // ---------------------------------------------------------------------------------------
  // Interrupted getters
  // ---------------------------------------------------------------------------------------

  /** The fields after the first `k` assignments that turn `f` into `g`. */
  function Midway(f: Fields, g: Fields, k: nat): Fields {
    Fields(if k >= 1 then g.zone else f.zone,
           if k >= 2 then g.solar else f.solar,
           if k >= 3 then g.latitude else f.latitude,
           if k >= 4 then g.longitude else f.longitude,
           if k >= 5 then g.arm else f.arm,
           if k >= 6 then g.disarm else f.disarm)
  }

  datatype Outcome = Answered(at: Option<int>) | Raised

  /** One call of a getter: the field at each read is what it is after so many assignments. */
  function Read(w: World, f: Fields, g: Fields, armed: bool, d: int,
                solar: nat, first: nat, second: nat, third: nat): Outcome
  {
    if Midway(f, g, solar).solar then
      Answered(Sun(w, armed, d, Midway(f, g, first).latitude, Midway(f, g, second).longitude))
    else if TimeOf(Midway(f, g, first), armed).None? then Answered(None)
    else
      var time := TimeOf(Midway(f, g, second), armed);
      if time.None? then Raised else Answered(Some(w.utc(d, time.value, Midway(f, g, third).zone)))
  }

  /** The reads of a call come in this order, at any distance. */
  predicate InTurn(solar: nat, first: nat, second: nat, third: nat) {
    solar <= first <= second <= third
  }

  ghost predicate Returns(w: World, f: Fields, g: Fields, armed: bool, d: int, o: Outcome) {
    exists solar: nat, first: nat, second: nat, third: nat ::
      InTurn(solar, first, second, third) && Read(w, f, g, armed, d, solar, first, second, third) == o
  }

  /** A mixture whose answers a getter can give: never a new time in the old zone, but the old
      time in the new zone; and for the sun, either latitude with either longitude. */
  ghost predicate Blend(h: Fields, f: Fields, g: Fields) {
    || (!f.solar && h == f)
    || ((!f.solar || !g.solar) && (h == f.(solar := false, zone := g.zone) || h == g.(solar := false)))
    || ((f.solar || g.solar) && Place(h, f, g))
  }

  ghost predicate Place(h: Fields, f: Fields, g: Fields) {
    && h == f.(solar := true, latitude := h.latitude, longitude := h.longitude)
    && (h.latitude == f.latitude || h.latitude == g.latitude)
    && (h.longitude == f.longitude || h.longitude == g.longitude)
  }

  /** Exactly the answers of the mixtures can be given. */
  lemma AnsweredIff(w: World, f: Fields, g: Fields, armed: bool, d: int, t: Option<int>)
    ensures Returns(w, f, g, armed, d, Answered(t)) <==> exists h :: Blend(h, f, g) && t == Answer(w, h, armed, d)
  {
    forall solar: nat, first: nat, second: nat, third: nat |
      InTurn(solar, first, second, third) && Read(w, f, g, armed, d, solar, first, second, third) == Answered(t)
      ensures exists h :: Blend(h, f, g) && t == Answer(w, h, armed, d)
    {
      var h := BlendOf(w, f, g, armed, d, solar, first, second, third);
    }
    forall h | Blend(h, f, g) && t == Answer(w, h, armed, d) ensures Returns(w, f, g, armed, d, Answered(t)) {
      var solar, first, second, third := MomentsOf(w, f, g, armed, d, h);
    }
  }

  /** The mixture that a call has read. */
  lemma BlendOf(w: World, f: Fields, g: Fields, armed: bool, d: int, solar: nat, first: nat, second: nat, third: nat)
    returns (h: Fields)
    requires InTurn(solar, first, second, third)
    requires Read(w, f, g, armed, d, solar, first, second, third).Answered?
    ensures Blend(h, f, g)
    ensures Read(w, f, g, armed, d, solar, first, second, third) == Answered(Answer(w, h, armed, d))
  {
    var written := if armed then 5 else 6;
    if Midway(f, g, solar).solar {
      h := f.(solar := true, latitude := Midway(f, g, first).latitude, longitude := Midway(f, g, second).longitude);
    } else if TimeOf(Midway(f, g, first), armed).None? {
      h := if first >= written then g.(solar := false)
           else if solar >= 1 then f.(solar := false, zone := g.zone)
           else f;
    } else {
      h := if second >= written then g.(solar := false)
           else if third >= 1 then f.(solar := false, zone := g.zone)
           else f;
    }
  }

  /** When a call has to read to see the mixture. */
  lemma MomentsOf(w: World, f: Fields, g: Fields, armed: bool, d: int, h: Fields)
    returns (solar: nat, first: nat, second: nat, third: nat)
    requires Blend(h, f, g)
    ensures InTurn(solar, first, second, third)
    ensures Read(w, f, g, armed, d, solar, first, second, third) == Answered(Answer(w, h, armed, d))
  {
    if h.solar {
      solar := if f.solar then 0 else 2;
      if h.latitude == f.latitude {
        first, second, third := solar, if h.longitude == f.longitude then solar else 4, 6;
      } else {
        first, second, third := 3, if h.longitude == f.longitude then 3 else 4, 6;
      }
    } else if !f.solar && h == f {
      solar, first, second, third := 0, 0, 0, 0;
    } else {
      solar := if f.solar then 2 else 0;
      if h == f.(solar := false, zone := g.zone) {
        first, second, third := solar, solar, 2;
      } else {
        first, second, third := 6, 6, 6;
      }
    }
  }

  /** A getter can raise exactly when a time goes away and one of the configurations uses it. */
  lemma RaisesIff(w: World, f: Fields, g: Fields, armed: bool, d: int)
    ensures Returns(w, f, g, armed, d, Raised)
       <==> TimeOf(f, armed).Some? && TimeOf(g, armed).None? && (!f.solar || !g.solar)
  {
    if TimeOf(f, armed).Some? && TimeOf(g, armed).None? && (!f.solar || !g.solar) {
      var solar: nat := if f.solar then 2 else 0;
      assert InTurn(solar, solar, 6, 6) && Read(w, f, g, armed, d, solar, solar, 6, 6) == Raised;
    }
  }

  // ---------------------------------------------------------------------------------------
  // Interrupted ticks
  // ---------------------------------------------------------------------------------------

  /** What a tick can see while `g` replaces `f`: an answer of some call for every date. */
  ghost predicate Interrupted(w: World, f: Fields, g: Fields, s: Schedule) {
    forall d :: Returns(w, f, g, true, d, Answered(s.arm(d))) && Returns(w, f, g, false, d, Answered(s.disarm(d)))
  }

  /** Whatever an interrupted tick sees keeps to the UTC day exactly if all mixtures do. */
  lemma InterruptedInDayIff(w: World, f: Fields, g: Fields)
    ensures (forall s :: Interrupted(w, f, g, s) ==> InDay(s))
       <==> forall h :: Blend(h, f, g) ==> InDay(ScheduleOf(w, h))
  {
    if forall h :: Blend(h, f, g) ==> InDay(ScheduleOf(w, h)) {
      forall s | Interrupted(w, f, g, s) ensures InDay(s) {
        BlendsLand(w, f, g, s);
      }
    }
    if forall s :: Interrupted(w, f, g, s) ==> InDay(s) {
      forall h | Blend(h, f, g) ensures InDay(ScheduleOf(w, h)) {
        BlendIsSeen(w, f, g, h);
      }
    }
  }

  lemma BlendsLand(w: World, f: Fields, g: Fields, s: Schedule)
    requires Interrupted(w, f, g, s) && forall h :: Blend(h, f, g) ==> InDay(ScheduleOf(w, h))
    ensures InDay(s)
  {
    forall d ensures Landed(s.arm(d), d) && Landed(s.disarm(d), d) {
      AnsweredIff(w, f, g, true, d, s.arm(d));
      AnsweredIff(w, f, g, false, d, s.disarm(d));
      var a :| Blend(a, f, g) && s.arm(d) == Answer(w, a, true, d);
      var b :| Blend(b, f, g) && s.disarm(d) == Answer(w, b, false, d);
      assert Landed(ScheduleOf(w, a).arm(d), d) && Landed(ScheduleOf(w, b).disarm(d), d);
    }
  }

  lemma BlendIsSeen(w: World, f: Fields, g: Fields, h: Fields)
    requires Blend(h, f, g)
    ensures Interrupted(w, f, g, ScheduleOf(w, h))
  {
    forall d
      ensures Returns(w, f, g, true, d, Answered(Answer(w, h, true, d)))
           && Returns(w, f, g, false, d, Answered(Answer(w, h, false, d)))
    {
      AnsweredIff(w, f, g, true, d, Answer(w, h, true, d));
      AnsweredIff(w, f, g, false, d, Answer(w, h, false, d));
    }
  }

  /** Between two configurations with fixed times, one condition is added: the old times in the
      new zone. */
  lemma FixedTimesInDayIff(w: World, f: Fields, g: Fields)
    requires !f.solar && !g.solar
    ensures (forall s :: Interrupted(w, f, g, s) ==> InDay(s))
       <==> InDay(ScheduleOf(w, f)) && InDay(ScheduleOf(w, g)) && InDay(ScheduleOf(w, f.(zone := g.zone)))
  {
    InterruptedInDayIff(w, f, g);
    assert Blend(f, f, g) && Blend(g, f, g) && Blend(f.(zone := g.zone), f, g);
    forall h | Blend(h, f, g) ensures h == f || h == g || h == f.(zone := g.zone) {
    }
  }

  const HOUR: int := 3_600_000_000

  /** New York in winter, every other zone at UTC. */
  function Winter(d: int, time: int, zone: string): int {
    d * DAY + time + if zone == "America/New_York" then 5 * HOUR else 0
  }

  /** From 22:00 UTC to 06:00 New York: each lies within its day, but a tick in between can see
      22:00 New York, which is 03:00 of the next date. */
  lemma TornRead()
    ensures var w := World(Winter, (d, x, y) => None, (d, x, y) => None);
      var f := Fields("UTC", false, None, None, Some(22 * HOUR), Some(6 * HOUR));
      var g := Fields("America/New_York", false, None, None, Some(6 * HOUR), Some(18 * HOUR));
      && InDay(ScheduleOf(w, f)) && InDay(ScheduleOf(w, g))
      && exists s :: Interrupted(w, f, g, s) && s.arm(0) == Some(27 * HOUR) && !InDay(s)
  {
    var w := World(Winter, (d, x, y) => None, (d, x, y) => None);
    var f := Fields("UTC", false, None, None, Some(22 * HOUR), Some(6 * HOUR));
    var g := Fields("America/New_York", false, None, None, Some(6 * HOUR), Some(18 * HOUR));
    var h := f.(zone := g.zone);
    var s := ScheduleOf(w, h);
    BlendIsSeen(w, f, g, h);
    assert s.arm(0) == Some(27 * HOUR) && !Landed(s.arm(0), 0);
  }
}
