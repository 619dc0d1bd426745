/**
 The reference-counted model pool (services/detector/src/model_pool.py) and the camera
 bookkeeping that uses it: start, stop and configuration reload
 (services/detector/src/main.py).

 This file holds the values and the functions that specify the operations, and the
 theorems about them; Supervisor.dfy holds the objects.
 */
module HotReload {

  import opened Wrappers

  /** A loaded detector; `id` tells one load of a file from another. */
  datatype Model = Model(id: nat, confidence: real, classes: set<string>)

  datatype Pool = Pool(
    path: string,
    confidence: real,
    classes: seq<string>,
    models: map<string, Model>,
    refs: map<string, int>,
    loads: nat)

  datatype CameraCfg = CameraCfg(
    name: string,
    model: Option<string>,
    classes: Option<set<string>>,
    zones: seq<string>,
    notificationRules: Option<seq<string>>,
    actionRules: Option<seq<string>>,
    deterrentRules: seq<string>,
    confidence: Option<real>)

  /** A configuration, with the enabled cameras in file order. */
  datatype Config = Config(model: Option<string>, confidence: real, classes: seq<string>, cameras: seq<CameraCfg>)

  /** CameraState: what is remembered about a running camera. */
  datatype Camera = Camera(
    path: string,
    classes: Option<set<string>>,
    zones: seq<string>,
    rules: seq<string>,
    deterrentRules: seq<string>,
    confidence: Option<real>,
    detector: nat)

  datatype System = System(pool: Pool, active: map<string, Camera>)

  /** What the disk and the model loader answer to one attempt to start a camera. */
  datatype Verdict = Verdict(fileExists: bool, loadOk: bool)

  function Elements(s: seq<string>): set<string> {
    set x | x in s
  }

  // ---- ModelPool -----------------------------------------------------------------------

  /** `model_path or self._default_model_path` */
  function Resolve(pool: Pool, path: Option<string>): string {
    if path.None? || path.value == "" then pool.path else path.value
  }

  function Acquired(pool: Pool, path: string, loadOk: bool): Option<Pool> {
    if path in pool.models && path in pool.refs then
      Some(pool.(refs := pool.refs[path := pool.refs[path] + 1]))
    else if path !in pool.models && loadOk then
      Some(pool.(models := pool.models[path := Model(pool.loads, pool.confidence, Elements(pool.classes))],
                 refs := pool.refs[path := 1],
                 loads := pool.loads + 1))
    else None
  }

  function Released(pool: Pool, path: string): Pool {
    if path !in pool.refs then pool
    else if pool.refs[path] - 1 <= 0 then pool.(models := pool.models - {path}, refs := pool.refs - {path})
    else pool.(refs := pool.refs[path := pool.refs[path] - 1])
  }

  function Updated(pool: Pool, path: string, confidence: real, classes: seq<string>): Pool {
    pool.(path := path, confidence := confidence, classes := classes,
          models := map p | p in pool.models :: pool.models[p].(confidence := confidence, classes := Elements(classes)))
  }

  // ---- Start, stop, patch --------------------------------------------------------------

  /** notification_rules, or the legacy action_rules when that key is absent. */
  function RulesOf(c: CameraCfg): seq<string> {
    if c.notificationRules.Some? then c.notificationRules.value
    else if c.actionRules.Some? then c.actionRules.value
    else []
  }

  function Running(c: CameraCfg, path: string, detector: nat): Camera {
    Camera(path, c.classes, c.zones, RulesOf(c), c.deterrentRules, c.confidence, detector)
  }

  function Started(s: System, c: CameraCfg, v: Verdict): (System, bool) {
    var path := Resolve(s.pool, c.model);
    if path == "" || !v.fileExists then (s, false)
    else match Acquired(s.pool, path, v.loadOk)
      case None => (s, false)
      case Some(pool) => (System(pool, s.active[c.name := Running(c, path, IdOf(pool, path))]), true)
  }

  function IdOf(pool: Pool, path: string): nat {
    if path in pool.models then pool.models[path].id else 0
  }

  function Stopped(s: System, name: string): System {
    if name !in s.active then s
    else System(Released(s.pool, Resolve(s.pool, Some(s.active[name].path))), s.active - {name})
  }

  function Restarted(s: System, c: CameraCfg, v: Verdict): (System, bool) {
    Started(Stopped(s, c.name), c, v)
  }

  function Patched(s: System, c: CameraCfg): System
    requires c.name in s.active
  {
    var cam := s.active[c.name];
    s.(active := s.active[c.name :=
      cam.(zones := c.zones, rules := RulesOf(c), deterrentRules := c.deterrentRules, confidence := c.confidence)])
  }

  // ---- Reload --------------------------------------------------------------------------

  /** One verdict for every attempt of a reload: by camera name in the pass that follows a
      change of the global classes, by position in the pass over the new list. */
  datatype Oracle = Oracle(early: string -> Verdict, late: nat -> Verdict)

  /** What a reload ends in; `crashed` when looking up a camera raised KeyError. */
  datatype Reload = Reload(sys: System, crashed: bool, allStarted: bool)

  function Names(cameras: seq<CameraCfg>): set<string> {
    set i | 0 <= i < |cameras| :: cameras[i].name
  }

  /** The first camera with this name. */
  function Find(cameras: seq<CameraCfg>, name: string): (c: CameraCfg)
    requires name in Names(cameras)
    ensures exists i :: 0 <= i < |cameras| && c == cameras[i] && c.name == name && name !in Names(cameras[..i])
  {
    if cameras[0].name == name then
      assert name !in Names(cameras[..0]);
      cameras[0]
    else
      assert name in Names(cameras[1..]) by {
        var i :| 0 <= i < |cameras| && cameras[i].name == name;
        assert cameras[1..][i - 1].name == name;
      }
      FindLater(cameras, name);
      Find(cameras[1..], name)
  }

  lemma FindLater(cameras: seq<CameraCfg>, name: string)
    requires cameras != [] && cameras[0].name != name
    ensures forall i :: 0 <= i < |cameras| - 1 && name !in Names(cameras[1..][..i]) ==> name !in Names(cameras[..i + 1])
  {
    forall i | 0 <= i < |cameras| - 1 && name !in Names(cameras[1..][..i]) ensures name !in Names(cameras[..i + 1]) {
      assert cameras[..i + 1] == [cameras[0]] + cameras[1..][..i];
    }
  }

  /** Restart a camera that relies on the global classes. */
  function ClassStep(s: System, cameras: seq<CameraCfg>, early: string -> Verdict, name: string): (System, bool) {
    if name in s.active && s.active[name].classes.None? && name in Names(cameras)
    then Restarted(s, Find(cameras, name), early(name))
    else (s, true)
  }

  function ClassPass(s: System, cameras: seq<CameraCfg>, early: string -> Verdict, order: seq<string>): (System, bool)
    decreases |order|
  {
    if order == [] then (s, true)
    else
      var (s1, ok1) := ClassStep(s, cameras, early, order[0]);
      var (s2, ok2) := ClassPass(s1, cameras, early, order[1..]);
      (s2, ok1 && ok2)
  }

  /** The model or the class filter differs from what the camera runs with. */
  function Differs(s: System, c: CameraCfg): bool
    requires c.name in s.active
  {
    Resolve(s.pool, c.model) != s.active[c.name].path || c.classes != s.active[c.name].classes
  }

  /** A camera that was there before: restart it or patch it. */
  function Adjusted(s: System, c: CameraCfg, v: Verdict): (System, bool)
    requires c.name in s.active
  {
    if Differs(s, c) then Restarted(s, c, v) else (Patched(s, c), true)
  }

  /** One camera of the new list; `known` are the names active before the reload. */
  function ListStep(s: System, c: CameraCfg, v: Verdict, known: set<string>): Reload {
    if c.name !in known then
      var (s1, ok) := Started(s, c, v);
      Reload(s1, false, ok)
    else if c.name !in s.active then Reload(s, true, true)
    else
      var (s1, ok) := Adjusted(s, c, v);
      Reload(s1, false, ok)
  }

  function ListPass(s: System, cameras: seq<CameraCfg>, late: nat -> Verdict, known: set<string>, i: nat): Reload
    requires i <= |cameras|
    decreases |cameras| - i
  {
    if i == |cameras| then Reload(s, false, true)
    else
      var r := ListStep(s, cameras[i], late(i), known);
      if r.crashed then r
      else
        var rest := ListPass(r.sys, cameras, late, known, i + 1);
        rest.(allStarted := r.allStarted && rest.allStarted)
  }

  function StopPass(s: System, names: seq<string>): System
    decreases |names|
  {
    if names == [] then s else StopPass(Stopped(s, names[0]), names[1..])
  }

  /** `order` enumerates the active cameras, `removed` those missing from the new list; the
      theorems hold for every enumeration. */
  ghost predicate Enumerates(s: System, cfg: Config, order: seq<string>, removed: seq<string>) {
    && (forall i, j :: 0 <= i < j < |order| ==> order[i] != order[j])
    && Elements(order) == s.active.Keys
    && Elements(removed) == s.active.Keys - Names(cfg.cameras)
  }

  /** The pool after update_defaults. */
  function Defaulted(s: System, cfg: Config): System {
    s.(pool := Updated(s.pool, if cfg.model.Some? then cfg.model.value else s.pool.path, cfg.confidence, cfg.classes))
  }

  function ClassesChange(s: System, cfg: Config): bool {
    Elements(cfg.classes) != Elements(s.pool.classes)
  }

  /** After update_defaults and, if the global classes change, the restarts that follow. */
  function Refreshed(s: System, cfg: Config, early: string -> Verdict, order: seq<string>): (System, bool) {
    if ClassesChange(s, cfg) then ClassPass(Defaulted(s, cfg), cfg.cameras, early, order) else (Defaulted(s, cfg), true)
  }

  function Reloaded(s: System, cfg: Config, oracle: Oracle, order: seq<string>, removed: seq<string>): Reload {
    var (s2, ok) := Refreshed(s, cfg, oracle.early, order);
    var r := ListPass(s2, cfg.cameras, oracle.late, s.active.Keys, 0);
    if r.crashed then r.(allStarted := false)
    else Reload(StopPass(r.sys, removed), false, ok && r.allStarted)
  }

  /** The start-up loop, from an empty pool. */
  function ColdPass(s: System, cameras: seq<CameraCfg>, late: nat -> Verdict, i: nat): (System, bool)
    requires i <= |cameras|
    decreases |cameras| - i
  {
    if i == |cameras| then (s, true)
    else
      var (s1, ok1) := Started(s, cameras[i], late(i));
      var (s2, ok2) := ColdPass(s1, cameras, late, i + 1);
      (s2, ok1 && ok2)
  }

  function ColdStarted(cfg: Config, late: nat -> Verdict): (System, bool)
    requires cfg.model.Some?
  {
    ColdPass(System(Pool(cfg.model.value, cfg.confidence, cfg.classes, map[], map[], 0), map[]), cfg.cameras, late, 0)
  }

  // ---- Pool safety ---------------------------------------------------------------------

  ghost function Users(active: map<string, Camera>, path: string): set<string> {
    set n | n in active && active[n].path == path
  }

  /** The two dicts of the pool have the same keys; each count is positive and equals the
      number of active cameras on that path; every camera's detector is the pooled one. */
  ghost predicate Safe(s: System) {
    Counted(s) && Pointed(s)
  }

  ghost predicate Counted(s: System) {
    && s.pool.models.Keys == s.pool.refs.Keys
    && (forall p :: p in s.pool.refs ==> s.pool.refs[p] == |Users(s.active, p)| && s.pool.refs[p] > 0)
  }

  ghost predicate Pointed(s: System) {
    forall n :: n in s.active ==>
      && s.active[n].path != "" && s.active[n].path in s.pool.models
      && s.active[n].detector == s.pool.models[s.active[n].path].id
  }

  /** Every loaded detector carries the pool's current defaults. */
  ghost predicate Uniform(pool: Pool) {
    forall p :: p in pool.models ==>
      pool.models[p].confidence == pool.confidence && pool.models[p].classes == Elements(pool.classes)
  }

  ghost predicate Good(s: System) {
    Safe(s) && Uniform(s.pool)
  }

  lemma UsersDropAt(active: map<string, Camera>, name: string, p: string)
    requires name in active
    ensures |Users(active - {name}, p)| == |Users(active, p)| - if p == active[name].path then 1 else 0
  {
    assert Users(active - {name}, p) == Users(active, p) - {name};
    assert name in Users(active, p) <==> p == active[name].path;
  }

  lemma UsersAddAt(active: map<string, Camera>, name: string, cam: Camera, p: string)
    requires name !in active
    ensures |Users(active[name := cam], p)| == |Users(active, p)| + if p == cam.path then 1 else 0
  {
    assert Users(active[name := cam], p) == if p == cam.path then Users(active, p) + {name} else Users(active, p);
    assert name !in Users(active, p);
  }

  lemma NoUsers(s: System, p: string)
    requires Pointed(s) && p !in s.pool.models
    ensures |Users(s.active, p)| == 0
  {
  }

  lemma AcquireCounts(s: System, name: string, path: string, loadOk: bool, cam: Camera)
    requires Safe(s) && name !in s.active
    requires Acquired(s.pool, path, loadOk).Some? && cam.path == path
    ensures Counted(System(Acquired(s.pool, path, loadOk).value, s.active[name := cam]))
  {
    var pool, active := Acquired(s.pool, path, loadOk).value, s.active[name := cam];
    if path !in s.pool.models {
      NoUsers(s, path);
    }
    hide Pointed;
    hide Users;
    forall p | p in pool.refs ensures pool.refs[p] == |Users(active, p)| && pool.refs[p] > 0 {
      UsersAddAt(s.active, name, cam, p);
      assert p == path || p in s.pool.refs;
    }
  }

  lemma AcquirePoints(s: System, name: string, path: string, loadOk: bool, cam: Camera)
    requires Pointed(s) && path != "" && s.pool.models.Keys == s.pool.refs.Keys
    requires Acquired(s.pool, path, loadOk).Some?
    requires cam.path == path && cam.detector == IdOf(Acquired(s.pool, path, loadOk).value, path)
    ensures Pointed(System(Acquired(s.pool, path, loadOk).value, s.active[name := cam]))
  {
  }

  lemma AcquireUniform(pool: Pool, path: string, loadOk: bool)
    requires Uniform(pool) && Acquired(pool, path, loadOk).Some?
    ensures Uniform(Acquired(pool, path, loadOk).value)
  {
  }

  lemma StartKeeps(s: System, c: CameraCfg, v: Verdict)
    requires Good(s) && c.name !in s.active
    ensures Good(Started(s, c, v).0)
  {
    var path := Resolve(s.pool, c.model);
    var acquired := Acquired(s.pool, path, v.loadOk);
    if path != "" && v.fileExists && acquired.Some? {
      var cam := Running(c, path, IdOf(acquired.value, path));
      AcquireCounts(s, c.name, path, v.loadOk, cam);
      AcquirePoints(s, c.name, path, v.loadOk, cam);
      AcquireUniform(s.pool, path, v.loadOk);
    }
  }

  lemma StopCounts(s: System, name: string)
    requires Safe(s) && name in s.active
    ensures Counted(Stopped(s, name))
  {
    var path, s' := s.active[name].path, Stopped(s, name);
    assert path in s.pool.refs;
    hide Pointed;
    hide Users;
    forall p | p in s'.pool.refs ensures s'.pool.refs[p] == |Users(s'.active, p)| && s'.pool.refs[p] > 0 {
      UsersDropAt(s.active, name, p);
    }
  }

  lemma StopPoints(s: System, name: string)
    requires Safe(s) && name in s.active
    ensures Pointed(Stopped(s, name))
  {
    var p := s.active[name].path;
    var users := Users(s.active, p);
    assert p in s.pool.refs;
    forall n | n in s.active && n != name ensures s.active[n].path in Stopped(s, name).pool.models {
      if s.active[n].path == p {
        assert {name, n} <= users && |{name, n}| == 2;
        SubsetSize({name, n}, users);
      }
    }
  }

  lemma {:induction false} SubsetSize(a: set<string>, b: set<string>)
    requires a <= b
    ensures |a| <= |b|
  {
    if a == {} {
    } else {
      var x :| x in a;
      SubsetSize(a - {x}, b - {x});
    }
  }

  lemma StopKeeps(s: System, name: string)
    requires Good(s)
    ensures Good(Stopped(s, name))
  {
    if name in s.active {
      StopCounts(s, name);
      StopPoints(s, name);
    }
  }

  lemma PatchKeeps(s: System, c: CameraCfg)
    requires Good(s) && c.name in s.active
    ensures Good(Patched(s, c))
  {
    assert forall p :: Users(Patched(s, c).active, p) == Users(s.active, p);
  }

  lemma UpdateKeeps(s: System, path: string, confidence: real, classes: seq<string>)
    requires Good(s)
    ensures Good(s.(pool := Updated(s.pool, path, confidence, classes)))
  {
  }

  // ---- Leaked references ---------------------------------------------------------------

  /** What a start needs: the model file, and a model that is in the pool or can be loaded. */
  predicate Startable(s: System, c: CameraCfg, v: Verdict) {
    var path := Resolve(s.pool, c.model);
    path != "" && v.fileExists && (v.loadOk || path in s.pool.models)
  }

  lemma StartedIff(s: System, c: CameraCfg, v: Verdict)
    requires s.pool.models.Keys == s.pool.refs.Keys
    ensures Started(s, c, v).1 <==> Startable(s, c, v)
  {
  }

  /** No reference is missing, though some may be too many. */
  ghost predicate Covers(s: System) {
    && s.pool.models.Keys == s.pool.refs.Keys
    && (forall n :: n in s.active ==> s.active[n].path != "" && s.active[n].path in s.pool.refs)
    && (forall p :: p in s.pool.refs ==> Spare(s, p) >= 0)
  }

  /** References to a model that no active camera accounts for. */
  ghost function Spare(s: System, p: string): int
    requires p in s.pool.refs
  {
    s.pool.refs[p] - |Users(s.active, p)|
  }

  ghost predicate Leaky(s: System) {
    exists p :: p in s.pool.refs && Spare(s, p) > 0
  }

  lemma UsersSet(active: map<string, Camera>, name: string, cam: Camera, p: string)
    ensures |Users(active[name := cam], p)| == |Users(active, p)|
      - (if name in active && active[name].path == p then 1 else 0) + (if p == cam.path then 1 else 0)
  {
    if name in active {
      UsersDropAt(active, name, p);
      assert (active - {name})[name := cam] == active[name := cam];
      UsersAddAt(active - {name}, name, cam, p);
    } else {
      UsersAddAt(active, name, cam, p);
    }
  }

  /** A start never uses up a spare reference, and over an active name it leaves one behind. */
  lemma StartSpares(s: System, c: CameraCfg, v: Verdict, p: string)
    requires Covers(s) && Started(s, c, v).1 && p in Started(s, c, v).0.pool.refs
    ensures var s' := Started(s, c, v).0;
      Spare(s', p) == (if p in s.pool.refs then Spare(s, p) else 0)
        + if c.name in s.active && s.active[c.name].path == p then 1 else 0
  {
    var s' := Started(s, c, v).0;
    UsersSet(s.active, c.name, s'.active[c.name], p);
    if p !in s.pool.refs {
      assert Users(s.active, p) == {};
    }
  }

  lemma StartCovers(s: System, c: CameraCfg, v: Verdict)
    requires Covers(s)
    ensures Covers(Started(s, c, v).0)
    ensures Leaky(s) || (Started(s, c, v).1 && c.name in s.active) ==> Leaky(Started(s, c, v).0)
  {
    var (s', ok) := Started(s, c, v);
    if ok {
      forall p | p in s'.pool.refs ensures Spare(s', p) >= 0 {
        StartSpares(s, c, v, p);
      }
      if Leaky(s) {
        var p :| p in s.pool.refs && Spare(s, p) > 0;
        StartSpares(s, c, v, p);
      }
      if c.name in s.active {
        StartSpares(s, c, v, s.active[c.name].path);
      }
    }
  }

  /** `_start_camera` for a name that is already active overwrites the entry and leaks a
      reference: it keeps the pool safe exactly if the name is free or the start cannot
      succeed. */
  lemma StartSafeIff(s: System, c: CameraCfg, v: Verdict)
    requires Good(s)
    ensures Safe(Started(s, c, v).0) <==> c.name !in s.active || !Startable(s, c, v)
  {
    StartedIff(s, c, v);
    if c.name in s.active {
      StartCovers(s, c, v);
    } else {
      StartKeeps(s, c, v);
    }
  }

  /** A stop gives back one reference, the camera's own. */
  lemma StopCovers(s: System, name: string)
    requires Covers(s)
    ensures Covers(Stopped(s, name))
    ensures Leaky(s) ==> Leaky(Stopped(s, name))
  {
    if name in s.active {
      var s' := Stopped(s, name);
      forall p | p in s.pool.refs
        ensures if p in s'.pool.refs then Spare(s', p) == Spare(s, p) else Spare(s, p) == 0 && p == s.active[name].path
      {
        UsersDropAt(s.active, name, p);
      }
      forall n | n in s'.active ensures s'.active[n].path in s'.pool.refs {
        if s.active[n].path == s.active[name].path {
          UsersDropAt(s.active, name, s.active[n].path);
          assert n in Users(s'.active, s.active[n].path);
        }
      }
      if Leaky(s) {
        var p :| p in s.pool.refs && Spare(s, p) > 0;
        assert p in s'.pool.refs;
      }
    }
  }

  lemma {:induction false} StopPassCovers(s: System, names: seq<string>)
    requires Covers(s)
    ensures Covers(StopPass(s, names))
    ensures Leaky(s) ==> Leaky(StopPass(s, names))
    decreases |names|
  {
    if names == [] {
    } else {
      StopCovers(s, names[0]);
      StopPassCovers(Stopped(s, names[0]), names[1..]);
    }
  }

  /** A camera of the list, from position `i` on, has the name of an active or an earlier one. */
  ghost predicate Repeats(s: System, cameras: seq<CameraCfg>, i: nat) {
    || (exists j :: i <= j < |cameras| && cameras[j].name in s.active)
    || (exists j, k :: i <= j < k < |cameras| && cameras[j].name == cameras[k].name)
  }

  lemma {:induction false} ColdPassLeaks(s: System, cameras: seq<CameraCfg>, late: nat -> Verdict, i: nat)
    requires Covers(s) && i <= |cameras| && ColdPass(s, cameras, late, i).1
    ensures Leaky(s) || Repeats(s, cameras, i) ==> Leaky(ColdPass(s, cameras, late, i).0)
    decreases |cameras| - i
  {
    if i == |cameras| {
    } else {
      var s1 := Started(s, cameras[i], late(i)).0;
      StartCovers(s, cameras[i], late(i));
      assert s1.active.Keys == s.active.Keys + {cameras[i].name};
      if Repeats(s, cameras, i) && cameras[i].name !in s.active {
        RepeatsLater(s, s1, cameras, i);
      }
      ColdPassLeaks(s1, cameras, late, i + 1);
    }
  }

  /** From position `i` on, a name that is not known is active already, or listed twice. */
  ghost predicate NewRepeats(s: System, cameras: seq<CameraCfg>, known: set<string>, i: nat) {
    || (exists j :: i <= j < |cameras| && cameras[j].name !in known && cameras[j].name in s.active)
    || (exists j, k :: i <= j < k < |cameras| && cameras[j].name == cameras[k].name && cameras[j].name !in known)
  }

  lemma ListStepCovers(s: System, c: CameraCfg, v: Verdict, known: set<string>)
    requires Covers(s) && !ListStep(s, c, v, known).crashed && ListStep(s, c, v, known).allStarted
    ensures var s' := ListStep(s, c, v, known).sys;
      && Covers(s') && s'.active.Keys == s.active.Keys + {c.name}
      && (Leaky(s) || (c.name !in known && c.name in s.active) ==> Leaky(s'))
  {
    if c.name !in known {
      StartCovers(s, c, v);
    } else if Differs(s, c) {
      StopCovers(s, c.name);
      StartCovers(Stopped(s, c.name), c, v);
    } else {
      assert forall p :: Users(Patched(s, c).active, p) == Users(s.active, p);
      assert forall p :: p in s.pool.refs ==> Spare(Patched(s, c), p) == Spare(s, p);
    }
  }

  lemma {:induction false} ListPassLeaks(s: System, cameras: seq<CameraCfg>, late: nat -> Verdict,
                                         known: set<string>, i: nat)
    requires Covers(s) && i <= |cameras|
    requires !ListPass(s, cameras, late, known, i).crashed && ListPass(s, cameras, late, known, i).allStarted
    ensures Covers(ListPass(s, cameras, late, known, i).sys)
    ensures Leaky(s) || NewRepeats(s, cameras, known, i) ==> Leaky(ListPass(s, cameras, late, known, i).sys)
    decreases |cameras| - i
  {
    if i == |cameras| {
    } else {
      var s1 := ListStep(s, cameras[i], late(i), known).sys;
      ListStepCovers(s, cameras[i], late(i), known);
      if NewRepeats(s, cameras, known, i) && (cameras[i].name in known || cameras[i].name !in s.active) {
        NewRepeatsLater(s, s1, cameras, known, i);
      }
      ListPassLeaks(s1, cameras, late, known, i + 1);
    }
  }

  lemma NewRepeatsLater(s: System, s1: System, cameras: seq<CameraCfg>, known: set<string>, i: nat)
    requires i < |cameras| && NewRepeats(s, cameras, known, i)
    requires cameras[i].name in known || cameras[i].name !in s.active
    requires s1.active.Keys == s.active.Keys + {cameras[i].name}
    ensures NewRepeats(s1, cameras, known, i + 1)
  {
    if j :| i <= j < |cameras| && cameras[j].name !in known && cameras[j].name in s.active {
      assert cameras[j].name in s1.active;
    } else {
      var j, k :| i <= j < k < |cameras| && cameras[j].name == cameras[k].name && cameras[j].name !in known;
      assert j == i ==> cameras[k].name in s1.active;
    }
  }

  lemma RepeatsLater(s: System, s1: System, cameras: seq<CameraCfg>, i: nat)
    requires i < |cameras| && Repeats(s, cameras, i) && cameras[i].name !in s.active
    requires s1.active.Keys == s.active.Keys + {cameras[i].name}
    ensures Repeats(s1, cameras, i + 1)
  {
    if j :| i <= j < |cameras| && cameras[j].name in s.active {
      assert cameras[j].name in s1.active;
    } else {
      var j, k :| i <= j < k < |cameras| && cameras[j].name == cameras[k].name;
      assert j == i ==> cameras[k].name in s1.active;
    }
  }

  // ---- What the passes do --------------------------------------------------------------

  ghost predicate SameDefaults(a: Pool, b: Pool) {
    a.path == b.path && a.confidence == b.confidence && a.classes == b.classes
  }

  /** The camera runs as configured. */
  ghost predicate Fits(cam: Camera, c: CameraCfg, pool: Pool) {
    cam == Running(c, Resolve(pool, c.model), cam.detector)
  }

  /** Everything but one camera is as it was. */
  ghost predicate SameExcept(s: System, s': System, name: string) {
    && (forall n :: n in s'.active && n != name ==> n in s.active && s'.active[n] == s.active[n])
    && (forall n :: n in s.active && n != name ==> n in s'.active)
    && SameDefaults(s.pool, s'.pool)
  }

  /** The camera runs as configured if the start succeeded, and not at all otherwise. */
  ghost predicate Attempted(s: System, c: CameraCfg, s': System, ok: bool) {
    && SameExcept(s, s', c.name)
    && (ok <==> c.name in s'.active)
    && (ok ==> Fits(s'.active[c.name], c, s.pool))
  }

  lemma StartFacts(s: System, c: CameraCfg, v: Verdict)
    requires Good(s) && c.name !in s.active
    ensures Good(Started(s, c, v).0)
    ensures Attempted(s, c, Started(s, c, v).0, Started(s, c, v).1)
  {
    StartKeeps(s, c, v);
  }

  lemma RestartFacts(s: System, c: CameraCfg, v: Verdict)
    requires Good(s)
    ensures Good(Restarted(s, c, v).0)
    ensures Attempted(s, c, Restarted(s, c, v).0, Restarted(s, c, v).1)
  {
    var s1 := Stopped(s, c.name);
    StopKeeps(s, c.name);
    StopFrame(s, c.name);
    StartFacts(s1, c, v);
    FrameCompose(s, s1, c, Restarted(s, c, v).0, Restarted(s, c, v).1);
  }

  lemma StopFrame(s: System, name: string)
    ensures SameExcept(s, Stopped(s, name), name) && name !in Stopped(s, name).active
  {
  }

  lemma FrameCompose(s: System, s1: System, c: CameraCfg, s2: System, ok: bool)
    requires SameExcept(s, s1, c.name) && Attempted(s1, c, s2, ok)
    ensures Attempted(s, c, s2, ok)
  {
  }

  lemma ListStepFacts(s: System, c: CameraCfg, v: Verdict, known: set<string>)
    requires Good(s) && (c.name !in known ==> c.name !in s.active)
    ensures var r := ListStep(s, c, v, known);
      && Good(r.sys) && SameExcept(s, r.sys, c.name)
      && (r.crashed <==> c.name in known && c.name !in s.active)
      && (!r.crashed && r.allStarted ==> c.name in r.sys.active && Fits(r.sys.active[c.name], c, s.pool))
  {
    if c.name !in known {
      StartFacts(s, c, v);
    } else if c.name in s.active {
      if Differs(s, c) {
        RestartFacts(s, c, v);
      } else {
        PatchKeeps(s, c);
        PatchFrame(s, c);
      }
    }
  }

  lemma PatchFrame(s: System, c: CameraCfg)
    requires c.name in s.active && !Differs(s, c)
    ensures SameExcept(s, Patched(s, c), c.name)
    ensures Fits(Patched(s, c).active[c.name], c, s.pool)
  {
  }

  ghost predicate DistinctNames(cameras: seq<CameraCfg>) {
    forall i, j :: 0 <= i < j < |cameras| ==> cameras[i].name != cameras[j].name
  }

  ghost predicate AllFit(s: System, cameras: seq<CameraCfg>, i: nat) {
    forall j :: i <= j < |cameras| ==>
      cameras[j].name in s.active && Fits(s.active[cameras[j].name], cameras[j], s.pool)
  }

  /** Cameras without an entry in cameras[i..] are as they were. */
  ghost predicate SameBeyond(s: System, s': System, cameras: seq<CameraCfg>, i: nat) {
    && SameDefaults(s.pool, s'.pool)
    && forall n :: (forall j :: i <= j < |cameras| ==> cameras[j].name != n) ==>
         (n in s'.active <==> n in s.active) && (n in s.active ==> s'.active[n] == s.active[n])
  }

  ghost predicate LookupFails(s: System, cameras: seq<CameraCfg>, known: set<string>, i: nat) {
    exists j :: i <= j < |cameras| && cameras[j].name in known && cameras[j].name !in s.active
  }

  ghost predicate Listed(s: System, r: Reload, cameras: seq<CameraCfg>, known: set<string>, i: nat) {
    && (r.crashed <==> LookupFails(s, cameras, known, i))
    && (!r.crashed ==> SameBeyond(s, r.sys, cameras, i))
    && (!r.crashed && r.allStarted ==> AllFit(r.sys, cameras, i))
  }

  ghost predicate NewAreFree(s: System, cameras: seq<CameraCfg>, known: set<string>, i: nat) {
    forall j :: i <= j < |cameras| && cameras[j].name !in known ==> cameras[j].name !in s.active
  }

  lemma {:induction false} ListPassFacts(s: System, cameras: seq<CameraCfg>, late: nat -> Verdict,
                                         known: set<string>, i: nat)
    requires Good(s) && DistinctNames(cameras) && i <= |cameras| && NewAreFree(s, cameras, known, i)
    ensures Good(ListPass(s, cameras, late, known, i).sys)
    ensures Listed(s, ListPass(s, cameras, late, known, i), cameras, known, i)
    decreases |cameras| - i
  {
    if i >= |cameras| {
    } else {
      var r := ListStep(s, cameras[i], late(i), known);
      ListStepFacts(s, cameras[i], late(i), known);
      if !r.crashed {
        assert NewAreFree(r.sys, cameras, known, i + 1);
        ListPassFacts(r.sys, cameras, late, known, i + 1);
        ListCompose(s, r, ListPass(r.sys, cameras, late, known, i + 1), cameras, known, i);
      }
    }
  }

  /** No two cameras of the list share a name that is not known. */
  ghost predicate NewAreDistinct(cameras: seq<CameraCfg>, known: set<string>) {
    forall i, j :: 0 <= i < j < |cameras| && cameras[i].name == cameras[j].name ==> cameras[i].name in known
  }

  lemma {:induction false} ListPassKeeps(s: System, cameras: seq<CameraCfg>, late: nat -> Verdict,
                                         known: set<string>, i: nat)
    requires Good(s) && NewAreDistinct(cameras, known) && i <= |cameras| && NewAreFree(s, cameras, known, i)
    ensures Good(ListPass(s, cameras, late, known, i).sys)
    decreases |cameras| - i
  {
    if i == |cameras| {
    } else {
      var r := ListStep(s, cameras[i], late(i), known);
      ListStepFacts(s, cameras[i], late(i), known);
      if !r.crashed {
        StillFree(s, r.sys, cameras, known, i);
        ListPassKeeps(r.sys, cameras, late, known, i + 1);
      }
    }
  }

  lemma StillFree(s: System, s1: System, cameras: seq<CameraCfg>, known: set<string>, i: nat)
    requires i < |cameras| && NewAreDistinct(cameras, known) && NewAreFree(s, cameras, known, i)
    requires SameExcept(s, s1, cameras[i].name)
    ensures NewAreFree(s1, cameras, known, i + 1)
  {
  }

  lemma ListCompose(s: System, r: Reload, rest: Reload, cameras: seq<CameraCfg>, known: set<string>, i: nat)
    requires DistinctNames(cameras) && i < |cameras|
    requires SameExcept(s, r.sys, cameras[i].name) && !r.crashed
    requires !(cameras[i].name in known && cameras[i].name !in s.active)
    requires r.allStarted ==> cameras[i].name in r.sys.active && Fits(r.sys.active[cameras[i].name], cameras[i], s.pool)
    requires Listed(r.sys, rest, cameras, known, i + 1)
    ensures Listed(s, rest.(allStarted := r.allStarted && rest.allStarted), cameras, known, i)
  {
  }

  /** Only cameras of the new list are restarted; they are lost exactly when that fails. */
  ghost predicate Thinned(s: System, s': System, cameras: seq<CameraCfg>, ok: bool) {
    && SameDefaults(s.pool, s'.pool)
    && (forall n :: n in s'.active ==> n in s.active)
    && (forall n :: n in s.active && n !in s'.active ==> n in Names(cameras))
    && (ok <==> forall n :: n in s.active ==> n in s'.active)
  }

  lemma ClassStepFacts(s: System, cameras: seq<CameraCfg>, early: string -> Verdict, name: string)
    requires Good(s)
    ensures Good(ClassStep(s, cameras, early, name).0)
    ensures Thinned(s, ClassStep(s, cameras, early, name).0, cameras, ClassStep(s, cameras, early, name).1)
  {
    if name in s.active && s.active[name].classes.None? && name in Names(cameras) {
      RestartFacts(s, Find(cameras, name), early(name));
    }
  }

  lemma {:induction false} ClassPassFacts(s: System, cameras: seq<CameraCfg>, early: string -> Verdict,
                                          order: seq<string>)
    requires Good(s)
    ensures Good(ClassPass(s, cameras, early, order).0)
    ensures Thinned(s, ClassPass(s, cameras, early, order).0, cameras, ClassPass(s, cameras, early, order).1)
    decreases |order|
  {
    if order == [] {
    } else {
      ClassStepFacts(s, cameras, early, order[0]);
      ClassPassFacts(ClassStep(s, cameras, early, order[0]).0, cameras, early, order[1..]);
    }
  }

  lemma {:induction false} StopPassFacts(s: System, names: seq<string>)
    requires Good(s)
    ensures var s' := StopPass(s, names);
      && Good(s') && SameDefaults(s.pool, s'.pool)
      && s'.active.Keys == s.active.Keys - Elements(names)
      && (forall n :: n in s'.active ==> s'.active[n] == s.active[n])
    decreases |names|
  {
    if names == [] {
    } else {
      StopKeeps(s, names[0]);
      StopPassFacts(Stopped(s, names[0]), names[1..]);
      assert Elements(names) == {names[0]} + Elements(names[1..]);
    }
  }

  lemma {:induction false} ColdPassFacts(s: System, cameras: seq<CameraCfg>, late: nat -> Verdict, i: nat)
    requires Good(s) && DistinctNames(cameras) && i <= |cameras|
    requires forall j :: i <= j < |cameras| ==> cameras[j].name !in s.active
    ensures Good(ColdPass(s, cameras, late, i).0)
    ensures SameBeyond(s, ColdPass(s, cameras, late, i).0, cameras, i)
    ensures ColdPass(s, cameras, late, i).1 ==> AllFit(ColdPass(s, cameras, late, i).0, cameras, i)
    decreases |cameras| - i
  {
    if i == |cameras| {
    } else {
      ColdStep(s, cameras, late, i);
      ColdPassFacts(Started(s, cameras[i], late(i)).0, cameras, late, i + 1);
      ColdPassUnfolds(s, cameras, late, i);
      hide *;
      var (s1, ok) := Started(s, cameras[i], late(i));
      ColdCompose(s, s1, ColdPass(s, cameras, late, i).0, cameras, ok, i);
    }
  }

  lemma ColdPassUnfolds(s: System, cameras: seq<CameraCfg>, late: nat -> Verdict, i: nat)
    requires i < |cameras|
    ensures var (s1, ok) := Started(s, cameras[i], late(i));
      && ColdPass(s, cameras, late, i).0 == ColdPass(s1, cameras, late, i + 1).0
      && (ColdPass(s, cameras, late, i).1 <==> ok && ColdPass(s1, cameras, late, i + 1).1)
  {
  }

  lemma ColdStep(s: System, cameras: seq<CameraCfg>, late: nat -> Verdict, i: nat)
    requires Good(s) && DistinctNames(cameras) && i < |cameras|
    requires forall j :: i <= j < |cameras| ==> cameras[j].name !in s.active
    ensures var (s1, ok) := Started(s, cameras[i], late(i));
      Good(s1) && Attempted(s, cameras[i], s1, ok) && forall j :: i < j < |cameras| ==> cameras[j].name !in s1.active
  {
    StartFacts(s, cameras[i], late(i));
    hide Started, Good;
    NamesStayFree(s, Started(s, cameras[i], late(i)).0, cameras, i, Started(s, cameras[i], late(i)).1);
  }

  lemma NamesStayFree(s: System, s1: System, cameras: seq<CameraCfg>, i: nat, ok: bool)
    requires i < |cameras| && DistinctNames(cameras) && Attempted(s, cameras[i], s1, ok)
    requires forall j :: i <= j < |cameras| ==> cameras[j].name !in s.active
    ensures forall j :: i + 1 <= j < |cameras| ==> cameras[j].name !in s1.active
  {
  }

  lemma ColdCompose(s: System, s1: System, s2: System, cameras: seq<CameraCfg>, ok: bool, i: nat)
    requires i < |cameras| && DistinctNames(cameras)
    requires Attempted(s, cameras[i], s1, ok) && SameBeyond(s1, s2, cameras, i + 1)
    ensures SameBeyond(s, s2, cameras, i)
    ensures ok && AllFit(s2, cameras, i + 1) ==> AllFit(s2, cameras, i)
  {
  }

  // ---- Reload as a whole ---------------------------------------------------------------

  lemma ListAfterClassPass(s: System, cfg: Config, early: string -> Verdict, order: seq<string>)
    requires Good(s)
    ensures var (s2, ok) := Refreshed(s, cfg, early, order);
      && Good(s2) && Thinned(Defaulted(s, cfg), s2, cfg.cameras, ok)
      && NewAreFree(s2, cfg.cameras, s.active.Keys, 0)
      && (LookupFails(s2, cfg.cameras, s.active.Keys, 0) <==> !ok)
  {
    var s1 := Defaulted(s, cfg);
    UpdateKeeps(s, s1.pool.path, cfg.confidence, cfg.classes);
    if ClassesChange(s, cfg) {
      ClassPassFacts(s1, cfg.cameras, early, order);
      var (s2, ok) := ClassPass(s1, cfg.cameras, early, order);
      LostIsLookedUp(s, s2, cfg.cameras, ok);
    } else {
      assert Thinned(s1, s1, cfg.cameras, true);
      LostIsLookedUp(s, s1, cfg.cameras, true);
    }
  }

  lemma LostIsLookedUp(s: System, s2: System, cameras: seq<CameraCfg>, ok: bool)
    requires forall n :: n in s.active && n !in s2.active ==> n in Names(cameras)
    requires ok <==> forall n :: n in s.active ==> n in s2.active
    ensures LookupFails(s2, cameras, s.active.Keys, 0) <==> !ok
  {
  }

  /** The state in which a configuration is in force. */
  ghost predicate Matches(s: System, cfg: Config) {
    && Good(s)
    && cfg.model == Some(s.pool.path) && s.pool.confidence == cfg.confidence && s.pool.classes == cfg.classes
    && (forall n :: n in s.active ==> n in Names(cfg.cameras))
    && AllFit(s, cfg.cameras, 0)
  }

  /** Everything that is tracked, except which load of a file is in use. */
  datatype Tracked = Tracked(
    path: string,
    confidence: real,
    classes: seq<string>,
    models: map<string, (real, set<string>)>,
    refs: map<string, int>,
    active: map<string, Camera>)

  ghost function TrackedOf(s: System): Tracked {
    Tracked(s.pool.path, s.pool.confidence, s.pool.classes,
            map p | p in s.pool.models :: (s.pool.models[p].confidence, s.pool.models[p].classes),
            s.pool.refs,
            map n | n in s.active :: s.active[n].(detector := 0))
  }

  /** A configuration determines the state in which it is in force. */
  lemma MatchesUnique(a: System, b: System, cfg: Config)
    requires DistinctNames(cfg.cameras) && Matches(a, cfg) && Matches(b, cfg)
    ensures TrackedOf(a) == TrackedOf(b)
  {
    forall n ensures SameCamera(a, b, n) {
      if n in Names(cfg.cameras) {
        var j :| 0 <= j < |cfg.cameras| && cfg.cameras[j].name == n;
        BothFit(a, b, cfg.cameras, j);
      } else {
        assert n !in a.active && n !in b.active;
      }
    }
    SamePool(a, b);
    SameActive(a, b);
  }

  ghost predicate SameCamera(a: System, b: System, n: string) {
    (n in a.active <==> n in b.active) && (n in a.active ==> a.active[n].(detector := 0) == b.active[n].(detector := 0))
  }

  lemma BothFit(a: System, b: System, cameras: seq<CameraCfg>, j: nat)
    requires j < |cameras| && AllFit(a, cameras, 0) && AllFit(b, cameras, 0) && a.pool.path == b.pool.path
    ensures SameCamera(a, b, cameras[j].name)
  {
  }

  lemma SameActive(a: System, b: System)
    requires forall n :: SameCamera(a, b, n)
    ensures TrackedOf(a).active == TrackedOf(b).active
  {
    var x, y := TrackedOf(a).active, TrackedOf(b).active;
    forall n ensures (n in x <==> n in y) && (n in x ==> x[n] == y[n]) {
      assert SameCamera(a, b, n);
    }
  }

  lemma SamePool(a: System, b: System)
    requires Good(a) && Good(b) && SameDefaults(a.pool, b.pool)
    requires forall n :: SameCamera(a, b, n)
    ensures a.pool.refs == b.pool.refs && a.pool.models.Keys == b.pool.models.Keys
    ensures TrackedOf(a).models == TrackedOf(b).models
  {
    forall p
      ensures (p in a.pool.refs <==> p in b.pool.refs) && (p in a.pool.refs ==> a.pool.refs[p] == b.pool.refs[p])
    {
      assert Users(a.active, p) == Users(b.active, p) by {
        forall n ensures n in Users(a.active, p) <==> n in Users(b.active, p) { assert SameCamera(a, b, n); }
      }
      InPoolIff(a, p);
      InPoolIff(b, p);
    }
  }

  /** A model is loaded exactly while some camera uses it. */
  lemma InPoolIff(s: System, p: string)
    requires Safe(s)
    ensures p in s.pool.refs <==> Users(s.active, p) != {}
    ensures p in s.pool.models <==> Users(s.active, p) != {}
  {
  }

  lemma ColdStartMatches(cfg: Config, late: nat -> Verdict)
    requires cfg.model.Some? && DistinctNames(cfg.cameras)
    ensures Good(ColdStarted(cfg, late).0)
    ensures ColdStarted(cfg, late).1 ==> Matches(ColdStarted(cfg, late).0, cfg)
  {
    var s0 := System(Pool(cfg.model.value, cfg.confidence, cfg.classes, map[], map[], 0), map[]);
    ColdPassFacts(s0, cfg.cameras, late, 0);
    var s := ColdStarted(cfg, late).0;
    UnlistedUntouched(s0, s, cfg.cameras);
  }

  lemma UnlistedUntouched(s: System, s': System, cameras: seq<CameraCfg>)
    requires SameBeyond(s, s', cameras, 0)
    ensures forall n :: n in s'.active ==> n in s.active || n in Names(cameras)
  {
  }

  lemma ReloadKeeps(s: System, cfg: Config, oracle: Oracle, order: seq<string>, removed: seq<string>)
    requires Good(s) && NewAreDistinct(cfg.cameras, s.active.Keys)
    ensures Good(Reloaded(s, cfg, oracle, order, removed).sys)
  {
    ListAfterClassPass(s, cfg, oracle.early, order);
    var s2 := Refreshed(s, cfg, oracle.early, order).0;
    ListPassKeeps(s2, cfg.cameras, oracle.late, s.active.Keys, 0);
    var r := ListPass(s2, cfg.cameras, oracle.late, s.active.Keys, 0);
    if !r.crashed {
      StopPassFacts(r.sys, removed);
    }
  }

  lemma ReloadMatches(s: System, cfg: Config, oracle: Oracle, order: seq<string>, removed: seq<string>)
    requires Good(s) && DistinctNames(cfg.cameras) && Enumerates(s, cfg, order, removed)
    requires cfg.model.Some?
    requires Reloaded(s, cfg, oracle, order, removed).allStarted
    ensures Matches(Reloaded(s, cfg, oracle, order, removed).sys, cfg)
  {
    ListAfterClassPass(s, cfg, oracle.early, order);
    var s2 := Refreshed(s, cfg, oracle.early, order).0;
    ListPassFacts(s2, cfg.cameras, oracle.late, s.active.Keys, 0);
    var r := ListPass(s2, cfg.cameras, oracle.late, s.active.Keys, 0);
    StopsTheRest(s, s2, r.sys, cfg, removed);
  }

  /** Once the listed cameras run as configured, stopping the others puts `cfg` in force. */
  lemma StopsTheRest(s: System, s2: System, s3: System, cfg: Config, removed: seq<string>)
    requires Good(s3) && SameBeyond(s2, s3, cfg.cameras, 0) && AllFit(s3, cfg.cameras, 0)
    requires forall n :: n in s2.active ==> n in s.active
    requires Elements(removed) == s.active.Keys - Names(cfg.cameras)
    requires cfg.model == Some(s2.pool.path) && s2.pool.confidence == cfg.confidence && s2.pool.classes == cfg.classes
    ensures Matches(StopPass(s3, removed), cfg)
  {
    StopPassFacts(s3, removed);
    var s' := StopPass(s3, removed);
    UnlistedUntouched(s2, s3, cfg.cameras);
    assert forall n :: n in s'.active ==> n in Names(cfg.cameras);
    StoppingKeepsFit(s3, s', cfg.cameras);
  }

  lemma StoppingKeepsFit(s3: System, s': System, cameras: seq<CameraCfg>)
    requires AllFit(s3, cameras, 0) && SameDefaults(s3.pool, s'.pool)
    requires forall n :: n in s3.active && n in Names(cameras) ==> n in s'.active && s'.active[n] == s3.active[n]
    ensures AllFit(s', cameras, 0)
  {
  }

  // ---- Theorems ------------------------------------------------------------------------

  /** Hot reload equals cold start: whatever cameras were running before, a reload in which
      every attempted start succeeds leaves the tracked state of a fresh start from the new
      configuration. */
  lemma HotReloadEqualsColdStart(s: System, cfg: Config, oracle: Oracle, order: seq<string>, removed: seq<string>,
                                 cold: nat -> Verdict)
    requires Good(s) && DistinctNames(cfg.cameras) && Enumerates(s, cfg, order, removed)
    requires cfg.model.Some?
    requires Reloaded(s, cfg, oracle, order, removed).allStarted && ColdStarted(cfg, cold).1
    ensures TrackedOf(Reloaded(s, cfg, oracle, order, removed).sys) == TrackedOf(ColdStarted(cfg, cold).0)
  {
    ReloadMatches(s, cfg, oracle, order, removed);
    ColdStartMatches(cfg, cold);
    MatchesUnique(Reloaded(s, cfg, oracle, order, removed).sys, ColdStarted(cfg, cold).0, cfg);
  }

  // ---- Runs ----------------------------------------------------------------------------

  datatype Op =
    | StartOp(c: CameraCfg, v: Verdict)
    | StopOp(name: string)
    | ReloadOp(cfg: Config, oracle: Oracle, order: seq<string>, removed: seq<string>)

  ghost predicate Allowed(s: System, op: Op) {
    match op
    case StartOp(c, v) => c.name !in s.active
    case StopOp(name) => true
    case ReloadOp(cfg, oracle, order, removed) =>
      NewAreDistinct(cfg.cameras, s.active.Keys) && Enumerates(s, cfg, order, removed)
  }

  ghost function Applied(s: System, op: Op): System {
    match op
    case StartOp(c, v) => Started(s, c, v).0
    case StopOp(name) => Stopped(s, name)
    case ReloadOp(cfg, oracle, order, removed) => Reloaded(s, cfg, oracle, order, removed).sys
  }

  ghost predicate IsRun(states: seq<System>, ops: seq<Op>) {
    && |states| == |ops| + 1
    && states[0].pool.models == map[] && states[0].pool.refs == map[] && states[0].active == map[]
    && forall i :: 0 <= i < |ops| ==> Allowed(states[i], ops[i]) && states[i + 1] == Applied(states[i], ops[i])
  }

  /** Pool safety in every run, also through failed starts and reloads that crash. */
  lemma {:induction false} PoolSafety(states: seq<System>, ops: seq<Op>, n: nat)
    requires IsRun(states, ops) && n <= |ops|
    ensures Good(states[n])
    ensures states[n].active == map[] ==> states[n].pool.models == map[] && states[n].pool.refs == map[]
  {
    if n == 0 {
    } else {
      PoolSafety(states, ops, n - 1);
      var s := states[n - 1];
      match ops[n - 1]
      case StartOp(c, v) => StartKeeps(s, c, v);
      case StopOp(name) => StopKeeps(s, name);
      case ReloadOp(cfg, oracle, order, removed) => ReloadKeeps(s, cfg, oracle, order, removed);
    }
    if states[n].active == map[] {
      forall p ensures p !in states[n].pool.refs {
        InPoolIff(states[n], p);
      }
    }
  }

  /** When every start succeeds, the start-up loop leaves the pool safe exactly if no two
      configured cameras have the same name. */
  lemma ColdStartSafeIff(cfg: Config, late: nat -> Verdict)
    requires cfg.model.Some? && ColdStarted(cfg, late).1
    ensures Safe(ColdStarted(cfg, late).0) <==> DistinctNames(cfg.cameras)
  {
    if DistinctNames(cfg.cameras) {
      ColdStartMatches(cfg, late);
    } else {
      var s0 := System(Pool(cfg.model.value, cfg.confidence, cfg.classes, map[], map[], 0), map[]);
      ColdPassLeaks(s0, cfg.cameras, late, 0);
    }
  }

  /** The same for a reload: when every attempted start succeeds, it leaves the pool safe
      exactly if no two listed cameras share a name that was not active before. */
  lemma ReloadSafeIff(s: System, cfg: Config, oracle: Oracle, order: seq<string>, removed: seq<string>)
    requires Good(s) && Reloaded(s, cfg, oracle, order, removed).allStarted
    ensures Safe(Reloaded(s, cfg, oracle, order, removed).sys) <==> NewAreDistinct(cfg.cameras, s.active.Keys)
  {
    if NewAreDistinct(cfg.cameras, s.active.Keys) {
      ReloadKeeps(s, cfg, oracle, order, removed);
    } else {
      ReloadLeaks(s, cfg, oracle, order, removed);
    }
  }

  lemma ReloadLeaks(s: System, cfg: Config, oracle: Oracle, order: seq<string>, removed: seq<string>)
    requires Good(s) && Reloaded(s, cfg, oracle, order, removed).allStarted
    requires !NewAreDistinct(cfg.cameras, s.active.Keys)
    ensures !Safe(Reloaded(s, cfg, oracle, order, removed).sys)
  {
    var s2 := Refreshed(s, cfg, oracle.early, order).0;
    var s3 := ListPass(s2, cfg.cameras, oracle.late, s.active.Keys, 0).sys;
    var s4 := Reloaded(s, cfg, oracle, order, removed).sys;
    assert s4 == StopPass(s3, removed);
    ListAfterClassPass(s, cfg, oracle.early, order);
    GoodCovers(s2);
    RepeatedNew(s2, cfg.cameras, s.active.Keys);
    hide Good, Covers, Leaky, NewRepeats, NewAreDistinct, NewAreFree, Thinned, LookupFails;
    hide Refreshed, StopPass, ListPass;
    ListPassLeaks(s2, cfg.cameras, oracle.late, s.active.Keys, 0);
    StopPassCovers(s3, removed);
    LeakyIsUnsafe(s4);
  }

  lemma GoodCovers(s: System)
    requires Good(s)
    ensures Covers(s)
  {
  }

  lemma RepeatedNew(s: System, cameras: seq<CameraCfg>, known: set<string>)
    requires !NewAreDistinct(cameras, known)
    ensures NewRepeats(s, cameras, known, 0)
  {
  }

  lemma LeakyIsUnsafe(s: System)
    requires Leaky(s)
    ensures !Safe(s)
  {
  }

  /** Two cameras of one name: the second start leaks a reference that no stop gives back. */
  lemma DuplicateNamesLeak()
    ensures var c := CameraCfg("door", None, None, [], None, None, [], None);
      var cfg := Config(Some("yolo.pt"), 0.25, [], [c, c]);
      var s := ColdStarted(cfg, i => Verdict(true, true)).0;
      && !Safe(s)
      && Stopped(s, "door").active == map[] && "yolo.pt" in Stopped(s, "door").pool.models
  {
    var c := CameraCfg("door", None, None, [], None, None, [], None);
    var cfg := Config(Some("yolo.pt"), 0.25, [], [c, c]);
    var late := i => Verdict(true, true);
    var s0 := System(Pool("yolo.pt", 0.25, [], map[], map[], 0), map[]);
    var s1 := Started(s0, c, Verdict(true, true)).0;
    var s2 := Started(s1, c, Verdict(true, true)).0;
    assert ColdPass(s2, cfg.cameras, late, 2).0 == s2;
    assert ColdPass(s1, cfg.cameras, late, 1).0 == s2;
    assert ColdStarted(cfg, late).0 == s2;
    assert s2.pool.refs["yolo.pt"] == 2;
    StartKeeps(s0, c, Verdict(true, true));
    StartSafeIff(s1, c, Verdict(true, true));
    hide Good;
    hide Safe;
  }
}
