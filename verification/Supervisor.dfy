/**
 The objects behind HotReload.dfy: the model pool with its loaded detectors
 (services/detector/src/model_pool.py), and the table of running cameras with the operations
 that start, stop and reload them (services/detector/src/main.py). Every method is proved to
 do to its object what the function of HotReload.dfy does to the value.
 */
module Supervisor {
  import opened Wrappers
  import opened HotReload

  class Detector {
    ghost const id: nat
    var confidence: real
    var classes: set<string>

    constructor (ghost id: nat, confidence: real, classes: set<string>)
      ensures this.id == id && this.confidence == confidence && this.classes == classes
    {
      this.id, this.confidence, this.classes := id, confidence, classes;
    }
  }

  class ModelPool {
    var path: string
    var confidence: real
    var classes: seq<string>
    var models: map<string, Detector>
    var refs: map<string, int>
    ghost var view: Pool
    ghost var detectors: set<Detector>  // every detector ever loaded

    ghost predicate Valid()
      reads this, detectors
    {
      && view.path == path && view.confidence == confidence && view.classes == classes && view.refs == refs
      && models.Keys == view.models.Keys == refs.Keys
      && (forall p :: p in models ==> Shows(p))
    }

    ghost predicate Shows(p: string)
      requires p in models && p in view.models
      reads this, detectors
    {
      models[p] in detectors &&
      Model(models[p].id, models[p].confidence, models[p].classes) == view.models[p]
    }

    constructor (path: string, confidence: real, classes: seq<string>)
      ensures Valid() && detectors == {}
      ensures view == Pool(path, confidence, classes, map[], map[], 0)
    {
      this.path, this.confidence, this.classes := path, confidence, classes;
      models, refs, detectors := map[], map[], {};
      view := Pool(path, confidence, classes, map[], map[], 0);
    }

    /** Load a detector under `key`; the count starts at zero. */
    method Load(key: string)
      requires Valid() && key !in models
      modifies this`models, this`refs, this`view, this`detectors
      ensures Valid() && fresh(detectors - old(detectors)) && old(detectors) <= detectors
      ensures view == old(view).(
        models := old(view).models[key := Model(old(view).loads, confidence, Elements(classes))],
        refs := old(view).refs[key := 0],
        loads := old(view).loads + 1)
    {
      var detector := new Detector(view.loads, confidence, Elements(classes));
      detectors := detectors + {detector};
      models := models[key := detector];
      refs := refs[key := 0];
      view := view.(models := view.models[key := Model(view.loads, confidence, Elements(classes))],
                    refs := view.refs[key := 0], loads := view.loads + 1);
      forall p | p in models ensures Shows(p) {
        if p != key { assert old(Shows(p)); }
      }
    }

    /** None when loading raises. */
    method GetDetector(model: Option<string>, loadOk: bool) returns (detector: Option<Detector>)
      requires Valid()
      modifies this`models, this`refs, this`view, this`detectors
      ensures Valid() && fresh(detectors - old(detectors)) && old(detectors) <= detectors
      ensures var key := Resolve(old(view), model);
        match Acquired(old(view), key, loadOk)
        case None => detector.None? && view == old(view)
        case Some(pool) => view == pool && key in models && detector == Some(models[key])
    {
      var key := if model.None? || model.value == "" then path else model.value;
      if key !in models {
        if !loadOk {
          return None;
        }
        Load(key);
        assert old(view).refs[key := 0][key := 1] == old(view).refs[key := 1];
      }
      Retain(key);
      return Some(models[key]);
    }

    method Retain(key: string)
      requires Valid() && key in refs
      modifies this`refs, this`view
      ensures Valid()
      ensures view == old(view).(refs := old(view).refs[key := old(view).refs[key] + 1])
    {
      refs := refs[key := refs[key] + 1];
      view := view.(refs := view.refs[key := view.refs[key] + 1]);
      forall p | p in models ensures Shows(p) { assert old(Shows(p)); }
    }

    method Release(model: Option<string>)
      requires Valid()
      modifies this`models, this`refs, this`view
      ensures Valid()
      ensures view == Released(old(view), Resolve(old(view), model))
    {
      var key := if model.None? || model.value == "" then path else model.value;
      if key !in refs {
        return;
      }
      ghost var before := view;
      refs := refs[key := refs[key] - 1];
      if refs[key] <= 0 {
        models := models - {key};
        refs := refs - {key};
      }
      view := Released(view, key);
      assert refs == view.refs;
      forall p | p in models ensures Shows(p) { assert old(Shows(p)); }
    }

    method UpdateDefaults(path: string, confidence: real, classes: seq<string>)
      requires Valid()
      modifies this`path, this`confidence, this`classes, this`view, detectors
      ensures Valid()
      ensures view == Updated(old(view), path, confidence, classes)
    {
      this.path, this.confidence, this.classes := path, confidence, classes;
      var todo := models.Keys;
      while todo != {}
        invariant todo <= models.Keys
        invariant forall p :: p in models && p !in todo ==>
          models[p].confidence == confidence && models[p].classes == Elements(classes)
        modifies detectors
        decreases todo
      {
        var p :| p in todo;
        assert old(Shows(p));
        var det := models[p];
        det.confidence := confidence;
        det.classes := Elements(classes);
        todo := todo - {p};
      }
      view := Updated(view, path, confidence, classes);
      forall p | p in models ensures Shows(p) { assert old(Shows(p)); }
    }
  }

  class CameraState {
    ghost const name: string
    const path: string
    const classes: Option<set<string>>
    const detector: Detector
    var zones: seq<string>
    var rules: seq<string>
    var deterrentRules: seq<string>
    var confidence: Option<real>

    constructor (c: CameraCfg, path: string, detector: Detector)
      ensures name == c.name && this.detector == detector
      ensures Value() == Running(c, path, detector.id)
    {
      name := c.name;
      this.path, classes, this.detector := path, c.classes, detector;
      zones, rules, deterrentRules, confidence := c.zones, RulesOf(c), c.deterrentRules, c.confidence;
    }

    ghost function Value(): Camera
      reads this
    {
      Camera(path, classes, zones, rules, deterrentRules, confidence, detector.id)
    }

    /** The four hot-patched fields; each is written only if it differs. */
    method Patch(c: CameraCfg)
      modifies this
      ensures Value() == old(Value()).(
        zones := c.zones, rules := RulesOf(c), deterrentRules := c.deterrentRules, confidence := c.confidence)
      ensures c.notificationRules.Some? ==> rules == c.notificationRules.value
      ensures c.notificationRules.None? ==> rules == if c.actionRules.Some? then c.actionRules.value else []
    {
      if c.zones != zones {
        zones := c.zones;
      }
      if RulesOf(c) != rules {
        rules := RulesOf(c);
      }
      if c.deterrentRules != deterrentRules {
        deterrentRules := c.deterrentRules;
      }
      if c.confidence != confidence {
        confidence := c.confidence;
      }
    }
  }

  lemma ClassPassFrom(s: System, cameras: seq<CameraCfg>, early: string -> Verdict, order: seq<string>, i: nat)
    requires i < |order|
    ensures var (s1, ok1) := ClassStep(s, cameras, early, order[i]);
      var (s2, ok2) := ClassPass(s1, cameras, early, order[i + 1..]);
      ClassPass(s, cameras, early, order[i..]) == (s2, ok1 && ok2)
  {
  }

  class Supervisor {
    const pool: ModelPool
    var active: map<string, CameraState>
    ghost var view: map<string, Camera>
    ghost var cameras: set<CameraState>  // every camera ever started

    ghost predicate Valid()
      reads this, cameras, pool, pool.detectors
    {
      && pool.Valid()
      && active.Keys == view.Keys
      && (forall n :: n in active ==> Shows(n))
    }

    ghost predicate Shows(n: string)
      requires n in active && n in view
      reads this, cameras
    {
      active[n] in cameras && active[n].name == n && active[n].Value() == view[n]
    }

    ghost function View(): System
      reads this, pool
    {
      System(pool.view, view)
    }

    constructor (pool: ModelPool)
      requires pool.Valid()
      ensures Valid() && this.pool == pool && cameras == {}
      ensures View() == System(pool.view, map[])
    {
      this.pool := pool;
      active, view, cameras := map[], map[], {};
    }

    /** active_cameras[name] = CameraState(...) */
    method Register(c: CameraCfg, path: string, detector: Detector)
      requires Valid()
      modifies this`active, this`view, this`cameras
      ensures Valid() && fresh(cameras - old(cameras))
      ensures view == old(view)[c.name := Running(c, path, detector.id)]
    {
      var state := new CameraState(c, path, detector);
      cameras := cameras + {state};
      active := active[c.name := state];
      view := view[c.name := Running(c, path, detector.id)];
      forall n | n in active ensures Shows(n) {
        if n != c.name { assert old(Shows(n)); }
      }
    }

    /** `v` is what isfile() and the loader answer. */
    method StartCamera(c: CameraCfg, v: Verdict) returns (started: bool)
      requires Valid()
      modifies this, pool
      ensures Valid() && fresh(cameras - old(cameras)) && fresh(pool.detectors - old(pool.detectors))
      ensures (View(), started) == Started(old(View()), c, v)
    {
      var path := if c.model.None? || c.model.value == "" then pool.path else c.model.value;
      if path == "" || !v.fileExists {
        return false;
      }
      var detector := pool.GetDetector(c.model, v.loadOk);
      forall n | n in active ensures Shows(n) { assert old(Shows(n)); }
      if detector.None? {
        return false;
      }
      assert pool.Shows(path);
      Register(c, path, detector.value);
      return true;
    }

    method StopCamera(name: string)
      requires Valid()
      modifies this, pool
      ensures Valid() && cameras == old(cameras) && pool.detectors == old(pool.detectors)
      ensures View() == Stopped(old(View()), name)
    {
      if name !in active {
        return;
      }
      assert Shows(name);
      hide Valid;
      var state := active[name];
      Unregister(name);
      ReleaseModel(state.path);
    }

    method ReleaseModel(path: string)
      requires Valid()
      modifies pool
      ensures Valid() && pool.detectors == old(pool.detectors)
      ensures pool.view == Released(old(pool.view), Resolve(old(pool.view), Some(path)))
    {
      pool.Release(Some(path));
      forall n | n in active ensures Shows(n) { assert old(Shows(n)); }
    }

    method Unregister(name: string)
      requires Valid() && name in active
      modifies this`active, this`view
      ensures Valid()
      ensures view == old(view) - {name}
    {
      active := active - {name};
      view := view - {name};
      forall n | n in active ensures Shows(n) { assert old(Shows(n)); }
    }

    method Patch(c: CameraCfg)
      requires Valid() && c.name in active
      modifies this`view, cameras
      ensures Valid() && fresh(cameras - old(cameras)) && fresh(pool.detectors - old(pool.detectors))
      ensures View() == Patched(old(View()), c)
    {
      assert Shows(c.name);
      active[c.name].Patch(c);
      view := Patched(View(), c).active;
      forall n | n in active ensures Shows(n) { assert old(Shows(n)); }
    }

    method NeedsRestart(c: CameraCfg) returns (needed: bool)
      requires Valid() && c.name in active
      ensures needed == Differs(View(), c)
    {
      assert Shows(c.name);
      var state := active[c.name];
      var path := if c.model.None? || c.model.value == "" then pool.path else c.model.value;
      return path != state.path || c.classes != state.classes;
    }

    method Restart(c: CameraCfg, v: Verdict) returns (started: bool)
      requires Valid()
      modifies this, pool
      ensures Valid() && fresh(cameras - old(cameras)) && fresh(pool.detectors - old(pool.detectors))
      ensures (View(), started) == Restarted(old(View()), c, v)
    {
      StopCamera(c.name);
      started := StartCamera(c, v);
    }

    /** One turn of the loop over cameras that rely on the global classes. */
    method ClassTurn(cfg: Config, early: string -> Verdict, name: string) returns (ok: bool)
      requires Valid()
      modifies this, pool
      ensures Valid() && fresh(cameras - old(cameras)) && fresh(pool.detectors - old(pool.detectors))
      ensures (View(), ok) == ClassStep(old(View()), cfg.cameras, early, name)
    {
      ok := true;
      if name in active {
        assert Shows(name);
        if active[name].classes.None? && name in Names(cfg.cameras) {
          ok := Restart(Find(cfg.cameras, name), early(name));
        }
      }
    }

    method ClassLoop(cfg: Config, early: string -> Verdict, order: seq<string>) returns (ok: bool)
      requires Valid()
      modifies this, pool
      ensures Valid() && fresh(cameras - old(cameras)) && fresh(pool.detectors - old(pool.detectors))
      ensures (View(), ok) == ClassPass(old(View()), cfg.cameras, early, order)
    {
      hide ClassStep;
      ok := true;
      ghost var end := ClassPass(View(), cfg.cameras, early, order);
      assert order[0..] == order;
      for i := 0 to |order|
        invariant Valid() && fresh(cameras - old(cameras)) && fresh(pool.detectors - old(pool.detectors))
        invariant var rest := ClassPass(View(), cfg.cameras, early, order[i..]);
          end == (rest.0, ok && rest.1)
      {
        ClassPassFrom(View(), cfg.cameras, early, order, i);
        var ok1 := ClassTurn(cfg, early, order[i]);
        ok := ok && ok1;
      }
    }

    /** A camera that was there before: restart it or patch it. */
    method Adjust(c: CameraCfg, v: Verdict) returns (ok: bool)
      requires Valid() && c.name in active
      modifies this, pool, cameras
      ensures Valid() && fresh(cameras - old(cameras)) && fresh(pool.detectors - old(pool.detectors))
      ensures (View(), ok) == Adjusted(old(View()), c, v)
    {
      hide Valid;
      var needed := NeedsRestart(c);
      if needed {
        ok := Restart(c, v);
      } else {
        Patch(c);
        ok := true;
      }
    }

    /** One turn of the loop over the new list; `crashed` is the KeyError. */
    method ListTurn(c: CameraCfg, v: Verdict, known: set<string>) returns (crashed: bool, ok: bool)
      requires Valid()
      modifies this, pool, cameras
      ensures Valid() && fresh(cameras - old(cameras)) && fresh(pool.detectors - old(pool.detectors))
      ensures Reload(View(), crashed, ok) == ListStep(old(View()), c, v, known)
    {
      hide Started;
      hide Adjusted;
      crashed := false;
      if c.name !in known {
        ok := StartCamera(c, v);
      } else if c.name in active {
        ok := Adjust(c, v);
      } else {
        crashed, ok := true, true;
      }
    }

    method ListLoop(cfg: Config, late: nat -> Verdict, known: set<string>) returns (crashed: bool, ok: bool)
      requires Valid()
      modifies this, pool, cameras
      ensures Valid() && fresh(cameras - old(cameras)) && fresh(pool.detectors - old(pool.detectors))
      ensures var r := ListPass(old(View()), cfg.cameras, late, known, 0);
        View() == r.sys && crashed == r.crashed && (!crashed ==> ok == r.allStarted)
    {
      ghost var end := ListPass(View(), cfg.cameras, late, known, 0);
      crashed, ok := false, true;
      for i := 0 to |cfg.cameras|
        invariant Valid() && fresh(cameras - old(cameras)) && fresh(pool.detectors - old(pool.detectors))
        invariant !crashed
        invariant var rest := ListPass(View(), cfg.cameras, late, known, i);
          end.sys == rest.sys && end.crashed == rest.crashed &&
          (!end.crashed ==> end.allStarted == (ok && rest.allStarted))
      {
        var ok1;
        crashed, ok1 := ListTurn(cfg.cameras[i], late(i), known);
        if crashed {
          return;
        }
        ok := ok && ok1;
      }
    }

    method StopLoop(names: seq<string>)
      requires Valid()
      modifies this, pool
      ensures Valid() && cameras == old(cameras) && pool.detectors == old(pool.detectors)
      ensures View() == StopPass(old(View()), names)
    {
      ghost var end := StopPass(View(), names);
      assert names[0..] == names;
      for i := 0 to |names|
        invariant Valid() && cameras == old(cameras) && pool.detectors == old(pool.detectors)
        invariant end == StopPass(View(), names[i..])
      {
        assert names[i..][0] == names[i] && names[i..][1..] == names[i + 1..];
        StopCamera(names[i]);
      }
    }

    /** The start-up loop. */
    method StartAll(cfg: Config, late: nat -> Verdict) returns (ok: bool)
      requires Valid()
      modifies this, pool
      ensures Valid() && fresh(cameras - old(cameras)) && fresh(pool.detectors - old(pool.detectors))
      ensures (View(), ok) == ColdPass(old(View()), cfg.cameras, late, 0)
    {
      ghost var end := ColdPass(View(), cfg.cameras, late, 0);
      ok := true;
      for i := 0 to |cfg.cameras|
        invariant Valid() && fresh(cameras - old(cameras)) && fresh(pool.detectors - old(pool.detectors))
        invariant var rest := ColdPass(View(), cfg.cameras, late, i);
          end == (rest.0, ok && rest.1)
      {
        var ok1 := StartCamera(cfg.cameras[i], late(i));
        ok := ok && ok1;
      }
    }

    /** Some enumeration of a set of names: a dict's insertion order, a set's own order. */
    static method Enumerate(names: set<string>) returns (order: seq<string>)
      ensures Elements(order) == names
      ensures forall i, j :: 0 <= i < j < |order| ==> order[i] != order[j]
    {
      order := [];
      var todo := names;
      while todo != {}
        invariant todo <= names
        invariant forall n :: n in order <==> n in names && n !in todo
        invariant forall i, j :: 0 <= i < j < |order| ==> order[i] != order[j]
        decreases todo
      {
        var n :| n in todo;
        order := order + [n];
        todo := todo - {n};
      }
    }

    method OnConfigChange(cfg: Config, oracle: Oracle)
      returns (crashed: bool, ok: bool, order: seq<string>, removed: seq<string>)
      requires Valid()
      modifies this, pool, pool.detectors, cameras
      ensures Valid()
      ensures Enumerates(old(View()), cfg, order, removed)
      ensures var r := Reloaded(old(View()), cfg, oracle, order, removed);
        View() == r.sys && crashed == r.crashed && (!crashed ==> ok == r.allStarted)
    {
      var known := active.Keys;
      var oldClasses := pool.classes;
      order := Enumerate(active.Keys);
      removed := Enumerate(active.Keys - Names(cfg.cameras));
      pool.UpdateDefaults(if cfg.model.Some? then cfg.model.value else pool.path, cfg.confidence, cfg.classes);
      forall n | n in active ensures Shows(n) { assert old(Shows(n)); }
      ok := true;
      if Elements(cfg.classes) != Elements(oldClasses) {
        ok := ClassLoop(cfg, oracle.early, order);
      }
      var ok1;
      crashed, ok1 := ListLoop(cfg, oracle.late, known);
      if crashed {
        return;
      }
      ok := ok && ok1;
      StopLoop(removed);
    }
  }
}
