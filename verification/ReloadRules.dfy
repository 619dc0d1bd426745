/**
 What a camera runs with after a start-up or a reload, read off the configuration alone, and the
 two forms a configuration may take: rules under their old key, and no default model.
 */
module ReloadRules {
  import opened Wrappers
  import opened HotReload

  /** notification_rules, even if empty; action_rules, which older configurations have, only when
      there are none; no rules without either. */
  ghost predicate RulesAre(rules: seq<string>, c: CameraCfg) {
    match c.notificationRules
    case Some(r) => rules == r
    case None => rules == match c.actionRules case Some(r) => r case None => []
  }

  /** The camera does what its configuration says, with the model of its own or the default. */
  ghost predicate RunsAs(cam: Camera, c: CameraCfg, default: string) {
    && RulesAre(cam.rules, c)
    && cam.path == (if c.model.Some? && c.model.value != "" then c.model.value else default)
    && cam.classes == c.classes && cam.confidence == c.confidence
    && cam.zones == c.zones && cam.deterrentRules == c.deterrentRules
  }

  lemma FitRuns(cam: Camera, c: CameraCfg, pool: Pool)
    requires Fits(cam, c, pool)
    ensures RunsAs(cam, c, pool.path)
  {
  }

  /** The listed cameras from position `i` on that are active run as configured. */
  ghost predicate ActiveFit(s: System, cameras: seq<CameraCfg>, i: nat) {
    forall j :: i <= j < |cameras| && cameras[j].name in s.active ==>
      Fits(s.active[cameras[j].name], cameras[j], s.pool)
  }

  lemma FirstFits(s1: System, s2: System, cameras: seq<CameraCfg>, i: nat)
    requires i < |cameras| && DistinctNames(cameras) && SameBeyond(s1, s2, cameras, i + 1)
    requires cameras[i].name in s1.active ==> Fits(s1.active[cameras[i].name], cameras[i], s1.pool)
    requires ActiveFit(s2, cameras, i + 1)
    ensures ActiveFit(s2, cameras, i)
  {
  }

  lemma {:induction false} ColdPassFits(s: System, cameras: seq<CameraCfg>, late: nat -> Verdict, i: nat)
    requires Good(s) && DistinctNames(cameras) && i <= |cameras|
    requires forall j :: i <= j < |cameras| ==> cameras[j].name !in s.active
    ensures ActiveFit(ColdPass(s, cameras, late, i).0, cameras, i)
    decreases |cameras| - i
  {
    if i == |cameras| {
    } else {
      var (s1, ok) := Started(s, cameras[i], late(i));
      ColdStep(s, cameras, late, i);
      ColdPassFits(s1, cameras, late, i + 1);
      ColdPassFacts(s1, cameras, late, i + 1);
      ColdPassUnfolds(s, cameras, late, i);
      hide Started, ColdPass, Good, Fits, AllFit;
      FirstFits(s1, ColdPass(s, cameras, late, i).0, cameras, i);
    }
  }

  lemma ListStepFits(s: System, c: CameraCfg, v: Verdict, known: set<string>)
    requires Good(s) && (c.name !in known ==> c.name !in s.active) && !ListStep(s, c, v, known).crashed
    ensures var s' := ListStep(s, c, v, known).sys;
      c.name in s'.active ==> Fits(s'.active[c.name], c, s'.pool)
  {
    if c.name !in known {
      StartFacts(s, c, v);
    } else if Differs(s, c) {
      RestartFacts(s, c, v);
    } else {
      PatchFrame(s, c);
    }
  }

  lemma {:induction false} ListPassFits(s: System, cameras: seq<CameraCfg>, late: nat -> Verdict,
                                        known: set<string>, i: nat)
    requires Good(s) && DistinctNames(cameras) && i <= |cameras| && NewAreFree(s, cameras, known, i)
    requires !ListPass(s, cameras, late, known, i).crashed
    ensures ActiveFit(ListPass(s, cameras, late, known, i).sys, cameras, i)
    decreases |cameras| - i
  {
    if i == |cameras| {
    } else {
      var r := ListStep(s, cameras[i], late(i), known);
      var rest := ListPass(r.sys, cameras, late, known, i + 1);
      FirstStepFits(s, cameras, late, known, i);
      hide *;
      DistinctNew(cameras, known);
      StillFree(s, r.sys, cameras, known, i);
      ListPassFits(r.sys, cameras, late, known, i + 1);
      ListPassFacts(r.sys, cameras, late, known, i + 1);
      ListedBeyond(r.sys, rest, cameras, known, i + 1);
      FirstFits(r.sys, rest.sys, cameras, i);
    }
  }

  lemma FirstStepFits(s: System, cameras: seq<CameraCfg>, late: nat -> Verdict, known: set<string>, i: nat)
    requires Good(s) && i < |cameras| && NewAreFree(s, cameras, known, i)
    requires !ListPass(s, cameras, late, known, i).crashed
    ensures var r := ListStep(s, cameras[i], late(i), known);
      && !r.crashed && Good(r.sys) && SameExcept(s, r.sys, cameras[i].name)
      && (cameras[i].name in r.sys.active ==> Fits(r.sys.active[cameras[i].name], cameras[i], r.sys.pool))
      && !ListPass(r.sys, cameras, late, known, i + 1).crashed
      && ListPass(s, cameras, late, known, i).sys == ListPass(r.sys, cameras, late, known, i + 1).sys
  {
    ListStepFacts(s, cameras[i], late(i), known);
    hide Good, Fits;
    ListStepFits(s, cameras[i], late(i), known);
  }

  lemma DistinctNew(cameras: seq<CameraCfg>, known: set<string>)
    requires DistinctNames(cameras)
    ensures NewAreDistinct(cameras, known)
  {
  }

  lemma ListedBeyond(s: System, r: Reload, cameras: seq<CameraCfg>, known: set<string>, i: nat)
    requires Listed(s, r, cameras, known, i) && !r.crashed
    ensures SameBeyond(s, r.sys, cameras, i)
  {
  }

  /** Every active camera is listed and does what its entry says, and the detector it uses
      carries the confidence and the classes of the configuration. */
  ghost predicate InForce(s: System, cfg: Config, default: string) {
    && (forall n :: n in s.active ==> exists j :: 0 <= j < |cfg.cameras| && cfg.cameras[j].name == n)
    && (forall j :: 0 <= j < |cfg.cameras| && cfg.cameras[j].name in s.active ==>
          RunsAs(s.active[cfg.cameras[j].name], cfg.cameras[j], default))
    && (forall n :: n in s.active ==>
          && s.active[n].path in s.pool.models
          && s.pool.models[s.active[n].path].confidence == cfg.confidence
          && forall k :: k in s.pool.models[s.active[n].path].classes <==> k in cfg.classes)
  }

  lemma FitInForce(s: System, cfg: Config, default: string)
    requires Good(s) && ActiveFit(s, cfg.cameras, 0) && forall n :: n in s.active ==> n in Names(cfg.cameras)
    requires s.pool.path == default && s.pool.confidence == cfg.confidence && s.pool.classes == cfg.classes
    ensures InForce(s, cfg, default)
  {
    forall j | 0 <= j < |cfg.cameras| && cfg.cameras[j].name in s.active
      ensures RunsAs(s.active[cfg.cameras[j].name], cfg.cameras[j], default)
    {
      FitRuns(s.active[cfg.cameras[j].name], cfg.cameras[j], s.pool);
    }
  }

  /** After a start-up the configuration is in force, also if some starts failed; if none did,
      every listed camera is active. */
  lemma ColdStartInForce(cfg: Config, late: nat -> Verdict)
    requires cfg.model.Some? && DistinctNames(cfg.cameras)
    ensures InForce(ColdStarted(cfg, late).0, cfg, cfg.model.value)
    ensures ColdStarted(cfg, late).1 ==>
      forall j :: 0 <= j < |cfg.cameras| ==> cfg.cameras[j].name in ColdStarted(cfg, late).0.active
  {
    var s0 := System(Pool(cfg.model.value, cfg.confidence, cfg.classes, map[], map[], 0), map[]);
    ColdPassFacts(s0, cfg.cameras, late, 0);
    ColdPassFits(s0, cfg.cameras, late, 0);
    UnlistedUntouched(s0, ColdStarted(cfg, late).0, cfg.cameras);
    FitInForce(ColdStarted(cfg, late).0, cfg, cfg.model.value);
  }

  /** The same after a reload that raises nothing. Without a model in the configuration the
      default stays what it was. */
  lemma ReloadInForce(s: System, cfg: Config, oracle: Oracle, order: seq<string>, removed: seq<string>)
    requires Good(s) && DistinctNames(cfg.cameras) && Enumerates(s, cfg, order, removed)
    requires !Reloaded(s, cfg, oracle, order, removed).crashed
    ensures var r := Reloaded(s, cfg, oracle, order, removed);
      && InForce(r.sys, cfg, if cfg.model.Some? then cfg.model.value else s.pool.path)
      && (r.allStarted ==> forall j :: 0 <= j < |cfg.cameras| ==> cfg.cameras[j].name in r.sys.active)
  {
    var s2 := Refreshed(s, cfg, oracle.early, order).0;
    var r := ListPass(s2, cfg.cameras, oracle.late, s.active.Keys, 0);
    var s4 := Reloaded(s, cfg, oracle, order, removed).sys;
    ListAfterClassPass(s, cfg, oracle.early, order);
    LastPasses(s, cfg, oracle, order, removed, s2);
    DefaultsSet(s, cfg);
    SameTwice(Defaulted(s, cfg).pool, s2.pool, r.sys.pool, s4.pool);
    hide *;
    UnlistedUntouched(s2, r.sys, cfg.cameras);
    OnlyKnown(Defaulted(s, cfg), s2, cfg.cameras);
    Missing(s, order, cfg, removed);
    StoppedFits(s, s2, r.sys, s4, cfg, removed);
    FitInForce(s4, cfg, if cfg.model.Some? then cfg.model.value else s.pool.path);
    if r.allStarted {
      AllActive(r.sys, cfg.cameras);
    }
  }

  lemma LastPasses(s: System, cfg: Config, oracle: Oracle, order: seq<string>, removed: seq<string>, s2: System)
    requires Good(s2) && DistinctNames(cfg.cameras) && NewAreFree(s2, cfg.cameras, s.active.Keys, 0)
    requires s2 == Refreshed(s, cfg, oracle.early, order).0 && !Reloaded(s, cfg, oracle, order, removed).crashed
    ensures var r := ListPass(s2, cfg.cameras, oracle.late, s.active.Keys, 0);
      var s4 := Reloaded(s, cfg, oracle, order, removed);
      && ActiveFit(r.sys, cfg.cameras, 0) && SameBeyond(s2, r.sys, cfg.cameras, 0)
      && (s4.allStarted ==> r.allStarted && AllFit(r.sys, cfg.cameras, 0))
      && Good(s4.sys) && SameDefaults(r.sys.pool, s4.sys.pool)
      && s4.sys.active.Keys == r.sys.active.Keys - Elements(removed)
      && (forall n :: n in s4.sys.active ==> s4.sys.active[n] == r.sys.active[n])
  {
    ListPassFacts(s2, cfg.cameras, oracle.late, s.active.Keys, 0);
    ListPassFits(s2, cfg.cameras, oracle.late, s.active.Keys, 0);
    StopPassFacts(ListPass(s2, cfg.cameras, oracle.late, s.active.Keys, 0).sys, removed);
    hide ListPass, Refreshed, StopPass, Good, ActiveFit, SameBeyond, AllFit;
  }

  lemma SameTwice(a: Pool, b: Pool, c: Pool, d: Pool)
    ensures SameDefaults(a, b) && SameDefaults(b, c) && SameDefaults(c, d) ==>
      a.path == d.path && a.confidence == d.confidence && a.classes == d.classes
  {
  }

  lemma OnlyKnown(s1: System, s2: System, cameras: seq<CameraCfg>)
    ensures (exists ok :: Thinned(s1, s2, cameras, ok)) ==> forall n :: n in s2.active ==> n in s1.active
  {
  }

  lemma Missing(s: System, order: seq<string>, cfg: Config, removed: seq<string>)
    requires Enumerates(s, cfg, order, removed)
    ensures Elements(removed) == s.active.Keys - Names(cfg.cameras)
  {
  }

  lemma AllActive(s: System, cameras: seq<CameraCfg>)
    ensures AllFit(s, cameras, 0) ==> forall j :: 0 <= j < |cameras| ==> cameras[j].name in s.active
  {
  }

  lemma DefaultsSet(s: System, cfg: Config)
    ensures var p := Defaulted(s, cfg).pool;
      && p.path == (if cfg.model.Some? then cfg.model.value else s.pool.path)
      && p.confidence == cfg.confidence && p.classes == cfg.classes && Defaulted(s, cfg).active == s.active
  {
  }

  lemma StoppedFits(s: System, s2: System, s3: System, s4: System, cfg: Config, removed: seq<string>)
    requires ActiveFit(s3, cfg.cameras, 0) && SameDefaults(s3.pool, s4.pool)
    requires forall n :: n in s3.active ==> n in s2.active || n in Names(cfg.cameras)
    requires forall n :: n in s2.active ==> n in s.active
    requires Elements(removed) == s.active.Keys - Names(cfg.cameras)
    requires s4.active.Keys == s3.active.Keys - Elements(removed)
    requires forall n :: n in s4.active ==> s4.active[n] == s3.active[n]
    ensures ActiveFit(s4, cfg.cameras, 0) && forall n :: n in s4.active ==> n in Names(cfg.cameras)
    ensures forall j :: 0 <= j < |cfg.cameras| && cfg.cameras[j].name in s3.active ==> cfg.cameras[j].name in s4.active
  {
    forall j | 0 <= j < |cfg.cameras| ensures cfg.cameras[j].name in Names(cfg.cameras) {
    }
  }

  // ---------------------------------------------------------------------------------------
  // Two ways to write the same configuration
  // ---------------------------------------------------------------------------------------

  /** A camera with its legacy rules under the new key. */
  function Migrated(c: CameraCfg): CameraCfg {
    if c.notificationRules.None? && c.actionRules.Some?
    then c.(notificationRules := c.actionRules, actionRules := None) else c
  }

  function AllMigrated(cameras: seq<CameraCfg>): (r: seq<CameraCfg>)
    ensures |r| == |cameras| && forall i :: 0 <= i < |r| ==> r[i] == Migrated(cameras[i])
  {
    seq(|cameras|, i requires 0 <= i < |cameras| => Migrated(cameras[i]))
  }

  lemma SameStart(s: System, c: CameraCfg, v: Verdict)
    ensures Started(s, Migrated(c), v) == Started(s, c, v)
    ensures Restarted(s, Migrated(c), v) == Restarted(s, c, v)
  {
  }

  lemma SameListStep(s: System, c: CameraCfg, v: Verdict, known: set<string>)
    ensures ListStep(s, Migrated(c), v, known) == ListStep(s, c, v, known)
  {
    SameStart(s, c, v);
  }

  lemma {:induction false} SameListPass(s: System, cameras: seq<CameraCfg>, late: nat -> Verdict,
                                        known: set<string>, i: nat)
    requires i <= |cameras|
    ensures ListPass(s, AllMigrated(cameras), late, known, i) == ListPass(s, cameras, late, known, i)
    decreases |cameras| - i
  {
    if i == |cameras| {
    } else {
      SameListStep(s, cameras[i], late(i), known);
      SameListPass(ListStep(s, cameras[i], late(i), known).sys, cameras, late, known, i + 1);
    }
  }

  lemma {:induction false} SameColdPass(s: System, cameras: seq<CameraCfg>, late: nat -> Verdict, i: nat)
    requires i <= |cameras|
    ensures ColdPass(s, AllMigrated(cameras), late, i) == ColdPass(s, cameras, late, i)
    decreases |cameras| - i
  {
    if i == |cameras| {
    } else {
      SameStart(s, cameras[i], late(i));
      SameColdPass(Started(s, cameras[i], late(i)).0, cameras, late, i + 1);
    }
  }

  lemma SameNames(cameras: seq<CameraCfg>)
    ensures Names(AllMigrated(cameras)) == Names(cameras)
  {
    var m := AllMigrated(cameras);
    forall n | n in Names(cameras) ensures n in Names(m) {
      var i :| 0 <= i < |cameras| && cameras[i].name == n;
      assert m[i].name == n;
    }
    forall n | n in Names(m) ensures n in Names(cameras) {
      var i :| 0 <= i < |m| && m[i].name == n;
      assert cameras[i].name == n;
    }
  }

  lemma {:induction false} SameFind(cameras: seq<CameraCfg>, name: string)
    requires name in Names(cameras) && name in Names(AllMigrated(cameras))
    ensures Find(AllMigrated(cameras), name) == Migrated(Find(cameras, name))
  {
    if cameras[0].name == name {
    } else {
      assert AllMigrated(cameras)[1..] == AllMigrated(cameras[1..]);
      var i :| 0 <= i < |cameras| && cameras[i].name == name;
      assert cameras[1..][i - 1].name == name;
      SameNames(cameras[1..]);
      SameFind(cameras[1..], name);
    }
  }

  lemma SameClassStep(s: System, cameras: seq<CameraCfg>, early: string -> Verdict, name: string)
    ensures ClassStep(s, AllMigrated(cameras), early, name) == ClassStep(s, cameras, early, name)
  {
    SameNames(cameras);
    if name in Names(cameras) {
      SameFind(cameras, name);
      SameStart(s, Find(cameras, name), early(name));
    }
  }

  lemma {:induction false} SameClassPass(s: System, cameras: seq<CameraCfg>, early: string -> Verdict,
                                         order: seq<string>)
    ensures ClassPass(s, AllMigrated(cameras), early, order) == ClassPass(s, cameras, early, order)
    decreases |order|
  {
    if order == [] {
    } else {
      SameClassStep(s, cameras, early, order[0]);
      SameClassPass(ClassStep(s, cameras, early, order[0]).0, cameras, early, order[1..]);
    }
  }

  /** Whether rules stand under the old key or the new one makes no difference, to a reload of
      any kind or to a start-up. */
  lemma MigrationUnobservable(s: System, cfg: Config, oracle: Oracle, order: seq<string>, removed: seq<string>,
                              late: nat -> Verdict)
    ensures var m := cfg.(cameras := AllMigrated(cfg.cameras));
      && Reloaded(s, m, oracle, order, removed) == Reloaded(s, cfg, oracle, order, removed)
      && (cfg.model.Some? ==> ColdStarted(m, late) == ColdStarted(cfg, late))
  {
    SameClassPass(Defaulted(s, cfg), cfg.cameras, oracle.early, order);
    SameListPass(Refreshed(s, cfg, oracle.early, order).0, cfg.cameras, oracle.late, s.active.Keys, 0);
    if cfg.model.Some? {
      var s0 := System(Pool(cfg.model.value, cfg.confidence, cfg.classes, map[], map[], 0), map[]);
      SameColdPass(s0, cfg.cameras, late, 0);
    }
    hide ListPass, ClassPass, StopPass;
  }

  /** A reload without a model ends where a start with the present default would. */
  lemma ReloadWithoutModel(s: System, cfg: Config, oracle: Oracle, order: seq<string>, removed: seq<string>,
                           cold: nat -> Verdict)
    requires Good(s) && DistinctNames(cfg.cameras) && Enumerates(s, cfg, order, removed) && cfg.model.None?
    requires Reloaded(s, cfg, oracle, order, removed).allStarted
    requires ColdStarted(cfg.(model := Some(s.pool.path)), cold).1
    ensures TrackedOf(Reloaded(s, cfg, oracle, order, removed).sys)
         == TrackedOf(ColdStarted(cfg.(model := Some(s.pool.path)), cold).0)
  {
    var full := cfg.(model := Some(s.pool.path));
    assert Defaulted(s, full) == Defaulted(s, cfg);
    assert Refreshed(s, full, oracle.early, order) == Refreshed(s, cfg, oracle.early, order);
    assert Reloaded(s, full, oracle, order, removed) == Reloaded(s, cfg, oracle, order, removed);
    assert Enumerates(s, full, order, removed);
    HotReloadEqualsColdStart(s, full, oracle, order, removed, cold);
  }

  /** Cameras are restarted for global classes only if some class is new or gone; order and
      repetition do not matter. */
  lemma ClassesChangeIff(s: System, cfg: Config)
    ensures ClassesChange(s, cfg) <==> exists k :: (k in cfg.classes) != (k in s.pool.classes)
  {
    if forall k :: (k in cfg.classes) == (k in s.pool.classes) {
      assert Elements(cfg.classes) == Elements(s.pool.classes);
    } else {
      var k :| (k in cfg.classes) != (k in s.pool.classes);
      assert (k in Elements(cfg.classes)) != (k in Elements(s.pool.classes));
    }
  }
}
