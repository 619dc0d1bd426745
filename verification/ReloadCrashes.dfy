/**
 When a configuration reload raises KeyError. Restarting a camera stops it before it is known
 whether it can start again; if it cannot, it is no longer among the active cameras, and a later
 entry of the new list that looks it up (services/detector/src/main.py, line 769) fails.
 */
module ReloadCrashes {
  import opened Wrappers
  import opened HotReload

  // ---------------------------------------------------------------------------------------
  // The restarts that follow a change of the global classes
  // ---------------------------------------------------------------------------------------

  /** The camera relies on the global classes and stays configured. */
  ghost predicate Affected(s: System, cameras: seq<CameraCfg>, name: string) {
    name in s.active && s.active[name].classes.None? && name in Names(cameras)
  }

  /** What a camera runs with: its model path and its class filter. */
  datatype Hold = Hold(path: string, classes: Option<set<string>>)

  function HoldOf(s: System, name: string): Hold
    requires name in s.active
  {
    Hold(s.active[name].path, s.active[name].classes)
  }

  function Wanted(pool: Pool, c: CameraCfg): Hold {
    Hold(Resolve(pool, c.model), c.classes)
  }

  /** What a camera runs with once the restarts of `done` have succeeded. */
  ghost function HoldAfter(s: System, cameras: seq<CameraCfg>, done: seq<string>, name: string): Hold
    requires name in s.active
  {
    if name in done && Affected(s, cameras, name) then Wanted(s.pool, Find(cameras, name)) else HoldOf(s, name)
  }

  /** Another camera holds the model, so that no load is needed. */
  ghost predicate Shared(s: System, cameras: seq<CameraCfg>, done: seq<string>, name: string, path: string) {
    exists m :: m in s.active && m != name && HoldAfter(s, cameras, done, m).path == path
  }

  /** The restart at position `j`, as far as it can be told beforehand: the model file is
      there, and it can be loaded or some other camera holds it when the turn comes. */
  ghost predicate RestartOk(s: System, cameras: seq<CameraCfg>, early: string -> Verdict, order: seq<string>, j: nat)
    requires j < |order|
  {
    var name := order[j];
    Affected(s, cameras, name) ==>
      var path := Resolve(s.pool, Find(cameras, name).model);
      && path != "" && early(name).fileExists
      && (early(name).loadOk || Shared(s, cameras, order[..j], name, path))
  }

  lemma SharedIsUsed(s: System, cameras: seq<CameraCfg>, name: string, path: string)
    ensures Shared(s, cameras, [], name, path) <==> Users(s.active - {name}, path) != {}
  {
    if Shared(s, cameras, [], name, path) {
      var m :| m in s.active && m != name && HoldAfter(s, cameras, [], m).path == path;
      assert m in Users(s.active - {name}, path);
    }
    forall m | m in Users(s.active - {name}, path) ensures Shared(s, cameras, [], name, path) {
      assert m in s.active && m != name && HoldAfter(s, cameras, [], m).path == path;
    }
  }

  lemma RestartedIff(s: System, cameras: seq<CameraCfg>, c: CameraCfg, v: Verdict)
    requires Good(s)
    ensures var path := Resolve(s.pool, c.model);
      Restarted(s, c, v).1 <==> path != "" && v.fileExists && (v.loadOk || Shared(s, cameras, [], c.name, path))
  {
    var s1, path := Stopped(s, c.name), Resolve(s.pool, c.model);
    StopKeeps(s, c.name);
    StopFrame(s, c.name);
    InPoolIff(s1, path);
    StartedIff(s1, c, v);
    SharedIsUsed(s, cameras, c.name, path);
    assert s1.active == s.active - {c.name};
    hide Started, Shared, Users, Released;
  }

  lemma FirstRestart(s: System, cameras: seq<CameraCfg>, early: string -> Verdict, order: seq<string>)
    requires Good(s) && order != []
    ensures ClassStep(s, cameras, early, order[0]).1 <==> RestartOk(s, cameras, early, order, 0)
    ensures SameExcept(s, ClassStep(s, cameras, early, order[0]).0, order[0])
    ensures ClassStep(s, cameras, early, order[0]).1 && order[0] in s.active ==>
      var s1 := ClassStep(s, cameras, early, order[0]).0;
      order[0] in s1.active && HoldOf(s1, order[0]) == HoldAfter(s, cameras, [order[0]], order[0])
  {
    assert order[..0] == [];
    if Affected(s, cameras, order[0]) {
      RestartedIff(s, cameras, Find(cameras, order[0]), early(order[0]));
      RestartFacts(s, Find(cameras, order[0]), early(order[0]));
    }
  }

  /** After a successful restart the conditions of the later ones read as they did before. */
  lemma LaterRestart(s: System, s1: System, cameras: seq<CameraCfg>, early: string -> Verdict,
                     order: seq<string>, j: nat)
    requires 0 < j < |order| && order[0] !in order[1..]
    requires SameExcept(s, s1, order[0]) && (order[0] in s1.active <==> order[0] in s.active)
    requires order[0] in s.active ==> HoldOf(s1, order[0]) == HoldAfter(s, cameras, [order[0]], order[0])
    ensures RestartOk(s, cameras, early, order, j) <==> RestartOk(s1, cameras, early, order[1..], j - 1)
  {
    var rest, name := order[1..], order[j];
    assert rest[j - 1] == name;
    assert name in rest;
    assert order[..j] == [order[0]] + rest[..j - 1];
    forall m | m in s.active
      ensures m in s1.active && HoldAfter(s1, cameras, rest[..j - 1], m) == HoldAfter(s, cameras, order[..j], m)
    {
      if m == order[0] {
        assert m !in rest[..j - 1];
      }
    }
    forall path ensures Shared(s, cameras, order[..j], name, path) <==> Shared(s1, cameras, rest[..j - 1], name, path) {
      if Shared(s, cameras, order[..j], name, path) {
        var m :| m in s.active && m != name && HoldAfter(s, cameras, order[..j], m).path == path;
        assert HoldAfter(s1, cameras, rest[..j - 1], m).path == path;
      }
      if Shared(s1, cameras, rest[..j - 1], name, path) {
        var m :| m in s1.active && m != name && HoldAfter(s1, cameras, rest[..j - 1], m).path == path;
        assert m in s.active;
      }
    }
  }

  /** The restarts all succeed exactly when the condition holds at every position. */
  lemma {:induction false} ClassPassSucceedsIff(s: System, cameras: seq<CameraCfg>, early: string -> Verdict,
                                                order: seq<string>)
    requires Good(s)
    requires forall i, j :: 0 <= i < j < |order| ==> order[i] != order[j]
    ensures ClassPass(s, cameras, early, order).1
       <==> forall j :: 0 <= j < |order| ==> RestartOk(s, cameras, early, order, j)
    decreases |order|
  {
    if order == [] {
    } else {
      var s1 := ClassStep(s, cameras, early, order[0]).0;
      ClassStepFacts(s, cameras, early, order[0]);
      FirstRestart(s, cameras, early, order);
      ClassPassSucceedsIff(s1, cameras, early, order[1..]);
      if ClassStep(s, cameras, early, order[0]).1 {
        AllLater(s, s1, cameras, early, order);
      }
      hide RestartOk, ClassStep;
    }
  }

  lemma AllLater(s: System, s1: System, cameras: seq<CameraCfg>, early: string -> Verdict, order: seq<string>)
    requires order != [] && order[0] !in order[1..]
    requires SameExcept(s, s1, order[0]) && (order[0] in s1.active <==> order[0] in s.active)
    requires order[0] in s.active ==> HoldOf(s1, order[0]) == HoldAfter(s, cameras, [order[0]], order[0])
    ensures (forall j :: 0 <= j < |order| ==> RestartOk(s, cameras, early, order, j))
       <==> RestartOk(s, cameras, early, order, 0)
            && forall j :: 0 <= j < |order| - 1 ==> RestartOk(s1, cameras, early, order[1..], j)
  {
    forall j | 0 <= j < |order| - 1
      ensures RestartOk(s1, cameras, early, order[1..], j) <==> RestartOk(s, cameras, early, order, j + 1)
    {
      LaterRestart(s, s1, cameras, early, order, j + 1);
    }
    hide RestartOk, SameExcept, HoldAfter;
    if forall j :: 0 <= j < |order| ==> RestartOk(s, cameras, early, order, j) {
      forall j | 0 <= j < |order| - 1 ensures RestartOk(s1, cameras, early, order[1..], j) {
        assert RestartOk(s, cameras, early, order, j + 1);
      }
    } else {
      var j :| 0 <= j < |order| && !RestartOk(s, cameras, early, order, j);
      assert j > 0 ==> !RestartOk(s1, cameras, early, order[1..], j - 1);
    }
  }

  /** Once the restarts have all succeeded, the cameras run as foreseen. */
  lemma {:induction false} ClassPassHolds(s: System, cameras: seq<CameraCfg>, early: string -> Verdict,
                                          order: seq<string>, m: string)
    requires Good(s) && m in s.active && ClassPass(s, cameras, early, order).1
    requires forall i, j :: 0 <= i < j < |order| ==> order[i] != order[j]
    ensures var s' := ClassPass(s, cameras, early, order).0;
      m in s'.active && HoldOf(s', m) == HoldAfter(s, cameras, order, m)
    decreases |order|
  {
    if order == [] {
    } else {
      var s1 := ClassStep(s, cameras, early, order[0]).0;
      FirstStepHolds(s, cameras, early, order, m);
      ClassPassUnfolds(s, cameras, early, order);
      hide *;
      ClassPassHolds(s1, cameras, early, order[1..], m);
      HoldLater(s, s1, cameras, order, m);
    }
  }

  lemma ClassPassUnfolds(s: System, cameras: seq<CameraCfg>, early: string -> Verdict, order: seq<string>)
    requires order != []
    ensures var (s1, ok) := ClassStep(s, cameras, early, order[0]);
      && ClassPass(s, cameras, early, order).0 == ClassPass(s1, cameras, early, order[1..]).0
      && (ClassPass(s, cameras, early, order).1 <==> ok && ClassPass(s1, cameras, early, order[1..]).1)
  {
  }

  lemma FirstStepHolds(s: System, cameras: seq<CameraCfg>, early: string -> Verdict, order: seq<string>, m: string)
    requires Good(s) && order != [] && m in s.active && ClassPass(s, cameras, early, order).1
    ensures var s1 := ClassStep(s, cameras, early, order[0]).0;
      && Good(s1) && SameExcept(s, s1, order[0]) && m in s1.active
      && (order[0] in s.active ==>
            order[0] in s1.active && HoldOf(s1, order[0]) == HoldAfter(s, cameras, [order[0]], order[0]))
  {
    ClassStepFacts(s, cameras, early, order[0]);
    FirstRestart(s, cameras, early, order);
    ClassPassUnfolds(s, cameras, early, order);
    hide Good, ClassStep, ClassPass, HoldAfter, RestartOk;
  }

  lemma HoldLater(s: System, s1: System, cameras: seq<CameraCfg>, order: seq<string>, m: string)
    requires order != [] && order[0] !in order[1..] && m in s.active && m in s1.active
    requires SameExcept(s, s1, order[0])
    requires order[0] in s.active ==>
               order[0] in s1.active && HoldOf(s1, order[0]) == HoldAfter(s, cameras, [order[0]], order[0])
    ensures HoldAfter(s1, cameras, order[1..], m) == HoldAfter(s, cameras, order, m)
  {
    assert m in order <==> m == order[0] || m in order[1..];
  }

  // ---------------------------------------------------------------------------------------
  // Who holds which model during the pass over the list
  // ---------------------------------------------------------------------------------------

  /** A reference to a model: that of a camera active before the reload, or one taken by a
      start under a new name, at a position of the list. */
  datatype Holder = Known(name: string) | Added(position: nat)

  type Holders = map<Holder, Hold>

  ghost predicate IsHeld(u: Holders, path: string) {
    exists h :: h in u && u[h].path == path
  }

  /** A start needs the model file, and a model that loads or is held already. */
  ghost predicate Obtains(u: Holders, path: string, v: Verdict) {
    path != "" && v.fileExists && (v.loadOk || IsHeld(u, path))
  }

  ghost function Taken(u: Holders, h: Holder, hold: Hold, v: Verdict): Holders {
    if Obtains(u, hold.path, v) then u[h := hold] else u
  }

  /** What entry `i` of the list does: a new camera is started, a known one restarted if it is
      to run with something else, a lost one stays lost. */
  ghost function NextHolders(u: Holders, i: nat, c: CameraCfg, pool: Pool, v: Verdict, known: set<string>): Holders {
    var h, hold := Known(c.name), Wanted(pool, c);
    if c.name !in known then Taken(u, Added(i), hold, v)
    else if h !in u || u[h] == hold then u
    else Taken(u - {h}, h, hold, v)
  }

  /** The holders after the first `n` entries. Reference counts play no part in this. */
  ghost function Outlook(u: Holders, cameras: seq<CameraCfg>, pool: Pool, late: nat -> Verdict, known: set<string>,
                         n: nat): Holders
    requires n <= |cameras|
  {
    if n == 0 then u
    else NextHolders(Outlook(u, cameras, pool, late, known, n - 1), n - 1, cameras[n - 1], pool, late(n - 1), known)
  }

  /** Entry `i` restarts a known camera, and cannot start it again. */
  ghost predicate Fails(u: Holders, cameras: seq<CameraCfg>, pool: Pool, late: nat -> Verdict, known: set<string>,
                        i: nat)
    requires i < |cameras|
  {
    var now, h, hold := Outlook(u, cameras, pool, late, known, i), Known(cameras[i].name), Wanted(pool, cameras[i]);
    cameras[i].name in known && h in now && now[h] != hold && !Obtains(now - {h}, hold.path, late(i))
  }

  /** A known camera is missing exactly if an earlier entry of its name failed to restart it. */
  lemma {:induction false} MissingIff(u: Holders, cameras: seq<CameraCfg>, pool: Pool, late: nat -> Verdict,
                                      known: set<string>, name: string, n: nat)
    requires n <= |cameras| && name in known && Known(name) in u
    ensures Known(name) !in Outlook(u, cameras, pool, late, known, n)
       <==> exists i :: 0 <= i < n && cameras[i].name == name && Fails(u, cameras, pool, late, known, i)
  {
    if n == 0 {
    } else {
      MissingIff(u, cameras, pool, late, known, name, n - 1);
      var now := Outlook(u, cameras, pool, late, known, n - 1);
      assert Fails(u, cameras, pool, late, known, n - 1) && cameras[n - 1].name == name ==> Known(name) in now;
    }
  }

  // ---------------------------------------------------------------------------------------
  // The pool counts the holders
  // ---------------------------------------------------------------------------------------

  ghost function HoldersOf(u: Holders, path: string): set<Holder> {
    set h | h in u && u[h].path == path
  }

  ghost predicate Ledger(s: System, u: Holders) {
    && s.pool.models.Keys == s.pool.refs.Keys
    && (forall p :: p in s.pool.refs ==> s.pool.refs[p] == |HoldersOf(u, p)| && s.pool.refs[p] > 0)
    && (forall h :: h in u ==> u[h].path in s.pool.refs)
  }

  /** The known cameras among the holders are the active ones. */
  ghost predicate Tied(s: System, u: Holders, known: set<string>) {
    forall n :: n in known ==>
      && (Known(n) in u <==> n in s.active)
      && (n in s.active ==> u[Known(n)] == HoldOf(s, n) && s.active[n].path != "")
  }

  lemma HoldersDrop(u: Holders, h: Holder, p: string)
    requires h in u
    ensures |HoldersOf(u - {h}, p)| == |HoldersOf(u, p)| - if p == u[h].path then 1 else 0
  {
    assert HoldersOf(u - {h}, p) == HoldersOf(u, p) - {h};
  }

  lemma HoldersAdd(u: Holders, h: Holder, hold: Hold, p: string)
    requires h !in u
    ensures |HoldersOf(u[h := hold], p)| == |HoldersOf(u, p)| + if p == hold.path then 1 else 0
  {
    assert HoldersOf(u[h := hold], p) == if p == hold.path then HoldersOf(u, p) + {h} else HoldersOf(u, p);
  }

  lemma HeldIff(s: System, u: Holders, p: string)
    requires Ledger(s, u)
    ensures IsHeld(u, p) <==> p in s.pool.refs
    ensures p !in s.pool.refs ==> |HoldersOf(u, p)| == 0
  {
    if p in s.pool.refs {
      var h :| h in HoldersOf(u, p);
    }
  }

  lemma StartLedger(s: System, u: Holders, h: Holder, c: CameraCfg, v: Verdict)
    requires Ledger(s, u) && h !in u
    ensures Started(s, c, v).1 <==> Obtains(u, Wanted(s.pool, c).path, v)
    ensures Ledger(Started(s, c, v).0, Taken(u, h, Wanted(s.pool, c), v))
  {
    var (s', ok) := Started(s, c, v);
    var hold := Wanted(s.pool, c);
    HeldIff(s, u, hold.path);
    if ok {
      forall p | p in s'.pool.refs ensures s'.pool.refs[p] == |HoldersOf(u[h := hold], p)| && s'.pool.refs[p] > 0 {
        HoldersAdd(u, h, hold, p);
      }
    }
  }

  lemma StopLedger(s: System, u: Holders, name: string)
    requires Ledger(s, u) && name in s.active && s.active[name].path != ""
    requires Known(name) in u && u[Known(name)] == HoldOf(s, name)
    ensures Ledger(Stopped(s, name), u - {Known(name)})
  {
    var s', h, rest := Stopped(s, name), Known(name), u - {Known(name)};
    forall p | p in s'.pool.refs ensures s'.pool.refs[p] == |HoldersOf(rest, p)| && s'.pool.refs[p] > 0 {
      HoldersDrop(u, h, p);
    }
    forall g | g in rest ensures rest[g].path in s'.pool.refs {
      HoldersDrop(u, h, rest[g].path);
      assert g in HoldersOf(rest, rest[g].path);
    }
  }

  lemma RestartLedger(s: System, u: Holders, c: CameraCfg, v: Verdict)
    requires Ledger(s, u) && c.name in s.active && s.active[c.name].path != ""
    requires Known(c.name) in u && u[Known(c.name)] == HoldOf(s, c.name)
    ensures Restarted(s, c, v).1 <==> Obtains(u - {Known(c.name)}, Wanted(s.pool, c).path, v)
    ensures Ledger(Restarted(s, c, v).0, Taken(u - {Known(c.name)}, Known(c.name), Wanted(s.pool, c), v))
  {
    StopLedger(s, u, c.name);
    StopFrame(s, c.name);
    hide Ledger, Obtains, Taken;
    StartLedger(Stopped(s, c.name), u - {Known(c.name)}, Known(c.name), c, v);
  }

  /** Added holders stand at positions before `i`. */
  ghost predicate Earlier(u: Holders, i: nat) {
    forall k: nat :: Added(k) in u ==> k < i
  }

  lemma StepLedger(s: System, u: Holders, i: nat, c: CameraCfg, v: Verdict, known: set<string>)
    requires Ledger(s, u) && Tied(s, u, known) && Earlier(u, i)
    ensures var r, u' := ListStep(s, c, v, known), NextHolders(u, i, c, s.pool, v, known);
      && (r.crashed <==> c.name in known && Known(c.name) !in u)
      && (!r.crashed ==> Ledger(r.sys, u') && Tied(r.sys, u', known) && Earlier(u', i + 1)
                         && SameDefaults(s.pool, r.sys.pool))
  {
    if c.name !in known {
      NewStep(s, u, i, c, v, known);
    } else if c.name in s.active {
      hide Ledger;
      if Differs(s, c) {
        RestartStep(s, u, i, c, v, known);
      } else {
        PatchFrame(s, c);
        PatchLedger(s, u, c);
      }
    }
  }

  lemma NewStep(s: System, u: Holders, i: nat, c: CameraCfg, v: Verdict, known: set<string>)
    requires Ledger(s, u) && Tied(s, u, known) && Earlier(u, i) && c.name !in known
    ensures var s', u' := Started(s, c, v).0, Taken(u, Added(i), Wanted(s.pool, c), v);
      Ledger(s', u') && Tied(s', u', known) && Earlier(u', i + 1) && SameDefaults(s.pool, s'.pool)
  {
    StartLedger(s, u, Added(i), c, v);
    hide Ledger, Obtains;
  }

  lemma RestartStep(s: System, u: Holders, i: nat, c: CameraCfg, v: Verdict, known: set<string>)
    requires Ledger(s, u) && Tied(s, u, known) && Earlier(u, i) && c.name in known && c.name in s.active
    ensures var s', u' := Restarted(s, c, v).0, Taken(u - {Known(c.name)}, Known(c.name), Wanted(s.pool, c), v);
      Ledger(s', u') && Tied(s', u', known) && Earlier(u', i + 1) && SameDefaults(s.pool, s'.pool)
  {
    RestartLedger(s, u, c, v);
    hide Ledger, Obtains;
    StopFrame(s, c.name);
  }

  lemma PatchLedger(s: System, u: Holders, c: CameraCfg)
    requires Ledger(s, u) && c.name in s.active
    ensures Ledger(Patched(s, c), u)
  {
  }

  /** Entry `k` names a known camera that is missing when its turn comes. */
  ghost predicate Missed(u: Holders, cameras: seq<CameraCfg>, pool: Pool, late: nat -> Verdict, known: set<string>,
                         k: nat)
    requires k < |cameras|
  {
    cameras[k].name in known && Known(cameras[k].name) !in Outlook(u, cameras, pool, late, known, k)
  }

  lemma {:induction false} ListPassCrashesIff(s: System, cameras: seq<CameraCfg>, late: nat -> Verdict,
                                              known: set<string>, i: nat, u: Holders, pool: Pool)
    requires i <= |cameras| && s.pool.path == pool.path
    requires var now := Outlook(u, cameras, pool, late, known, i);
      Ledger(s, now) && Tied(s, now, known) && Earlier(now, i)
    ensures ListPass(s, cameras, late, known, i).crashed
       <==> exists k :: i <= k < |cameras| && Missed(u, cameras, pool, late, known, k)
    decreases |cameras| - i
  {
    if i == |cameras| {
    } else {
      var now := Outlook(u, cameras, pool, late, known, i);
      var r := ListStep(s, cameras[i], late(i), known);
      StepLedger(s, now, i, cameras[i], late(i), known);
      OutlookUnfolds(u, cameras, pool, late, known, i, s.pool);
      ListPassUnfolds(s, cameras, late, known, i);
      hide *;
      if !r.crashed {
        SamePath(s, r.sys);
        ListPassCrashesIff(r.sys, cameras, late, known, i + 1, u, pool);
      }
    }
  }

  lemma SamePath(s: System, s': System)
    requires SameDefaults(s.pool, s'.pool)
    ensures s'.pool.path == s.pool.path
  {
  }

  lemma OutlookUnfolds(u: Holders, cameras: seq<CameraCfg>, pool: Pool, late: nat -> Verdict, known: set<string>,
                       i: nat, other: Pool)
    requires i < |cameras| && other.path == pool.path
    ensures var now := Outlook(u, cameras, pool, late, known, i);
      && Outlook(u, cameras, pool, late, known, i + 1) == NextHolders(now, i, cameras[i], other, late(i), known)
      && (Missed(u, cameras, pool, late, known, i) <==> cameras[i].name in known && Known(cameras[i].name) !in now)
  {
  }

  lemma ListPassUnfolds(s: System, cameras: seq<CameraCfg>, late: nat -> Verdict, known: set<string>, i: nat)
    requires i < |cameras|
    ensures var r := ListStep(s, cameras[i], late(i), known);
      ListPass(s, cameras, late, known, i).crashed
      <==> r.crashed || ListPass(r.sys, cameras, late, known, i + 1).crashed
  {
  }

  // ---------------------------------------------------------------------------------------
  // The whole reload
  // ---------------------------------------------------------------------------------------

  /** The holders when the pass over the list begins. */
  ghost function Foreseen(s: System, cameras: seq<CameraCfg>, done: seq<string>): Holders {
    map n | n in s.active :: Known(n) := HoldAfter(s, cameras, done, n)
  }

  ghost function HoldersIn(s: System): Holders {
    map n | n in s.active :: Known(n) := HoldOf(s, n)
  }

  /** Of the cameras that a change of the global classes restarts, one cannot start again. */
  ghost predicate ClassRestartFails(s: System, cfg: Config, early: string -> Verdict, order: seq<string>) {
    ClassesChange(s, cfg)
    && exists j :: 0 <= j < |order| && !RestartOk(Defaulted(s, cfg), cfg.cameras, early, order, j)
  }

  /** An entry fails to restart an active camera whose name is listed again later. */
  ghost predicate RepeatedFails(s: System, cfg: Config, late: nat -> Verdict, order: seq<string>) {
    var s1 := Defaulted(s, cfg);
    var u := Foreseen(s1, cfg.cameras, if ClassesChange(s, cfg) then order else []);
    exists i, k :: 0 <= i < k < |cfg.cameras| && cfg.cameras[i].name == cfg.cameras[k].name
                   && Fails(u, cfg.cameras, s1.pool, late, s.active.Keys, i)
  }

  lemma {:induction false} KnownSize(names: set<string>)
    ensures |set n | n in names :: Known(n)| == |names|
  {
    if names == {} {
    } else {
      var x :| x in names;
      KnownSize(names - {x});
      assert (set n | n in names :: Known(n)) == (set n | n in names - {x} :: Known(n)) + {Known(x)};
    }
  }

  lemma HoldersLedger(s2: System)
    requires Good(s2)
    ensures var u := HoldersIn(s2); Ledger(s2, u) && Tied(s2, u, s2.active.Keys) && Earlier(u, 0)
  {
    var u := HoldersIn(s2);
    forall p | p in s2.pool.refs ensures s2.pool.refs[p] == |HoldersOf(u, p)| {
      KnownSize(Users(s2.active, p));
      assert HoldersOf(u, p) == set n | n in Users(s2.active, p) :: Known(n);
    }
  }

  /** What the restarts for the global classes leave, if all succeed. */
  lemma RefreshedHolders(s: System, cfg: Config, early: string -> Verdict, order: seq<string>, removed: seq<string>)
    requires Good(s) && Enumerates(s, cfg, order, removed) && Refreshed(s, cfg, early, order).1
    ensures var s2, s1 := Refreshed(s, cfg, early, order).0, Defaulted(s, cfg);
      && Good(s2) && s2.active.Keys == s.active.Keys && s2.pool.path == s1.pool.path
      && Foreseen(s1, cfg.cameras, if ClassesChange(s, cfg) then order else []) == HoldersIn(s2)
  {
    var s1, s2 := Defaulted(s, cfg), Refreshed(s, cfg, early, order).0;
    var done := if ClassesChange(s, cfg) then order else [];
    NobodyLost(s, cfg, early, order);
    hide Good, Refreshed, Foreseen;
    forall m | m in s1.active ensures m in s2.active && HoldOf(s2, m) == HoldAfter(s1, cfg.cameras, done, m) {
      RefreshedHold(s, cfg, early, order, removed, m);
    }
    hide HoldAfter, Defaulted;
    SameHolders(s1, s2, cfg.cameras, done);
  }

  lemma NobodyLost(s: System, cfg: Config, early: string -> Verdict, order: seq<string>)
    requires Good(s) && Refreshed(s, cfg, early, order).1
    ensures var s2, s1 := Refreshed(s, cfg, early, order).0, Defaulted(s, cfg);
      Good(s2) && s2.active.Keys == s.active.Keys == s1.active.Keys && s2.pool.path == s1.pool.path
  {
    ListAfterClassPass(s, cfg, early, order);
    hide Good, Refreshed;
  }

  lemma RefreshedHold(s: System, cfg: Config, early: string -> Verdict, order: seq<string>, removed: seq<string>,
                      m: string)
    requires Good(s) && Enumerates(s, cfg, order, removed) && Refreshed(s, cfg, early, order).1 && m in s.active
    ensures var s2, s1 := Refreshed(s, cfg, early, order).0, Defaulted(s, cfg);
      m in s2.active && HoldOf(s2, m) == HoldAfter(s1, cfg.cameras, if ClassesChange(s, cfg) then order else [], m)
  {
    var s1 := Defaulted(s, cfg);
    UpdateKeeps(s, s1.pool.path, cfg.confidence, cfg.classes);
    hide Good;
    if ClassesChange(s, cfg) {
      ClassPassHolds(s1, cfg.cameras, early, order, m);
    }
  }

  lemma SameHolders(s1: System, s2: System, cameras: seq<CameraCfg>, done: seq<string>)
    requires s2.active.Keys == s1.active.Keys
    requires forall m :: m in s1.active ==> HoldOf(s2, m) == HoldAfter(s1, cameras, done, m)
    ensures Foreseen(s1, cameras, done) == HoldersIn(s2)
  {
  }

  /**
   The reload raises KeyError exactly in two cases. The global classes change and, of the
   cameras that rely on them and stay configured, one has no model file, or a model that cannot
   be loaded and that no other camera holds when its turn comes. Or the list names an active
   camera twice, and an entry before the last is to restart it but has no model file, or a model
   that cannot be loaded and that nobody else holds.
   */
  lemma ReloadCrashesIff(s: System, cfg: Config, oracle: Oracle, order: seq<string>, removed: seq<string>)
    requires Good(s) && Enumerates(s, cfg, order, removed)
    ensures Reloaded(s, cfg, oracle, order, removed).crashed
       <==> ClassRestartFails(s, cfg, oracle.early, order) || RepeatedFails(s, cfg, oracle.late, order)
  {
    RefreshedIff(s, cfg, oracle.early, order, removed);
    ListAfterClassPass(s, cfg, oracle.early, order);
    var (s2, ok) := Refreshed(s, cfg, oracle.early, order);
    CrashedInPass(s, cfg, oracle, order, removed);
    hide *;
    if ok {
      RefreshedHolders(s, cfg, oracle.early, order, removed);
      HoldersLedger(s2);
      CrashesAtRepeated(s, cfg, oracle, order, s2);
    } else {
      LostIsMissed(s2, cfg.cameras, oracle.late, s.active.Keys, 0);
    }
  }

  lemma CrashedInPass(s: System, cfg: Config, oracle: Oracle, order: seq<string>, removed: seq<string>)
    ensures Reloaded(s, cfg, oracle, order, removed).crashed
       <==> ListPass(Refreshed(s, cfg, oracle.early, order).0, cfg.cameras, oracle.late, s.active.Keys, 0).crashed
  {
  }

  lemma RefreshedIff(s: System, cfg: Config, early: string -> Verdict, order: seq<string>, removed: seq<string>)
    requires Good(s) && Enumerates(s, cfg, order, removed)
    ensures Refreshed(s, cfg, early, order).1 <==> !ClassRestartFails(s, cfg, early, order)
  {
    UpdateKeeps(s, Defaulted(s, cfg).pool.path, cfg.confidence, cfg.classes);
    ClassPassSucceedsIff(Defaulted(s, cfg), cfg.cameras, early, order);
  }

  lemma CrashesAtRepeated(s: System, cfg: Config, oracle: Oracle, order: seq<string>, s2: System)
    requires s2.active.Keys == s.active.Keys && s2.pool.path == Defaulted(s, cfg).pool.path
    requires var u := Foreseen(Defaulted(s, cfg), cfg.cameras, if ClassesChange(s, cfg) then order else []);
      Ledger(s2, u) && Tied(s2, u, s.active.Keys) && Earlier(u, 0)
    ensures ListPass(s2, cfg.cameras, oracle.late, s.active.Keys, 0).crashed
       <==> RepeatedFails(s, cfg, oracle.late, order)
  {
    var s1, known, cs := Defaulted(s, cfg), s.active.Keys, cfg.cameras;
    var u := Foreseen(s1, cs, if ClassesChange(s, cfg) then order else []);
    ListPassCrashesIff(s2, cs, oracle.late, known, 0, u, s1.pool);
    hide *;
    RepeatedFailsIff(s, cfg, oracle.late, order, u);
  }

  lemma RepeatedFailsIff(s: System, cfg: Config, late: nat -> Verdict, order: seq<string>, u: Holders)
    requires u == Foreseen(Defaulted(s, cfg), cfg.cameras, if ClassesChange(s, cfg) then order else [])
    ensures RepeatedFails(s, cfg, late, order)
       <==> exists k :: 0 <= k < |cfg.cameras| && Missed(u, cfg.cameras, Defaulted(s, cfg).pool, late, s.active.Keys, k)
  {
    var pool, known, cs := Defaulted(s, cfg).pool, s.active.Keys, cfg.cameras;
    forall n | n in known ensures Known(n) in u {
      assert n in Defaulted(s, cfg).active;
    }
    hide Foreseen, Defaulted, ClassesChange;
    if k :| 0 <= k < |cs| && Missed(u, cs, pool, late, known, k) {
      MissingIff(u, cs, pool, late, known, cs[k].name, k);
      var i :| 0 <= i < k && cs[i].name == cs[k].name && Fails(u, cs, pool, late, known, i);
      assert RepeatedFails(s, cfg, late, order);
    }
    if RepeatedFails(s, cfg, late, order) {
      var i, k :| 0 <= i < k < |cs| && cs[i].name == cs[k].name && Fails(u, cs, pool, late, known, i);
      MissingIff(u, cs, pool, late, known, cs[k].name, k);
      assert Missed(u, cs, pool, late, known, k);
    }
  }

  /** A camera that was lost before the pass is looked up in vain, or the pass ends sooner. */
  lemma {:induction false} LostIsMissed(s: System, cameras: seq<CameraCfg>, late: nat -> Verdict,
                                        known: set<string>, i: nat)
    requires i <= |cameras| && LookupFails(s, cameras, known, i)
    ensures ListPass(s, cameras, late, known, i).crashed
    decreases |cameras| - i
  {
    if i == |cameras| {
    } else {
      var r := ListStep(s, cameras[i], late(i), known);
      if !r.crashed {
        var j :| i <= j < |cameras| && cameras[j].name in known && cameras[j].name !in s.active;
        assert r.sys.active.Keys <= s.active.Keys + {cameras[i].name};
        assert j > i && cameras[j].name != cameras[i].name;
        LostIsMissed(r.sys, cameras, late, known, i + 1);
      }
    }
  }

  /** The state after starting one camera on the default model. */
  lemma OneCamera()
    ensures var c := CameraCfg("door", None, None, [], None, None, [], None);
      var s := ColdStarted(Config(Some("yolo.pt"), 0.25, [], [c]), i => Verdict(true, true)).0;
      && Good(s) && s.active == map["door" := Running(c, "yolo.pt", 0)]
      && s.pool.path == "yolo.pt" && s.pool.classes == []
  {
    var c := CameraCfg("door", None, None, [], None, None, [], None);
    var cold := Config(Some("yolo.pt"), 0.25, [], [c]);
    var late := i => Verdict(true, true);
    ColdStartMatches(cold, late);
    var s0 := System(Pool("yolo.pt", 0.25, [], map[], map[], 0), map[]);
    assert ColdPass(Started(s0, c, Verdict(true, true)).0, [c], late, 1).0 == Started(s0, c, Verdict(true, true)).0;
    assert ColdStarted(cold, late).0 == Started(s0, c, Verdict(true, true)).0;
  }

  /** One camera on the default model, whose file disappears while the classes change. */
  lemma CrashingReload()
    ensures var c := CameraCfg("door", None, None, [], None, None, [], None);
      var s := ColdStarted(Config(Some("yolo.pt"), 0.25, [], [c]), i => Verdict(true, true)).0;
      var cfg := Config(Some("yolo.pt"), 0.25, ["cat"], [c]);
      var oracle := Oracle(n => Verdict(false, true), i => Verdict(true, true));
      Good(s) && Enumerates(s, cfg, ["door"], []) && Reloaded(s, cfg, oracle, ["door"], []).crashed
  {
    OneCamera();
    var c := CameraCfg("door", None, None, [], None, None, [], None);
    var s := ColdStarted(Config(Some("yolo.pt"), 0.25, [], [c]), i => Verdict(true, true)).0;
    var cfg := Config(Some("yolo.pt"), 0.25, ["cat"], [c]);
    var oracle := Oracle(n => Verdict(false, true), i => Verdict(true, true));
    assert Names([c]) == {"door"} by {
      assert [c][0].name in Names([c]);
    }
    assert "cat" in Elements(cfg.classes) && "cat" !in Elements(s.pool.classes);
    ReloadCrashesIff(s, cfg, oracle, ["door"], []);
    assert !RestartOk(Defaulted(s, cfg), cfg.cameras, oracle.early, ["door"], 0);
  }

  /** One camera listed twice with a new model whose file is missing. The first entry stops it,
      the second looks it up in vain, though the global classes do not change. */
  lemma TwiceListed()
    ensures var c := CameraCfg("door", None, None, [], None, None, [], None);
      var s := ColdStarted(Config(Some("yolo.pt"), 0.25, [], [c]), i => Verdict(true, true)).0;
      var d := c.(model := Some("b.pt"));
      var cfg := Config(Some("yolo.pt"), 0.25, [], [d, d]);
      var oracle := Oracle(n => Verdict(true, true), i => Verdict(false, true));
      && Good(s) && Enumerates(s, cfg, ["door"], []) && !ClassesChange(s, cfg)
      && Reloaded(s, cfg, oracle, ["door"], []).crashed
  {
    OneCamera();
    var c := CameraCfg("door", None, None, [], None, None, [], None);
    var s := ColdStarted(Config(Some("yolo.pt"), 0.25, [], [c]), i => Verdict(true, true)).0;
    var d := c.(model := Some("b.pt"));
    var cfg := Config(Some("yolo.pt"), 0.25, [], [d, d]);
    var oracle := Oracle(n => Verdict(true, true), i => Verdict(false, true));
    assert Names([d, d]) == {"door"} by {
      assert [d, d][0].name in Names([d, d]);
    }
    ReloadCrashesIff(s, cfg, oracle, ["door"], []);
    var s1 := Defaulted(s, cfg);
    var u := Foreseen(s1, cfg.cameras, []);
    assert Known("door") in u && u[Known("door")] == Hold("yolo.pt", None);
    assert Wanted(s1.pool, d) == Hold("b.pt", None);
    assert Fails(u, cfg.cameras, s1.pool, oracle.late, s.active.Keys, 0);
    assert cfg.cameras[0].name == cfg.cameras[1].name;
    assert RepeatedFails(s, cfg, oracle.late, ["door"]);
  }
}
