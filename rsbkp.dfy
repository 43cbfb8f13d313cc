/** rsbkp.js: the configuration store.  It holds three collections (hosts,
    tasks and profiles), runs every host and task payload through its
    constructor, announces each change on an event log, and writes the three
    collections to a configuration file, at once when autosave is on.  The file
    system is a value the store holds: the directories that exist and the
    files, each held as `JSON.parse` would read it. */
module Store {
  import opened Js
  import opened CheckString
  import opened Collections
  import opened Hosts
  import opened Tasks

  // ---------------------------------------------------------------------------
  // The file system and the paths
  // ---------------------------------------------------------------------------

  /** A file as `JSON.parse(fs.readFileSync(path))` sees it: a value, or text
      that does not parse. */
  datatype File = Json(value: JsValue) | Unparsable

  /** The directories that exist, and the files by path. */
  datatype Disk = Disk(dirs: set<string>, files: map<string, File>)

  const DefaultCfgFile := "config.json"
  const SnapsFile := "snapshots.json"
  const InitialDateFormat := "YYYY-MM-DD HH:mm:ss"
  const AutoSaveMessage := "autoSave must be boolean"

  /** `a + '/' + b` */
  function Join(a: string, b: string): string {
    a + "/" + b
  }

  /** `settings.rsbkpDir || process.env.HOME + '/.rsbkp'`, where `""` stands
      for a setting that is absent. */
  function RsbkpDirOf(setting: string, home: string): string {
    if setting == "" then home + "/.rsbkp" else setting
  }

  /** `settings.cfgFile || 'config.json'` */
  function CfgFileOf(setting: string): string {
    if setting == "" then DefaultCfgFile else setting
  }

  /** `snapsDir(name)`: the directory of a task's snapshots. */
  function SnapsDir(root: string, name: string): (d: string)
    ensures |d| == |root| + 1 + |name| && d[..|root| + 1] == root + "/" && d[|root| + 1..] == name
  {
    Join(root, name)
  }

  /** `snapsPath(name)`: the snapshot list inside that directory. */
  function SnapsPath(root: string, name: string): (p: string)
    ensures Beneath(SnapsDir(root, name), p)
  {
    Join(SnapsDir(root, name), SnapsFile)
  }

  /** Distinct task names give distinct snapshot directory strings: removing one
      queues only its own path string. */
  lemma SnapsDirInjective(root: string, a: string, b: string)
    requires SnapsDir(root, a) == SnapsDir(root, b)
    ensures a == b
  {
    assert a == SnapsDir(root, a)[|root| + 1..];
    assert b == SnapsDir(root, b)[|root| + 1..];
  }

  /** The snapshot list of a task lies inside its directory, under `snapshots.json`. */
  lemma SnapsPathInDir(root: string, name: string)
    ensures var d, p := SnapsDir(root, name), SnapsPath(root, name);
      |p| > |d| + 1 && p[..|d| + 1] == d + "/" && p[|d| + 1..] == SnapsFile
  {
    var d, p := SnapsDir(root, name), SnapsPath(root, name);
    assert p == d + "/" + SnapsFile;
  }

  /** `snaps(name)`: the parsed snapshot list when the file exists, `[]` otherwise. */
  function Snaps(d: Disk, path: string): (r: Result<JsValue>)
    ensures path !in d.files ==> r == Ok(Arr([]))
    ensures path in d.files ==> (r.Ok? <==> d.files[path].Json?)
    ensures path in d.files && d.files[path].Json? ==> r.value == d.files[path].value
    ensures r.Err? ==> r.error == SyntaxError
  {
    if path !in d.files then Ok(Arr([]))
    else match d.files[path]
      case Json(v) => Ok(v)
      case Unparsable => Err(SyntaxError)
  }

  /** The directories a run that completes leaves: every queued one is gone. */
  function Deleted(dirs: set<string>, queue: seq<string>): (r: set<string>)
    ensures forall d :: d in r <==> d in dirs && d !in queue
  {
    dirs - set d | d in queue
  }

  /** `p` names something inside the directory `dir`. */
  predicate Beneath(dir: string, p: string) {
    |dir| + 1 < |p| && p[..|dir| + 1] == dir + "/"
  }

  /** Some file or directory lies inside `dir`. */
  predicate HasEntries(dirs: set<string>, files: map<string, File>, dir: string) {
    (exists p :: p in dirs && Beneath(dir, p)) || (exists p :: p in files && Beneath(dir, p))
  }

  /** The directories left by a run of the deletion queue, and how it ended. */
  datatype Removal = Removal(dirs: set<string>, outcome: Outcome)

  /** `if (fs.existsSync(dir)) fs.rmdirSync(dir)` on the directories `dirs`
      and the files `files`: an absent path is passed over, a file throws
      `ENOTDIR`, a directory with entries throws `ENOTEMPTY`, and an empty
      directory is removed. */
  function RemoveDir(dirs: set<string>, files: map<string, File>, dir: string): (r: Removal)
    ensures r.outcome.Pass? ==> dir !in files && r.dirs == dirs - {dir}
    ensures r.outcome.Fail? ==> r.dirs == dirs && (dir in dirs || dir in files)
    ensures dir in files ==> r.outcome == Fail(NotADirectory(dir))
    ensures dir in dirs && dir !in files ==>
      (r.outcome.Fail? <==> HasEntries(dirs, files, dir)) &&
      (r.outcome.Fail? ==> r.outcome.error == DirectoryNotEmpty(dir))
  {
    if dir !in dirs && dir !in files then Removal(dirs, Pass)
    else if dir in files then Removal(dirs, Fail(NotADirectory(dir)))
    else if HasEntries(dirs, files, dir) then Removal(dirs, Fail(DirectoryNotEmpty(dir)))
    else Removal(dirs - {dir}, Pass)
  }

  /** `toDelete.run()`: the queued paths in order, each through `RemoveDir`;
      the first that throws ends the run, the ones before it staying removed. */
  function Deletions(d: Disk, queue: seq<string>): (r: Removal)
    ensures r.dirs <= d.dirs
  {
    if queue == [] then Removal(d.dirs, Pass)
    else
      var before := Deletions(d, queue[..|queue| - 1]);
      if before.outcome.Fail? then before
      else RemoveDir(before.dirs, d.files, queue[|queue| - 1])
  }

  /** `toDelete.run()` as it runs: a loop over the queue that stops at the
      first `rmdirSync` that throws. */
  method RunDeletions(d: Disk, queue: seq<string>) returns (left: set<string>, o: Outcome)
    ensures Removal(left, o) == Deletions(d, queue)
  {
    left := d.dirs;
    o := Pass;
    var i := 0;
    while i < |queue| && o.Pass?
      invariant 0 <= i <= |queue|
      invariant Removal(left, o) == Deletions(d, queue[..i])
      invariant o.Fail? ==> Deletions(d, queue[..i]) == Deletions(d, queue)
    {
      assert queue[..i + 1][..i] == queue[..i];
      var step := RemoveDir(left, d.files, queue[i]);
      left, o := step.dirs, step.outcome;
      i := i + 1;
      if o.Fail? {
        DeletionsFailKeeps(d, queue, i);
      }
    }
    if o.Pass? {
      assert queue[..i] == queue;
    }
  }

  /** Once a prefix of the queue has thrown, the whole run ends as that prefix did. */
  lemma {:induction false} DeletionsFailKeeps(d: Disk, queue: seq<string>, i: nat)
    requires i <= |queue| && Deletions(d, queue[..i]).outcome.Fail?
    ensures Deletions(d, queue) == Deletions(d, queue[..i])
    decreases |queue| - i
  {
    if i < |queue| {
      assert queue[..i + 1][..i] == queue[..i];
      DeletionsFailKeeps(d, queue, i + 1);
    } else {
      assert queue[..i] == queue;
    }
  }

  /** A run that completes removes exactly the queued directories; no queued
      path was a file. */
  lemma {:induction false} DeletionsPass(d: Disk, queue: seq<string>)
    requires Deletions(d, queue).outcome.Pass?
    ensures Deletions(d, queue).dirs == Deleted(d.dirs, queue)
    ensures forall i :: 0 <= i < |queue| ==> queue[i] !in d.files
  {
    if queue != [] {
      var q := queue[..|queue| - 1];
      DeletionsPass(d, q);
      assert forall i :: 0 <= i < |q| ==> queue[i] == q[i];
    }
  }

  /** A run keeps every directory that is not queued. */
  lemma {:induction false} DeletionsKeep(d: Disk, queue: seq<string>)
    ensures forall p :: p in d.dirs && p !in queue ==> p in Deletions(d, queue).dirs
  {
    if queue != [] {
      var q := queue[..|queue| - 1];
      DeletionsKeep(d, q);
      assert forall p :: p in q ==> p in queue;
    }
  }

  /** A run over paths none of which exists removes nothing and completes. */
  lemma {:induction false} DeletionsAbsent(d: Disk, queue: seq<string>)
    requires forall i :: 0 <= i < |queue| ==> queue[i] !in d.dirs && queue[i] !in d.files
    ensures Deletions(d, queue) == Removal(d.dirs, Pass)
  {
    if queue != [] {
      DeletionsAbsent(d, queue[..|queue| - 1]);
    }
  }

  /** A queued directory that still holds a file makes the run throw. */
  lemma {:induction false} DeletionsBlocked(d: Disk, queue: seq<string>, k: nat, f: string)
    requires k < |queue| && queue[k] in d.dirs && queue[k] !in d.files
    requires f in d.files && Beneath(queue[k], f)
    ensures Deletions(d, queue).outcome.Fail?
  {
    var q := queue[..|queue| - 1];
    if k < |queue| - 1 {
      assert q[k] == queue[k];
      DeletionsBlocked(d, q, k, f);
    } else if queue[k] in q {
      var j :| 0 <= j < |q| && q[j] == queue[k];
      DeletionsBlocked(d, q, j, f);
    } else {
      DeletionsKeep(d, q);
      if Deletions(d, q).outcome.Pass? {
        DeletionsPass(d, q);
      }
    }
  }

  /** A queued path that is a file makes the run throw. */
  lemma {:induction false} DeletionsHitFile(d: Disk, queue: seq<string>, k: nat)
    requires k < |queue| && queue[k] in d.files
    ensures Deletions(d, queue).outcome.Fail?
  {
    var q := queue[..|queue| - 1];
    if k < |queue| - 1 {
      assert q[k] == queue[k];
      DeletionsHitFile(d, q, k);
    }
  }

  /** A queue of directories with nothing inside them and no file among them
      runs to the end. */
  lemma {:induction false} DeletionsClear(d: Disk, queue: seq<string>)
    requires forall i :: 0 <= i < |queue| ==> queue[i] !in d.files && !HasEntries(d.dirs, d.files, queue[i])
    ensures Deletions(d, queue) == Removal(Deleted(d.dirs, queue), Pass)
  {
    if queue != [] {
      var q := queue[..|queue| - 1];
      DeletionsClear(d, q);
      var p := queue[|queue| - 1];
      assert !HasEntries(d.dirs, d.files, p);
      assert !HasEntries(Deleted(d.dirs, q), d.files, p);
    }
  }

  /** A run that threw throws again, at the same place and with the same
      error, when the queue is run once more on what it left. */
  lemma {:induction false} DeletionsFailAgain(d: Disk, queue: seq<string>)
    requires Deletions(d, queue).outcome.Fail?
    ensures Deletions(Disk(Deletions(d, queue).dirs, d.files), queue) == Deletions(d, queue)
  {
    var q := queue[..|queue| - 1];
    var before := Deletions(d, q);
    var d' := Disk(Deletions(d, queue).dirs, d.files);
    if before.outcome.Fail? {
      DeletionsFailAgain(d, q);
    } else {
      DeletionsPass(d, q);
      forall i | 0 <= i < |q| ensures q[i] !in d'.dirs && q[i] !in d'.files {
        assert q[i] in q;
      }
      DeletionsAbsent(d', q);
    }
  }

  // ---------------------------------------------------------------------------
  // The configuration file
  // ---------------------------------------------------------------------------

  /** `{name: f(payload)}` for each entry, in collection order: the object the
      collection's `data` getter builds before copying it. */
  function Exported<T>(c: Contents<T>, f: T -> JsValue): (ps: seq<(string, JsValue)>)
    requires c.Valid()
    ensures Keys(ps) == c.names
    ensures forall i :: 0 <= i < |ps| ==> ps[i].1 == f(c.data[c.names[i]])
  {
    var ps := Converted(Ordered(c), f);
    SamePointwise(Keys(ps), c.names);
    ps
  }

  /** Each entry with its payload converted by `f`. */
  function Converted<T>(ps: seq<(string, T)>, f: T -> JsValue): (qs: seq<(string, JsValue)>)
    ensures |qs| == |ps| && forall i :: 0 <= i < |ps| ==> qs[i] == (ps[i].0, f(ps[i].1))
  {
    if ps == [] then [] else [(ps[0].0, f(ps[0].1))] + Converted(ps[1..], f)
  }

  /** The collection's `data` getter, and so its `toJSON()`: the JSON copy of that object. */
  function CollectionJson<T>(c: Contents<T>, f: T -> JsValue): (v: JsValue)
    requires c.Valid()
    ensures v.Obj? && IsJson(v)
  {
    JsonCopyIsJson(Obj(Exported(c, f)));
    JsonCopy(Obj(Exported(c, f)))
  }

  /** A profile is stored as given. */
  function Raw(v: JsValue): JsValue {
    v
  }

  /** The value `{hosts, tasks, profiles}` that the configuration file holds. */
  function Snapshot(h: Contents<Host>, t: Contents<TaskValue>, p: Contents<JsValue>): (v: JsValue)
    requires h.Valid() && t.Valid() && p.Valid()
    ensures v.Obj? && Keys(v.props) == ["hosts", "tasks", "profiles"]
  {
    Obj([("hosts", CollectionJson(h, HostToJs)), ("tasks", CollectionJson(t, TaskToJs)),
         ("profiles", CollectionJson(p, Raw))])
  }

  /** When no payload is dropped by `JSON.stringify`, the export lists every
      entry, in collection order, each payload copied. */
  lemma CollectionJsonOrder<T>(c: Contents<T>, f: T -> JsValue)
    requires c.Valid()
    requires forall n :: n in c.data ==> !Unserializable(f(c.data[n]))
    ensures var v := CollectionJson(c, f);
      v.Obj? && Keys(v.props) == c.names &&
      forall i :: 0 <= i < |c.names| ==> v.props[i].1 == JsonCopy(f(c.data[c.names[i]]))
  {
    var ps := Exported(c, f);
    forall i | 0 <= i < |ps| ensures !Unserializable(ps[i].1) {
      assert c.names[i] in c.data;
    }
    JsonCopyObjSerializable(ps);
  }

  /** The file the store writes is JSON: reading it back gives the same value. */
  lemma SnapshotIsJson(h: Contents<Host>, t: Contents<TaskValue>, p: Contents<JsValue>)
    requires h.Valid() && t.Valid() && p.Valid()
    ensures IsJson(Snapshot(h, t, p))
    ensures JsonCopy(Snapshot(h, t, p)) == Snapshot(h, t, p)
  {
    var s := Snapshot(h, t, p);
    JsonCopyIsJson(Obj(Exported(h, HostToJs)));
    JsonCopyIsJson(Obj(Exported(t, TaskToJs)));
    JsonCopyIsJson(Obj(Exported(p, Raw)));
    assert PropsAreJson(s, s.props[2..]);
    assert PropsAreJson(s, s.props[1..]);
    JsonCopyOfJson(s);
  }

  /** The entries `init` reads from a configuration file. */
  datatype Loaded = Loaded(hosts: seq<(string, Host)>, tasks: seq<(string, TaskValue)>, profiles: seq<(string, JsValue)>)

  /** `p[name] = cfg.profiles[name]`: a profile is taken as it is. */
  function Keep(v: JsValue): Result<JsValue> {
    Ok(v)
  }

  /** The reading part of `init`: parse the file, then build `h`, `t` and `p`
      in three `for-in` loops, each payload through its constructor. */
  function LoadConfig(f: File): (r: Result<Loaded>)
    ensures f.Unparsable? ==> r == Err(SyntaxError)
    ensures f.Json? && (f.value.Null? || f.value.Undefined?) ==> r == Err(NullConfig)
    ensures r.Ok? ==> f.Json? && !f.value.Null? && !f.value.Undefined?
  {
    match f
    case Unparsable => Err(SyntaxError)
    case Json(cfg) =>
      if cfg.Null? || cfg.Undefined? then Err(NullConfig)
      else
        var h :- MapProps([], ForIn(Prop(cfg, "hosts")), HostOf);
        var t :- MapProps([], ForIn(Prop(cfg, "tasks")), TaskOf);
        var p :- MapProps([], ForIn(Prop(cfg, "profiles")), Keep);
        Ok(Loaded(h, t, p))
  }

  /** Reading fails on text that is not JSON and on `null`; otherwise it fails
      exactly when a host or a task template is rejected, and every task it
      reads is well formed. */
  lemma LoadConfigAccepts(f: File)
    ensures f.Unparsable? ==> LoadConfig(f) == Err(SyntaxError)
    ensures f == Json(Null) ==> LoadConfig(f) == Err(NullConfig)
    ensures f.Json? && !f.value.Null? && !f.value.Undefined? ==>
      var hv, tv := ForIn(Prop(f.value, "hosts")), ForIn(Prop(f.value, "tasks"));
      (LoadConfig(f).Ok? <==>
        (forall i :: 0 <= i < |hv| ==> HostOf(hv[i].1).Ok?) && (forall i :: 0 <= i < |tv| ==> TaskOf(tv[i].1).Ok?))
    ensures LoadConfig(f).Ok? ==> forall i :: 0 <= i < |LoadConfig(f).value.tasks| ==> WellFormedTask(LoadConfig(f).value.tasks[i].1)
  {
    if f.Json? && !f.value.Null? && !f.value.Undefined? {
      var hv, tv, pv := ForIn(Prop(f.value, "hosts")), ForIn(Prop(f.value, "tasks")), ForIn(Prop(f.value, "profiles"));
      MapPropsOk([], hv, HostOf);
      MapPropsOk([], tv, TaskOf);
      MapPropsOk([], pv, Keep);
      forall i | 0 <= i < |tv| && TaskOf(tv[i].1).Ok? ensures WellFormedTask(TaskOf(tv[i].1).value) {
        TaskOfWellFormed(tv[i].1);
      }
      MapPropsValues([], tv, TaskOf, WellFormedTask);
    }
  }

  /** Every host's `toJSON()` is JSON. */
  lemma HostsAreJson(c: Contents<Host>)
    ensures forall n :: n in c.data ==> IsJson(HostToJs(c.data[n]))
  {
    forall n | n in c.data ensures IsJson(HostToJs(c.data[n])) {
      HostRoundTrip(c.data[n]);
    }
  }

  /** When every payload's form is JSON, the export holds those forms as they are. */
  lemma CollectionJsonOfJson<T>(c: Contents<T>, f: T -> JsValue)
    requires c.Valid()
    requires forall n :: n in c.data ==> IsJson(f(c.data[n]))
    ensures var v := CollectionJson(c, f);
      v.Obj? && Keys(v.props) == c.names &&
      forall i :: 0 <= i < |c.names| ==> v.props[i].1 == f(c.data[c.names[i]])
  {
    CollectionJsonOrder(c, f);
    forall n | n in c.data ensures JsonCopy(f(c.data[n])) == f(c.data[n]) {
      JsonCopyOfJson(f(c.data[n]));
    }
  }

  /** A `for-in` rebuild whose every value `g` maps back to the entry's payload
      gives the entries of the collection, in order. */
  lemma RebuildOrdered<T>(c: Contents<T>, ps: seq<(string, JsValue)>, g: JsValue -> Result<T>)
    requires c.Valid() && Keys(ps) == c.names
    requires forall i :: 0 <= i < |ps| ==> g(ps[i].1) == Ok(c.data[c.names[i]])
    ensures MapProps([], ps, g) == Ok(Ordered(c))
  {
    assert DistinctKeys(ps);
    assert forall i :: 0 <= i < |ps| ==> g(ps[i].1).Ok?;
    assert forall i :: 0 <= i < |ps| ==> !HasKey<T>([], ps[i].0);
    MapPropsFresh([], ps, g);
    var m, o := MapValues(ps, g), Ordered(c);
    forall i | 0 <= i < |m| ensures m[i] == o[i] {
      assert ps[i].0 == Keys(ps)[i];
      assert o[i].0 == Keys(o)[i];
    }
    SamePointwise(m, o);
    EmptyPrefix(m);
  }

  /** The hosts a save writes read back, through the `Host` constructor, as
      the same entries in the same order. */
  lemma SavedHostsLoad(c: Contents<Host>)
    requires c.Valid()
    ensures MapProps([], ForIn(CollectionJson(c, HostToJs)), HostOf) == Ok(Ordered(c))
  {
    HostsAreJson(c);
    CollectionJsonOfJson(c, HostToJs);
    var ps := CollectionJson(c, HostToJs).props;
    forall i | 0 <= i < |ps| ensures HostOf(ps[i].1) == Ok(c.data[c.names[i]]) {
      HostRoundTrip(c.data[c.names[i]]);
    }
    RebuildOrdered(c, ps, HostOf);
  }

  /** Every task a save writes is accepted again by the `Task` constructor. */
  lemma SavedTasksLoad(c: Contents<TaskValue>)
    requires c.Valid() && TasksWellFormed(c)
    ensures MapProps([], ForIn(CollectionJson(c, TaskToJs)), TaskOf).Ok?
  {
    CollectionJsonOrder(c, TaskToJs);
    var ps := CollectionJson(c, TaskToJs).props;
    forall i | 0 <= i < |ps| ensures TaskOf(ps[i].1).Ok? {
      TaskJsonRoundTrip(c.data[c.names[i]]);
    }
    MapPropsOk([], ps, TaskOf);
  }

  /** The file a save writes is read without error by `init`, which takes the
      hosts back exactly; into a store without hosts `addMany` then restores
      them, names, order and payloads. */
  lemma SavedConfigLoads(h: Contents<Host>, t: Contents<TaskValue>, p: Contents<JsValue>)
    requires h.Valid() && t.Valid() && p.Valid() && TasksWellFormed(t)
    ensures LoadConfig(Json(Snapshot(h, t, p))).Ok?
    ensures LoadConfig(Json(Snapshot(h, t, p))).value.hosts == Ordered(h)
    ensures AddManyTo(Contents([], map[]), LoadConfig(Json(Snapshot(h, t, p))).value.hosts, None).after == h
  {
    var s := Snapshot(h, t, p);
    assert Prop(s, "hosts") == CollectionJson(h, HostToJs);
    assert Lookup(s.props, "tasks") == Lookup(s.props[1..], "tasks");
    assert Prop(s, "tasks") == CollectionJson(t, TaskToJs);
    SavedHostsLoad(h);
    SavedTasksLoad(t);
    MapPropsOk([], ForIn(Prop(s, "profiles")), Keep);
    var tl := MapProps([], ForIn(Prop(s, "tasks")), TaskOf).value;
    var pl := MapProps([], ForIn(Prop(s, "profiles")), Keep).value;
    LoadConfigOf(s, Ordered(h), tl, pl);
    OrderedRoundTrip(h);
  }

  /** Reading a configuration whose three loops all complete. */
  lemma LoadConfigOf(cfg: JsValue, hl: seq<(string, Host)>, tl: seq<(string, TaskValue)>, pl: seq<(string, JsValue)>)
    requires cfg.Obj?
    requires MapProps([], ForIn(Prop(cfg, "hosts")), HostOf) == Ok(hl)
    requires MapProps([], ForIn(Prop(cfg, "tasks")), TaskOf) == Ok(tl)
    requires MapProps([], ForIn(Prop(cfg, "profiles")), Keep) == Ok(pl)
    ensures LoadConfig(Json(cfg)) == Ok(Loaded(hl, tl, pl))
  {
  }

  // ---------------------------------------------------------------------------
  // The store's state and its transitions
  // ---------------------------------------------------------------------------

  /** The state of the store besides its collections: `initialized`, `Saved`,
      `AutoSave` (`None` until it is first set), `DefaultDateFormat`, the `node`
      format of the task template, the deletion queue `toDelete.data`, the log
      of emitted event names, and the disk. */
  datatype StoreState = StoreState(
    initialized: bool,
    saved: bool,
    autoSave: Option<bool>,
    defaultDateFormat: Option<string>,
    templateDateFormat: Option<string>,
    toDelete: seq<string>,
    events: seq<string>,
    disk: Disk)

  /** How the internal `save(emit)` ends: it throws what `toDelete.run()` throws. */
  function SaveOutcome(s: StoreState): Outcome {
    Deletions(s.disk, s.toDelete).outcome
  }

  /** The internal `save(emit)`: run the deletions; when they complete, write
      the snapshot, mark the store saved and, when asked, announce `saved`; when
      one throws, the directories removed before it stay removed and nothing
      else happens. */
  function Saving(s: StoreState, cfgPath: string, cfg: JsValue, emit: bool): (r: StoreState)
    ensures r.toDelete == s.toDelete && r.initialized == s.initialized && r.autoSave == s.autoSave
    ensures SaveOutcome(s).Pass? ==> r.saved && cfgPath in r.disk.files && r.disk.files[cfgPath] == Json(cfg)
    ensures SaveOutcome(s).Fail? ==> r.saved == s.saved && r.events == s.events && r.disk.files == s.disk.files
  {
    var run := Deletions(s.disk, s.toDelete);
    if run.outcome.Fail? then s.(disk := s.disk.(dirs := run.dirs))
    else
      s.(disk := Disk(run.dirs, s.disk.files[cfgPath := Json(cfg)]),
         saved := true,
         events := s.events + if emit then ["saved"] else [])
  }

  /** `self.emit('changed')`: the log records it, then the handler clears
      `Saved` and saves at once when `AutoSave` is on. */
  function OnChanged(s: StoreState, cfgPath: string, cfg: JsValue): (r: StoreState)
    ensures |r.events| > |s.events| && r.events[..|s.events| + 1] == s.events + ["changed"]
    ensures r.saved <==> s.autoSave == Some(true) && SaveOutcome(s).Pass?
    ensures s.autoSave != Some(true) ==> r.disk == s.disk
  {
    var s1 := s.(events := s.events + ["changed"], saved := false);
    if s.autoSave == Some(true) then Saving(s1, cfgPath, cfg, true) else s1
  }

  /** How `self.emit('changed')` ends: the handler's save throws, or nothing does. */
  function ChangedOutcome(s: StoreState): Outcome {
    if s.autoSave == Some(true) then SaveOutcome(s) else Pass
  }

  /** What a mutator does after the collection operation succeeded:
      `emit('changed')`, then `emit(event)`, which a save that throws skips. */
  function Announce(s: StoreState, cfgPath: string, cfg: JsValue, event: string): (r: StoreState)
    ensures r.toDelete == s.toDelete && r.initialized == s.initialized && r.autoSave == s.autoSave
    ensures |r.events| > |s.events| && r.events[|s.events|] == "changed"
    ensures ChangedOutcome(s).Pass? <==> r.events[|r.events| - 1] == event && |r.events| > |s.events| + 1
  {
    var s1 := OnChanged(s, cfgPath, cfg);
    if ChangedOutcome(s).Fail? then s1 else s1.(events := s1.events + [event])
  }

  /** What a mutator's promise settles with, `s` being the state that
      `changed` meets: the collection's result, unless the save that `changed`
      ran threw, which rejects the promise with that error. */
  function Settled<R>(res: Result<R>, s: StoreState): (r: Result<R>)
    ensures r.Ok? <==> res.Ok? && ChangedOutcome(s).Pass?
    ensures r.Ok? || res.Err? ==> r == res
    ensures res.Ok? && r.Err? ==> r.error == ChangedOutcome(s).error
  {
    if res.Ok? && ChangedOutcome(s).Fail? then Err(ChangedOutcome(s).error) else res
  }

  /** `fs.mkdirSync(rsbkpDir)` when the directory is absent. */
  function Mkdir(s: StoreState, dir: string): StoreState {
    s.(disk := s.disk.(dirs := s.disk.dirs + {dir}))
  }

  /** The end of a successful `init`: `autoSave = true` (its setter saves
      nothing, the store not being initialized yet), the default date format,
      and `initialized = true`. */
  function Started(s: StoreState): StoreState {
    s.(autoSave := Some(true), defaultDateFormat := Some(InitialDateFormat),
       templateDateFormat := Some(InitialDateFormat), initialized := true)
  }

  /** A save whose deletions complete leaves the file holding the snapshot, no
      queued directory, every other directory, and the queue as it was, so
      that every later save runs the queued paths again. */
  lemma SavingWrites(s: StoreState, cfgPath: string, cfg: JsValue, emit: bool)
    requires SaveOutcome(s).Pass?
    ensures var r := Saving(s, cfgPath, cfg, emit);
      r.saved && cfgPath in r.disk.files && r.disk.files[cfgPath] == Json(cfg) &&
      (forall p :: p in s.disk.files && p != cfgPath ==> p in r.disk.files && r.disk.files[p] == s.disk.files[p]) &&
      (forall i :: 0 <= i < |s.toDelete| ==> s.toDelete[i] !in r.disk.dirs) &&
      (forall d :: d in s.disk.dirs && d !in s.toDelete ==> d in r.disk.dirs) &&
      r.disk.dirs <= s.disk.dirs &&
      r.toDelete == s.toDelete && r.initialized == s.initialized && r.autoSave == s.autoSave
  {
    DeletionsPass(s.disk, s.toDelete);
  }

  /** A save whose deletions throw writes nothing, leaves `Saved` and the log
      as they were, and keeps every directory that is not queued. */
  lemma SavingFails(s: StoreState, cfgPath: string, cfg: JsValue, emit: bool)
    requires SaveOutcome(s).Fail?
    ensures var r := Saving(s, cfgPath, cfg, emit);
      r.disk.files == s.disk.files && r.saved == s.saved && r.events == s.events &&
      r.disk.dirs <= s.disk.dirs &&
      (forall d :: d in s.disk.dirs && d !in s.toDelete ==> d in r.disk.dirs) &&
      r.(disk := s.disk) == s
  {
    DeletionsKeep(s.disk, s.toDelete);
  }

  /** Saving twice writes what saving once writes, unless the configuration
      file's own path is queued (see `QueuedConfigBlocksSave`). */
  lemma SavingIdempotent(s: StoreState, cfgPath: string, cfg: JsValue, emit: bool, emit': bool)
    requires cfgPath !in s.toDelete
    ensures Saving(Saving(s, cfgPath, cfg, emit), cfgPath, cfg, emit').disk == Saving(s, cfgPath, cfg, emit).disk
  {
    var r := Saving(s, cfgPath, cfg, emit);
    if SaveOutcome(s).Pass? {
      DeletionsPass(s.disk, s.toDelete);
      forall i | 0 <= i < |s.toDelete| ensures s.toDelete[i] !in r.disk.dirs && s.toDelete[i] !in r.disk.files {
        assert s.toDelete[i] in s.toDelete;
      }
      DeletionsAbsent(r.disk, r.toDelete);
    } else {
      DeletionsFailAgain(s.disk, s.toDelete);
    }
  }

  /** A save that throws leaves the store throwing the same error on every
      later save, the queue never being emptied. */
  lemma SavingFailsAgain(s: StoreState, cfgPath: string, cfg: JsValue, emit: bool)
    requires SaveOutcome(s).Fail?
    ensures SaveOutcome(Saving(s, cfgPath, cfg, emit)) == SaveOutcome(s)
  {
    DeletionsFailAgain(s.disk, s.toDelete);
  }

  /** A queued path that is a file makes every save throw: a task named like
      the configuration file queues that file's path, which `rmdirSync` then
      refuses once the file exists. */
  lemma QueuedConfigBlocksSave(s: StoreState, root: string, cfgFile: string)
    requires SnapsDir(root, cfgFile) in s.toDelete && Join(root, cfgFile) in s.disk.files
    ensures SaveOutcome(s).Fail?
    ensures SaveOutcome(Saving(s, Join(root, cfgFile), Null, true)).Fail?
  {
    var k :| 0 <= k < |s.toDelete| && s.toDelete[k] == Join(root, cfgFile);
    DeletionsHitFile(s.disk, s.toDelete, k);
    SavingFailsAgain(s, Join(root, cfgFile), Null, true);
  }

  /** A queued directory that still holds its `snapshots.json` makes
      every save throw `ENOTEMPTY` or fail earlier in the queue. */
  lemma SnapshotsBlockSave(s: StoreState, root: string, name: string)
    requires SnapsDir(root, name) in s.toDelete
    requires SnapsDir(root, name) in s.disk.dirs && SnapsDir(root, name) !in s.disk.files
    requires SnapsPath(root, name) in s.disk.files
    ensures SaveOutcome(s).Fail?
  {
    var k :| 0 <= k < |s.toDelete| && s.toDelete[k] == SnapsDir(root, name);
    SnapsPathInDir(root, name);
    DeletionsBlocked(s.disk, s.toDelete, k, SnapsPath(root, name));
  }

  /** `removeTask` of a task whose snapshot directory still holds its
      `snapshots.json`, under autosave: the promise rejects with whatever the
      run throws first (`ENOTEMPTY` unless an earlier queued path fails), the
      log ends at `changed`, no `taskRemoved` follows, nothing is written,
      and every later save throws the same error. */
  lemma RemoveWithSnapshotsRejects<R>(s: StoreState, root: string, name: string, el: R, cfgPath: string, cfg: JsValue)
    requires s.autoSave == Some(true)
    requires SnapsDir(root, name) in s.disk.dirs && SnapsDir(root, name) !in s.disk.files
    requires SnapsPath(root, name) in s.disk.files
    ensures var q := s.(toDelete := s.toDelete + [SnapsDir(root, name)]);
      var r := Announce(q, cfgPath, cfg, "taskRemoved");
      Settled(Ok(el), q).Err? &&
      r.events == s.events + ["changed"] && !r.saved && r.disk.files == s.disk.files &&
      SaveOutcome(r) == SaveOutcome(q)
  {
    var q := s.(toDelete := s.toDelete + [SnapsDir(root, name)]);
    assert q.toDelete[|s.toDelete|] == SnapsDir(root, name);
    SnapshotsBlockSave(q, root, name);
    var q1 := q.(events := q.events + ["changed"], saved := false);
    SavingFails(q1, cfgPath, cfg, true);
    SavingFailsAgain(q1, cfgPath, cfg, true);
  }

  /** After a mutation the store is saved exactly when autosave is on and the
      save's deletions complete; the log gains `changed`, then under autosave
      `saved` and the mutator's own event when the save completes, or the
      event alone without autosave; the disk changes only by that save; and
      nothing else changes. */
  lemma AnnounceSaves(s: StoreState, cfgPath: string, cfg: JsValue, event: string)
    ensures var r := Announce(s, cfgPath, cfg, event);
      var on, o := s.autoSave == Some(true), ChangedOutcome(s);
      (o.Fail? <==> on && SaveOutcome(s).Fail?) &&
      (r.saved <==> on && o.Pass?) &&
      r.events == s.events + ["changed"] + (if on && o.Pass? then ["saved"] else []) + (if o.Pass? then [event] else []) &&
      r.disk == (if on then Saving(s, cfgPath, cfg, false).disk else s.disk) &&
      r.(saved := s.saved, events := s.events, disk := s.disk) == s
  {
    var on, o := s.autoSave == Some(true), ChangedOutcome(s);
    var r := Announce(s, cfgPath, cfg, event);
    if on && o.Pass? {
      assert r.events == s.events + ["changed"] + ["saved"] + [event];
    } else if o.Pass? {
      assert r.events == s.events + ["changed"] + [] + [event];
    } else {
      assert r.events == s.events + ["changed"] + [] + [];
    }
  }

  /** Every host payload the store holds comes from the `Host` constructor;
      every task payload is what the `Task` constructor produces. */
  ghost predicate TasksWellFormed(c: Contents<TaskValue>) {
    forall n :: n in c.data ==> WellFormedTask(c.data[n])
  }

  /** Each collection operation given well-formed tasks keeps the tasks well
      formed, and the record it resolves with holds a well-formed task. */
  lemma AddKeepsTasks(c: Contents<TaskValue>, name: string, d: TaskValue, at: Option<int>)
    requires c.Valid() && TasksWellFormed(c) && WellFormedTask(d)
    ensures TasksWellFormed(AddTo(c, name, d, at).after)
    ensures AddTo(c, name, d, at).result.Ok? ==> WellFormedTask(AddTo(c, name, d, at).result.value.data)
  {
  }

  lemma UpdateKeepsTasks(c: Contents<TaskValue>, r: Ref, d: TaskValue)
    requires c.Valid() && TasksWellFormed(c) && WellFormedTask(d)
    ensures TasksWellFormed(UpdateIn(c, r, d).after)
    ensures UpdateIn(c, r, d).result.Ok? ==> WellFormedTask(UpdateIn(c, r, d).result.value.data)
  {
  }

  lemma RemoveKeepsTasks(c: Contents<TaskValue>, r: Ref)
    requires c.Valid() && TasksWellFormed(c)
    ensures TasksWellFormed(RemoveFrom(c, r).after)
  {
  }

  lemma MoveToKeepsTasks(c: Contents<TaskValue>, r: Ref, to: int)
    requires c.Valid() && TasksWellFormed(c)
    ensures TasksWellFormed(MoveToIn(c, r, to).after)
    ensures MoveToIn(c, r, to).result.Ok? ==> WellFormedTask(MoveToIn(c, r, to).result.value.data)
  {
  }

  lemma MoveUpKeepsTasks(c: Contents<TaskValue>, r: Ref, count: int)
    requires c.Valid() && TasksWellFormed(c)
    ensures TasksWellFormed(MoveUpIn(c, r, count).after)
    ensures MoveUpIn(c, r, count).result.Ok? ==> WellFormedTask(MoveUpIn(c, r, count).result.value.data)
  {
    if FindIn(c, r).Ok? {
      MoveUpInMoves(c, r, count);
    }
  }

  lemma MoveDownKeepsTasks(c: Contents<TaskValue>, r: Ref, count: int)
    requires c.Valid() && TasksWellFormed(c)
    ensures TasksWellFormed(MoveDownIn(c, r, count).after)
    ensures MoveDownIn(c, r, count).result.Ok? ==> WellFormedTask(MoveDownIn(c, r, count).result.value.data)
  {
    if FindIn(c, r).Ok? {
      MoveDownInMoves(c, r, count);
    }
  }

  /** `host.data = new Host(host.data)`: the record handed out carries a fresh
      host equal to the stored one. */
  function HostCopy(el: Record<Host>): (r: Record<Host>)
    ensures r == el
  {
    HostRoundTrip(el.data);
    el.(data := HostOf(HostToJs(el.data)).value)
  }

  /** `task.data = new Task(task.data)`: the same for a task, which comes back
      unchanged because it is well formed. */
  function TaskCopy(el: Record<TaskValue>): (r: Record<TaskValue>)
    requires WellFormedTask(el.data)
    ensures r == el
  {
    TaskRoundTrip(el.data);
    el.(data := TaskOf(TaskToJs(el.data)).value)
  }

  /** The three collections after `init` has run `addMany` on the loaded
      entries: tasks only when the hosts went in, profiles only when the tasks
      did (a failure is otherwise ignored). */
  function Restored(h: Contents<Host>, t: Contents<TaskValue>, p: Contents<JsValue>, l: Loaded)
    : (r: (Contents<Host>, Contents<TaskValue>, Contents<JsValue>))
    requires h.Valid() && t.Valid() && p.Valid()
    ensures r.0.Valid() && r.1.Valid() && r.2.Valid()
  {
    var h1 := AddManyTo(h, l.hosts, None);
    if h1.result.Err? then (h1.after, t, p)
    else
      var t1 := AddManyTo(t, l.tasks, None);
      if t1.result.Err? then (h1.after, t1.after, p)
      else (h1.after, t1.after, AddManyTo(p, l.profiles, None).after)
  }

  /** `init` goes on to the tasks only when every host went in, and to the
      profiles only when every task did; the hosts are always those `addMany`
      left. */
  lemma RestoredInOrder(h: Contents<Host>, t: Contents<TaskValue>, p: Contents<JsValue>, l: Loaded)
    requires h.Valid() && t.Valid() && p.Valid()
    ensures Restored(h, t, p, l).0 == AddManyTo(h, l.hosts, None).after
    ensures AddManyTo(h, l.hosts, None).result.Err? ==> Restored(h, t, p, l).1 == t && Restored(h, t, p, l).2 == p
    ensures Restored(h, t, p, l).2 != p ==>
      AddManyTo(h, l.hosts, None).result.Ok? && AddManyTo(t, l.tasks, None).result.Ok?
  {
  }

  // ---------------------------------------------------------------------------
  // The store
  // ---------------------------------------------------------------------------

  class Rsbkp {
    const rsbkpDir: string
    const cfgPath: string
    const hosts: Collection<Host>
    const tasks: Collection<TaskValue>
    const profiles: Collection<JsValue>
    var initialized: bool
    var saved: bool
    var autoSave: Option<bool>
    var defaultDateFormat: Option<string>
    var templateDateFormat: Option<string>
    var toDelete: seq<string>
    var events: seq<string>
    var disk: Disk

    function State(): StoreState
      reads this
    {
      StoreState(initialized, saved, autoSave, defaultDateFormat, templateDateFormat, toDelete, events, disk)
    }

    ghost predicate Valid()
      reads hosts, tasks, profiles
    {
      hosts.Valid() && tasks.Valid() && profiles.Valid() && TasksWellFormed(tasks.Value())
    }

    /** The value written to the configuration file. */
    function Config(): JsValue
      reads hosts, tasks, profiles
      requires Valid()
    {
      Snapshot(hosts.Value(), tasks.Value(), profiles.Value())
    }

    /** `new Rsbkp(settings)`: the directory and file name from the settings
        (`""` for an absent one), with `home` for `process.env.HOME`; empty
        collections, saved, autosave undefined, nothing queued, the disk as found. */
    constructor (dirSetting: string, cfgFileSetting: string, home: string, d: Disk)
      ensures Valid() && fresh(hosts) && fresh(tasks) && fresh(profiles)
      ensures rsbkpDir == RsbkpDirOf(dirSetting, home) && cfgPath == Join(rsbkpDir, CfgFileOf(cfgFileSetting))
      ensures hosts.Value() == Contents([], map[]) && tasks.Value() == Contents([], map[]) && profiles.Value() == Contents([], map[])
      ensures State() == StoreState(false, true, None, None, None, [], [], d)
    {
      rsbkpDir := RsbkpDirOf(dirSetting, home);
      cfgPath := Join(RsbkpDirOf(dirSetting, home), CfgFileOf(cfgFileSetting));
      hosts := new Collection();
      tasks := new Collection();
      profiles := new Collection();
      initialized := false;
      saved := true;
      autoSave := None;
      defaultDateFormat := None;
      templateDateFormat := None;
      toDelete := [];
      events := [];
      disk := d;
    }

    /** `toDelete.run()`: the loop over the queue, on the store's disk; the
        directories it removed before a throw stay removed. */
    method RunToDelete() returns (o: Outcome)
      modifies this
      ensures o == SaveOutcome(old(State()))
      ensures State() == old(State()).(disk := old(disk).(dirs := Deletions(old(disk), old(toDelete)).dirs))
    {
      var left;
      left, o := RunDeletions(disk, toDelete);
      disk := disk.(dirs := left);
    }

    /** The internal `save(emit)`, with what it throws. */
    method Write(emit: bool) returns (o: Outcome)
      requires Valid()
      modifies this
      ensures Valid()
      ensures o == SaveOutcome(old(State()))
      ensures State() == Saving(old(State()), cfgPath, Config(), emit)
    {
      ghost var s := State();
      o := RunToDelete();
      if o.Fail? {
        return;
      }
      var cfg := Config();
      Commit(cfg, emit);
      assert State() == Saving(s, cfgPath, cfg, emit);
    }

    /** The end of a save whose deletions completed: the file gets `cfg`, the
        store is saved, and `saved` is announced when asked. */
    method Commit(cfg: JsValue, emit: bool)
      modifies this
      ensures State() == old(State()).(disk := old(disk).(files := old(disk).files[cfgPath := Json(cfg)]), saved := true,
                                       events := old(events) + if emit then ["saved"] else [])
    {
      disk, saved, events := disk.(files := disk.files[cfgPath := Json(cfg)]), true,
        events + if emit then ["saved"] else [];
    }

    /** `this.save()`: rejects on a store that is not initialized, and changes
        nothing then; otherwise saves, resolving with `true` or rejecting with
        what the save threw. */
    method Save() returns (res: Result<bool>)
      requires Valid()
      modifies this
      ensures Valid()
      ensures !old(initialized) ==> res == Err(NotInitialized) && State() == old(State())
      ensures old(initialized) ==>
        res == (if SaveOutcome(old(State())).Pass? then Ok(true) else Err(SaveOutcome(old(State())).error)) &&
        State() == Saving(old(State()), cfgPath, Config(), true)
    {
      if !initialized {
        return Err(NotInitialized);
      }
      var o := Write(true);
      res := if o.Pass? then Ok(true) else Err(o.error);
    }

    /** `self.emit('changed')` with its handler, and what the handler throws. */
    method Changed() returns (o: Outcome)
      requires Valid()
      modifies this
      ensures Valid()
      ensures o == ChangedOutcome(old(State()))
      ensures State() == OnChanged(old(State()), cfgPath, Config())
    {
      ghost var s0 := State();
      Emit("changed");
      saved := false;
      ghost var s1 := State();
      assert s1 == s0.(events := s0.events + ["changed"], saved := false);
      o := Pass;
      if autoSave == Some(true) {
        o := Write(true);
        assert o == SaveOutcome(s1) == SaveOutcome(s0);
        assert State() == Saving(s1, cfgPath, Config(), true);
      }
    }

    /** `emit('changed')` followed, unless it threw, by `emit(event)`. */
    method Announced(event: string) returns (o: Outcome)
      requires Valid()
      modifies this
      ensures Valid()
      ensures o == ChangedOutcome(old(State()))
      ensures State() == Announce(old(State()), cfgPath, Config(), event)
    {
      ghost var s0, cfg := State(), Config();
      o := Changed();
      ghost var s1 := OnChanged(s0, cfgPath, cfg);
      assert State() == s1;
      if o.Pass? {
        Emit(event);
      }
    }

    /** `self.emit(event)`, which the log records. */
    method Emit(event: string)
      modifies this
      ensures State() == old(State()).(events := old(events) + [event])
    {
      events := events + [event];
    }

    /** After a collection operation: `Announced(event)` when it resolved
        with `res`, nothing when it rejected; the promise the mutator returns
        settles with what `Settled` says. */
    method AnnouncedIf<R>(res: Result<R>, event: string) returns (out: Result<R>)
      requires Valid()
      modifies this
      ensures Valid()
      ensures out == Settled(res, old(State()))
      ensures State() == if res.Ok? then Announce(old(State()), cfgPath, Config(), event) else old(State())
    {
      out := res;
      if res.Ok? {
        var o := Announced(event);
        if o.Fail? {
          out := Err(o.error);
        }
      }
    }

    /** The `autoSave` setter: throws on a non-boolean; turning it on while
        unsaved calls `this.save()`, whose rejection on a store that is not
        initialized changes nothing. */
    method SetAutoSave(v: JsValue) returns (o: Outcome)
      requires Valid()
      modifies this
      ensures !v.Bool? ==> o == Fail(ValidationError(AutoSaveMessage)) && State() == old(State())
      ensures v.Bool? ==>
        (o == Pass &&
         State() == var s := old(State()).(autoSave := Some(v.b));
           if v.b && !s.saved && s.initialized then Saving(s, cfgPath, Config(), true) else s)
    {
      if !v.Bool? {
        return Fail(ValidationError(AutoSaveMessage));
      }
      autoSave := Some(v.b);
      o := Pass;
      if v.b && !saved {
        var ignored := Save();
      }
    }

    /** The `defaultDateFormat` setter: `chkStr(value, 'dateFormat')`, stored
        as the default and as the template's `node` format. */
    method SetDefaultDateFormat(v: JsValue) returns (o: Outcome)
      modifies this
      ensures ChkStr(v, "dateFormat", "").Err? ==>
        o == Fail(ValidationError(StrMessage("dateFormat", ""))) && State() == old(State())
      ensures ChkStr(v, "dateFormat", "").Ok? ==>
        (o == Pass &&
         State() == old(State()).(defaultDateFormat := Some(ChkStr(v, "dateFormat", "").value),
                                  templateDateFormat := Some(ChkStr(v, "dateFormat", "").value)))
    {
      var f := ChkStr(v, "dateFormat", "");
      if f.Err? {
        return Fail(f.error);
      }
      defaultDateFormat := Some(f.value);
      templateDateFormat := Some(f.value);
      o := Pass;
    }

    /** The reading branch of `init`: parse, build the three objects in their
        `for-in` loops, then `addMany` each into its collection, tasks only after
        the hosts went in and profiles only after the tasks did. */
    method ReadConfig(file: File) returns (o: Outcome)
      requires Valid()
      modifies hosts, tasks, profiles
      ensures Valid()
      ensures LoadConfig(file).Err? ==> o == Fail(LoadConfig(file).error) && unchanged(hosts, tasks, profiles)
      ensures LoadConfig(file).Ok? ==>
        (o == Pass &&
         (hosts.Value(), tasks.Value(), profiles.Value()) ==
           Restored(old(hosts.Value()), old(tasks.Value()), old(profiles.Value()), LoadConfig(file).value))
    {
      LoadConfigAccepts(file);
      if file.Unparsable? {
        return Fail(SyntaxError);
      }
      var cfg := file.value;
      if cfg.Null? || cfg.Undefined? {
        return Fail(NullConfig);
      }
      var h := BuildProps(ForIn(Prop(cfg, "hosts")), HostOf);
      if h.Err? {
        return Fail(h.error);
      }
      var t := BuildProps(ForIn(Prop(cfg, "tasks")), TaskOf);
      if t.Err? {
        return Fail(t.error);
      }
      var p := BuildProps(ForIn(Prop(cfg, "profiles")), Keep);
      if p.Err? {
        return Fail(p.error);
      }
      assert LoadConfig(file) == Ok(Loaded(h.value, t.value, p.value));
      o := Pass;
      Restore(Loaded(h.value, t.value, p.value));
    }

    /** The `addMany` calls that end the reading branch of `init`. */
    method Restore(l: Loaded)
      requires Valid()
      requires forall i :: 0 <= i < |l.tasks| ==> WellFormedTask(l.tasks[i].1)
      modifies hosts, tasks, profiles
      ensures Valid()
      ensures (hosts.Value(), tasks.Value(), profiles.Value()) ==
        Restored(old(hosts.Value()), old(tasks.Value()), old(profiles.Value()), l)
    {
      ghost var h0, t0, p0 := hosts.Value(), tasks.Value(), profiles.Value();
      var rh := hosts.AddMany(l.hosts, None);
      if rh.Ok? {
        InsertEachKeeps(t0, l.tasks, |t0.names|, WellFormedTask);
        var rt := tasks.AddMany(l.tasks, None);
        if rt.Ok? {
          var rp := profiles.AddMany(l.profiles, None);
          assert profiles.Value() == AddManyTo(p0, l.profiles, None).after;
        }
        assert tasks.Value() == AddManyTo(t0, l.tasks, None).after;
      }
      assert (hosts.Value(), tasks.Value(), profiles.Value()) == Restored(h0, t0, p0, l);
    }

    /** The end of a successful `init`. */
    method Start()
      requires Valid() && !initialized
      modifies this
      ensures State() == Started(old(State()))
    {
      var ignored := SetAutoSave(Bool(true));
      ignored := SetDefaultDateFormat(Str(InitialDateFormat));
      initialized := true;
    }

    /** `init()`: rejects when already initialized; creates the directory;
        reads the configuration file when there is one (rejecting, and staying
        uninitialized, when it does not parse, is `null`, or holds a rejected
        host or task) and otherwise writes an empty one without announcing it
        (rejecting, and staying uninitialized, when that save throws);
        then turns autosave on, sets the default date format, and resolves. */
    method Init() returns (res: Result<bool>)
      requires Valid()
      modifies this, hosts, tasks, profiles
      ensures Valid()
      ensures old(initialized) ==>
        res == Err(AlreadyInitialized) && State() == old(State()) && unchanged(hosts, tasks, profiles)
      ensures !old(initialized) && cfgPath !in old(disk.files) ==>
        var m := Mkdir(old(State()), rsbkpDir);
        unchanged(hosts, tasks, profiles) &&
        (SaveOutcome(m).Pass? ==> res == Ok(true) && State() == Started(Saving(m, cfgPath, Config(), false))) &&
        (SaveOutcome(m).Fail? ==> res == Err(SaveOutcome(m).error) && State() == Saving(m, cfgPath, Config(), false))
      ensures !old(initialized) && cfgPath in old(disk.files) && LoadConfig(old(disk.files[cfgPath])).Err? ==>
        (res == Err(LoadConfig(old(disk.files[cfgPath])).error) && unchanged(hosts, tasks, profiles) &&
         State() == Mkdir(old(State()), rsbkpDir))
      ensures !old(initialized) && cfgPath in old(disk.files) && LoadConfig(old(disk.files[cfgPath])).Ok? ==>
        (res == Ok(true) && State() == Started(Mkdir(old(State()), rsbkpDir)) &&
         (hosts.Value(), tasks.Value(), profiles.Value()) ==
           Restored(old(hosts.Value()), old(tasks.Value()), old(profiles.Value()), LoadConfig(old(disk.files[cfgPath])).value))
    {
      if initialized {
        return Err(AlreadyInitialized);
      }
      disk := disk.(dirs := disk.dirs + {rsbkpDir});
      if cfgPath in disk.files {
        var o := ReadConfig(disk.files[cfgPath]);
        if o.Fail? {
          return Err(o.error);
        }
      } else {
        var o := Write(false);
        if o.Fail? {
          return Err(o.error);
        }
      }
      Start();
      res := Ok(true);
    }

    // -------------------------------------------------------------------------
    // Hosts
    // -------------------------------------------------------------------------

    /** `getHosts()`: the hosts' `toJSON()` forms, in collection order. */
    function GetHosts(): (v: JsValue)
      reads hosts, tasks, profiles
      requires Valid()
      ensures v.Obj? && Keys(v.props) == hosts.names
      ensures forall i :: 0 <= i < |hosts.names| ==> v.props[i].1 == HostToJs(hosts.data[hosts.names[i]])
    {
      HostsAreJson(hosts.Value());
      CollectionJsonOfJson(hosts.Value(), HostToJs);
      CollectionJson(hosts.Value(), HostToJs)
    }

    /** `getHostNames()` */
    function GetHostNames(): (ns: seq<string>)
      reads hosts, tasks, profiles
      requires Valid()
      ensures NoDuplicates(ns) && forall n :: n in ns <==> n in hosts.data
    {
      hosts.Names()
    }

    /** `getHostCount()` */
    function GetHostCount(): (n: nat)
      reads hosts, tasks, profiles
      requires Valid()
      ensures n == |hosts.data|
    {
      hosts.Length()
    }

    /** `getHost(ref)`: what the collection's `get` resolves with, the host
        copied through its constructor. */
    method GetHost(r: Ref) returns (res: Result<Record<Host>>)
      requires Valid()
      ensures res == FindIn(hosts.Value(), r)
    {
      res := hosts.Get(r);
      if res.Ok? {
        res := Ok(HostCopy(res.value));
      }
    }

    /** `removeHost(ref)`: on success `changed`, then `hostRemoved`. */
    method RemoveHost(r: Ref) returns (res: Result<Record<Host>>)
      requires Valid()
      modifies this, hosts
      ensures Valid()
      ensures var ch := RemoveFrom(old(hosts.Value()), r);
        res == Settled(ch.result, old(State())) && hosts.Value() == ch.after &&
        State() == if ch.result.Ok? then Announce(old(State()), cfgPath, Config(), "hostRemoved") else old(State())
    {
      res := hosts.Remove(r);
      res := AnnouncedIf(res, "hostRemoved");
    }

    /** `setHost(name, data, index)`: `new Host(data)` first, then the
        collection's `add`; on success `changed`, then `hostSet`. */
    method SetHost(name: string, data: JsValue, at: Option<int>) returns (res: Result<Record<Host>>)
      requires Valid()
      modifies this, hosts
      ensures Valid()
      ensures HostOf(data).Err? ==>
        (res == Err(HostOf(data).error) && hosts.Value() == old(hosts.Value()) && State() == old(State()))
      ensures HostOf(data).Ok? ==>
        var ch := AddTo(old(hosts.Value()), name, HostOf(data).value, at);
        res == Settled(ch.result, old(State())) && hosts.Value() == ch.after &&
        State() == if ch.result.Ok? then Announce(old(State()), cfgPath, Config(), "hostSet") else old(State())
    {
      var h := HostOf(data);
      if h.Err? {
        return Err(h.error);
      }
      res := hosts.Add(name, h.value, at);
      if res.Ok? {
        res := Ok(HostCopy(res.value));
      }
      res := AnnouncedIf(res, "hostSet");
    }

    /** `updateHost(ref, data)`: `new Host(data)` first, then the collection's
        `update`; on success `changed`, then `hostUpdated`. */
    method UpdateHost(r: Ref, data: JsValue) returns (res: Result<Record<Host>>)
      requires Valid()
      modifies this, hosts
      ensures Valid()
      ensures HostOf(data).Err? ==>
        (res == Err(HostOf(data).error) && hosts.Value() == old(hosts.Value()) && State() == old(State()))
      ensures HostOf(data).Ok? ==>
        var ch := UpdateIn(old(hosts.Value()), r, HostOf(data).value);
        res == Settled(ch.result, old(State())) && hosts.Value() == ch.after &&
        State() == if ch.result.Ok? then Announce(old(State()), cfgPath, Config(), "hostUpdated") else old(State())
    {
      var h := HostOf(data);
      if h.Err? {
        return Err(h.error);
      }
      res := hosts.Update(r, h.value);
      if res.Ok? {
        res := Ok(HostCopy(res.value));
      }
      res := AnnouncedIf(res, "hostUpdated");
    }

    /** `hostTo(ref, index)`: the collection's `moveTo`; on success `changed`,
        then `hostTo`. */
    method HostTo(r: Ref, to: int) returns (res: Result<Record<Host>>)
      requires Valid()
      modifies this, hosts
      ensures Valid()
      ensures var ch := MoveToIn(old(hosts.Value()), r, to);
        res == Settled(ch.result, old(State())) && hosts.Value() == ch.after &&
        State() == if ch.result.Ok? then Announce(old(State()), cfgPath, Config(), "hostTo") else old(State())
    {
      res := hosts.MoveTo(r, to);
      if res.Ok? {
        res := Ok(HostCopy(res.value));
      }
      res := AnnouncedIf(res, "hostTo");
    }

    /** `hostUp(ref, count)`: the collection's `moveUp`, whose `count` defaults
        to 1; on success `changed`, then `hostUp`. */
    method HostUp(r: Ref, count: Option<int>) returns (res: Result<Record<Host>>)
      requires Valid()
      modifies this, hosts
      ensures Valid()
      ensures var ch := MoveUpIn(old(hosts.Value()), r, if count.Some? then count.value else 1);
        res == Settled(ch.result, old(State())) && hosts.Value() == ch.after &&
        State() == if ch.result.Ok? then Announce(old(State()), cfgPath, Config(), "hostUp") else old(State())
    {
      var n := if count.Some? then count.value else 1;
      res := hosts.MoveUp(r, n);
      if res.Ok? {
        res := Ok(HostCopy(res.value));
      }
      res := AnnouncedIf(res, "hostUp");
    }

    /** `hostDown(ref, count)`: the collection's `moveDown`, whose `count`
        defaults to 1; on success `changed`, then `hostDown`. */
    method HostDown(r: Ref, count: Option<int>) returns (res: Result<Record<Host>>)
      requires Valid()
      modifies this, hosts
      ensures Valid()
      ensures var ch := MoveDownIn(old(hosts.Value()), r, if count.Some? then count.value else 1);
        res == Settled(ch.result, old(State())) && hosts.Value() == ch.after &&
        State() == if ch.result.Ok? then Announce(old(State()), cfgPath, Config(), "hostDown") else old(State())
    {
      var n := if count.Some? then count.value else 1;
      res := hosts.MoveDown(r, n);
      if res.Ok? {
        res := Ok(HostCopy(res.value));
      }
      res := AnnouncedIf(res, "hostDown");
    }

    // -------------------------------------------------------------------------
    // Tasks
    // -------------------------------------------------------------------------

    /** `getTasks()`: the tasks' `toJSON()` forms after the JSON copy, in
        collection order. */
    function GetTasks(): (v: JsValue)
      reads hosts, tasks, profiles
      requires Valid()
      ensures v.Obj? && Keys(v.props) == tasks.names
      ensures forall i :: 0 <= i < |tasks.names| ==> v.props[i].1 == JsonCopy(TaskToJs(tasks.data[tasks.names[i]]))
    {
      CollectionJsonOrder(tasks.Value(), TaskToJs);
      CollectionJson(tasks.Value(), TaskToJs)
    }

    /** `getTaskNames()` */
    function GetTaskNames(): (ns: seq<string>)
      reads hosts, tasks, profiles
      requires Valid()
      ensures NoDuplicates(ns) && forall n :: n in ns <==> n in tasks.data
    {
      tasks.Names()
    }

    /** `getTaskCount()` */
    function GetTaskCount(): (n: nat)
      reads hosts, tasks, profiles
      requires Valid()
      ensures n == |tasks.data|
    {
      tasks.Length()
    }

    /** `getTask(ref)`: what the collection's `get` resolves with, the task
        copied through its constructor, with `snaps` read from the task's
        snapshot file; an unparsable file rejects. */
    method GetTask(r: Ref) returns (res: Result<(Record<TaskValue>, JsValue)>)
      requires Valid()
      ensures FindIn(tasks.Value(), r).Err? ==> res == Err(FindIn(tasks.Value(), r).error)
      ensures FindIn(tasks.Value(), r).Ok? ==>
        var el := FindIn(tasks.Value(), r).value;
        var sn := Snaps(disk, SnapsPath(rsbkpDir, el.name));
        (res.Ok? <==> sn.Ok?) &&
        (res.Ok? ==> res.value == (el, sn.value)) &&
        (res.Err? ==> res.error == SyntaxError)
    {
      var got := tasks.Get(r);
      if got.Err? {
        return Err(got.error);
      }
      var el := TaskCopy(got.value);
      var sn := Snaps(disk, SnapsPath(rsbkpDir, el.name));
      if sn.Err? {
        return Err(sn.error);
      }
      res := Ok((el, sn.value));
    }

    /** `removeTask(ref)`: on success the task's snapshot directory is queued
        for deletion, then `changed`, then `taskRemoved`. */
    method RemoveTask(r: Ref) returns (res: Result<Record<TaskValue>>)
      requires Valid()
      modifies this, tasks
      ensures Valid()
      ensures var ch := RemoveFrom(old(tasks.Value()), r);
        var queued := if ch.result.Ok? then old(State()).(toDelete := old(toDelete) + [SnapsDir(rsbkpDir, ch.result.value.name)]) else old(State());
        res == Settled(ch.result, queued) && tasks.Value() == ch.after &&
        State() == if ch.result.Ok? then Announce(queued, cfgPath, Config(), "taskRemoved") else old(State())
    {
      RemoveKeepsTasks(tasks.Value(), r);
      ghost var s0, ch := State(), RemoveFrom(tasks.Value(), r);
      res := tasks.Remove(r);
      assert State() == s0 && res == ch.result;
      if res.Ok? {
        toDelete := toDelete + [SnapsDir(rsbkpDir, res.value.name)];
        ghost var queued := State();
        assert queued == s0.(toDelete := s0.toDelete + [SnapsDir(rsbkpDir, ch.result.value.name)]);
        res := AnnouncedIf(res, "taskRemoved");
        assert State() == Announce(queued, cfgPath, Config(), "taskRemoved");
      }
    }

    /** `setTask(name, data, index)`: `new Task(data)` first, then the
        collection's `add`; on success `changed`, then `taskSet`. */
    method SetTask(name: string, data: JsValue, at: Option<int>) returns (res: Result<Record<TaskValue>>)
      requires Valid()
      modifies this, tasks
      ensures Valid()
      ensures TaskOf(data).Err? ==>
        (res == Err(TaskOf(data).error) && tasks.Value() == old(tasks.Value()) && State() == old(State()))
      ensures TaskOf(data).Ok? ==>
        var ch := AddTo(old(tasks.Value()), name, TaskOf(data).value, at);
        res == Settled(ch.result, old(State())) && tasks.Value() == ch.after &&
        State() == if ch.result.Ok? then Announce(old(State()), cfgPath, Config(), "taskSet") else old(State())
    {
      var t := TaskOf(data);
      if t.Err? {
        return Err(t.error);
      }
      TaskOfWellFormed(data);
      AddKeepsTasks(tasks.Value(), name, t.value, at);
      res := tasks.Add(name, t.value, at);
      if res.Ok? {
        res := Ok(TaskCopy(res.value));
      }
      res := AnnouncedIf(res, "taskSet");
    }

    /** `updateTask(ref, data)`: `new Task(data)` first, then the collection's
        `update`; on success `changed`, then `taskUpdated`. */
    method UpdateTask(r: Ref, data: JsValue) returns (res: Result<Record<TaskValue>>)
      requires Valid()
      modifies this, tasks
      ensures Valid()
      ensures TaskOf(data).Err? ==>
        (res == Err(TaskOf(data).error) && tasks.Value() == old(tasks.Value()) && State() == old(State()))
      ensures TaskOf(data).Ok? ==>
        var ch := UpdateIn(old(tasks.Value()), r, TaskOf(data).value);
        res == Settled(ch.result, old(State())) && tasks.Value() == ch.after &&
        State() == if ch.result.Ok? then Announce(old(State()), cfgPath, Config(), "taskUpdated") else old(State())
    {
      var t := TaskOf(data);
      if t.Err? {
        return Err(t.error);
      }
      TaskOfWellFormed(data);
      UpdateKeepsTasks(tasks.Value(), r, t.value);
      res := tasks.Update(r, t.value);
      if res.Ok? {
        res := Ok(TaskCopy(res.value));
      }
      res := AnnouncedIf(res, "taskUpdated");
    }

    /** `taskTo(ref, index)`: the collection's `moveTo`; on success `changed`,
        then `taskTo`. */
    method TaskTo(r: Ref, to: int) returns (res: Result<Record<TaskValue>>)
      requires Valid()
      modifies this, tasks
      ensures Valid()
      ensures var ch := MoveToIn(old(tasks.Value()), r, to);
        res == Settled(ch.result, old(State())) && tasks.Value() == ch.after &&
        State() == if ch.result.Ok? then Announce(old(State()), cfgPath, Config(), "taskTo") else old(State())
    {
      MoveToKeepsTasks(tasks.Value(), r, to);
      res := tasks.MoveTo(r, to);
      if res.Ok? {
        res := Ok(TaskCopy(res.value));
      }
      res := AnnouncedIf(res, "taskTo");
    }

    /** `taskUp(ref, count)`: the collection's `moveUp`, whose `count` defaults
        to 1; on success `changed`, then `taskUp`. */
    method TaskUp(r: Ref, count: Option<int>) returns (res: Result<Record<TaskValue>>)
      requires Valid()
      modifies this, tasks
      ensures Valid()
      ensures var ch := MoveUpIn(old(tasks.Value()), r, if count.Some? then count.value else 1);
        res == Settled(ch.result, old(State())) && tasks.Value() == ch.after &&
        State() == if ch.result.Ok? then Announce(old(State()), cfgPath, Config(), "taskUp") else old(State())
    {
      var n := if count.Some? then count.value else 1;
      MoveUpKeepsTasks(tasks.Value(), r, n);
      res := tasks.MoveUp(r, n);
      if res.Ok? {
        res := Ok(TaskCopy(res.value));
      }
      res := AnnouncedIf(res, "taskUp");
    }

    /** `taskDown(ref, count)`: the collection's `moveDown`, whose `count`
        defaults to 1; on success `changed`, then `taskDown`. */
    method TaskDown(r: Ref, count: Option<int>) returns (res: Result<Record<TaskValue>>)
      requires Valid()
      modifies this, tasks
      ensures Valid()
      ensures var ch := MoveDownIn(old(tasks.Value()), r, if count.Some? then count.value else 1);
        res == Settled(ch.result, old(State())) && tasks.Value() == ch.after &&
        State() == if ch.result.Ok? then Announce(old(State()), cfgPath, Config(), "taskDown") else old(State())
    {
      var n := if count.Some? then count.value else 1;
      MoveDownKeepsTasks(tasks.Value(), r, n);
      res := tasks.MoveDown(r, n);
      if res.Ok? {
        res := Ok(TaskCopy(res.value));
      }
      res := AnnouncedIf(res, "taskDown");
    }
  }
}
