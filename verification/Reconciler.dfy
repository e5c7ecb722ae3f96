/** internal/reconcile/applier.go and reconciler.go as they run: handlers that edit Syncthing through
    its client and files on disk, any of which may fail, and the continue-on-error loop over a plan. */
module Reconciler {
  import opened Base
  import opened Ignore
  import opened Syncthing
  import opened World
  import opened Diff
  import opened Convergence
  import opened Discovery
  import opened Fixpoint
  import opened Handlers
  import Planner
  import opened Subscribe

  // ---------------------------------------------------------------- querySyncthing

  method CollectDeviceIDs(refs: seq<FolderDevice>, myID: string) returns (ids: seq<string>)
    ensures ids == DeviceIDs(refs, myID)
  {
    ids := [];
    for i := 0 to |refs|
      invariant ids + DeviceIDs(refs[i..], myID) == DeviceIDs(refs, myID)
    {
      assert refs[i..][0] == refs[i] && refs[i..][1..] == refs[i + 1..];
      if refs[i].deviceID != "" && refs[i].deviceID != myID {
        ids := ids + [refs[i].deviceID];
      }
    }
  }

  method QueryFolder(f: Folder, disk: Disk, myID: string) returns (x: FolderObs)
    ensures x == ObserveFolder(f, disk, myID)
  {
    hide DeviceIDs, MarkerPresent;
    var devices := CollectDeviceIDs(f.devices, myID);
    var missing := f.path != [] && !MarkerPresent(disk, f.path, MarkerNameOf(f));
    x := FolderObs(f.id, f.path, devices, missing, f.rescanIntervalS, f.fsWatcherEnabled, f.hashers, f.paused);
  }

  lemma HeadFirst(fs: seq<Folder>, disk: Disk, myID: string)
    requires fs != []
    ensures ObserveFolders(fs, disk, myID) ==
            (if fs[0].id == "" then [] else [ObserveFolder(fs[0], disk, myID)]) + ObserveFolders(fs[1..], disk, myID)
  {}

  lemma {:induction false} ObserveOneMore(fs: seq<Folder>, f: Folder, disk: Disk, myID: string)
    ensures ObserveFolders(fs + [f], disk, myID) ==
            ObserveFolders(fs, disk, myID) + if f.id == "" then [] else [ObserveFolder(f, disk, myID)]
  {
    hide ObserveFolder;
    if fs == [] {
      assert fs + [f] == [f] && [f][1..] == [];
    } else {
      assert (fs + [f])[1..] == fs[1..] + [f] && (fs + [f])[0] == fs[0];
      ObserveOneMore(fs[1..], f, disk, myID);
      HeadFirst(fs, disk, myID);
      HeadFirst(fs + [f], disk, myID);
      hide ObserveFolders;
    }
  }

  method QueryFolders(fs: seq<Folder>, disk: Disk, myID: string) returns (obs: seq<FolderObs>)
    ensures obs == ObserveFolders(fs, disk, myID)
  {
    obs := [];
    for i := 0 to |fs|
      invariant obs == ObserveFolders(fs[..i], disk, myID)
    {
      hide ObserveFolder, ObserveFolders;
      assert fs[..i + 1] == fs[..i] + [fs[i]];
      ObserveOneMore(fs[..i], fs[i], disk, myID);
      if fs[i].id != "" {
        var x := QueryFolder(fs[i], disk, myID);
        obs := obs + [x];
      }
    }
    assert fs[..|fs|] == fs;
  }

  /** The configured devices, then whatever else the connection table reports. */
  method QueryPeers(ds: seq<Device>, connections: set<string>) returns (ids: seq<string>)
    ensures forall id :: id in ids <==> (id != "" && HasDevice(ds, id)) || id in connections
  {
    ids := ConfiguredPeers(ds);
    var todo := connections - set id | id in ids;
    while todo != {}
      invariant forall id :: id in ids || id in todo <==> (id != "" && HasDevice(ds, id)) || id in connections
      decreases todo
    {
      var id :| id in todo;
      ids := ids + [id];
      todo := todo - {id};
    }
  }

  method ConfiguredPeers(ds: seq<Device>) returns (ids: seq<string>)
    ensures forall id :: id in ids <==> id != "" && HasDevice(ds, id)
  {
    ids := [];
    for i := 0 to |ds|
      invariant forall id :: id in ids <==> id != "" && HasDevice(ds[..i], id)
    {
      assert ds[..i + 1] == ds[..i] + [ds[i]];
      forall id ensures HasDevice(ds[..i + 1], id) <==> HasDevice(ds[..i], id) || ds[i].deviceID == id {
        if ds[i].deviceID == id { assert ds[i] in ds[..i + 1]; }
      }
      if ds[i].deviceID != "" { ids := ids + [ds[i].deviceID]; }
    }
    assert ds[..|ds|] == ds;
  }

  /** What git reports about one repository. */
  datatype GitInfo = GitInfo(headCommit: string, isDirty: bool, lastBackupAt: Option<int>, lastChangeAt: Option<int>,
                             devWorkflowActive: bool)

  /** Everything an observation holds besides folders, devices and files. */
  datatype Signals = Signals(
    trackedPaths: seq<Path>, connections: set<string>, git: map<Path, GitInfo>, lastPushed: map<Path, string>,
    lastActivityByPath: Option<map<Path, int>>, watchHealthByPath: map<Path, FolderHealth>, sleepWakeSeen: bool,
    lastRescanByPath: map<Path, int>, now: int,
    offeredFolders: seq<OfferedFolder>, peerNameByID: map<string, string>)

  ghost predicate Reports(r: RepoObs, g: GitInfo) {
    && r.headCommit == g.headCommit && r.isDirty == g.isDirty && r.lastBackupAt == g.lastBackupAt
    && r.lastChangeAt == g.lastChangeAt && r.devWorkflowActive == g.devWorkflowActive
  }

  method QueryRepo(p: Path, sig: Signals, disk: Disk) returns (r: RepoObs)
    ensures r.path == p && r.ignoreFileContent == ReadIgnore(disk, p)
    ensures p in sig.git ==> Reports(r, sig.git[p])
    ensures p !in sig.git ==> r.headCommit == "" && !r.isDirty && r.lastBackupAt == None && !r.devWorkflowActive
  {
    var g := if p in sig.git then sig.git[p] else GitInfo("", false, None, None, false);
    r := RepoObs(p, g.headCommit, g.isDirty, g.lastBackupAt, g.lastChangeAt, ReadIgnore(disk, p), g.devWorkflowActive);
  }

  /** Every signal is passed on as it came. */
  ghost predicate Relays(o: Observed, sig: Signals) {
    && o.lastPushed == sig.lastPushed && o.lastActivityByPath == sig.lastActivityByPath
    && o.watchHealthByPath == sig.watchHealthByPath && o.sleepWakeSeen == sig.sleepWakeSeen
    && o.lastRescanByPath == sig.lastRescanByPath && o.now == sig.now && o.peerNameByID == sig.peerNameByID
    && forall r :: r in o.trackedRepos && r.path in sig.git ==> Reports(r, sig.git[r.path])
  }

  /** The tracked paths, then `augmentObservedRepos`: every desired path not seen yet. */
  method QueryRepos(sig: Signals, d: Desired, disk: Disk) returns (rs: seq<RepoObs>)
    ensures forall r :: r in rs ==> r.ignoreFileContent == ReadIgnore(disk, r.path)
    ensures forall p :: p in d.repos ==> exists r :: r in rs && r.path == p
    ensures forall r :: r in rs && r.path in sig.git ==> Reports(r, sig.git[r.path])
  {
    hide ReadIgnore, Reports;
    rs := [];
    var seen: set<Path> := {};
    for i := 0 to |sig.trackedPaths|
      invariant forall r :: r in rs ==> r.ignoreFileContent == ReadIgnore(disk, r.path)
      invariant forall r :: r in rs && r.path in sig.git ==> Reports(r, sig.git[r.path])
      invariant forall p :: p in seen ==> exists r :: r in rs && r.path == p
    {
      var r := QueryRepo(sig.trackedPaths[i], sig, disk);
      ghost var before := rs;
      rs := rs + [r];
      seen := seen + {r.path};
      assert r in rs && forall x :: x in before ==> x in rs;
    }
    var todo := d.repos.Keys - seen;
    while todo != {}
      invariant forall r :: r in rs ==> r.ignoreFileContent == ReadIgnore(disk, r.path)
      invariant forall r :: r in rs && r.path in sig.git ==> Reports(r, sig.git[r.path])
      invariant forall p :: p in d.repos && p !in todo ==> exists r :: r in rs && r.path == p
      decreases todo
    {
      var p :| p in todo;
      var r := QueryRepo(p, sig, disk);
      ghost var before := rs;
      rs := rs + [r];
      todo := todo - {p};
      assert r in rs && forall x :: x in before ==> x in rs;
    }
  }

  // ---------------------------------------------------------------- the applier

  class Applier {
    const host: Host
    const st: Client
    const diskReliable: bool
    const gitReliable: bool
    var disk: Disk

    /** Neither Syncthing nor the disk refuses anything it could do, and git commands work. */
    ghost predicate Reliable() {
      st.reliable && diskReliable && gitReliable
    }

    /** A commit or push; git's own state is the subject of `GitSync`. */
    method RunGit() returns (done: bool)
      ensures gitReliable ==> done
    {
      if * { return gitReliable; }
      return true;
    }

    /** Any one write. */
    method Write() returns (done: bool)
      ensures diskReliable ==> done
    {
      if * { return diskReliable; }
      return true;
    }

    ghost predicate Valid() reads this, st {
      st.Valid() && st.myID == host.myID
    }

    ghost function State(): World reads this, st {
      World(host, st.server, disk)
    }

    constructor (host: Host, st: Client, disk: Disk, diskReliable: bool, gitReliable: bool)
      requires st.Valid() && st.myID == host.myID
      ensures Valid() && State() == World(host, st.server, disk)
      ensures this.st == st && this.diskReliable == diskReliable && this.gitReliable == gitReliable
    {
      this.gitReliable := gitReliable;
      this.diskReliable := diskReliable;
      this.host := host;
      this.st := st;
      this.disk := disk;
    }

    method EnsureMarker(p: Path) returns (ok: bool)
      modifies this`disk
      ensures ok ==> WithMarker(old(disk), p) == Ok(disk)
      ensures !ok ==> disk == old(disk)
      ensures diskReliable && WithMarker(old(disk), p).Ok? ==> ok
    {
      if p == [] || !IsDir(disk, p) { return false; }
      var node := disk[p];
      if FOLDER_MARKER_NAME in node.markers { return node.markers[FOLDER_MARKER_NAME]; }
      var done := Write();
      if !done { return false; }
      disk := disk[p := node.(markers := node.markers[FOLDER_MARKER_NAME := true])];
      return true;
    }

    /** `os.MkdirAll`: each ancestor in turn, stopping at a plain file or a failed write. */
    method MakeDirs(p: Path) returns (ok: bool)
      modifies this`disk
      ensures ok ==> WithDirs(old(disk), p) == Ok(disk)
      ensures !ok ==> exists k :: 0 <= k < |p| && WithDirs(old(disk), p[..k]) == Ok(disk)
      ensures diskReliable && WithDirs(old(disk), p).Ok? ==> ok
    {
      hide WithDirs;
      NoDirs(disk, p[..0]);
      for k := 0 to |p|
        invariant WithDirs(old(disk), p[..k]) == Ok(disk)
      {
        var q := p[..k + 1];
        assert q[..k] == p[..k];
        if q in disk && disk[q].PlainFile? {
          BlockedDir(old(disk), p, k, disk);
          return false;
        }
        OneMoreDir(old(disk), q, disk);
        if q !in disk {
          var done := Write();
          if !done { return false; }
          disk := disk[q := EMPTY_DIRECTORY];
        }
      }
      assert p[..|p|] == p;
      return true;
    }

    method WriteAcceptedConfig(p: Path, a: Action) returns (ok: bool)
      requires a.AcceptSubscription? && IsDir(disk, p)
      modifies this`disk
      ensures ok ==> disk == WithAcceptedConfig(old(disk), p, a)
      ensures !ok ==> disk == old(disk)
      ensures diskReliable ==> ok
    {
      if !disk[p].repoFile.NoFile? { return true; }
      var done := Write();
      if !done { return false; }
      disk := disk[p := disk[p].(repoFile := Parsed(AcceptedConfig(a)))];
      return true;
    }

    method WriteIgnore(p: Path, patterns: seq<string>) returns (ok: bool)
      modifies this`disk
      ensures ok ==> WithIgnore(old(disk), p, SyncIgnoreFileContent(host.table, patterns)) == Ok(disk)
      ensures
        var content := SyncIgnoreFileContent(host.table, patterns);
        !ok ==> disk == old(disk) || WithIgnore(old(disk), p, content) == Ok(disk)
      ensures diskReliable && WithIgnore(old(disk), p, SyncIgnoreFileContent(host.table, patterns)).Ok? ==> ok
    {
      if p == [] || !IsDir(disk, p) { return false; }
      var want := RenderIgnoreFile(host.table, patterns);
      if disk[p].ignore == Some(want) {
        assert disk == disk[p := disk[p].(ignore := Some(want))];
        return true;
      }
      var done := Write();
      if !done { return false; }
      disk := disk[p := disk[p].(ignore := Some(want))];
      ok := Write();  // the git exclude file
    }

    method Accept(a: Action) returns (ok: bool)
      requires Valid() && a.AcceptSubscription?
      modifies this`disk, st
      ensures Valid() && Effect(old(State()), a, State())
      ensures ok ==> Apply(old(State()), a) == Ok(State())
      ensures Reliable() && Apply(old(State()), a).Ok? ==> ok
    {
      hide SyncIgnoreFileContent, WithDirs, WithMarker, WithFolder;
      if a.path == [] { return false; }
      var p := Expand(host.home, a.path);
      assert p[..|p|] == p;
      ok := MakeDirs(p);
      if !ok { return; }
      ghost var made := disk;
      if !IsDir(disk, p) { return false; }
      ok := WriteAcceptedConfig(p, a);
      if !ok { return; }
      ghost var claimed := disk;
      assert claimed == WithAcceptedConfig(made, p, a);
      ok := EnsureMarker(p);
      if !ok { return; }
      assert AcceptedDisk(host, old(disk), a) == Ok(disk);
      ok := st.AddOrUpdateFolder(a.folderID, a.title, p, [a.fromDeviceID]);
    }

    /** `Apply`: dispatch on the action. Success means what the action is for; whatever fails, the state left behind is
        one of its effects. */
    method Perform(a: Action) returns (ok: bool)
      requires Valid()
      modifies this`disk, st
      ensures Valid() && Effect(old(State()), a, State())
      ensures ok ==> Apply(old(State()), a) == Ok(State()) && Done(old(State()), a, State())
      ensures Reliable() && Apply(old(State()), a).Ok? ==> ok
    {
      hide SyncIgnoreFileContent, WithMarker, WithDirs, WithFolder, WithPatch, WithoutID, WithDevice, AcceptedDisk,
           Done;
      match a {
        case AddSyncthingDevice(name, dev) => ok := st.AddDevice(dev, name);
        case AddSyncthingFolder(id, path, devices, _) =>
          ok := EnsureMarker(path);
          if ok { ok := st.AddOrUpdateFolder(id, FolderTitle(a), path, devices); }
        case UpdateSyncthingFolderDevices(id, devices) =>
          var refs := st.CollectDevices(devices);
          ok := st.PatchFolder(id, SetDevices(refs));
        case UpdateSyncthingFolderSchedule(id) => ok := st.UpdateFolderSchedule(id);
        case EnsureFolderMarker(path) => ok := EnsureMarker(path);
        case PauseSyncthingFolder(id) => ok := st.SetFolderPaused(id, true);
        case UnpauseSyncthingFolder(id) => ok := st.SetFolderPaused(id, false);
        case RescanFolderNow(id, _, _) => ok := id != "";
        case EnsureIgnoreFile(path, patterns) => ok := WriteIgnore(path, patterns);
        case AcceptSubscription(_, _, _, _, _) => ok := Accept(a);
        case RemoveSyncthingFolder(id) => ok := st.RemoveFolder(id);
        case GitCommitDirty(_, _) => ok := RunGit();
        case GitPushRepo(_) => ok := RunGit();
      }
      if ok { AppliedIsDone(old(State()), a, State()); }
    }

    /** `Reconcile` after its inputs are read: plan, then attempt every action, remembering whether any
        failed. The states passed through make a pass, and a successful one when nothing failed. */
    method Reconcile(d: Desired, o: Observed, now: int)
      returns (plan: seq<Action>, failed: bool, ghost ord: Orders, ghost states: seq<World>)
      requires Valid()
      modifies this`disk, st
      ensures Valid()
      ensures ValidOrders(d, o, ord) && plan == Plan(host.table, d, o, ord, now)
      ensures |states| == |plan| + 1 && states[0] == old(State()) && states[|plan|] == State()
      ensures forall i :: 0 <= i < |plan| ==> Effect(states[i], plan[i], states[i + 1])
      ensures !failed ==> forall i :: 0 <= i < |plan| ==> Apply(states[i], plan[i]) == Ok(states[i + 1])
      ensures Reliable() ==> forall i :: 0 <= i < |plan| && Apply(states[i], plan[i]).Ok? ==>
                Apply(states[i], plan[i]) == Ok(states[i + 1])
      ensures failed && Reliable() ==> exists i :: 0 <= i < |plan| && Apply(states[i], plan[i]).Err?
    {
      hide Plan, Effect, Apply, ValidOrders;
      plan, ord := Planner.ComputePlan(host.table, d, o, now);
      failed := false;
      states := [State()];
      for i := 0 to |plan|
        invariant Valid()
        invariant |states| == i + 1 && states[0] == old(State()) && states[i] == State()
        invariant forall k :: 0 <= k < i ==> Effect(states[k], plan[k], states[k + 1])
        invariant !failed ==> forall k :: 0 <= k < i ==> Apply(states[k], plan[k]) == Ok(states[k + 1])
        invariant Reliable() ==> forall k :: 0 <= k < i && Apply(states[k], plan[k]).Ok? ==>
                    Apply(states[k], plan[k]) == Ok(states[k + 1])
        invariant failed && Reliable() ==> exists k :: 0 <= k < i && Apply(states[k], plan[k]).Err?
      {
        var ok := Perform(plan[i]);
        if !ok { failed := true; }
        states := states + [State()];
      }
    }

    /** `newObservedProvider`: a failed query aborts the pass. */
    method Observe(sig: Signals, d: Desired) returns (r: Result<Observed>)
      requires Valid()
      modifies st
      ensures Valid() && State() == old(State())
      ensures r.Ok? ==> Observes(State(), d, r.value) && r.value.offeredFolders == sig.offeredFolders
                        && r.value.connections == sig.connections && Relays(r.value, sig)
      ensures st.reliable ==> r.Ok?
    {
      var got := st.GetConfig();
      if got.Err? { return Err; }
      var folders := QueryFolders(got.value.folders, disk, host.myID);
      var peers := QueryPeers(got.value.devices, sig.connections);
      var repos := QueryRepos(sig, d, disk);
      r := Ok(Observed(folders, repos, peers, sig.connections, sig.lastPushed, sig.lastActivityByPath,
                       sig.watchHealthByPath, sig.sleepWakeSeen, sig.lastRescanByPath, sig.now, sig.offeredFolders,
                       sig.peerNameByID));
    }

    /** A whole pass over the running code: discover, observe, plan, apply. When it reports no failure, every goal of
        the desired state read from disk is met, the absence of what it accepted aside, exactly when it started in a
        compatible state and each desired folder that was accepted was accepted at its path for its devices. And with
        nothing in the way and no external failure it does report none. */
    method RunPass(m: Machine, s: Option<Discovery.State>, sig: Signals, now: int)
      returns (plan: seq<Action>, failed: bool)
      requires Valid()
      requires DesiredOf(host, m, s, disk).Ok? ==> Reachable(DesiredOf(host, m, s, disk).value, host)
      requires DistinctIds(st.server.folders)
      requires ConnectedAreConfigured(sig, st.server)
      modifies this`disk, st
      ensures Valid()
      ensures DesiredOf(host, m, s, old(disk)).Err? ==> failed && State() == old(State())
      ensures !failed ==>
                var d := DesiredOf(host, m, s, old(disk)).value;
                (Compatible(d, State()) && SettledBut(d, State(), AcceptedBy(plan)))
                <==> Compatible(d, old(State())) && Faithful(d, host, plan)
      ensures Reliable() && DesiredOf(host, m, s, old(disk)).Ok? && AllAcceptReady(host, old(disk), plan) ==>
                (Ready(DesiredOf(host, m, s, old(disk)).value, old(disk)) ==> !failed)
    {
      hide Compatible, Reachable, DistinctIds, SettledBut, Faithful, DesiredOf, Observes, Ready, AllAcceptReady,
           AcceptedBy, Plan, Effect, Apply, ValidOrders;
      var provided := ProvideDesired(host, m, s, disk);
      if provided.Err? { return [], true; }
      var observed := Observe(sig, provided.value);
      if observed.Err? { return [], true; }
      ghost var ord, states;
      plan, failed, ord, states := Reconcile(provided.value, observed.value, now);
      assert ConnectionsConfigured(states[0], observed.value);
      hide ConnectionsConfigured;
      if !failed {
        CleanPassSettles(provided.value, observed.value, ord, now, plan, states);
      }
      if Reliable() && AllAcceptReady(host, states[0].disk, plan) && Ready(provided.value, states[0].disk) {
        ReadyPassSucceeds(provided.value, observed.value, ord, now, plan, states);
      }
    }
  }

  ghost predicate ConnectedAreConfigured(sig: Signals, cfg: Config) {
    forall id :: id in sig.connections ==> HasDevice(cfg.devices, id)
  }

  ghost predicate AllAcceptReady(host: Host, disk: Disk, plan: seq<Action>) {
    forall a :: a in plan && a.AcceptSubscription? ==> AcceptReady(host, disk, a)
  }

  lemma CleanPassSettles(d: Desired, o: Observed, ord: Orders, now: int, plan: seq<Action>, states: seq<World>)
    requires |states| == |plan| + 1 && Observes(states[0], d, o) && ConnectionsConfigured(states[0], o)
    requires Reachable(d, states[0].host) && DistinctIds(states[0].cfg.folders)
    requires ValidOrders(d, o, ord) && plan == Plan(states[0].host.table, d, o, ord, now)
    requires forall i :: 0 <= i < |plan| ==> Apply(states[i], plan[i]) == Ok(states[i + 1])
    ensures (Compatible(d, states[|plan|]) && SettledBut(d, states[|plan|], AcceptedBy(plan)))
       <==> Compatible(d, states[0]) && Faithful(d, states[0].host, plan)
  {
    var s := Pass(o, ord, now, states);
    hide Apply, Compatible, Reachable, DistinctIds, Observes, ConnectionsConfigured, SettledBut, Faithful,
         AcceptedBy, Plan, ValidOrders;
    assert IsTrace(plan, states);
    hide Effect;
    assert IsPass(d, s) && Succeeded(d, s);
    hide IsPass, Succeeded;
    SuccessfulPassSettlesExactly(d, s);
  }

  /** From a compatible state with nothing in the way, no action of the plan can fail by itself. */
  lemma ReadyPassSucceeds(d: Desired, o: Observed, ord: Orders, now: int, plan: seq<Action>, states: seq<World>)
    requires |states| == |plan| + 1 && Reachable(d, states[0].host) && DistinctIds(states[0].cfg.folders)
    requires Ready(d, states[0].disk) && Observes(states[0], d, o)
    requires ValidOrders(d, o, ord) && plan == Plan(states[0].host.table, d, o, ord, now)
    requires AllAcceptReady(states[0].host, states[0].disk, plan)
    requires forall i :: 0 <= i < |plan| ==> Effect(states[i], plan[i], states[i + 1])
    ensures forall i :: 0 <= i < |plan| ==> Apply(states[i], plan[i]).Ok?
  {
    hide Apply, Effect, Reachable, DistinctIds, Ready, Observes, Plan, ValidOrders, AcceptReady, Applicable;
    forall a | a in plan ensures Applicable(d, states[0], a) {
      PlanIsApplicable(d, states[0], o, ord, now, a);
    }
    forall i | 0 <= i < |plan| ensures Apply(states[i], plan[i]).Ok? {
      StaysReady(d, plan, states, i);
      assert plan[i] in plan;
      ApplicableSucceeds(d, states[i], plan[i]);
    }
  }

  lemma {:induction false} StaysReady(d: Desired, plan: seq<Action>, states: seq<World>, i: nat)
    requires |states| == |plan| + 1 && Reachable(d, states[0].host) && Ready(d, states[0].disk) && i <= |plan|
    requires forall a :: a in plan ==> Applicable(d, states[0], a)
    requires forall i :: 0 <= i < |plan| ==> Effect(states[i], plan[i], states[i + 1])
    ensures Reachable(d, states[i].host) && Ready(d, states[i].disk)
    ensures forall a :: a in plan ==> Applicable(d, states[i], a)
  {
    hide Effect, Reachable, Ready, Applicable;
    if i > 0 {
      StaysReady(d, plan, states, i - 1);
      var w, a, w' := states[i - 1], plan[i - 1], states[i];
      EffectKeepsHost(w, a, w');
      ReadyStays(d, w, a, w');
      assert a in plan;
      forall b | b in plan ensures Applicable(d, w', b) {
        OneStepKeeps(d, w, a, w', b);
      }
    }
  }

  lemma NoDirs(disk: Disk, p: Path)
    requires p == []
    ensures WithDirs(disk, p) == Ok(disk)
  {
    assert Ancestors(p) == {};
    assert WithDirs(disk, p).value == disk;
  }

  /** Creating one more level. */
  lemma OneMoreDir(disk: Disk, q: Path, made: Disk)
    requires q != [] && WithDirs(disk, q[..|q| - 1]) == Ok(made) && !(q in made && made[q].PlainFile?)
    ensures WithDirs(disk, q) == Ok(if q in made then made else made[q := EMPTY_DIRECTORY])
  {
    AncestorsOf(q);
    hide Ancestors;
    assert q in disk ==> made[q] == disk[q];
    assert WithDirs(disk, q).Ok?;
    var want := if q in made then made else made[q := EMPTY_DIRECTORY];
    var got := WithDirs(disk, q).value;
    assert got.Keys == want.Keys;
    assert forall x :: x in got ==> got[x] == want[x];
    assert got == want;
  }

  lemma AncestorsOf(q: Path)
    requires q != []
    ensures Ancestors(q) == Ancestors(q[..|q| - 1]) + {q} && q !in Ancestors(q[..|q| - 1])
  {
    var up := q[..|q| - 1];
    assert forall k :: 1 <= k < |q| ==> q[..k] == up[..k];
    assert q[..|q|] == q;
    forall x | x in Ancestors(q) ensures x in Ancestors(up) + {q} {
      var k :| 1 <= k <= |q| && x == q[..k];
    }
    forall x | x in Ancestors(up) ensures x in Ancestors(q) {
      var k :| 1 <= k <= |up| && x == up[..k];
      assert x == q[..k];
    }
  }

  lemma BlockedDir(disk: Disk, p: Path, k: nat, made: Disk)
    requires k < |p| && WithDirs(disk, p[..k]) == Ok(made) && p[..k + 1] in made && made[p[..k + 1]].PlainFile?
    ensures WithDirs(disk, p).Err?
  {
    assert p[..k + 1] in Ancestors(p);
  }
}
