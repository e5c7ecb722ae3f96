/** The fixpoint theorem of the reconcile loop. A desired state is broken into goals; every action a
    plan can hold keeps every goal that already holds, each unmet goal has an action in the plan,
    and that action meets it. So one pass in which every action succeeds leaves nothing to do,
    whatever failed before it. */
module Convergence {
  import opened Base
  import opened Ignore
  import opened Syncthing
  import opened Subscribe
  import opened World
  import opened Diff

  // ---------------------------------------------------------------- observation

  function MarkerNameOf(f: Folder): string {
    if f.markerName == "" then FOLDER_MARKER_NAME else f.markerName
  }

  function DeviceIDs(refs: seq<FolderDevice>, myID: string): seq<string> {
    if refs == [] then []
    else if refs[0].deviceID != "" && refs[0].deviceID != myID then
      [refs[0].deviceID] + DeviceIDs(refs[1..], myID)
    else DeviceIDs(refs[1..], myID)
  }

  function ObserveFolder(f: Folder, disk: Disk, myID: string): FolderObs {
    FolderObs(f.id, f.path, DeviceIDs(f.devices, myID),
              f.path != [] && !MarkerPresent(disk, f.path, MarkerNameOf(f)),
              f.rescanIntervalS, f.fsWatcherEnabled, f.hashers, f.paused)
  }

  /** Records with a blank ID are skipped. */
  function ObserveFolders(fs: seq<Folder>, disk: Disk, myID: string): seq<FolderObs> {
    if fs == [] then []
    else (if fs[0].id == "" then [] else [ObserveFolder(fs[0], disk, myID)])
         + ObserveFolders(fs[1..], disk, myID)
  }

  /** `o` is an observation of `w` taken for `d`: folders, devices and ignore files are what is
      there; connections, offers, activity, health, rescan history, git state and the clock are arbitrary. */
  ghost predicate Observes(w: World, d: Desired, o: Observed) {
    && o.managedFolders == ObserveFolders(w.cfg.folders, w.disk, w.host.myID)
    && (forall id :: id in o.livePeers <==> (id != "" && HasDevice(w.cfg.devices, id)) || id in o.connections)
    && (forall r :: r in o.trackedRepos ==> r.ignoreFileContent == ReadIgnore(w.disk, r.path))
    && (forall p :: p in d.repos ==> exists r :: r in o.trackedRepos && r.path == p)
  }

  lemma {:induction false} ObservedFolderOf(fs: seq<Folder>, disk: Disk, myID: string, id: string)
    requires DistinctIds(fs) && id != ""
    ensures LastFolder(ObserveFolders(fs, disk, myID), id) ==
            match Lookup(fs, id) case None => None case Some(f) => Some(ObserveFolder(f, disk, myID))
  {
    if fs != [] {
      var head := if fs[0].id == "" then [] else [ObserveFolder(fs[0], disk, myID)];
      var tail := ObserveFolders(fs[1..], disk, myID);
      ObservedFolderOf(fs[1..], disk, myID, id);
      LastFolderAppend(head, tail, id);
      if head != [] { assert head[..0] == []; }
    }
  }

  lemma {:induction false} LastFolderAppend(a: seq<FolderObs>, b: seq<FolderObs>, id: string)
    ensures LastFolder(a + b, id) == if LastFolder(b, id).Some? then LastFolder(b, id) else LastFolder(a, id)
  {
    if b == [] {
      assert a + b == a;
    } else {
      assert (a + b)[..|a + b| - 1] == a + b[..|b| - 1];
      LastFolderAppend(a, b[..|b| - 1], id);
    }
  }

  lemma ObservedIgnoreOf(w: World, d: Desired, o: Observed, p: Path)
    requires Observes(w, d, o) && p in d.repos
    ensures ObservedIgnore(o, p) == ReadIgnore(w.disk, p)
  {}

  // ---------------------------------------------------------------- what is assumed

  /** What a desired state must satisfy to be reachable at all: folder IDs are distinct, paths are
      not blank, and no share list names the local device or a blank one, since the writer drops both. */
  ghost predicate Reachable(d: Desired, host: Host) {
    && (forall p, q :: p in d.repos && q in d.repos && d.repos[p].folderID == d.repos[q].folderID != "" ==> p == q)
    && (forall p :: p in d.repos && d.repos[p].folderID != "" ==>
          p != [] && "" !in d.repos[p].shareWith && host.myID !in d.repos[p].shareWith)
  }

  /** Folders already configured under a desired ID have the desired path and marker name, which
      the plan never compares. Syncthing itself keeps folder IDs distinct. */
  ghost predicate Compatible(d: Desired, w: World) {
    && Reachable(d, w.host)
    && DistinctIds(w.cfg.folders)
    && forall p :: p in d.repos && d.repos[p].folderID != "" ==> PathAgrees(d, w, p)
  }

  ghost predicate PathAgrees(d: Desired, w: World, p: Path)
    requires p in d.repos
  {
    var f := Lookup(w.cfg.folders, d.repos[p].folderID);
    f.Some? ==> f.value.path == p && MarkerNameOf(f.value) == FOLDER_MARKER_NAME
  }

  /** Syncthing reports connections of configured devices only. */
  ghost predicate ConnectionsConfigured(w: World, o: Observed) {
    forall id :: id in o.connections ==> HasDevice(w.cfg.devices, id)
  }

  /** The actions a plan for `d` can hold. */
  ghost predicate Consistent(d: Desired, a: Action) {
    match a
    case AddSyncthingDevice(_, dev) => dev != ""
    case AddSyncthingFolder(id, path, devices, _) =>
      path in d.repos && d.repos[path].folderID == id && id != "" && devices == d.repos[path].shareWith
    case UpdateSyncthingFolderDevices(id, devices) =>
      exists p :: p in d.repos && d.repos[p].folderID == id && id != "" && devices == d.repos[p].shareWith
    case EnsureIgnoreFile(p, patterns) => p in d.repos && patterns == d.repos[p].ignore
    case RemoveSyncthingFolder(id) => id !in DesiredIDs(d)
    case _ => true
  }

  /** An acceptance of the folder desired at `p` is for `p`. */
  ghost predicate KeepsPath(d: Desired, host: Host, a: Action, p: Path)
    requires p in d.repos
  {
    a.AcceptSubscription? && a.folderID == d.repos[p].folderID ==> Target(host, a) == p
  }

  ghost predicate InPlace(d: Desired, host: Host, a: Action) {
    forall p :: p in d.repos && d.repos[p].folderID != "" ==> KeepsPath(d, host, a, p)
  }

  /** The share list an acceptance leaves is the wanted one. */
  ghost predicate SharesAsWanted(d: Desired, host: Host, a: Action, p: Path)
    requires p in d.repos && a.AcceptSubscription?
  {
    SameDevices(DeviceIDs(FolderDevices([a.fromDeviceID], host.myID), host.myID), d.repos[p].shareWith)
  }

  // ---------------------------------------------------------------- goals

  datatype Goal =
    | PeerKnown(deviceID: string)
    | DevicesMatch(path: Path)
    | ScheduleCanonical(path: Path)
    | MarkerThere(path: Path)
    | IgnoreWritten(path: Path)
    | Gone(folderID: string)

  /** The goals a desired state sets. */
  ghost predicate Wants(d: Desired, g: Goal) {
    match g
    case PeerKnown(dev) => dev != "" && exists p :: p in d.peers && p.deviceID == dev
    case Gone(id) => id != "" && id !in DesiredIDs(d)
    case _ => g.path in d.repos && d.repos[g.path].folderID != ""
  }

  predicate IsScheduled(f: Folder) {
    && f.rescanIntervalS == CANONICAL_RESCAN_INTERVAL_S
    && f.fsWatcherEnabled == CANONICAL_FS_WATCHER_ENABLED
    && f.hashers == CANONICAL_HASHERS
  }

  ghost predicate Holds(d: Desired, w: World, g: Goal)
    requires Wants(d, g)
  {
    match g
    case PeerKnown(dev) => HasDevice(w.cfg.devices, dev)
    case DevicesMatch(p) =>
      var f := Lookup(w.cfg.folders, d.repos[p].folderID);
      f.Some? && SameDevices(DeviceIDs(f.value.devices, w.host.myID), d.repos[p].shareWith)
    case ScheduleCanonical(p) =>
      var f := Lookup(w.cfg.folders, d.repos[p].folderID);
      f.Some? && IsScheduled(f.value)
    case MarkerThere(p) => MarkerPresent(w.disk, p, FOLDER_MARKER_NAME)
    case IgnoreWritten(p) => ReadIgnore(w.disk, p) == SyncIgnoreFileContent(w.host.table, d.repos[p].ignore)
    case Gone(id) => Lookup(w.cfg.folders, id).None?
  }

  ghost predicate Settled(d: Desired, w: World) {
    forall g :: Wants(d, g) ==> Holds(d, w, g)
  }

  /** The action succeeding makes the goal true. */
  ghost predicate Serves(d: Desired, a: Action, g: Goal)
    requires Wants(d, g)
  {
    match g
    case PeerKnown(dev) => a.AddSyncthingDevice? && a.deviceID == dev
    case DevicesMatch(p) =>
      Adds(d, a, p) || a == UpdateSyncthingFolderDevices(d.repos[p].folderID, d.repos[p].shareWith)
    case ScheduleCanonical(p) => Adds(d, a, p) || a == UpdateSyncthingFolderSchedule(d.repos[p].folderID)
    case MarkerThere(p) => Adds(d, a, p) || a == EnsureFolderMarker(p)
    case IgnoreWritten(p) => a == EnsureIgnoreFile(p, d.repos[p].ignore)
    case Gone(id) => a == RemoveSyncthingFolder(id)
  }

  ghost predicate Adds(d: Desired, a: Action, p: Path)
    requires p in d.repos
  {
    a.AddSyncthingFolder? && a.folderID == d.repos[p].folderID && a.path == p && a.devices == d.repos[p].shareWith
  }

  /** The only way an action of a plan can undo a goal: accepting a folder configures it, and shares it with
      the offering device alone. */
  ghost predicate Undoes(d: Desired, host: Host, a: Action, g: Goal)
    requires Wants(d, g)
  {
    && a.AcceptSubscription?
    && (|| g == Gone(a.folderID)
        || (g.DevicesMatch? && d.repos[g.path].folderID == a.folderID && !SharesAsWanted(d, host, a, g.path)))
  }

  // ---------------------------------------------------------------- the effect of an action on one folder

  lemma AcceptOnConfig(w: World, acc: Action, w': World, x: string)
    requires acc.AcceptSubscription? && Apply(w, acc) == Ok(w')
    ensures
      var refs := FolderDevices([acc.fromDeviceID], w.host.myID);
      var f := Lookup(w.cfg.folders, x);
      Lookup(w'.cfg.folders, x) ==
        if x != acc.folderID then f
        else if f.Some? then Some(Patched(f.value, Managed(acc.title, Target(w.host, acc), refs)))
        else Some(NewFolder(x, acc.title, Target(w.host, acc), refs))
  {
    hide AcceptedDisk, FolderDevices, NewFolder, Patched;
    LookupAfterWrite(w.cfg, w.host.myID, acc.folderID, acc.title, Target(w.host, acc), [acc.fromDeviceID], x);
  }

  /** `AddOrUpdateFolder` on the records. */
  lemma LookupAfterWrite(cfg: Config, myID: string, id: string, title: string, path: Path, ids: seq<string>, x: string)
    ensures
      var refs, f := FolderDevices(ids, myID), Lookup(cfg.folders, x);
      Lookup(WithFolder(cfg, myID, id, title, path, ids).folders, x) ==
        if x != id then f
        else if f.Some? then Some(Patched(f.value, Managed(title, path, refs)))
        else Some(NewFolder(x, title, path, refs))
  {
    var refs := FolderDevices(ids, myID);
    LookupAfterUpdate(cfg.folders, id, Managed(title, path, refs), x);
    LookupAfterAppend(cfg.folders, NewFolder(id, title, path, refs), x);
  }

  lemma LookupAfterPatch(cfg: Config, id: string, p: Patch, x: string)
    requires WithPatch(cfg, id, p).Ok?
    ensures
      var f := Lookup(cfg.folders, x);
      && (x == id ==> f.Some?)
      && Lookup(WithPatch(cfg, id, p).value.folders, x) == if x == id then Some(Patched(f.value, p)) else f
  {
    LookupAfterUpdate(cfg.folders, id, p, x);
  }

  /** How an action changes the record looked up under one ID. */
  lemma LookupAfter(w: World, a: Action, w': World, x: string)
    requires Effect(w, a, w')
    ensures
      var f, f' := Lookup(w.cfg.folders, x), Lookup(w'.cfg.folders, x);
      || f' == f
      || (a == RemoveSyncthingFolder(x) && f'.None?)
      || (a.AddSyncthingFolder? && a.folderID == x && f'.Some?
          && f' == Some(
               if f.Some? then Patched(f.value, Managed(FolderTitle(a), a.path, FolderDevices(a.devices, w.host.myID)))
               else NewFolder(x, FolderTitle(a), a.path, FolderDevices(a.devices, w.host.myID))))
      || (f.Some? && a == UpdateSyncthingFolderSchedule(x) && f' == Some(Scheduled(f.value)))
      || (f.Some? && a.UpdateSyncthingFolderDevices? && a.folderID == x
          && f' == Some(f.value.(devices := FolderDevices(a.devices, w.host.myID))))
      || (f.Some? && f'.Some? && f' == Some(f.value.(paused := f'.value.paused)))
      || (a.AcceptSubscription? && a.folderID == x && f'.Some?
          && var refs := FolderDevices([a.fromDeviceID], w.host.myID);
             f' == Some(
               if f.Some? then Patched(f.value, Managed(a.title, Target(w.host, a), refs))
               else NewFolder(x, a.title, Target(w.host, a), refs)))
  {
    if Apply(w, a) == Ok(w') {
      hide AcceptedDisk, WithMarker, WithFolder, WithPatch, FolderDevices, WithDevice, SyncIgnoreFileContent,
           WithIgnore;
      match a
      case AddSyncthingFolder(id, path, devices, _) =>
        LookupAfterWrite(w.cfg, w.host.myID, id, FolderTitle(a), path, devices, x);
      case UpdateSyncthingFolderDevices(id, devices) =>
        LookupAfterPatch(w.cfg, id, SetDevices(FolderDevices(devices, w.host.myID)), x);
      case UpdateSyncthingFolderSchedule(id) => LookupAfterPatch(w.cfg, id, Schedule, x);
      case PauseSyncthingFolder(id) => LookupAfterPatch(w.cfg, id, SetPaused(true), x);
      case UnpauseSyncthingFolder(id) => LookupAfterPatch(w.cfg, id, SetPaused(false), x);
      case RemoveSyncthingFolder(id) => LookupAfterRemove(w.cfg.folders, id, x);
      case AcceptSubscription(_, _, _, _, _) => AcceptOnConfig(w, a, w', x);
      case _ =>
    }
  }

  lemma {:induction false} WrittenDevices(ids: seq<string>, myID: string)
    requires "" !in ids && myID !in ids
    ensures DeviceIDs(FolderDevices(ids, myID), myID) == ids
  {
    if ids != [] {
      WrittenDevices(ids[1..], myID);
      assert FolderDevices(ids, myID)[1..] == FolderDevices(ids[1..], myID);
    }
  }

  lemma WithFolderStaysDistinct(cfg: Config, myID: string, id: string, title: string, path: Path, ids: seq<string>)
    requires DistinctIds(cfg.folders)
    ensures DistinctIds(WithFolder(cfg, myID, id, title, path, ids).folders)
  {
    UpdateKeepsIds(cfg.folders, id, Managed(title, path, FolderDevices(ids, myID)));
  }

  /** No action, accepted subscriptions included, configures one folder ID twice. */
  lemma StaysDistinct(w: World, a: Action, w': World)
    requires Effect(w, a, w') && DistinctIds(w.cfg.folders)
    ensures DistinctIds(w'.cfg.folders)
  {
    if Apply(w, a) == Ok(w') {
      hide AcceptedDisk, WithMarker;
      var fs, my := w.cfg.folders, w.host.myID;
      match a
      case AddSyncthingFolder(id, path, devices, _) =>
        WithFolderStaysDistinct(w.cfg, my, id, FolderTitle(a), path, devices);
      case AcceptSubscription(id, title, path, from, _) =>
        WithFolderStaysDistinct(w.cfg, my, id, title, Target(w.host, a), [from]);
      case UpdateSyncthingFolderDevices(id, devices) => UpdateKeepsIds(fs, id, SetDevices(FolderDevices(devices, my)));
      case UpdateSyncthingFolderSchedule(id) => UpdateKeepsIds(fs, id, Schedule);
      case PauseSyncthingFolder(id) => UpdateKeepsIds(fs, id, SetPaused(true));
      case UnpauseSyncthingFolder(id) => UpdateKeepsIds(fs, id, SetPaused(false));
      case RemoveSyncthingFolder(id) => RemoveKeepsDistinct(fs, id);
      case _ =>
    }
  }

  /** One folder's path and marker name stay as desired, unless it is accepted elsewhere. */
  lemma PathStays(d: Desired, w: World, a: Action, w': World, p: Path)
    requires Reachable(d, w.host) && Consistent(d, a) && Effect(w, a, w')
    requires p in d.repos && d.repos[p].folderID != "" && KeepsPath(d, w.host, a, p) && PathAgrees(d, w, p)
    ensures PathAgrees(d, w', p)
  {
    hide Effect;
    LookupAfter(w, a, w', d.repos[p].folderID);
  }

  /** Compatibility survives every action of every plan for `d`, successful or not, that accepts no desired
      folder away from its path. */
  lemma StaysCompatible(d: Desired, w: World, a: Action, w': World)
    requires Compatible(d, w) && Consistent(d, a) && Effect(w, a, w') && InPlace(d, w.host, a)
    ensures Compatible(d, w') && w'.host == w.host
  {
    EffectKeepsHost(w, a, w');
    StaysDistinct(w, a, w');
    hide Effect, Consistent, PathAgrees;
    forall p | p in d.repos && d.repos[p].folderID != "" ensures PathAgrees(d, w', p) {
      PathStays(d, w, a, w', p);
    }
  }

  // ---------------------------------------------------------------- goals stay met

  lemma PeerStaysKnown(w: World, a: Action, w': World, dev: string)
    requires Effect(w, a, w') && HasDevice(w.cfg.devices, dev)
    ensures HasDevice(w'.cfg.devices, dev)
  {
    hide WithFolder, WithMarker, AcceptedDisk, WithPatch;
    if a.AddSyncthingDevice? {
      DevicesSurvive(w.cfg.devices, a.deviceID, a.name, dev);
    } else {
      DevicesUntouched(w, a, w');
    }
  }

  lemma DevicesUntouched(w: World, a: Action, w': World)
    requires Effect(w, a, w') && !a.AddSyncthingDevice?
    ensures w'.cfg.devices == w.cfg.devices
  {
    hide WithMarker, AcceptedDisk, Lookup, UpdateFirst;
  }

  lemma GoneStaysGone(d: Desired, w: World, a: Action, w': World, id: string)
    requires Consistent(d, a) && Effect(w, a, w') && !(a.AcceptSubscription? && a.folderID == id)
    requires id !in DesiredIDs(d) && Lookup(w.cfg.folders, id).None?
    ensures Lookup(w'.cfg.folders, id).None?
  {
    LookupAfter(w, a, w', id);
    hide Effect;
  }

  lemma FolderStaysMatched(d: Desired, w: World, a: Action, w': World, p: Path)
    requires Reachable(d, w.host) && Consistent(d, a) && Effect(w, a, w')
    requires Wants(d, DevicesMatch(p)) && Wants(d, ScheduleCanonical(p))
    ensures Holds(d, w, DevicesMatch(p)) && !Undoes(d, w.host, a, DevicesMatch(p)) ==> Holds(d, w', DevicesMatch(p))
    ensures Holds(d, w, ScheduleCanonical(p)) ==> Holds(d, w', ScheduleCanonical(p))
  {
    var r := d.repos[p];
    LookupAfter(w, a, w', r.folderID);
    EffectKeepsHost(w, a, w');
    hide Effect;
    WrittenDevices(r.shareWith, w.host.myID);
    if a.AddSyncthingFolder? && a.folderID == r.folderID { assert a.path == p; }
    if a.UpdateSyncthingFolderDevices? && a.folderID == r.folderID {
      var q :| q in d.repos && d.repos[q].folderID == r.folderID && a.devices == d.repos[q].shareWith;
      assert q == p;
    }
  }

  /** Whatever an action of the plan does, including failing half way, no met goal is undone but by an
      acceptance of its folder. */
  lemma GoalStable(d: Desired, w: World, a: Action, w': World, g: Goal)
    requires Reachable(d, w.host) && Consistent(d, a) && Effect(w, a, w')
    requires Wants(d, g) && Holds(d, w, g) && !Undoes(d, w.host, a, g)
    ensures Holds(d, w', g)
  {
    EffectKeepsHost(w, a, w');
    hide Effect, Apply, SyncIgnoreFileContent, Lookup, Reachable, Consistent, MarkerPresent, ReadIgnore, SameDevices,
         DeviceIDs;
    match g
    case PeerKnown(dev) => PeerStaysKnown(w, a, w', dev);
    case Gone(id) => GoneStaysGone(d, w, a, w', id);
    case DevicesMatch(p) => FolderStaysMatched(d, w, a, w', p);
    case ScheduleCanonical(p) => FolderStaysMatched(d, w, a, w', p);
    case MarkerThere(p) => MarkerStays(w, a, w', p);
    case IgnoreWritten(p) => IgnoreStaysWritten(d, w, a, w', p);
  }

  lemma MarkerStays(w: World, a: Action, w': World, p: Path)
    requires Effect(w, a, w') && MarkerPresent(w.disk, p, FOLDER_MARKER_NAME)
    ensures MarkerPresent(w'.disk, p, FOLDER_MARKER_NAME)
  {
    EffectKeeps(w, a, w', p);
    hide Effect;
  }

  lemma IgnoreStaysWritten(d: Desired, w: World, a: Action, w': World, p: Path)
    requires Consistent(d, a) && Effect(w, a, w') && p in d.repos
    requires ReadIgnore(w.disk, p) == SyncIgnoreFileContent(w.host.table, d.repos[p].ignore)
    ensures ReadIgnore(w'.disk, p) == SyncIgnoreFileContent(w.host.table, d.repos[p].ignore)
  {
    EffectKeeps(w, a, w', p);
    hide Effect, Apply, SyncIgnoreFileContent, ReadIgnore, Kept;
  }

  // ---------------------------------------------------------------- goals get met

  lemma GoalServed(d: Desired, w: World, a: Action, w': World, g: Goal)
    requires Reachable(d, w.host) && Wants(d, g) && Serves(d, a, g)
    requires Apply(w, a) == Ok(w')
    ensures Holds(d, w', g)
  {
    EffectKeepsHost(w, a, w');
    hide Apply, Effect, Lookup, WithoutID, SyncIgnoreFileContent, ReadIgnore, MarkerPresent, Reachable;
    match g
    case PeerKnown(dev) => PeerServed(w, a, w');
    case Gone(id) => GoneServed(w, a, w');
    case IgnoreWritten(p) => IgnoreServed(w, a, w');
    case MarkerThere(p) => MarkerServed(w, a, w', p);
    case DevicesMatch(p) => FolderServed(d, w, a, w', p);
    case ScheduleCanonical(p) => FolderServed(d, w, a, w', p);
  }

  lemma PeerServed(w: World, a: Action, w': World)
    requires a.AddSyncthingDevice? && Apply(w, a) == Ok(w')
    ensures HasDevice(w'.cfg.devices, a.deviceID)
  {
    AddDeviceKeepsOthers(w.cfg.devices, a.deviceID, a.name);
  }

  lemma GoneServed(w: World, a: Action, w': World)
    requires a.RemoveSyncthingFolder? && Apply(w, a) == Ok(w')
    ensures Lookup(w'.cfg.folders, a.folderID).None?
  {
    LookupAfterRemove(w.cfg.folders, a.folderID, a.folderID);
  }

  lemma MarkerServed(w: World, a: Action, w': World, p: Path)
    requires (a.AddSyncthingFolder? && a.path == p) || a == EnsureFolderMarker(p)
    requires Apply(w, a) == Ok(w')
    ensures MarkerPresent(w'.disk, p, FOLDER_MARKER_NAME)
  {
    hide WithFolder;
  }

  lemma IgnoreServed(w: World, a: Action, w': World)
    requires a.EnsureIgnoreFile? && Apply(w, a) == Ok(w')
    ensures ReadIgnore(w'.disk, a.repoPath) == SyncIgnoreFileContent(w.host.table, a.patterns)
  {
    IgnoreKeeps(w.disk, a.repoPath, SyncIgnoreFileContent(w.host.table, a.patterns), a.repoPath);
  }

  /** The record under the action's own ID after a folder action succeeded. */
  lemma RecordServed(w: World, a: Action, w': World)
    requires Apply(w, a) == Ok(w')
    requires a.AddSyncthingFolder? || a.UpdateSyncthingFolderDevices? || a.UpdateSyncthingFolderSchedule?
    ensures
      var f := Lookup(w'.cfg.folders, a.folderID);
      && f.Some?
      && (!a.UpdateSyncthingFolderDevices? ==> IsScheduled(f.value))
      && (!a.UpdateSyncthingFolderSchedule? ==> f.value.devices == FolderDevices(a.devices, w.host.myID))
  {
    match a
    case AddSyncthingFolder(id, path, devices, _) =>
      var refs := FolderDevices(devices, w.host.myID);
      LookupAfterUpdate(w.cfg.folders, id, Managed(FolderTitle(a), path, refs), id);
      LookupAfterAppend(w.cfg.folders, NewFolder(id, FolderTitle(a), path, refs), id);
    case UpdateSyncthingFolderDevices(id, devices) =>
      LookupAfterUpdate(w.cfg.folders, id, SetDevices(FolderDevices(devices, w.host.myID)), id);
    case UpdateSyncthingFolderSchedule(id) => LookupAfterUpdate(w.cfg.folders, id, Schedule, id);
  }

  lemma FolderServed(d: Desired, w: World, a: Action, w': World, p: Path)
    requires Reachable(d, w.host) && Apply(w, a) == Ok(w')
    requires Wants(d, DevicesMatch(p)) && Wants(d, ScheduleCanonical(p))
    ensures Serves(d, a, DevicesMatch(p)) ==> Holds(d, w', DevicesMatch(p))
    ensures Serves(d, a, ScheduleCanonical(p)) ==> Holds(d, w', ScheduleCanonical(p))
  {
    if Serves(d, a, DevicesMatch(p)) || Serves(d, a, ScheduleCanonical(p)) {
      WrittenDevices(d.repos[p].shareWith, w.host.myID);
      RecordServed(w, a, w');
    }
  }
}
