/** What each handler of internal/reconcile/applier.go promises when it succeeds, field by field: the record, node or
    device it is about afterwards, and that everything else is as it was. */
module Handlers {
  import opened Base
  import opened Ignore
  import opened Syncthing
  import opened World
  import opened Convergence

  /** Of the configuration only the folder's record changed. */
  ghost predicate OnlyFolder(cfg: Config, cfg': Config, id: string) {
    && cfg' == cfg.(folders := cfg'.folders)
    && forall x :: x != id ==> Lookup(cfg'.folders, x) == Lookup(cfg.folders, x)
  }

  /** The folder's record went from `f` to `g`. */
  ghost predicate Record(cfg: Config, cfg': Config, id: string, f: Folder, g: Folder) {
    OnlyFolder(cfg, cfg', id) && Lookup(cfg.folders, id) == Some(f) && Lookup(cfg'.folders, id) == Some(g)
  }

  /** The folder's record is written: as managed where there was one, all its other keys kept, or a new one. */
  ghost predicate Written(cfg: Config, cfg': Config, id: string, title: string, path: Path, refs: seq<FolderDevice>) {
    && OnlyFolder(cfg, cfg', id)
    && Lookup(cfg'.folders, id).Some?
    && var g := Lookup(cfg'.folders, id).value;
    && g.title == title && g.path == path && g.devices == refs && g.markerName == ".dkfolder"
    && g.rescanIntervalS == 0 && g.fsWatcherEnabled && g.fsWatcherDelayS == 1 && g.hashers == 1
    && match Lookup(cfg.folders, id)
       case Some(f) =>
         && g.kind == f.kind && g.ignorePerms == f.ignorePerms && g.autoNormalize == f.autoNormalize
         && g.paused == f.paused && g.user == f.user
       case None =>
         g.kind == "sendreceive" && !g.ignorePerms && g.autoNormalize && !g.paused && g.user == map[]
  }

  /** Of the disk only the node at `p` changed. */
  ghost predicate OnlyNode(disk: Disk, disk': Disk, p: Path) {
    disk'.Keys == disk.Keys && forall q :: q in disk && q != p ==> disk'[q] == disk[q]
  }

  /** The directory has its marker, and is otherwise as it was. */
  ghost predicate Marked(disk: Disk, disk': Disk, p: Path) {
    && IsDir(disk, p) && OnlyNode(disk, disk', p) && IsDir(disk', p)
    && disk'[p].ignore == disk[p].ignore && disk'[p].repoFile == disk[p].repoFile
    && disk'[p].markers == disk[p].markers[".dkfolder" := true]
  }

  /** The directory is there with all above it; it has the marker, and a repository file that was not there before names
      the folder, its title as canonical identity if it looks like one, and the offering device. */
  ghost predicate Provisions(disk: Disk, disk': Disk, p: Path, id: string, title: string, from: string) {
    && IsDir(disk', p) && disk'.Keys == disk.Keys + Ancestors(p)
    && (forall q :: q in disk && q != p ==> disk'[q] == disk[q])
    && (forall q :: q in disk' && q !in disk && q != p ==> disk'[q] == Directory(map[], None, NoFile))
    && disk'[p].ignore == (if p in disk && disk[p].Directory? then disk[p].ignore else None)
    && disk'[p].markers == (if p in disk && disk[p].Directory? then disk[p].markers else map[])[".dkfolder" := true]
    && disk'[p].repoFile ==
       if p in disk && disk[p].Directory? && !disk[p].repoFile.NoFile? then disk[p].repoFile
       else Parsed(RepoConfig(id, [], [from], if '/' in title && title[..if |title| < 3 then |title| else 3] != "dk:"
                                             then title else "", "", 0, Unset, []))
  }

  /** What success means, action by action. */
  ghost predicate Done(w: World, a: Action, w': World) {
    && w'.host == w.host
    && match a
       case AddSyncthingDevice(name, dev) =>
         && w'.disk == w.disk && w'.cfg == w.cfg.(devices := w'.cfg.devices)
         && w'.cfg.devices == WithDevice(w.cfg.devices, dev, name)
       case AddSyncthingFolder(id, path, devices, title) =>
         && Written(w.cfg, w'.cfg, id, if title != "" then title else id, path, FolderDevices(devices, w.host.myID))
         && Marked(w.disk, w'.disk, path)
       case UpdateSyncthingFolderDevices(id, devices) =>
         && w'.disk == w.disk
         && exists f: Folder :: Record(w.cfg, w'.cfg, id, f, f.(devices := FolderDevices(devices, w.host.myID)))
       case UpdateSyncthingFolderSchedule(id) =>
         && w'.disk == w.disk
         && exists f: Folder ::
              Record(w.cfg, w'.cfg, id, f,
                     f.(rescanIntervalS := 0, fsWatcherEnabled := true, fsWatcherDelayS := 1, hashers := 1))
       case EnsureFolderMarker(path) => w'.cfg == w.cfg && Marked(w.disk, w'.disk, path)
       case PauseSyncthingFolder(id) =>
         w'.disk == w.disk && exists f: Folder :: Record(w.cfg, w'.cfg, id, f, f.(paused := true))
       case UnpauseSyncthingFolder(id) =>
         w'.disk == w.disk && exists f: Folder :: Record(w.cfg, w'.cfg, id, f, f.(paused := false))
       case RescanFolderNow(_, _, _) => w' == w
       case EnsureIgnoreFile(path, patterns) =>
         && w'.cfg == w.cfg && IsDir(w.disk, path) && OnlyNode(w.disk, w'.disk, path)
         && w'.disk[path] == w.disk[path].(ignore := Some(SyncIgnoreFileContent(w.host.table, patterns)))
       case AcceptSubscription(id, title, path, from, _) =>
         var p := if path != [] && path[0] == "~" then w.host.home + path[1..] else path;
         && Written(w.cfg, w'.cfg, id, title, p, FolderDevices([from], w.host.myID))
         && Provisions(w.disk, w'.disk, p, id, title, from)
       case RemoveSyncthingFolder(id) =>
         w'.disk == w.disk && OnlyFolder(w.cfg, w'.cfg, id) && Lookup(w'.cfg.folders, id) == None
       case GitCommitDirty(_, _) => w' == w
       case GitPushRepo(_) => w' == w
  }

  lemma WritesFolder(cfg: Config, myID: string, id: string, title: string, path: Path, ids: seq<string>)
    ensures Written(cfg, WithFolder(cfg, myID, id, title, path, ids), id, title, path, FolderDevices(ids, myID))
  {
    var cfg' := WithFolder(cfg, myID, id, title, path, ids);
    assert cfg' == cfg.(folders := cfg'.folders);
    forall x ensures x != id ==> Lookup(cfg'.folders, x) == Lookup(cfg.folders, x) {
      LookupAfterWrite(cfg, myID, id, title, path, ids, x);
    }
    LookupAfterWrite(cfg, myID, id, title, path, ids, id);
    hide WithFolder, FolderDevices, Lookup;
  }

  lemma PatchesRecord(cfg: Config, id: string, p: Patch)
    requires WithPatch(cfg, id, p).Ok?
    ensures Lookup(cfg.folders, id).Some?
    ensures
      var f := Lookup(cfg.folders, id).value;
      Record(cfg, WithPatch(cfg, id, p).value, id, f, Patched(f, p))
  {
    var cfg' := WithPatch(cfg, id, p).value;
    assert cfg' == cfg.(folders := cfg'.folders);
    forall x ensures x != id ==> Lookup(cfg'.folders, x) == Lookup(cfg.folders, x) { LookupAfterPatch(cfg, id, p, x); }
    LookupAfterPatch(cfg, id, p, id);
    hide WithPatch, Patched;
  }

  lemma Marks(disk: Disk, p: Path)
    requires WithMarker(disk, p).Ok?
    ensures Marked(disk, WithMarker(disk, p).value, p)
  {
    var m := disk[p].markers;
    assert ".dkfolder" in m && m[".dkfolder"] ==> m[".dkfolder" := true] == m;
  }

  lemma AcceptProvisionsDisk(host: Host, disk: Disk, a: Action)
    requires a.AcceptSubscription? && AcceptedDisk(host, disk, a).Ok?
    ensures Provisions(disk, AcceptedDisk(host, disk, a).value, Target(host, a), a.folderID, a.title, a.fromDeviceID)
  {
    var p := Target(host, a);
    var made := WithDirs(disk, p).value;
    var claimed := WithAcceptedConfig(made, p, a);
    IdentityTitle(a.title);
    Marks(claimed, p);
    DirsMade(disk, p);
    hide WithDirs, Ancestors, WithMarker, LooksLikeGitURL;
  }

  lemma IdentityTitle(title: string)
    ensures LooksLikeGitURL(title) <==> '/' in title && title[..if |title| < 3 then |title| else 3] != "dk:"
  {
    if |title| >= 3 { assert title == title[..3] + title[3..]; }
  }

  lemma DirsMade(disk: Disk, p: Path)
    requires WithDirs(disk, p).Ok?
    ensures
      var made := WithDirs(disk, p).value;
      && made.Keys == disk.Keys + Ancestors(p) && (forall q :: q in disk ==> made[q] == disk[q])
      && forall q :: q in made && q !in disk ==> made[q] == Directory(map[], None, NoFile)
  {}

  lemma RemovesFolder(cfg: Config, id: string)
    ensures OnlyFolder(cfg, cfg.(folders := WithoutID(cfg.folders, id)), id)
    ensures Lookup(WithoutID(cfg.folders, id), id) == None
  {
    forall x ensures Lookup(WithoutID(cfg.folders, id), x) == if x == id then None else Lookup(cfg.folders, x) {
      LookupAfterRemove(cfg.folders, id, x);
    }
    hide WithoutID, Lookup;
  }

  /** Success of a handler means just that. */
  lemma AppliedIsDone(w: World, a: Action, w': World)
    requires Apply(w, a) == Ok(w')
    ensures Done(w, a, w')
  {
    hide WithFolder, WithPatch, WithMarker, WithDevice, WithoutID, AcceptedDisk, Written, Provisions, Marked, Record,
         OnlyFolder, Lookup, SyncIgnoreFileContent, FolderDevices;
    match a
    case AddSyncthingFolder(id, path, devices, _) =>
      WritesFolder(w.cfg, w.host.myID, id, FolderTitle(a), path, devices);
      Marks(w.disk, path);
    case UpdateSyncthingFolderDevices(id, devices) =>
      PatchesRecord(w.cfg, id, SetDevices(FolderDevices(devices, w.host.myID)));
    case UpdateSyncthingFolderSchedule(id) => PatchesRecord(w.cfg, id, Schedule);
    case EnsureFolderMarker(path) => Marks(w.disk, path);
    case PauseSyncthingFolder(id) => PatchesRecord(w.cfg, id, SetPaused(true));
    case UnpauseSyncthingFolder(id) => PatchesRecord(w.cfg, id, SetPaused(false));
    case AcceptSubscription(id, title, path, from, _) =>
      WritesFolder(w.cfg, w.host.myID, id, title, Target(w.host, a), [from]);
      AcceptProvisionsDisk(w.host, w.disk, a);
    case RemoveSyncthingFolder(id) => RemovesFolder(w.cfg, id);
    case _ =>
  }
}
