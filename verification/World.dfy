/** The state a reconcile pass changes, the actions of internal/reconcile/types.go, and what each
    handler of internal/reconcile/applier.go does to that state when it succeeds. */
module World {
  import opened Base
  import opened Ignore
  import opened Syncthing

  // ---------------------------------------------------------------- the disk

  /** A git-backup interval; `Every` holds an already parsed duration, zero when unparsable. */
  datatype Interval = Unset | Hourly | Daily | Weekly | Monthly | Every(ns: int)

  /** `.dotkeeper.toml`. */
  datatype RepoConfig = RepoConfig(
    folderID: string, ignore: seq<string>, shareWith: seq<string>, canonical: string,
    policy: string, idleSeconds: nat, interval: Interval, skipSlots: seq<nat>)

  datatype RepoFile = NoFile | Malformed | Parsed(config: RepoConfig)

  /** `markers` maps each name at the folder root that could serve as Syncthing's marker to
      whether it is a directory. */
  datatype Node =
    | PlainFile
    | Directory(markers: map<string, bool>, ignore: Option<string>, repoFile: RepoFile)

  type Disk = map<Path, Node>

  const EMPTY_DIRECTORY: Node := Directory(map[], None, NoFile)

  predicate IsDir(disk: Disk, p: Path) {
    p in disk && disk[p].Directory?
  }

  predicate MarkerPresent(disk: Disk, p: Path, name: string) {
    IsDir(disk, p) && name in disk[p].markers && disk[p].markers[name]
  }

  function ReadIgnore(disk: Disk, p: Path): string {
    if IsDir(disk, p) && disk[p].ignore.Some? then disk[p].ignore.value else ""
  }

  /** `os.Mkdir` of the marker unless it is already a directory. */
  function WithMarker(disk: Disk, p: Path): Result<Disk> {
    if p == [] || !IsDir(disk, p) then Err
    else if FOLDER_MARKER_NAME in disk[p].markers then
      if disk[p].markers[FOLDER_MARKER_NAME] then Ok(disk) else Err
    else Ok(disk[p := disk[p].(markers := disk[p].markers[FOLDER_MARKER_NAME := true])])
  }

  function WithIgnore(disk: Disk, p: Path, content: string): Result<Disk> {
    if p == [] || !IsDir(disk, p) then Err
    else Ok(disk[p := disk[p].(ignore := Some(content))])
  }

  ghost function Ancestors(p: Path): set<Path> {
    set k | 1 <= k <= |p| :: p[..k]
  }

  /** `os.MkdirAll`. */
  ghost function WithDirs(disk: Disk, p: Path): Result<Disk> {
    if exists q :: q in Ancestors(p) && q in disk && disk[q].PlainFile? then Err
    else Ok(disk + map q | q in Ancestors(p) && q !in disk :: EMPTY_DIRECTORY)
  }

  // ---------------------------------------------------------------- actions

  datatype Action =
    | AddSyncthingDevice(name: string, deviceID: string)
    | AddSyncthingFolder(folderID: string, path: Path, devices: seq<string>, title: string)
    | UpdateSyncthingFolderDevices(folderID: string, devices: seq<string>)
    | UpdateSyncthingFolderSchedule(folderID: string)
    | EnsureFolderMarker(repoPath: Path)
    | PauseSyncthingFolder(folderID: string)
    | UnpauseSyncthingFolder(folderID: string)
    | RescanFolderNow(folderID: string, path: Path, reason: string)
    | EnsureIgnoreFile(repoPath: Path, patterns: seq<string>)
    | AcceptSubscription(folderID: string, title: string, path: Path, fromDeviceID: string, fromPeerName: string)
    | RemoveSyncthingFolder(folderID: string)
    | GitCommitDirty(repoPath: Path, message: string)
    | GitPushRepo(repoPath: Path)

  /** The actions that shape the Syncthing configuration and the managed files, as opposed to
      pausing, rescanning and git backups, which recur by design. */
  predicate Structural(a: Action) {
    !(a.PauseSyncthingFolder? || a.UnpauseSyncthingFolder? || a.RescanFolderNow?
      || a.GitCommitDirty? || a.GitPushRepo?)
  }

  // ---------------------------------------------------------------- applying them

  datatype Host = Host(myID: string, home: Path, table: IgnoreTable)

  datatype World = World(host: Host, cfg: Config, disk: Disk)

  /** A leading `~` component stands for the home directory. */
  function Expand(home: Path, p: Path): Path {
    if p != [] && p[0] == "~" then home + p[1..] else p
  }

  /** The directory an acceptance is for. */
  function Target(host: Host, acc: Action): Path
    requires acc.AcceptSubscription?
  {
    Expand(host.home, acc.path)
  }

  predicate LooksLikeGitURL(title: string) {
    '/' in title && !("dk:" <= title)
  }

  function AcceptedConfig(a: Action): RepoConfig
    requires a.AcceptSubscription?
  {
    RepoConfig(a.folderID, [], [a.fromDeviceID], if LooksLikeGitURL(a.title) then a.title else "",
               "", 0, Unset, [])
  }

  /** An existing `.dotkeeper.toml` is never overwritten. */
  function WithAcceptedConfig(disk: Disk, p: Path, a: Action): Disk
    requires a.AcceptSubscription? && IsDir(disk, p)
  {
    if disk[p].repoFile.NoFile? then disk[p := disk[p].(repoFile := Parsed(AcceptedConfig(a)))] else disk
  }

  ghost function AcceptedDisk(host: Host, disk: Disk, a: Action): Result<Disk>
    requires a.AcceptSubscription?
  {
    var p := Target(host, a);
    if a.path == [] then Err
    else match WithDirs(disk, p)
      case Err => Err
      case Ok(made) => if IsDir(made, p) then WithMarker(WithAcceptedConfig(made, p, a), p) else Err
  }

  /** A folder without a canonical identity is titled by its ID. */
  function FolderTitle(a: Action): string
    requires a.AddSyncthingFolder?
  {
    if a.title == "" then a.folderID else a.title
  }

  function OnConfig(w: World, r: Result<Config>): Result<World> {
    match r case Err => Err case Ok(cfg) => Ok(w.(cfg := cfg))
  }

  /** `RealApplier.Apply` when every REST request, file operation and command it issues succeeds. */
  ghost function Apply(w: World, a: Action): Result<World> {
    match a
    case AddSyncthingDevice(name, dev) =>
      Ok(w.(cfg := w.cfg.(devices := WithDevice(w.cfg.devices, dev, name))))
    case AddSyncthingFolder(id, path, devices, _) => (
      match WithMarker(w.disk, path)
      case Err => Err
      case Ok(disk) =>
        Ok(w.(disk := disk,
              cfg := WithFolder(w.cfg, w.host.myID, id, FolderTitle(a), path, devices))))
    case UpdateSyncthingFolderDevices(id, devices) =>
      OnConfig(w, WithPatch(w.cfg, id, SetDevices(FolderDevices(devices, w.host.myID))))
    case UpdateSyncthingFolderSchedule(id) => OnConfig(w, WithPatch(w.cfg, id, Schedule))
    case EnsureFolderMarker(path) => (
      match WithMarker(w.disk, path) case Err => Err case Ok(disk) => Ok(w.(disk := disk)))
    case PauseSyncthingFolder(id) => OnConfig(w, WithPatch(w.cfg, id, SetPaused(true)))
    case UnpauseSyncthingFolder(id) => OnConfig(w, WithPatch(w.cfg, id, SetPaused(false)))
    case RescanFolderNow(id, _, _) => if id == "" then Err else Ok(w)
    case EnsureIgnoreFile(path, patterns) => (
      match WithIgnore(w.disk, path, SyncIgnoreFileContent(w.host.table, patterns))
      case Err => Err
      case Ok(disk) => Ok(w.(disk := disk)))
    case AcceptSubscription(id, title, path, from, _) => (
      match AcceptedDisk(w.host, w.disk, a)
      case Err => Err
      case Ok(disk) =>
        Ok(w.(disk := disk,
              cfg := WithFolder(w.cfg, w.host.myID, id, title, Target(w.host, a), [from]))))
    case RemoveSyncthingFolder(id) =>
      Ok(w.(cfg := w.cfg.(folders := WithoutID(w.cfg.folders, id))))
    case GitCommitDirty(_, _) => Ok(w)
    case GitPushRepo(_) => Ok(w)
  }

  /** Every state a handler can leave behind, whether or not it reports an error: nothing done,
      everything done, or, for the handlers that touch the disk before Syncthing, only the disk. */
  ghost predicate Effect(w: World, a: Action, w': World) {
    || w' == w
    || Apply(w, a) == Ok(w')
    || (a.AddSyncthingFolder? && Ok(w'.disk) == WithMarker(w.disk, a.path) && w' == w.(disk := w'.disk))
    || (a.AcceptSubscription? && w' == w.(disk := w'.disk) && AcceptPartial(w.host, w.disk, a, w'.disk))
  }

  /** The stages of an acceptance on disk: some of the directories, all of them, the repository file,
      the marker. */
  ghost predicate AcceptPartial(host: Host, disk: Disk, a: Action, disk': Disk)
    requires a.AcceptSubscription?
  {
    var p := Target(host, a);
    var made := WithDirs(disk, p);
    || (exists k :: 0 <= k <= |p| && WithDirs(disk, p[..k]) == Ok(disk'))
    || (made.Ok? && IsDir(made.value, p) && disk' == WithAcceptedConfig(made.value, p, a))
    || AcceptedDisk(host, disk, a) == Ok(disk')
  }

  lemma EffectKeepsHost(w: World, a: Action, w': World)
    requires Effect(w, a, w')
    ensures w'.host == w.host
  {}

  // ---------------------------------------------------------------- what no action does to the disk

  /** What became of one node: files stay files and directories directories, markers are only added,
      and a new node is a directory. */
  ghost predicate Kept(disk: Disk, disk': Disk, p: Path) {
    && (p in disk ==> p in disk' && disk'[p].Directory? == disk[p].Directory?)
    && (IsDir(disk, p) ==>
          forall m :: m in disk[p].markers ==> m in disk'[p].markers && disk'[p].markers[m] == disk[p].markers[m])
    && (IsDir(disk', p) && p in disk ==>
          forall m :: m in disk'[p].markers && m !in disk[p].markers ==> disk'[p].markers[m])
    && (p !in disk && p in disk' ==> disk'[p].Directory? && forall m :: m in disk'[p].markers ==> disk'[p].markers[m])
  }

  function RepoFileAt(disk: Disk, p: Path): RepoFile {
    if IsDir(disk, p) then disk[p].repoFile else NoFile
  }

  lemma DirsKeep(disk: Disk, q: Path, p: Path)
    requires WithDirs(disk, q).Ok?
    ensures
      var disk' := WithDirs(disk, q).value;
      && Kept(disk, disk', p) && ReadIgnore(disk', p) == ReadIgnore(disk, p)
      && RepoFileAt(disk', p) == RepoFileAt(disk, p)
      && (p in disk ==> disk'[p] == disk[p]) && (p !in disk && p in disk' ==> disk'[p] == EMPTY_DIRECTORY)
  {}

  lemma MarkerKeeps(disk: Disk, q: Path, p: Path)
    requires WithMarker(disk, q).Ok?
    ensures
      var disk' := WithMarker(disk, q).value;
      && Kept(disk, disk', p) && ReadIgnore(disk', p) == ReadIgnore(disk, p)
      && RepoFileAt(disk', p) == RepoFileAt(disk, p)
  {}

  lemma IgnoreKeeps(disk: Disk, q: Path, content: string, p: Path)
    requires WithIgnore(disk, q, content).Ok?
    ensures
      var disk' := WithIgnore(disk, q, content).value;
      && Kept(disk, disk', p) && ReadIgnore(disk', p) == (if p == q then content else ReadIgnore(disk, p))
      && RepoFileAt(disk', p) == RepoFileAt(disk, p)
  {}

  lemma ConfigKeeps(disk: Disk, q: Path, a: Action, p: Path)
    requires a.AcceptSubscription? && IsDir(disk, q)
    ensures
      var disk' := WithAcceptedConfig(disk, q, a);
      && Kept(disk, disk', p) && ReadIgnore(disk', p) == ReadIgnore(disk, p)
      && RepoFileAt(disk', p) ==
         if p == q && RepoFileAt(disk, p).NoFile? then Parsed(AcceptedConfig(a)) else RepoFileAt(disk, p)
  {}

  lemma KeptTwice(a: Disk, b: Disk, c: Disk, p: Path)
    requires Kept(a, b, p) && Kept(b, c, p)
    ensures Kept(a, c, p)
  {}

  /** What an acceptance, complete or not, does to one node. */
  lemma AcceptKeeps(host: Host, disk: Disk, a: Action, disk': Disk, p: Path)
    requires a.AcceptSubscription? && AcceptPartial(host, disk, a, disk')
    ensures Kept(disk, disk', p) && ReadIgnore(disk', p) == ReadIgnore(disk, p)
    ensures RepoFileAt(disk', p) == RepoFileAt(disk, p)
         || (p == Target(host, a) && RepoFileAt(disk, p).NoFile? && RepoFileAt(disk', p) == Parsed(AcceptedConfig(a)))
  {
    hide Kept, ReadIgnore, RepoFileAt, WithDirs, WithMarker, WithAcceptedConfig;
    var t := Target(host, a);
    if k :| 0 <= k <= |t| && WithDirs(disk, t[..k]) == Ok(disk') {
      DirsKeep(disk, t[..k], p);
    } else {
      var made := WithDirs(disk, t).value;
      DirsKeep(disk, t, p);
      ConfigKeeps(made, t, a, p);
      var claimed := WithAcceptedConfig(made, t, a);
      KeptTwice(disk, made, claimed, p);
      if disk' != claimed {
        MarkerKeeps(claimed, t, p);
        KeptTwice(disk, claimed, disk', p);
      }
    }
  }

  /** A completed acceptance leaves the marker, and a repository file where there was none. */
  lemma AcceptedIsMarked(host: Host, disk: Disk, a: Action)
    requires a.AcceptSubscription? && AcceptedDisk(host, disk, a).Ok?
    ensures
      var disk', t := AcceptedDisk(host, disk, a).value, Target(host, a);
      && MarkerPresent(disk', t, FOLDER_MARKER_NAME)
      && RepoFileAt(disk', t) ==
         if RepoFileAt(disk, t).NoFile? then Parsed(AcceptedConfig(a)) else RepoFileAt(disk, t)
  {
    var t := Target(host, a);
    var made := WithDirs(disk, t).value;
    DirsKeep(disk, t, t);
    ConfigKeeps(made, t, a, t);
    MarkerKeeps(WithAcceptedConfig(made, t, a), t, t);
  }

  /** What any effect of any action does to one node. */
  lemma EffectKeeps(w: World, a: Action, w': World, p: Path)
    requires Effect(w, a, w')
    ensures Kept(w.disk, w'.disk, p)
    ensures ReadIgnore(w'.disk, p) == ReadIgnore(w.disk, p)
         || (a.EnsureIgnoreFile? && a.repoPath == p && Apply(w, a) == Ok(w')
             && ReadIgnore(w'.disk, p) == SyncIgnoreFileContent(w.host.table, a.patterns))
    ensures RepoFileAt(w'.disk, p) == RepoFileAt(w.disk, p)
         || (a.AcceptSubscription? && p == Target(w.host, a) && RepoFileAt(w.disk, p).NoFile?
             && RepoFileAt(w'.disk, p) == Parsed(AcceptedConfig(a)))
  {
    hide ReadIgnore, RepoFileAt, WithDirs, WithMarker, WithAcceptedConfig, WithIgnore, SyncIgnoreFileContent,
         AcceptPartial;
    if w'.disk != w.disk {
      hide Kept;
      match a
      case AcceptSubscription(_, _, _, _, _) =>
        if Apply(w, a) == Ok(w') { StagesIncludeAll(w.host, w.disk, a, w'.disk); }
        AcceptKeeps(w.host, w.disk, a, w'.disk, p);
      case AddSyncthingFolder(_, q, _, _) => MarkerKeeps(w.disk, q, p);
      case EnsureFolderMarker(q) => MarkerKeeps(w.disk, q, p);
      case EnsureIgnoreFile(q, patterns) => IgnoreKeeps(w.disk, q, SyncIgnoreFileContent(w.host.table, patterns), p);
      case _ =>
    }
  }

  lemma StagesIncludeAll(host: Host, disk: Disk, a: Action, disk': Disk)
    requires a.AcceptSubscription? && AcceptedDisk(host, disk, a) == Ok(disk')
    ensures AcceptPartial(host, disk, a, disk')
  {}
}
