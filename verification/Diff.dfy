/** internal/reconcile/diff.go: the plan that moves an observed state towards a desired one. */
module Diff {
  import opened Base
  import opened Ignore
  import opened Paths
  import opened Syncthing
  import opened Subscribe
  import opened World

  // ---------------------------------------------------------------- inputs

  datatype RepoDesired = RepoDesired(
    folderID: string, ignore: seq<string>, shareWith: seq<string>, canonical: string,
    commitPolicy: string, idleSeconds: nat, interval: Interval, skipSlots: seq<nat>, machineSlot: nat)

  datatype PeerDesired = PeerDesired(name: string, deviceID: string)

  /** `repos` is keyed by path; the path of an entry is its key. */
  datatype Desired = Desired(
    repos: map<Path, RepoDesired>, peers: seq<PeerDesired>,
    subscriptions: seq<SubscriptionEntry>, defaultMirrorPath: Path)

  datatype FolderObs = FolderObs(
    folderID: string, path: Path, devices: seq<string>, markerDirMissing: bool,
    rescanIntervalS: int, fsWatcherEnabled: bool, hashers: int, paused: bool)

  datatype RepoObs = RepoObs(
    path: Path, headCommit: string, isDirty: bool, lastBackupAt: Option<int>, lastChangeAt: Option<int>,
    ignoreFileContent: string, devWorkflowActive: bool)

  datatype FolderHealth = FolderHealth(filesystemReliable: bool, overflowSeen: bool, watchLimitHit: bool)

  datatype OfferedFolder = OfferedFolder(folderID: string, title: string, fromDeviceID: string)

  datatype Observed = Observed(
    managedFolders: seq<FolderObs>, trackedRepos: seq<RepoObs>, livePeers: seq<string>, connections: set<string>,
    lastPushed: map<Path, string>, lastActivityByPath: Option<map<Path, int>>,
    watchHealthByPath: map<Path, FolderHealth>, sleepWakeSeen: bool,
    lastRescanByPath: map<Path, int>, now: int,
    offeredFolders: seq<OfferedFolder>, peerNameByID: map<string, string>)

  // ---------------------------------------------------------------- decisions about one folder

  const RESCAN_BACKSTOP_RELIABLE: int := 7 * DAY
  const RESCAN_BACKSTOP_UNRELIABLE: int := DAY
  const IDLE_THRESHOLD_FOR_PAUSE: int := DAY
  const RECENT_ACTIVITY_FOR_UNPAUSE: int := MINUTE

  function SmartRescanAction(obs: FolderObs, path: Path, o: Observed): Option<Action> {
    var known := path in o.watchHealthByPath;
    var reliable := known && o.watchHealthByPath[path].filesystemReliable;
    var backstop := if reliable then RESCAN_BACKSTOP_RELIABLE else RESCAN_BACKSTOP_UNRELIABLE;
    if o.sleepWakeSeen then
      Some(RescanFolderNow(obs.folderID, path, "suspend/resume detected"))
    else if known && o.watchHealthByPath[path].overflowSeen then
      Some(RescanFolderNow(obs.folderID, path, "event queue overflow"))
    else if known && o.watchHealthByPath[path].watchLimitHit then
      Some(RescanFolderNow(obs.folderID, path, "watch limit reached"))
    else if path !in o.lastRescanByPath then None
    else if o.now - o.lastRescanByPath[path] >= backstop then
      Some(RescanFolderNow(obs.folderID, path,
                           if reliable then "weekly backstop" else "daily backstop (untrusted filesystem)"))
    else None
  }

  function AutoPauseAction(obs: FolderObs, path: Path, activity: map<Path, int>, now: int): Option<Action> {
    if path !in activity then None
    else if obs.paused then
      if now - activity[path] <= RECENT_ACTIVITY_FOR_UNPAUSE then Some(UnpauseSyncthingFolder(obs.folderID)) else None
    else if now - activity[path] >= IDLE_THRESHOLD_FOR_PAUSE then Some(PauseSyncthingFolder(obs.folderID))
    else None
  }

  predicate FolderScheduleDrifted(obs: FolderObs) {
    || obs.rescanIntervalS != CANONICAL_RESCAN_INTERVAL_S
    || obs.fsWatcherEnabled != CANONICAL_FS_WATCHER_ENABLED
    || obs.hashers != CANONICAL_HASHERS
  }

  // ---------------------------------------------------------------- sections of the plan

  function Emit(a: Option<Action>): seq<Action> {
    if a.Some? then [a.value] else []
  }

  function When(c: bool, a: Action): seq<Action> {
    if c then [a] else []
  }

  function PeerActions(peers: seq<PeerDesired>, live: seq<string>): seq<Action> {
    if peers == [] then []
    else When(peers[0].deviceID != "" && peers[0].deviceID !in live,
              AddSyncthingDevice(peers[0].name, peers[0].deviceID))
         + PeerActions(peers[1..], live)
  }

  /** A later observation of the same ID replaces an earlier one. */
  function LastFolder(fs: seq<FolderObs>, id: string): (r: Option<FolderObs>)
    ensures r.Some? ==> r.value in fs && r.value.folderID == id
    ensures r.None? ==> forall f :: f in fs ==> f.folderID != id
  {
    if fs == [] then None
    else if fs[|fs| - 1].folderID == id then Some(fs[|fs| - 1])
    else LastFolder(fs[..|fs| - 1], id)
  }

  function LastRepo(rs: seq<RepoObs>, p: Path): (r: Option<RepoObs>)
    ensures r.Some? ==> r.value in rs && r.value.path == p
    ensures r.None? ==> forall x :: x in rs ==> x.path != p
  {
    if rs == [] then None
    else if rs[|rs| - 1].path == p then Some(rs[|rs| - 1])
    else LastRepo(rs[..|rs| - 1], p)
  }

  function ObservedIgnore(o: Observed, p: Path): string {
    var r := LastRepo(o.trackedRepos, p);
    if r.Some? then r.value.ignoreFileContent else ""
  }

  function IgnoreActions(table: IgnoreTable, d: Desired, o: Observed, p: Path): seq<Action>
    requires p in d.repos
  {
    When(ObservedIgnore(o, p) != SyncIgnoreFileContent(table, d.repos[p].ignore),
         EnsureIgnoreFile(p, d.repos[p].ignore))
  }

  ghost predicate SameDevices(a: seq<string>, b: seq<string>) {
    multiset(a) == multiset(b)
  }

  ghost function FolderRepairs(obs: FolderObs, r: RepoDesired, p: Path): seq<Action> {
    When(!SameDevices(obs.devices, r.shareWith), UpdateSyncthingFolderDevices(r.folderID, r.shareWith))
    + When(FolderScheduleDrifted(obs), UpdateSyncthingFolderSchedule(r.folderID))
    + When(obs.markerDirMissing, EnsureFolderMarker(p))
  }

  function FolderUpkeep(obs: FolderObs, o: Observed, p: Path): seq<Action> {
    (if o.lastActivityByPath.Some? then Emit(AutoPauseAction(obs, p, o.lastActivityByPath.value, o.now)) else [])
    + (if obs.paused then [] else Emit(SmartRescanAction(obs, p, o)))
  }

  /** Everything emitted for one desired folder. */
  ghost function FolderActions(table: IgnoreTable, d: Desired, o: Observed, p: Path): seq<Action>
    requires p in d.repos
  {
    var r := d.repos[p];
    (match LastFolder(o.managedFolders, r.folderID)
     case None => [AddSyncthingFolder(r.folderID, p, r.shareWith, r.canonical)]
     case Some(obs) => FolderRepairs(obs, r, p) + FolderUpkeep(obs, o, p))
    + IgnoreActions(table, d, o, p)
  }

  function Concat<T>(parts: seq<seq<T>>): seq<T> {
    if parts == [] then [] else parts[0] + Concat(parts[1..])
  }

  ghost function FolderSection(table: IgnoreTable, d: Desired, o: Observed, order: seq<Path>): seq<Action>
    requires forall p :: p in order ==> p in d.repos
  {
    Concat(seq(|order|, i requires 0 <= i < |order| => FolderActions(table, d, o, order[i])))
  }

  function LocalIDs(o: Observed): set<string> {
    set f | f in o.managedFolders :: f.folderID
  }

  function OfferOf(o: Observed, f: OfferedFolder): Offer {
    Offer(f.folderID, f.title, if f.fromDeviceID in o.peerNameByID then o.peerNameByID[f.fromDeviceID] else "",
          f.fromDeviceID)
  }

  function Offers(o: Observed): (r: seq<Offer>)
    ensures |r| == |o.offeredFolders|
    ensures forall i :: 0 <= i < |r| ==> r[i] == OfferOf(o, o.offeredFolders[i])
  {
    seq(|o.offeredFolders|, i requires 0 <= i < |o.offeredFolders| => OfferOf(o, o.offeredFolders[i]))
  }

  function DesiredIDs(d: Desired): set<string> {
    set p | p in d.repos && d.repos[p].folderID != "" :: d.repos[p].folderID
  }

  // -- default placement of an accepted folder

  const FALLBACK_MIRROR_ROOT: Path := ["~", "Documents", "GitHub"]

  function MirrorName(sub: SubscriptionEntry): string {
    TrimSuffix(if sub.canonical != "" then BaseName(sub.canonical)
               else if sub.name != "" then sub.name
               else "unnamed-folder",
               ".git")
  }

  function DefaultMirrorPath(mirrorRoot: Path, sub: SubscriptionEntry): Path {
    Join(if mirrorRoot == [] then FALLBACK_MIRROR_ROOT else mirrorRoot, MirrorName(sub))
  }

  function AcceptAction(d: Desired, acc: Acceptance): Action {
    AcceptSubscription(acc.offer.folderID, acc.offer.title,
                       if acc.subscription.path != [] then acc.subscription.path
                       else DefaultMirrorPath(d.defaultMirrorPath, acc.subscription),
                       acc.offer.fromDeviceID, acc.offer.fromPeerName)
  }

  function AcceptActions(d: Desired, accs: seq<Acceptance>): (r: seq<Action>)
    ensures |r| == |accs| && forall i :: 0 <= i < |r| ==> r[i] == AcceptAction(d, accs[i])
  {
    seq(|accs|, i requires 0 <= i < |accs| => AcceptAction(d, accs[i]))
  }

  ghost function Matched(d: Desired, o: Observed): seq<Acceptance> {
    Acceptances(d.subscriptions, Offers(o), LocalIDs(o))
  }

  ghost function AcceptedIDs(d: Desired, o: Observed): set<string> {
    set acc | acc in Matched(d, o) :: acc.offer.folderID
  }

  function RemoveActions(fs: seq<FolderObs>, keep: set<string>): seq<Action> {
    if fs == [] then []
    else When(fs[0].folderID !in keep, RemoveSyncthingFolder(fs[0].folderID)) + RemoveActions(fs[1..], keep)
  }

  // -- scheduled git backups

  function IntervalLength(raw: Interval): int {
    match raw
    case Unset => DAY
    case Hourly => HOUR
    case Daily => DAY
    case Weekly => 7 * DAY
    case Monthly => 30 * DAY
    case Every(ns) => if ns <= 0 then HOUR else ns
  }

  predicate RepoBackupDue(r: RepoDesired, obs: RepoObs, now: int) {
    if r.commitPolicy == "on-idle" then
      var idleFor := if r.idleSeconds > 0 then r.idleSeconds * SECOND else 5 * MINUTE;
      obs.isDirty && obs.lastChangeAt.Some? ==> obs.lastChangeAt.value <= now - idleFor
    else if r.commitPolicy == "timer" then
      obs.lastBackupAt.Some? ==> obs.lastBackupAt.value + IntervalLength(r.interval) <= now
    else false
  }

  const BACKUP_MESSAGE: string := "auto: scheduled backup"

  predicate BackupFires(d: Desired, obs: RepoObs, now: int) {
    && obs.path in d.repos
    && d.repos[obs.path].commitPolicy != "manual"
    && d.repos[obs.path].machineSlot !in d.repos[obs.path].skipSlots
    && RepoBackupDue(d.repos[obs.path], obs, now)
    && !obs.devWorkflowActive
  }

  function BackupActions(d: Desired, o: Observed, obs: RepoObs, now: int): seq<Action> {
    if BackupFires(d, obs, now) then
      When(obs.isDirty, GitCommitDirty(obs.path, BACKUP_MESSAGE))
      + When(obs.headCommit != "" && !(obs.path in o.lastPushed && o.lastPushed[obs.path] == obs.headCommit),
             GitPushRepo(obs.path))
    else []
  }

  function BackupSection(d: Desired, o: Observed, repos: seq<RepoObs>, now: int): seq<Action> {
    if repos == [] then []
    else BackupActions(d, o, repos[0], now) + BackupSection(d, o, repos[1..], now)
  }

  // ---------------------------------------------------------------- the whole plan

  /** The orders in which the three sorted lists were walked. */
  datatype Orders = Orders(desired: seq<Path>, folders: seq<FolderObs>, repos: seq<RepoObs>)

  function FolderKey(f: FolderObs): string { f.folderID }

  function RepoObsKey(r: RepoObs): string { PathText(r.path) }

  ghost function RepoKey(d: Desired): Path -> string {
    p => if p in d.repos then d.repos[p].folderID else ""
  }

  ghost predicate IsEnumeration(d: Desired, order: seq<Path>) {
    && (forall p :: p in order <==> p in d.repos && d.repos[p].folderID != "")
    && (forall i, j :: 0 <= i < j < |order| ==> order[i] != order[j])
  }

  ghost predicate ValidOrders(d: Desired, o: Observed, ord: Orders) {
    && IsEnumeration(d, ord.desired) && SortedBy(ord.desired, RepoKey(d))
    && SameElements(ord.folders, o.managedFolders) && SortedBy(ord.folders, FolderKey)
    && SameElements(ord.repos, o.trackedRepos) && SortedBy(ord.repos, RepoObsKey)
  }

  ghost function ConfigPlan(table: IgnoreTable, d: Desired, o: Observed, ord: Orders): seq<Action>
    requires ValidOrders(d, o, ord)
  {
    PeerActions(d.peers, o.livePeers)
    + FolderSection(table, d, o, ord.desired)
    + AcceptActions(d, Matched(d, o))
    + RemoveActions(ord.folders, DesiredIDs(d) + AcceptedIDs(d, o))
  }

  ghost function Plan(table: IgnoreTable, d: Desired, o: Observed, ord: Orders, now: int): seq<Action>
    requires ValidOrders(d, o, ord)
  {
    ConfigPlan(table, d, o, ord) + BackupSection(d, o, ord.repos, now)
  }
}
