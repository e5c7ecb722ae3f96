/** Auto-pause and rescans as whole passes carry them out: which pass plans them, in terms of the folder's own record
    and signals, and that the flag the next pass observes is the one `Pausing` reasons about. */
module Upkeep {
  import opened Base
  import opened Ignore
  import opened Syncthing
  import opened Subscribe
  import opened World
  import opened Diff
  import opened Convergence
  import opened Fixpoint
  import Pausing

  /** A configured folder, desired at `p`. */
  ghost predicate Configured(d: Desired, w: World, p: Path) {
    p in d.repos && d.repos[p].folderID != "" && Lookup(w.cfg.folders, d.repos[p].folderID).Some?
  }

  ghost function RecordAt(d: Desired, w: World, p: Path): Folder
    requires Configured(d, w, p)
  {
    Lookup(w.cfg.folders, d.repos[p].folderID).value
  }

  /** The newest activity the tracker reports for the folder. */
  function ActivityAt(o: Observed, p: Path): Option<int> {
    if o.lastActivityByPath.Some? && p in o.lastActivityByPath.value then Some(o.lastActivityByPath.value[p]) else None
  }

  lemma ObservedRecord(d: Desired, w: World, o: Observed, p: Path)
    requires Observes(w, d, o) && DistinctIds(w.cfg.folders) && Configured(d, w, p)
    ensures
      var x := LastFolder(o.managedFolders, d.repos[p].folderID);
      && x.Some? && x.value.folderID == d.repos[p].folderID && x.value.path == RecordAt(d, w, p).path
      && x.value.paused == RecordAt(d, w, p).paused
  {
    ObservedFolderOf(w.cfg.folders, w.disk, w.host.myID, d.repos[p].folderID);
  }

  /** The folder's pauses and rescans in a plan are those of its upkeep. */
  lemma InUpkeep(d: Desired, w: World, o: Observed, ord: Orders, now: int, p: Path, a: Action)
    requires ValidOrders(d, o, ord) && Reachable(d, w.host) && p in d.repos && d.repos[p].folderID != ""
    requires a.PauseSyncthingFolder? || a.UnpauseSyncthingFolder? || a.RescanFolderNow?
    requires a.folderID == d.repos[p].folderID
    ensures
      var x := LastFolder(o.managedFolders, d.repos[p].folderID);
      a in Plan(w.host.table, d, o, ord, now) <==> x.Some? && a in FolderUpkeep(x.value, o, p)
  {
    OnlyInFolderSection(w.host.table, d, o, ord, now, a);
    hide Plan, SyncIgnoreFileContent, FolderUpkeep, FolderSection, FolderActions, LastFolder;
    InFolderSection(w.host.table, d, o, ord.desired, a);
    forall q | q in d.repos && d.repos[q].folderID != ""
      ensures a in FolderActions(w.host.table, d, o, q) ==> q == p
    {
      UpkeepOf(w.host.table, d, o, q, a);
    }
    UpkeepOf(w.host.table, d, o, p, a);
    assert p in ord.desired;
  }

  lemma OnlyInFolderSection(table: IgnoreTable, d: Desired, o: Observed, ord: Orders, now: int, a: Action)
    requires ValidOrders(d, o, ord) && (a.PauseSyncthingFolder? || a.UnpauseSyncthingFolder? || a.RescanFolderNow?)
    ensures a in Plan(table, d, o, ord, now) <==> a in FolderSection(table, d, o, ord.desired)
  {
    PlanMember(table, d, o, ord, now, a);
    InPeerActions(d.peers, o.livePeers, a);
    RemovesAre(d, o, ord, a);
    BackupsAreNotStructural(d, o, ord.repos, now);
    hide Plan, PeerActions, RemoveActions, BackupSection, FolderSection, ValidOrders, Matched;
    assert a !in AcceptActions(d, Matched(d, o));
  }

  /** Of one folder's actions the pauses and rescans are its upkeep. */
  lemma UpkeepOf(table: IgnoreTable, d: Desired, o: Observed, p: Path, a: Action)
    requires p in d.repos && (a.PauseSyncthingFolder? || a.UnpauseSyncthingFolder? || a.RescanFolderNow?)
    ensures
      var x := LastFolder(o.managedFolders, d.repos[p].folderID);
      a in FolderActions(table, d, o, p) <==>
        x.Some? && a in FolderUpkeep(x.value, o, p) && a.folderID == d.repos[p].folderID
  {
    hide SyncIgnoreFileContent, FolderUpkeep, FolderRepairs;
    var x := LastFolder(o.managedFolders, d.repos[p].folderID);
    if x.Some? {
      RepairsAre(x.value, d.repos[p], p, a);
      UpkeepIs(x.value, o, p);
    }
  }

  /** A configured folder is paused exactly when it is not, and its last known activity is a day old; it is woken
      exactly when it is paused, and active within the last minute. A folder the tracker does not know is left alone. */
  lemma PauseIsPlannedExactly(d: Desired, w: World, o: Observed, ord: Orders, now: int, p: Path)
    requires Observes(w, d, o) && DistinctIds(w.cfg.folders) && ValidOrders(d, o, ord) && Reachable(d, w.host)
    requires Configured(d, w, p)
    ensures
      var plan, id, f := Plan(w.host.table, d, o, ord, now), d.repos[p].folderID, RecordAt(d, w, p);
      var seen := ActivityAt(o, p);
      && (PauseSyncthingFolder(id) in plan <==>
            !f.paused && seen.Some? && o.now - seen.value >= 86_400_000_000_000)
      && (UnpauseSyncthingFolder(id) in plan <==>
            f.paused && seen.Some? && o.now - seen.value <= 60_000_000_000)
  {
    ObservedRecord(d, w, o, p);
    var id := d.repos[p].folderID;
    InUpkeep(d, w, o, ord, now, p, PauseSyncthingFolder(id));
    InUpkeep(d, w, o, ord, now, p, UnpauseSyncthingFolder(id));
    var x := LastFolder(o.managedFolders, id).value;
    hide Plan, Observes, LastFolder, Lookup;
    PauseInUpkeep(x, o, p);
  }

  lemma PauseInUpkeep(x: FolderObs, o: Observed, p: Path)
    ensures
      var seen := ActivityAt(o, p);
      && (PauseSyncthingFolder(x.folderID) in FolderUpkeep(x, o, p) <==>
            !x.paused && seen.Some? && o.now - seen.value >= 86_400_000_000_000)
      && (UnpauseSyncthingFolder(x.folderID) in FolderUpkeep(x, o, p) <==>
            x.paused && seen.Some? && o.now - seen.value <= 60_000_000_000)
  {}

  /** A trigger for a rescan: the machine slept, an event queue overflowed, the watch limit was hit, or the last
      recorded rescan is too old, a week on a file system whose events can be trusted and a day on any other. */
  predicate RescanWanted(o: Observed, p: Path) {
    || o.sleepWakeSeen
    || (p in o.watchHealthByPath && (o.watchHealthByPath[p].overflowSeen || o.watchHealthByPath[p].watchLimitHit))
    || (p in o.lastRescanByPath
        && o.now - o.lastRescanByPath[p] >=
           if p in o.watchHealthByPath && o.watchHealthByPath[p].filesystemReliable then 604_800_000_000_000
           else 86_400_000_000_000)
  }

  /** A configured folder is rescanned exactly when it is not paused and there is a trigger. */
  lemma RescanIsPlannedExactly(d: Desired, w: World, o: Observed, ord: Orders, now: int, p: Path)
    requires Observes(w, d, o) && DistinctIds(w.cfg.folders) && ValidOrders(d, o, ord) && Reachable(d, w.host)
    requires Configured(d, w, p)
    ensures
      var plan, id := Plan(w.host.table, d, o, ord, now), d.repos[p].folderID;
      (exists reason :: RescanFolderNow(id, p, reason) in plan) <==> !RecordAt(d, w, p).paused && RescanWanted(o, p)
  {
    ObservedRecord(d, w, o, p);
    var id := d.repos[p].folderID;
    var x := LastFolder(o.managedFolders, id).value;
    forall reason
      ensures RescanFolderNow(id, p, reason) in Plan(w.host.table, d, o, ord, now) <==>
              RescanFolderNow(id, p, reason) in FolderUpkeep(x, o, p)
    {
      InUpkeep(d, w, o, ord, now, p, RescanFolderNow(id, p, reason));
    }
    hide Plan, Observes, LastFolder, Lookup;
    RescanInUpkeep(x, o, p);
  }

  lemma RescanInUpkeep(x: FolderObs, o: Observed, p: Path)
    ensures (exists reason :: RescanFolderNow(x.folderID, p, reason) in FolderUpkeep(x, o, p)) <==>
            !x.paused && RescanWanted(o, p)
  {
    var action := SmartRescanAction(x, p, o);
    if !x.paused && action.Some? {
      assert action.value in FolderUpkeep(x, o, p);
      assert action.value == RescanFolderNow(x.folderID, p, action.value.reason);
    }
  }

  // ---------------------------------------------------------------- the flag through a pass

  /** The flag after the first `i` actions of a successful pass: set by a pause, cleared by an unpause, and nothing else
      touches it. */
  lemma {:induction false} FlagThroughAPass(d: Desired, s: Pass, p: Path, i: nat)
    requires IsPass(d, s) && Succeeded(d, s) && i < |s.states|
    requires Reachable(d, s.states[0].host) && DistinctIds(s.states[0].cfg.folders) && Configured(d, s.states[0], p)
    requires !(PauseSyncthingFolder(d.repos[p].folderID) in Planned(d, s)
               && UnpauseSyncthingFolder(d.repos[p].folderID) in Planned(d, s))
    ensures Configured(d, s.states[i], p)
    ensures
      var id, done := d.repos[p].folderID, Planned(d, s)[..i];
      RecordAt(d, s.states[i], p).paused ==
        if PauseSyncthingFolder(id) in done then true
        else if UnpauseSyncthingFolder(id) in done then false
        else RecordAt(d, s.states[0], p).paused
  {
    hide Plan, Effect, Apply, Observes, ConnectionsConfigured, ValidOrders;
    if i > 0 {
      FlagThroughAPass(d, s, p, i - 1);
      var id, a := d.repos[p].folderID, Planned(d, s)[i - 1];
      assert Planned(d, s)[..i] == Planned(d, s)[..i - 1] + [a];
      assert a in Planned(d, s) && id in DesiredIDs(d);
      if a == RemoveSyncthingFolder(id) || Accepts(a, id) || (a.AddSyncthingFolder? && a.folderID == id) {
        RecordIsNotReplaced(d, s, p, a);
      }
      hide IsPass, Succeeded, Reachable, DistinctIds, DesiredIDs;
      FlagAfterAction(s.states[i - 1], a, s.states[i], id);
    }
  }

  lemma RecordIsNotReplaced(d: Desired, s: Pass, p: Path, a: Action)
    requires IsPass(d, s) && a in Planned(d, s)
    requires Reachable(d, s.states[0].host) && DistinctIds(s.states[0].cfg.folders) && Configured(d, s.states[0], p)
    ensures a != RemoveSyncthingFolder(d.repos[p].folderID) && !Accepts(a, d.repos[p].folderID)
    ensures !(a.AddSyncthingFolder? && a.folderID == d.repos[p].folderID)
  {
    hide Plan, Effect, Observes, ConnectionsConfigured, ValidOrders;
    var id := d.repos[p].folderID;
    PassIsConsistent(d, s);
    assert id in DesiredIDs(d);
    if Accepts(a, id) {
      ConfiguredIsNotAccepted(d, s.states[0], s.observed, s.orders, s.now, a);
    } else if a.AddSyncthingFolder? && a.folderID == id {
      ConfiguredIsNotAdded(d, s.states[0], s.observed, s.orders, s.now, p, a);
    }
  }

  /** One successful action that does not replace the record. */
  lemma FlagAfterAction(w: World, a: Action, w': World, id: string)
    requires Apply(w, a) == Ok(w') && Lookup(w.cfg.folders, id).Some?
    requires a != RemoveSyncthingFolder(id) && !Accepts(a, id) && !(a.AddSyncthingFolder? && a.folderID == id)
    ensures Lookup(w'.cfg.folders, id).Some?
    ensures
      Lookup(w'.cfg.folders, id).value.paused ==
        if a == PauseSyncthingFolder(id) then true
        else if a == UnpauseSyncthingFolder(id) then false
        else Lookup(w.cfg.folders, id).value.paused
  {
    hide AcceptedDisk, WithMarker, WithFolder, WithPatch, WithIgnore, SyncIgnoreFileContent, FolderDevices, Lookup;
    match a
    case AddSyncthingFolder(x, path, devices, _) =>
      LookupAfterWrite(w.cfg, w.host.myID, x, FolderTitle(a), path, devices, id);
    case AcceptSubscription(x, title, _, from, _) =>
      LookupAfterWrite(w.cfg, w.host.myID, x, title, Target(w.host, a), [from], id);
    case UpdateSyncthingFolderDevices(x, devices) =>
      LookupAfterPatch(w.cfg, x, SetDevices(FolderDevices(devices, w.host.myID)), id);
    case UpdateSyncthingFolderSchedule(x) => LookupAfterPatch(w.cfg, x, Schedule, id);
    case PauseSyncthingFolder(x) => LookupAfterPatch(w.cfg, x, SetPaused(true), id);
    case UnpauseSyncthingFolder(x) => LookupAfterPatch(w.cfg, x, SetPaused(false), id);
    case RemoveSyncthingFolder(x) => LookupAfterRemove(w.cfg.folders, x, id);
    case _ =>
  }

  /** What one pass looks like to the folder at `p`. */
  ghost function TickOf(d: Desired, s: Pass, p: Path, rescanApplied: bool, rescanAt: int): Pausing.Tick
    requires IsPass(d, s) && Configured(d, s.states[0], p)
  {
    var o := s.observed;
    Pausing.Tick(o.now, ActivityAt(o, p), RecordAt(d, s.states[0], p).paused,
                 if p in o.lastRescanByPath then Some(o.lastRescanByPath[p]) else None,
                 if p in o.watchHealthByPath then Some(o.watchHealthByPath[p]) else None, o.sleepWakeSeen,
                 true, rescanApplied, rescanAt)
  }

  lemma TickDecides(d: Desired, s: Pass, p: Path, rescanApplied: bool, rescanAt: int)
    requires IsPass(d, s) && Configured(d, s.states[0], p)
    ensures
      var t, seen := TickOf(d, s, p, rescanApplied, rescanAt), ActivityAt(s.observed, p);
      var f := RecordAt(d, s.states[0], p);
      && (Pausing.Pauses(t) <==> !f.paused && seen.Some? && s.observed.now - seen.value >= 86_400_000_000_000)
      && (Pausing.Unpauses(t) <==> f.paused && seen.Some? && s.observed.now - seen.value <= 60_000_000_000)
      && (Pausing.RescanDecided(t) <==> !f.paused && RescanWanted(s.observed, p))
  {
    hide IsPass, Lookup;
  }

  lemma FlagAfterPass(d: Desired, s: Pass, p: Path)
    requires IsPass(d, s) && Succeeded(d, s)
    requires Reachable(d, s.states[0].host) && DistinctIds(s.states[0].cfg.folders) && Configured(d, s.states[0], p)
    ensures Configured(d, After(s), p)
    ensures
      var id := d.repos[p].folderID;
      RecordAt(d, After(s), p).paused ==
        if PauseSyncthingFolder(id) in Planned(d, s) then true
        else if UnpauseSyncthingFolder(id) in Planned(d, s) then false
        else RecordAt(d, s.states[0], p).paused
  {
    hide Plan, Effect, Apply, Observes, ConnectionsConfigured, ValidOrders, IsTrace, Succeeded, Reachable, DistinctIds,
         RecordAt, After;
    NotBoth(d, s, p);
    EveryActionTook(d, s);
    var plan, last := Planned(d, s), |s.states| - 1;
    assert plan[..last] == plan;
    FlagThroughAPass(d, s, p, last);
  }

  lemma NotBoth(d: Desired, s: Pass, p: Path)
    requires IsPass(d, s)
    requires Reachable(d, s.states[0].host) && DistinctIds(s.states[0].cfg.folders) && Configured(d, s.states[0], p)
    ensures PauseSyncthingFolder(d.repos[p].folderID) !in Planned(d, s)
         || UnpauseSyncthingFolder(d.repos[p].folderID) !in Planned(d, s)
  {
    PauseIsPlannedExactly(d, s.states[0], s.observed, s.orders, s.now, p);
  }

  lemma EveryActionTook(d: Desired, s: Pass)
    requires IsPass(d, s)
    ensures |s.states| == |Planned(d, s)| + 1 && After(s) == s.states[|s.states| - 1]
  {}

  /** The plan decides as `Pausing` does. */
  lemma PlanDecides(d: Desired, s: Pass, p: Path, rescanApplied: bool, rescanAt: int)
    requires IsPass(d, s)
    requires Reachable(d, s.states[0].host) && DistinctIds(s.states[0].cfg.folders) && Configured(d, s.states[0], p)
    ensures
      var t, id, plan := TickOf(d, s, p, rescanApplied, rescanAt), d.repos[p].folderID, Planned(d, s);
      && (Pausing.Pauses(t) <==> PauseSyncthingFolder(id) in plan)
      && (Pausing.Unpauses(t) <==> UnpauseSyncthingFolder(id) in plan)
      && (Pausing.RescanDecided(t) <==> exists reason :: RescanFolderNow(id, p, reason) in plan)
  {
    PauseIsPlannedExactly(d, s.states[0], s.observed, s.orders, s.now, p);
    RescanIsPlannedExactly(d, s.states[0], s.observed, s.orders, s.now, p);
    TickDecides(d, s, p, rescanApplied, rescanAt);
    hide Plan, Effect, Observes, ConnectionsConfigured, ValidOrders, Reachable, DistinctIds, Configured, ActivityAt,
         RescanWanted, TickOf, RecordAt, Pausing.Pauses, Pausing.Unpauses, Pausing.RescanDecided;
  }

  /** The flag found by the pass after a successful one, and by any observation of it, is the one `Pausing.Next` gives;
      and the pass rescans exactly when `Pausing` says so. */
  lemma FlagFollowsTheDecision(d: Desired, s: Pass, p: Path, o: Observed, rescanApplied: bool, rescanAt: int)
    requires IsPass(d, s) && Succeeded(d, s)
    requires Reachable(d, s.states[0].host) && DistinctIds(s.states[0].cfg.folders) && Configured(d, s.states[0], p)
    requires Observes(After(s), d, o)
    ensures Configured(d, After(s), p)
    ensures
      var t := TickOf(d, s, p, rescanApplied, rescanAt);
      var x, flag := LastFolder(o.managedFolders, d.repos[p].folderID), RecordAt(d, After(s), p).paused;
      && flag == (if Pausing.Pauses(t) then true else if Pausing.Unpauses(t) then false else t.paused)
      && x.Some? && x.value.paused == flag
      && (Pausing.RescanDecided(t) <==>
            exists reason :: RescanFolderNow(d.repos[p].folderID, p, reason) in Planned(d, s))
  {
    HostAfter(d, s);
    hide Plan, Effect, Apply, Observes, ConnectionsConfigured, ValidOrders, IsTrace, Reachable, DistinctIds, Configured,
         RecordAt, ActivityAt, Pausing.Pauses, Pausing.Unpauses, Pausing.RescanDecided, Succeeded, LastFolder;
    FlagAfterPass(d, s, p);
    PlanDecides(d, s, p, rescanApplied, rescanAt);
    ObservedRecord(d, After(s), o, p);
  }
}
