/** The plan side of convergence: what a plan contains, and the theorems about whole passes and
    whole runs of passes. */
module Fixpoint {
  import opened Base
  import opened Ignore
  import opened Syncthing
  import opened Subscribe
  import opened World
  import opened Diff
  import opened Convergence

  // ---------------------------------------------------------------- membership in a plan

  lemma {:induction false} InPeerActions(peers: seq<PeerDesired>, live: seq<string>, a: Action)
    ensures a in PeerActions(peers, live) <==>
            exists p :: p in peers && p.deviceID != "" && p.deviceID !in live
                        && a == AddSyncthingDevice(p.name, p.deviceID)
  {
    if peers != [] {
      InPeerActions(peers[1..], live, a);
      assert peers == [peers[0]] + peers[1..];
    }
  }

  lemma {:induction false} InConcat<T>(parts: seq<seq<T>>, x: T)
    ensures x in Concat(parts) <==> exists i :: 0 <= i < |parts| && x in parts[i]
  {
    if parts != [] {
      InConcat(parts[1..], x);
      if i :| 0 <= i < |parts[1..]| && x in parts[1..][i] {
        assert x in parts[i + 1];
      }
    }
  }

  lemma InFolderSection(table: IgnoreTable, d: Desired, o: Observed, order: seq<Path>, a: Action)
    requires forall p :: p in order ==> p in d.repos
    ensures a in FolderSection(table, d, o, order) <==>
            exists p :: p in order && a in FolderActions(table, d, o, p)
  {
    var parts := seq(|order|, i requires 0 <= i < |order| => FolderActions(table, d, o, order[i]));
    InConcat(parts, a);
    if p :| p in order && a in FolderActions(table, d, o, p) {
      var i :| 0 <= i < |order| && order[i] == p;
      assert a in parts[i];
    }
  }

  lemma {:induction false} InRemoveActions(fs: seq<FolderObs>, keep: set<string>, a: Action)
    ensures a in RemoveActions(fs, keep) <==>
            exists f :: f in fs && f.folderID !in keep && a == RemoveSyncthingFolder(f.folderID)
  {
    if fs != [] {
      InRemoveActions(fs[1..], keep, a);
      assert fs == [fs[0]] + fs[1..];
    }
  }

  lemma {:induction false} BackupsAreNotStructural(d: Desired, o: Observed, repos: seq<RepoObs>, now: int)
    ensures forall a :: a in BackupSection(d, o, repos, now) ==> a.GitCommitDirty? || a.GitPushRepo?
  {
    if repos != [] { BackupsAreNotStructural(d, o, repos[1..], now); }
  }

  ghost predicate IsUpkeep(a: Action, id: string) {
    (a.PauseSyncthingFolder? || a.UnpauseSyncthingFolder? || a.RescanFolderNow?) && a.folderID == id
  }

  lemma UpkeepIs(obs: FolderObs, o: Observed, p: Path)
    ensures forall a :: a in FolderUpkeep(obs, o, p) ==> IsUpkeep(a, obs.folderID)
  {}

  lemma RepairsAre(obs: FolderObs, r: RepoDesired, p: Path, a: Action)
    ensures a in FolderRepairs(obs, r, p) <==>
      || (a == UpdateSyncthingFolderDevices(r.folderID, r.shareWith) && !SameDevices(obs.devices, r.shareWith))
      || (a == UpdateSyncthingFolderSchedule(r.folderID) && FolderScheduleDrifted(obs))
      || (a == EnsureFolderMarker(p) && obs.markerDirMissing)
  {}

  /** The repairs a plan may hold for one desired folder, each with the observation that calls for it. */
  ghost predicate Repair(table: IgnoreTable, d: Desired, o: Observed, p: Path, a: Action)
    requires p in d.repos
  {
    var r := d.repos[p];
    var obs := LastFolder(o.managedFolders, r.folderID);
    || (obs.None? && a == AddSyncthingFolder(r.folderID, p, r.shareWith, r.canonical))
    || (obs.Some? && a in FolderRepairs(obs.value, r, p))
    || a in IgnoreActions(table, d, o, p)
  }

  lemma FolderActionsAre(table: IgnoreTable, d: Desired, o: Observed, p: Path, a: Action)
    requires p in d.repos
    ensures a in FolderActions(table, d, o, p) ==>
              || Repair(table, d, o, p, a)
              || (LastFolder(o.managedFolders, d.repos[p].folderID).Some? && IsUpkeep(a, d.repos[p].folderID))
    ensures Repair(table, d, o, p, a) ==> a in FolderActions(table, d, o, p)
  {
    var r := d.repos[p];
    match LastFolder(o.managedFolders, r.folderID)
    case None =>
    case Some(obs) => UpkeepIs(obs, o, p);
  }

  /** Where an action of a plan comes from. */
  lemma PlanMember(table: IgnoreTable, d: Desired, o: Observed, ord: Orders, now: int, a: Action)
    requires ValidOrders(d, o, ord)
    ensures a in Plan(table, d, o, ord, now) <==>
      || a in PeerActions(d.peers, o.livePeers)
      || a in FolderSection(table, d, o, ord.desired)
      || a in AcceptActions(d, Matched(d, o))
      || a in RemoveActions(ord.folders, DesiredIDs(d) + AcceptedIDs(d, o))
      || a in BackupSection(d, o, ord.repos, now)
  {}

  ghost predicate Foreign(d: Desired, o: Observed, a: Action) {
    && a.RemoveSyncthingFolder?
    && (exists f :: f in o.managedFolders && f.folderID == a.folderID)
    && a.folderID !in DesiredIDs(d) && a.folderID !in AcceptedIDs(d, o)
  }

  lemma RemovesAre(d: Desired, o: Observed, ord: Orders, a: Action)
    requires ValidOrders(d, o, ord)
    ensures a in RemoveActions(ord.folders, DesiredIDs(d) + AcceptedIDs(d, o)) <==> Foreign(d, o, a)
  {
    InRemoveActions(ord.folders, DesiredIDs(d) + AcceptedIDs(d, o), a);
    if Foreign(d, o, a) {
      var f :| f in o.managedFolders && f.folderID == a.folderID;
      SameElementsMembers(ord.folders, o.managedFolders, f);
    } else if a.RemoveSyncthingFolder? {
      forall f | f in ord.folders ensures f in o.managedFolders {
        SameElementsMembers(ord.folders, o.managedFolders, f);
      }
    }
  }

  ghost predicate FromPeer(d: Desired, o: Observed, a: Action) {
    exists p :: p in d.peers && p.deviceID != "" && p.deviceID !in o.livePeers
                && a == AddSyncthingDevice(p.name, p.deviceID)
  }

  ghost predicate FromFolder(table: IgnoreTable, d: Desired, o: Observed, p: Path, a: Action) {
    && p in d.repos && d.repos[p].folderID != ""
    && (|| Repair(table, d, o, p, a)
        || (LastFolder(o.managedFolders, d.repos[p].folderID).Some? && IsUpkeep(a, d.repos[p].folderID)))
  }

  /** The five sources of a plan's actions. */
  lemma PlanOrigin(table: IgnoreTable, d: Desired, o: Observed, ord: Orders, now: int, a: Action)
    requires ValidOrders(d, o, ord) && a in Plan(table, d, o, ord, now)
    ensures
      || FromPeer(d, o, a)
      || (exists p :: FromFolder(table, d, o, p, a))
      || a in AcceptActions(d, Matched(d, o))
      || Foreign(d, o, a)
      || a.GitCommitDirty? || a.GitPushRepo?
  {
    PlanMember(table, d, o, ord, now, a);
    InPeerActions(d.peers, o.livePeers, a);
    RemovesAre(d, o, ord, a);
    BackupsAreNotStructural(d, o, ord.repos, now);
    if a in FolderSection(table, d, o, ord.desired) {
      InFolderSection(table, d, o, ord.desired, a);
      var p :| p in ord.desired && a in FolderActions(table, d, o, p);
      FolderActionsAre(table, d, o, p, a);
      assert FromFolder(table, d, o, p, a);
    }
  }

  // ---------------------------------------------------------------- acceptances in a plan

  lemma OnlyMatchesAreAccepted(table: IgnoreTable, d: Desired, o: Observed, ord: Orders, now: int, acc: Action)
    requires ValidOrders(d, o, ord) && acc in Plan(table, d, o, ord, now) && acc.AcceptSubscription?
    ensures exists m :: m in Matched(d, o) && acc == AcceptAction(d, m)
  {
    hide SyncIgnoreFileContent, Plan, ValidOrders, Matched, AcceptAction, FolderRepairs, IgnoreActions;
    PlanOrigin(table, d, o, ord, now, acc);
    if p :| FromFolder(table, d, o, p, acc) {
      RepairIsConsistent(table, d, o, p, acc);
      RepairIsNoAcceptance(table, d, o, p, acc);
    }
    var ms := Matched(d, o);
    assert acc in AcceptActions(d, ms);
    var i :| 0 <= i < |ms| && AcceptActions(d, ms)[i] == acc;
    assert ms[i] in ms;
  }

  lemma MatchesAreAccepted(table: IgnoreTable, d: Desired, o: Observed, ord: Orders, now: int, m: Acceptance)
    requires ValidOrders(d, o, ord) && m in Matched(d, o)
    ensures AcceptAction(d, m) in Plan(table, d, o, ord, now)
  {
    hide SyncIgnoreFileContent, Plan, ValidOrders, Matched, AcceptAction;
    var ms := Matched(d, o);
    var i :| 0 <= i < |ms| && ms[i] == m;
    assert AcceptActions(d, ms)[i] == AcceptAction(d, m);
    PlanMember(table, d, o, ord, now, AcceptAction(d, m));
  }

  lemma IsLocal(w: World, d: Desired, o: Observed, id: string)
    requires Observes(w, d, o) && id != "" && Lookup(w.cfg.folders, id).Some?
    ensures id in LocalIDs(o) && exists f :: f in o.managedFolders && f.folderID == id
  {
    var f := Lookup(w.cfg.folders, id).value;
    FolderIsObserved(w.cfg.folders, w.disk, w.host.myID, f);
    assert ObserveFolder(f, w.disk, w.host.myID).folderID == id;
  }

  lemma LocalIsNotAccepted(d: Desired, o: Observed, id: string)
    requires id in LocalIDs(o)
    ensures id !in AcceptedIDs(d, o)
  {
    forall m | m in Matched(d, o) ensures m.offer.folderID != id {
      AcceptanceIsSound(d.subscriptions, Offers(o), LocalIDs(o), m);
    }
  }

  /** A configured folder is not accepted. */
  lemma ConfiguredIsNotAccepted(d: Desired, w: World, o: Observed, ord: Orders, now: int, a: Action)
    requires Observes(w, d, o) && ValidOrders(d, o, ord) && a in Plan(w.host.table, d, o, ord, now)
    requires a.AcceptSubscription? && a.folderID != ""
    ensures Lookup(w.cfg.folders, a.folderID).None?
  {
    hide Plan, ValidOrders, Matched, Observes, SyncIgnoreFileContent;
    OnlyMatchesAreAccepted(w.host.table, d, o, ord, now, a);
    var m :| m in Matched(d, o) && a == AcceptAction(d, m);
    assert m.offer.folderID in AcceptedIDs(d, o);
    if Lookup(w.cfg.folders, a.folderID).Some? {
      IsLocal(w, d, o, a.folderID);
      LocalIsNotAccepted(d, o, a.folderID);
    }
  }

  predicate Accepts(a: Action, id: string) {
    a.AcceptSubscription? && a.folderID == id
  }

  function AcceptedBy(plan: seq<Action>): set<string> {
    set a | a in plan && a.AcceptSubscription? :: a.folderID
  }

  /** The acceptance that has the last word on a folder. */
  function LastAcceptance(plan: seq<Action>, id: string): (k: Option<nat>)
    ensures k.Some? ==> k.value < |plan| && plan[k.value] in plan && Accepts(plan[k.value], id)
    ensures k.Some? ==> forall i :: k.value < i < |plan| ==> !Accepts(plan[i], id)
    ensures k.None? ==> forall a :: a in plan ==> !Accepts(a, id)
  {
    if plan == [] then None
    else if Accepts(plan[|plan| - 1], id) then Some(|plan| - 1)
    else LastAcceptance(plan[..|plan| - 1], id)
  }

  lemma NeverAccepted(plan: seq<Action>, id: string)
    requires forall a :: a in plan ==> !Accepts(a, id)
    ensures LastAcceptance(plan, id).None?
  {}

  lemma NothingAccepted(plan: seq<Action>, a: Action)
    requires AcceptedBy(plan) == {} && a in plan
    ensures !a.AcceptSubscription?
  {
    assert forall b :: b in plan && b.AcceptSubscription? ==> b.folderID in AcceptedBy(plan);
  }

  /** What the plan emits from the acceptances on. */
  predicate Late(a: Action) {
    a.AcceptSubscription? || a.RemoveSyncthingFolder? || a.GitCommitDirty? || a.GitPushRepo?
  }

  lemma SectionsInOrder(early: seq<Action>, late: seq<Action>, k: nat, i: nat)
    requires k < i < |early + late| && forall a :: a in early ==> !a.AcceptSubscription?
    requires forall a :: a in late ==> Late(a)
    requires (early + late)[k].AcceptSubscription?
    ensures Late((early + late)[i])
  {
    forall j | 0 <= j < |early| ensures !(early + late)[j].AcceptSubscription? {
      assert (early + late)[j] == early[j] && early[j] in early;
    }
    assert (early + late)[i] == late[i - |early|] && late[i - |early|] in late;
  }

  /** After an acceptance the plan holds only further acceptances, removals and backups. */
  lemma NothingElseAfterAcceptances(table: IgnoreTable, d: Desired, o: Observed, ord: Orders, now: int, k: nat, i: nat)
    requires ValidOrders(d, o, ord) && k < i < |Plan(table, d, o, ord, now)|
    requires Plan(table, d, o, ord, now)[k].AcceptSubscription?
    ensures Late(Plan(table, d, o, ord, now)[i])
  {
    hide SyncIgnoreFileContent, PeerActions, FolderSection, AcceptActions, RemoveActions, BackupSection, Matched;
    var peers, folders := PeerActions(d.peers, o.livePeers), FolderSection(table, d, o, ord.desired);
    var accepts := AcceptActions(d, Matched(d, o));
    var removes := RemoveActions(ord.folders, DesiredIDs(d) + AcceptedIDs(d, o));
    var backups := BackupSection(d, o, ord.repos, now);
    assert Plan(table, d, o, ord, now) == (peers + folders) + (accepts + removes + backups);
    EarlyActions(table, d, o, ord);
    LateActions(d, o, ord, now);
    hide Plan;
    SectionsInOrder(peers + folders, accepts + removes + backups, k, i);
  }

  /** Where in a plan an action stands: peers, so that folders can name them; folders; acceptances; removals; backups.
      */
  function Section(a: Action): nat {
    match a
    case AddSyncthingDevice(_, _) => 0
    case AcceptSubscription(_, _, _, _, _) => 2
    case RemoveSyncthingFolder(_) => 3
    case GitCommitDirty(_, _) => 4
    case GitPushRepo(_) => 4
    case _ => 1
  }

  ghost predicate InSection(plan: seq<Action>, n: nat) {
    forall a :: a in plan ==> Section(a) == n
  }

  ghost predicate SectionsRise(plan: seq<Action>) {
    forall i, j :: 0 <= i < j < |plan| ==> Section(plan[i]) <= Section(plan[j])
  }

  lemma SectionsJoin(plan: seq<Action>, part: seq<Action>, n: nat)
    requires SectionsRise(plan) && InSection(part, n) && forall a :: a in plan ==> Section(a) <= n
    ensures SectionsRise(plan + part) && forall a :: a in plan + part ==> Section(a) <= n
  {
    hide Section;
    forall i, j | 0 <= i < j < |plan + part| ensures Section((plan + part)[i]) <= Section((plan + part)[j]) {
      assert j >= |plan| ==> (plan + part)[j] in part;
      assert i < |plan| ==> (plan + part)[i] in plan;
      assert i >= |plan| ==> (plan + part)[i] in part;
    }
  }

  /** A plan's sections come in this order. */
  lemma PlanIsInOrder(table: IgnoreTable, d: Desired, o: Observed, ord: Orders, now: int)
    requires ValidOrders(d, o, ord)
    ensures SectionsRise(Plan(table, d, o, ord, now))
  {
    var peers, folders := PeerActions(d.peers, o.livePeers), FolderSection(table, d, o, ord.desired);
    var accepts := AcceptActions(d, Matched(d, o));
    var removes := RemoveActions(ord.folders, DesiredIDs(d) + AcceptedIDs(d, o));
    var backups := BackupSection(d, o, ord.repos, now);
    assert Plan(table, d, o, ord, now) == peers + folders + accepts + removes + backups;
    SectionsAre(table, d, o, ord, now);
    hide *;
    NothingRises();
    assert [] + peers == peers;
    SectionsJoin([], peers, 0);
    SectionsJoin(peers, folders, 1);
    SectionsJoin(peers + folders, accepts, 2);
    SectionsJoin(peers + folders + accepts, removes, 3);
    SectionsJoin(peers + folders + accepts + removes, backups, 4);
  }

  lemma NothingRises()
    ensures SectionsRise([])
  {}

  lemma SectionsAre(table: IgnoreTable, d: Desired, o: Observed, ord: Orders, now: int)
    requires ValidOrders(d, o, ord)
    ensures InSection(PeerActions(d.peers, o.livePeers), 0)
    ensures InSection(FolderSection(table, d, o, ord.desired), 1)
    ensures InSection(AcceptActions(d, Matched(d, o)), 2)
    ensures InSection(RemoveActions(ord.folders, DesiredIDs(d) + AcceptedIDs(d, o)), 3)
    ensures InSection(BackupSection(d, o, ord.repos, now), 4)
  {
    hide PeerActions, FolderSection, RemoveActions, BackupSection, Matched, SyncIgnoreFileContent;
    forall a | a in PeerActions(d.peers, o.livePeers) ensures Section(a) == 0 {
      InPeerActions(d.peers, o.livePeers, a);
    }
    forall a | a in FolderSection(table, d, o, ord.desired) ensures Section(a) == 1 {
      FolderSectionIsFolders(table, d, o, ord.desired, a);
    }
    forall a | a in RemoveActions(ord.folders, DesiredIDs(d) + AcceptedIDs(d, o)) ensures Section(a) == 3 {
      InRemoveActions(ord.folders, DesiredIDs(d) + AcceptedIDs(d, o), a);
    }
    BackupsAreNotStructural(d, o, ord.repos, now);
  }

  lemma FolderSectionIsFolders(table: IgnoreTable, d: Desired, o: Observed, order: seq<Path>, a: Action)
    requires (forall p :: p in order ==> p in d.repos) && a in FolderSection(table, d, o, order)
    ensures Section(a) == 1
  {
    hide SyncIgnoreFileContent, FolderSection, FolderActions, FolderRepairs;
    InFolderSection(table, d, o, order, a);
    var p :| p in order && a in FolderActions(table, d, o, p);
    FolderActionsAre(table, d, o, p, a);
    var obs := LastFolder(o.managedFolders, d.repos[p].folderID);
    if obs.Some? { RepairsAre(obs.value, d.repos[p], p, a); }
  }

  lemma EarlyActions(table: IgnoreTable, d: Desired, o: Observed, ord: Orders)
    requires ValidOrders(d, o, ord)
    ensures forall a :: a in PeerActions(d.peers, o.livePeers) + FolderSection(table, d, o, ord.desired) ==>
              !a.AcceptSubscription?
  {
    hide SyncIgnoreFileContent, PeerActions, FolderSection;
    forall a | a in PeerActions(d.peers, o.livePeers) + FolderSection(table, d, o, ord.desired)
      ensures !a.AcceptSubscription?
    {
      InPeerActions(d.peers, o.livePeers, a);
      if a in FolderSection(table, d, o, ord.desired) { FolderSectionIsEarly(table, d, o, ord.desired, a); }
    }
  }

  lemma FolderSectionIsEarly(table: IgnoreTable, d: Desired, o: Observed, order: seq<Path>, a: Action)
    requires (forall p :: p in order ==> p in d.repos) && a in FolderSection(table, d, o, order)
    ensures !a.AcceptSubscription?
  {
    hide SyncIgnoreFileContent, FolderSection, FolderActions, Repair;
    InFolderSection(table, d, o, order, a);
    var p :| p in order && a in FolderActions(table, d, o, p);
    FolderActionsAre(table, d, o, p, a);
    if Repair(table, d, o, p, a) { RepairIsNoAcceptance(table, d, o, p, a); }
  }

  lemma RepairIsNoAcceptance(table: IgnoreTable, d: Desired, o: Observed, p: Path, a: Action)
    requires p in d.repos && (Repair(table, d, o, p, a) || FromFolder(table, d, o, p, a))
    ensures !a.AcceptSubscription? && !a.RemoveSyncthingFolder?
  {
    hide SyncIgnoreFileContent, FolderRepairs;
    var obs := LastFolder(o.managedFolders, d.repos[p].folderID);
    if obs.Some? { RepairsAre(obs.value, d.repos[p], p, a); }
  }

  lemma LateActions(d: Desired, o: Observed, ord: Orders, now: int)
    requires ValidOrders(d, o, ord)
    ensures
      var removes := RemoveActions(ord.folders, DesiredIDs(d) + AcceptedIDs(d, o));
      forall a :: a in AcceptActions(d, Matched(d, o)) + removes + BackupSection(d, o, ord.repos, now) ==> Late(a)
  {
    hide RemoveActions, BackupSection, Matched;
    BackupsAreNotStructural(d, o, ord.repos, now);
    forall a | a in RemoveActions(ord.folders, DesiredIDs(d) + AcceptedIDs(d, o)) ensures Late(a) {
      InRemoveActions(ord.folders, DesiredIDs(d) + AcceptedIDs(d, o), a);
    }
  }

  // ---------------------------------------------------------------- plans aim at goals

  lemma {:induction false} FolderIsObserved(fs: seq<Folder>, disk: Disk, myID: string, f: Folder)
    requires f in fs && f.id != ""
    ensures ObserveFolder(f, disk, myID) in ObserveFolders(fs, disk, myID)
  {
    if f != fs[0] { FolderIsObserved(fs[1..], disk, myID, f); }
  }

  lemma {:induction false} ObservedIsFolder(fs: seq<Folder>, disk: Disk, myID: string, x: FolderObs)
    requires x in ObserveFolders(fs, disk, myID)
    ensures exists f :: f in fs && f.id == x.folderID != ""
  {
    if fs[0].id != "" && x == ObserveFolder(fs[0], disk, myID) {
      assert fs[0] in fs;
    } else {
      ObservedIsFolder(fs[1..], disk, myID, x);
    }
  }

  lemma RepairIsConsistent(table: IgnoreTable, d: Desired, o: Observed, p: Path, a: Action)
    requires FromFolder(table, d, o, p, a)
    ensures Consistent(d, a)
  {
    hide SyncIgnoreFileContent, FolderRepairs;
    var obs := LastFolder(o.managedFolders, d.repos[p].folderID);
    if obs.Some? { RepairsAre(obs.value, d.repos[p], p, a); }
  }

  /** Every action is one the stability lemmas cover. */
  lemma PlanIsConsistent(d: Desired, w: World, o: Observed, ord: Orders, now: int, a: Action)
    requires ValidOrders(d, o, ord)
    requires a in Plan(w.host.table, d, o, ord, now)
    ensures Consistent(d, a)
  {
    hide SyncIgnoreFileContent, Plan, ValidOrders, Repair, Matched;
    PlanOrigin(w.host.table, d, o, ord, now, a);
    if p :| FromFolder(w.host.table, d, o, p, a) {
      RepairIsConsistent(w.host.table, d, o, p, a);
    }
  }

  lemma RepairIsPlanned(d: Desired, w: World, o: Observed, ord: Orders, now: int, p: Path, a: Action)
    requires ValidOrders(d, o, ord) && p in d.repos && d.repos[p].folderID != ""
    requires Repair(w.host.table, d, o, p, a)
    ensures a in Plan(w.host.table, d, o, ord, now)
  {
    FolderActionsAre(w.host.table, d, o, p, a);
    InFolderSection(w.host.table, d, o, ord.desired, a);
    PlanMember(w.host.table, d, o, ord, now, a);
  }

  /** A goal about one desired folder is unmet exactly when some planned repair serves it. */
  lemma FolderGoalIsAimedAt(d: Desired, w: World, o: Observed, g: Goal) returns (a: Action)
    requires Compatible(d, w) && Observes(w, d, o)
    requires Wants(d, g) && !g.PeerKnown? && !g.Gone? && !Holds(d, w, g)
    ensures Serves(d, a, g) && Repair(w.host.table, d, o, g.path, a)
  {
    var p := g.path;
    var r := d.repos[p];
    assert PathAgrees(d, w, p);
    ObservedFolderOf(w.cfg.folders, w.disk, w.host.myID, r.folderID);
    ObservedIgnoreOf(w, d, o, p);
    if g.IgnoreWritten? {
      a := EnsureIgnoreFile(p, r.ignore);
    } else if LastFolder(o.managedFolders, r.folderID).None? {
      a := AddSyncthingFolder(r.folderID, p, r.shareWith, r.canonical);
    } else if g.DevicesMatch? {
      a := UpdateSyncthingFolderDevices(r.folderID, r.shareWith);
    } else if g.ScheduleCanonical? {
      a := UpdateSyncthingFolderSchedule(r.folderID);
    } else {
      a := EnsureFolderMarker(p);
    }
  }

  /** A desired peer is added exactly when it is neither configured nor in the connection table. */
  lemma PeerIsAddedExactly(d: Desired, w: World, o: Observed, ord: Orders, now: int, dev: string)
    requires Observes(w, d, o) && ValidOrders(d, o, ord) && Wants(d, PeerKnown(dev))
    ensures (exists a :: a in Plan(w.host.table, d, o, ord, now) && a.AddSyncthingDevice? && a.deviceID == dev)
       <==> !HasDevice(w.cfg.devices, dev) && dev !in o.connections
  {
    hide Plan, ValidOrders, SyncIgnoreFileContent, Repair, Matched;
    if a :| a in Plan(w.host.table, d, o, ord, now) && a.AddSyncthingDevice? && a.deviceID == dev {
      PlanOrigin(w.host.table, d, o, ord, now, a);
      if p :| FromFolder(w.host.table, d, o, p, a) {
        RepairIsNoDevice(w.host.table, d, o, p, a);
      }
    }
    if !HasDevice(w.cfg.devices, dev) && dev !in o.connections {
      var p :| p in d.peers && p.deviceID == dev;
      var a := AddSyncthingDevice(p.name, dev);
      InPeerActions(d.peers, o.livePeers, a);
      PlanMember(w.host.table, d, o, ord, now, a);
    }
  }

  lemma RepairIsNoDevice(table: IgnoreTable, d: Desired, o: Observed, p: Path, a: Action)
    requires FromFolder(table, d, o, p, a)
    ensures !a.AddSyncthingDevice?
  {
    hide SyncIgnoreFileContent, FolderRepairs;
    var obs := LastFolder(o.managedFolders, d.repos[p].folderID);
    if obs.Some? { RepairsAre(obs.value, d.repos[p], p, a); }
  }

  lemma ForeignFolderIsAimedAt(d: Desired, w: World, o: Observed, ord: Orders, now: int, id: string)
    requires Observes(w, d, o) && ValidOrders(d, o, ord)
    requires Wants(d, Gone(id)) && Lookup(w.cfg.folders, id).Some?
    ensures RemoveSyncthingFolder(id) in Plan(w.host.table, d, o, ord, now)
  {
    IsLocal(w, d, o, id);
    hide Plan, ValidOrders, SyncIgnoreFileContent, Observes, LocalIDs;
    LocalIsNotAccepted(d, o, id);
    RemovesAre(d, o, ord, RemoveSyncthingFolder(id));
    PlanMember(w.host.table, d, o, ord, now, RemoveSyncthingFolder(id));
  }

  /** Each unmet goal has an action in the plan that serves it. */
  lemma GoalIsAimedAt(d: Desired, w: World, o: Observed, ord: Orders, now: int, g: Goal) returns (a: Action)
    requires Compatible(d, w) && Observes(w, d, o) && ConnectionsConfigured(w, o) && ValidOrders(d, o, ord)
    requires Wants(d, g) && !Holds(d, w, g)
    ensures a in Plan(w.host.table, d, o, ord, now) && Serves(d, a, g) && Structural(a) && !a.AcceptSubscription?
  {
    hide Plan, ValidOrders, SyncIgnoreFileContent, Observes, Compatible, Repair;
    match g
    case PeerKnown(dev) =>
      PeerIsAddedExactly(d, w, o, ord, now, dev);
      a :| a in Plan(w.host.table, d, o, ord, now) && a.AddSyncthingDevice? && a.deviceID == dev;
    case Gone(id) =>
      a := RemoveSyncthingFolder(id);
      ForeignFolderIsAimedAt(d, w, o, ord, now, id);
    case _ =>
      a := FolderGoalIsAimedAt(d, w, o, g);
      RepairIsPlanned(d, w, o, ord, now, g.path, a);
  }

  lemma RepairServesAnUnmetGoal(d: Desired, w: World, o: Observed, p: Path, a: Action) returns (g: Goal)
    requires Compatible(d, w) && Observes(w, d, o) && p in d.repos && d.repos[p].folderID != ""
    requires Repair(w.host.table, d, o, p, a)
    ensures Wants(d, g) && !Holds(d, w, g) && Serves(d, a, g)
  {
    var r := d.repos[p];
    if a in IgnoreActions(w.host.table, d, o, p) {
      ObservedIgnoreOf(w, d, o, p);
      g := IgnoreWritten(p);
    } else {
      ObservedFolderOf(w.cfg.folders, w.disk, w.host.myID, r.folderID);
      var obs := LastFolder(o.managedFolders, r.folderID);
      if obs.None? {
        g := DevicesMatch(p);
      } else {
        assert PathAgrees(d, w, p);
        RepairsAre(obs.value, r, p, a);
        g := if a.UpdateSyncthingFolderDevices? then DevicesMatch(p)
             else if a.UpdateSyncthingFolderSchedule? then ScheduleCanonical(p)
             else MarkerThere(p);
      }
    }
  }

  /** Conversely a structural action other than an acceptance is in the plan only because a goal is unmet. */
  lemma StructuralActionServesAnUnmetGoal(d: Desired, w: World, o: Observed, ord: Orders, now: int, a: Action)
    returns (g: Goal)
    requires Compatible(d, w) && Observes(w, d, o) && ValidOrders(d, o, ord)
    requires a in Plan(w.host.table, d, o, ord, now) && Structural(a) && !a.AcceptSubscription?
    ensures Wants(d, g) && !Holds(d, w, g) && Serves(d, a, g)
  {
    hide SyncIgnoreFileContent, Plan, ValidOrders, Repair, ObserveFolders, Compatible, Matched;
    PlanOrigin(w.host.table, d, o, ord, now, a);
    if FromPeer(d, o, a) {
      g := PeerKnown(a.deviceID);
    } else if p :| FromFolder(w.host.table, d, o, p, a) {
      g := RepairServesAnUnmetGoal(d, w, o, p, a);
    } else {
      var x :| x in o.managedFolders && x.folderID == a.folderID;
      ObservedIsFolder(w.cfg.folders, w.disk, w.host.myID, x);
      g := Gone(a.folderID);
    }
  }

  /** The fixpoint has an exact description that never mentions plans: a plan holds no structural
      action but acceptances if and only if every goal of the desired state is met. */
  lemma QuietExactlyWhenSettled(d: Desired, w: World, o: Observed, ord: Orders, now: int)
    requires Compatible(d, w) && Observes(w, d, o) && ConnectionsConfigured(w, o) && ValidOrders(d, o, ord)
    ensures Settled(d, w) <==>
            forall a :: a in Plan(w.host.table, d, o, ord, now) && Structural(a) ==> a.AcceptSubscription?
  {
    hide Plan, ValidOrders, Observes, Compatible, ConnectionsConfigured, Holds, Wants, Structural;
    if Settled(d, w) {
      forall a | a in Plan(w.host.table, d, o, ord, now) && Structural(a) ensures a.AcceptSubscription? {
        if !a.AcceptSubscription? {
          var g := StructuralActionServesAnUnmetGoal(d, w, o, ord, now, a);
        }
      }
    } else {
      var g :| Wants(d, g) && !Holds(d, w, g);
      var a := GoalIsAimedAt(d, w, o, ord, now, g);
    }
  }

  // ---------------------------------------------------------------- one pass

  /** One reconcile pass: what it observed, the orders it walked, and the state after each action,
      each action having succeeded or failed in any way its handler allows. */
  datatype Pass = Pass(observed: Observed, orders: Orders, now: int, states: seq<World>)

  ghost predicate IsPass(d: Desired, s: Pass) {
    && s.states != []
    && Observes(s.states[0], d, s.observed) && ConnectionsConfigured(s.states[0], s.observed)
    && ValidOrders(d, s.observed, s.orders)
    && IsTrace(Planned(d, s), s.states)
  }

  /** The states an executed plan goes through. */
  ghost predicate IsTrace(plan: seq<Action>, ws: seq<World>) {
    && |ws| == |plan| + 1
    && forall i :: 0 <= i < |plan| ==> Effect(ws[i], plan[i], ws[i + 1])
  }

  ghost function Planned(d: Desired, s: Pass): seq<Action>
    requires s.states != [] && ValidOrders(d, s.observed, s.orders)
  {
    Plan(s.states[0].host.table, d, s.observed, s.orders, s.now)
  }

  ghost predicate Succeeded(d: Desired, s: Pass)
    requires IsPass(d, s)
  {
    var plan := Planned(d, s);
    forall i :: 0 <= i < |plan| ==> Apply(s.states[i], plan[i]) == Ok(s.states[i + 1])
  }

  function After(s: Pass): World
    requires s.states != []
  {
    s.states[|s.states| - 1]
  }

  ghost predicate AllConsistent(d: Desired, plan: seq<Action>) {
    forall a :: a in plan ==> Consistent(d, a)
  }

  lemma PassIsConsistent(d: Desired, s: Pass)
    requires IsPass(d, s)
    ensures AllConsistent(d, Planned(d, s))
  {
    hide Plan, ValidOrders, Consistent, Observes;
    forall a | a in Planned(d, s) ensures Consistent(d, a) {
      PlanIsConsistent(d, s.states[0], s.observed, s.orders, s.now, a);
    }
  }

  lemma {:induction false} TraceKeepsHost(plan: seq<Action>, ws: seq<World>, i: nat)
    requires IsTrace(plan, ws) && i < |ws|
    ensures ws[i].host == ws[0].host && (DistinctIds(ws[0].cfg.folders) ==> DistinctIds(ws[i].cfg.folders))
  {
    hide Effect, DistinctIds;
    if i > 0 {
      TraceKeepsHost(plan, ws, i - 1);
      EffectKeepsHost(ws[i - 1], plan[i - 1], ws[i]);
      if DistinctIds(ws[0].cfg.folders) { StaysDistinct(ws[i - 1], plan[i - 1], ws[i]); }
    }
  }

  /** While nothing accepts a desired folder away from its path, states stay compatible. */
  lemma {:induction false} TraceStaysCompatible(d: Desired, plan: seq<Action>, ws: seq<World>, i: nat)
    requires IsTrace(plan, ws) && i < |ws| && AllConsistent(d, plan) && Compatible(d, ws[0])
    requires forall a :: a in plan ==> InPlace(d, ws[0].host, a)
    ensures Compatible(d, ws[i]) && ws[i].host == ws[0].host
  {
    hide Effect, Compatible, Consistent, InPlace;
    if i > 0 {
      TraceStaysCompatible(d, plan, ws, i - 1);
      assert plan[i - 1] in plan;
      StaysCompatible(d, ws[i - 1], plan[i - 1], ws[i]);
    }
  }

  /** A met goal that no action from `i` to `j` undoes is still met. */
  lemma {:induction false} GoalKeptThrough(d: Desired, plan: seq<Action>, ws: seq<World>, i: nat, j: nat, g: Goal)
    requires IsTrace(plan, ws) && AllConsistent(d, plan) && Reachable(d, ws[0].host) && i <= j < |ws|
    requires Wants(d, g) && Holds(d, ws[i], g)
    requires forall k :: i <= k < j ==> !Undoes(d, ws[0].host, plan[k], g)
    ensures Holds(d, ws[j], g)
    decreases j
  {
    hide Effect, Reachable, Consistent, Holds, Wants, Undoes;
    if i < j {
      GoalKeptThrough(d, plan, ws, i, j - 1, g);
      TraceKeepsHost(plan, ws, j - 1);
      assert plan[j - 1] in plan;
      GoalStable(d, ws[j - 1], plan[j - 1], ws[j], g);
    }
  }

  lemma {:induction false} PathKeptThrough(d: Desired, plan: seq<Action>, ws: seq<World>, i: nat, p: Path)
    requires IsTrace(plan, ws) && AllConsistent(d, plan) && Reachable(d, ws[0].host) && i < |ws|
    requires p in d.repos && d.repos[p].folderID != "" && PathAgrees(d, ws[0], p)
    requires forall a :: a in plan ==> KeepsPath(d, ws[0].host, a, p)
    ensures PathAgrees(d, ws[i], p)
  {
    hide Effect, Reachable, Consistent, PathAgrees, KeepsPath;
    if i > 0 {
      PathKeptThrough(d, plan, ws, i - 1, p);
      TraceKeepsHost(plan, ws, i - 1);
      assert plan[i - 1] in plan;
      PathStays(d, ws[i - 1], plan[i - 1], ws[i], p);
    }
  }

  /** Every goal that no action undoes is met after a successful pass. */
  lemma GoalMetAfterSuccess(d: Desired, s: Pass, g: Goal)
    requires IsPass(d, s) && Compatible(d, s.states[0]) && Succeeded(d, s) && Wants(d, g)
    requires forall k :: 0 <= k < |Planned(d, s)| ==> !Undoes(d, s.states[0].host, Planned(d, s)[k], g)
    ensures Holds(d, After(s), g)
  {
    hide Plan, Effect, Apply, Holds, Wants, Undoes, Observes, ConnectionsConfigured, ValidOrders, Serves;
    var plan, last := Planned(d, s), |s.states| - 1;
    PassIsConsistent(d, s);
    assert Reachable(d, s.states[0].host);
    hide Compatible, Reachable, AllConsistent;
    if Holds(d, s.states[0], g) {
      GoalKeptThrough(d, plan, s.states, 0, last, g);
    } else {
      var a := GoalIsAimedAt(d, s.states[0], s.observed, s.orders, s.now, g);
      var i :| 0 <= i < |plan| && plan[i] == a;
      TraceKeepsHost(plan, s.states, i);
      GoalServed(d, s.states[i], a, s.states[i + 1], g);
      GoalKeptThrough(d, plan, s.states, i + 1, last, g);
    }
  }

  // ---------------------------------------------------------------- acceptances of desired folders

  /** The record of an accepted folder at the end of a successful pass is what the last acceptance made of it. */
  ghost predicate RecordOf(w: World, acc: Action)
    requires acc.AcceptSubscription?
  {
    var f := Lookup(w.cfg.folders, acc.folderID);
    && f.Some? && f.value.path == Target(w.host, acc)
    && f.value.devices == FolderDevices([acc.fromDeviceID], w.host.myID)
    && MarkerNameOf(f.value) == FOLDER_MARKER_NAME && IsScheduled(f.value)
  }

  lemma AcceptanceMakesRecord(w: World, acc: Action, w': World)
    requires acc.AcceptSubscription? && Apply(w, acc) == Ok(w')
    ensures RecordOf(w', acc)
  {
    AcceptOnConfig(w, acc, w', acc.folderID);
    EffectKeepsHost(w, acc, w');
  }

  /** Actions after it leave a desired folder's record alone. */
  lemma {:induction false} RecordLasts(d: Desired, plan: seq<Action>, ws: seq<World>, k: nat, i: nat, acc: Action)
    requires IsTrace(plan, ws) && AllConsistent(d, plan) && k <= i < |ws| && acc.AcceptSubscription?
    requires RecordOf(ws[k], acc) && acc.folderID in DesiredIDs(d)
    requires forall j :: k <= j < |plan| ==> Late(plan[j]) && !Accepts(plan[j], acc.folderID)
    ensures RecordOf(ws[i], acc)
  {
    hide Effect, DesiredIDs, RecordOf, Consistent;
    if k < i {
      RecordLasts(d, plan, ws, k, i - 1, acc);
      assert plan[i - 1] in plan;
      RecordKept(d, ws[i - 1], plan[i - 1], ws[i], acc);
    }
  }

  lemma RecordKept(d: Desired, w: World, a: Action, w': World, acc: Action)
    requires acc.AcceptSubscription? && RecordOf(w, acc) && acc.folderID in DesiredIDs(d)
    requires Effect(w, a, w') && Consistent(d, a) && Late(a) && !Accepts(a, acc.folderID)
    ensures RecordOf(w', acc)
  {
    LookupAfter(w, a, w', acc.folderID);
    EffectKeepsHost(w, a, w');
    hide Effect, DesiredIDs;
  }

  lemma LastAcceptanceDecides(d: Desired, s: Pass, id: string)
    requires IsPass(d, s) && Succeeded(d, s) && id in DesiredIDs(d) && LastAcceptance(Planned(d, s), id).Some?
    ensures RecordOf(After(s), Planned(d, s)[LastAcceptance(Planned(d, s), id).value])
  {
    hide Plan, Effect, Apply, Observes, ConnectionsConfigured, ValidOrders, RecordOf, LastAcceptance, DesiredIDs;
    var plan := Planned(d, s);
    var k := LastAcceptance(plan, id).value;
    PassIsConsistent(d, s);
    hide AllConsistent;
    AcceptanceMakesRecord(s.states[k], plan[k], s.states[k + 1]);
    forall j | k < j < |plan| ensures Late(plan[j]) {
      NothingElseAfterAcceptances(s.states[0].host.table, d, s.observed, s.orders, s.now, k, j);
    }
    RecordLasts(d, plan, s.states, k + 1, |plan|, plan[k]);
  }

  /** The last acceptance of the folder desired at `p`, if there is one, is for `p` and for the wanted devices. */
  ghost predicate FaithfulAt(d: Desired, host: Host, plan: seq<Action>, p: Path)
    requires p in d.repos
  {
    var k := LastAcceptance(plan, d.repos[p].folderID);
    k.Some? ==> Target(host, plan[k.value]) == p && SharesAsWanted(d, host, plan[k.value], p)
  }

  ghost predicate Faithful(d: Desired, host: Host, plan: seq<Action>) {
    forall p :: p in d.repos && d.repos[p].folderID != "" ==> FaithfulAt(d, host, plan, p)
  }

  /** Every goal is met but the absence of the folders in `ids`. */
  ghost predicate SettledBut(d: Desired, w: World, ids: set<string>) {
    forall g :: Wants(d, g) && !(g.Gone? && g.folderID in ids) ==> Holds(d, w, g)
  }

  lemma FolderAfterSuccess(d: Desired, s: Pass, p: Path)
    requires IsPass(d, s) && Compatible(d, s.states[0]) && Succeeded(d, s)
    requires p in d.repos && d.repos[p].folderID != ""
    ensures (PathAgrees(d, After(s), p) && Holds(d, After(s), DevicesMatch(p)))
       <==> FaithfulAt(d, s.states[0].host, Planned(d, s), p)
  {
    hide Plan, Effect, Apply, Observes, ConnectionsConfigured, ValidOrders, LastAcceptance, SameDevices;
    var plan, id, last := Planned(d, s), d.repos[p].folderID, |s.states| - 1;
    PassIsConsistent(d, s);
    TraceKeepsHost(plan, s.states, last);
    hide AllConsistent, IsPass, Succeeded, IsTrace;
    if LastAcceptance(plan, id).Some? {
      assert id in DesiredIDs(d);
      LastAcceptanceDecides(d, s, id);
    } else {
      UnacceptedFolderAfterSuccess(d, s, p);
    }
  }

  lemma UnacceptedFolderAfterSuccess(d: Desired, s: Pass, p: Path)
    requires IsPass(d, s) && Compatible(d, s.states[0]) && Succeeded(d, s)
    requires p in d.repos && d.repos[p].folderID != ""
    requires forall a :: a in Planned(d, s) ==> !Accepts(a, d.repos[p].folderID)
    ensures PathAgrees(d, After(s), p) && Holds(d, After(s), DevicesMatch(p))
  {
    hide Plan, Effect, Apply, Observes, ConnectionsConfigured, ValidOrders;
    PassIsConsistent(d, s);
    var plan := Planned(d, s);
    PathKeptThrough(d, plan, s.states, |s.states| - 1, p);
    forall k | 0 <= k < |plan| ensures !Undoes(d, s.states[0].host, plan[k], DevicesMatch(p)) {
      assert plan[k] in plan;
    }
    GoalMetAfterSuccess(d, s, DevicesMatch(p));
  }

  /** A successful pass leaves a compatible state with every goal met, but the absence of what it accepted, exactly when
      it started in a compatible one and the last acceptance of each desired folder was for its path and its devices. */
  lemma SuccessfulPassSettlesExactly(d: Desired, s: Pass)
    requires IsPass(d, s) && Succeeded(d, s)
    requires Reachable(d, s.states[0].host) && DistinctIds(s.states[0].cfg.folders)
    ensures (Compatible(d, After(s)) && SettledBut(d, After(s), AcceptedBy(Planned(d, s))))
       <==> Compatible(d, s.states[0]) && Faithful(d, s.states[0].host, Planned(d, s))
  {
    hide Plan, Effect, Apply, Observes, ConnectionsConfigured, ValidOrders, IsTrace, Succeeded, Holds, PathAgrees,
         Faithful, Compatible, AcceptedBy, DistinctIds, Reachable;
    if !Compatible(d, s.states[0]) {
      IncompatibleStays(d, s);
    } else {
      FaithfulFolders(d, s);
      if AllFoldersRight(d, s) {
        CompatibleAfter(d, s);
        OtherGoalsAfter(d, s);
      } else if Compatible(d, After(s)) {
        CompatiblePaths(d, After(s));
      }
    }
  }

  /** No pass, failing or not, makes a state compatible. */
  lemma IncompatibleStays(d: Desired, s: Pass)
    requires IsPass(d, s) && Reachable(d, s.states[0].host) && DistinctIds(s.states[0].cfg.folders)
    requires !Compatible(d, s.states[0])
    ensures !Compatible(d, After(s))
  {
    hide Plan, Effect, Observes, ConnectionsConfigured, ValidOrders, Reachable, DistinctIds;
    var p :| p in d.repos && d.repos[p].folderID != "" && !PathAgrees(d, s.states[0], p);
    ConfiguredPathIsNeverChanged(d, s, p, |s.states| - 1);
    assert !PathAgrees(d, After(s), p);
  }

  ghost predicate AllFoldersRight(d: Desired, s: Pass)
    requires s.states != []
  {
    forall p :: p in d.repos && d.repos[p].folderID != "" ==>
      PathAgrees(d, After(s), p) && Wants(d, DevicesMatch(p)) && Holds(d, After(s), DevicesMatch(p))
  }

  lemma CompatiblePaths(d: Desired, w: World)
    requires Compatible(d, w)
    ensures forall p :: p in d.repos && d.repos[p].folderID != "" ==> PathAgrees(d, w, p)
  {
    hide PathAgrees;
  }

  lemma FaithfulFolders(d: Desired, s: Pass)
    requires IsPass(d, s) && Compatible(d, s.states[0]) && Succeeded(d, s)
    ensures AllFoldersRight(d, s) <==> Faithful(d, s.states[0].host, Planned(d, s))
  {
    hide Plan, Effect, Apply, Observes, ConnectionsConfigured, ValidOrders, Holds, PathAgrees, FaithfulAt, IsTrace,
         Succeeded, Compatible;
    forall p | p in d.repos && d.repos[p].folderID != ""
      ensures Wants(d, DevicesMatch(p))
      ensures (PathAgrees(d, After(s), p) && Holds(d, After(s), DevicesMatch(p)))
         <==> FaithfulAt(d, s.states[0].host, Planned(d, s), p)
    {
      FolderAfterSuccess(d, s, p);
    }
  }

  /** Acceptances undo no goal but the device lists and the absence of what they accept. */
  lemma OtherGoalsAfter(d: Desired, s: Pass)
    requires IsPass(d, s) && Compatible(d, s.states[0]) && Succeeded(d, s)
    ensures forall g :: Wants(d, g) && !g.DevicesMatch? && !(g.Gone? && g.folderID in AcceptedBy(Planned(d, s))) ==>
              Holds(d, After(s), g)
  {
    hide Plan, Effect, Apply, Observes, ConnectionsConfigured, ValidOrders, Holds, IsTrace, Succeeded, Compatible,
         AcceptedBy, Undoes, Wants;
    forall g | Wants(d, g) && !g.DevicesMatch? && !(g.Gone? && g.folderID in AcceptedBy(Planned(d, s)))
      ensures Holds(d, After(s), g)
    {
      NotUndone(d, s.states[0].host, Planned(d, s), g);
      GoalMetAfterSuccess(d, s, g);
    }
  }

  lemma NotUndone(d: Desired, host: Host, plan: seq<Action>, g: Goal)
    requires Wants(d, g) && !g.DevicesMatch? && !(g.Gone? && g.folderID in AcceptedBy(plan))
    ensures forall k :: 0 <= k < |plan| ==> !Undoes(d, host, plan[k], g)
  {
    forall k | 0 <= k < |plan| ensures !Undoes(d, host, plan[k], g) {
      assert plan[k] in plan;
    }
  }

  lemma CompatibleAfter(d: Desired, s: Pass)
    requires IsPass(d, s) && Compatible(d, s.states[0])
    requires forall p :: p in d.repos && d.repos[p].folderID != "" ==> PathAgrees(d, After(s), p)
    ensures Compatible(d, After(s))
  {
    hide Effect, PathAgrees;
    TraceKeepsHost(Planned(d, s), s.states, |s.states| - 1);
  }

  /** In particular a successful pass that accepts nothing settles. */
  lemma SuccessfulPassSettles(d: Desired, s: Pass)
    requires IsPass(d, s) && Compatible(d, s.states[0]) && Succeeded(d, s)
    requires forall a :: a in Planned(d, s) && a.AcceptSubscription? ==> a.folderID !in DesiredIDs(d)
    ensures Compatible(d, After(s)) && SettledBut(d, After(s), AcceptedBy(Planned(d, s)))
    ensures AcceptedBy(Planned(d, s)) == {} ==> Settled(d, After(s))
  {
    var plan := Planned(d, s);
    hide Plan, Effect, Apply, Observes, ConnectionsConfigured, ValidOrders, Compatible, Holds, Wants, IsPass, Succeeded;
    SuccessfulPassSettlesExactly(d, s);
    forall p | p in d.repos && d.repos[p].folderID != "" ensures FaithfulAt(d, s.states[0].host, plan, p) {
      assert d.repos[p].folderID in DesiredIDs(d);
      NeverAccepted(plan, d.repos[p].folderID);
    }
  }

  /** A desired folder that is not configured yet, and is offered to a subscription, is added and then accepted. */
  lemma DesiredFolderIsAddedAndAccepted(d: Desired, w: World, o: Observed, ord: Orders, now: int, p: Path,
                                        m: Acceptance)
    requires Observes(w, d, o) && DistinctIds(w.cfg.folders) && ValidOrders(d, o, ord) && m in Matched(d, o)
    requires p in d.repos && d.repos[p].folderID == m.offer.folderID != ""
    ensures
      var plan, r := Plan(w.host.table, d, o, ord, now), d.repos[p];
      AddSyncthingFolder(r.folderID, p, r.shareWith, r.canonical) in plan && AcceptAction(d, m) in plan
  {
    var r := d.repos[p];
    var add := AddSyncthingFolder(r.folderID, p, r.shareWith, r.canonical);
    MatchesAreAccepted(w.host.table, d, o, ord, now, m);
    ConfiguredIsNotAccepted(d, w, o, ord, now, AcceptAction(d, m));
    ObservedFolderOf(w.cfg.folders, w.disk, w.host.myID, r.folderID);
    hide Plan, ValidOrders, Observes, Matched, SyncIgnoreFileContent;
    RepairIsPlanned(d, w, o, ord, now, p, add);
  }

  /** Once a desired folder is configured at another path, or with another marker, no action of any plan changes that:
      no later pass repairs what a misplaced acceptance did. */
  lemma {:induction false} ConfiguredPathIsNeverChanged(d: Desired, s: Pass, p: Path, i: nat)
    requires IsPass(d, s) && Reachable(d, s.states[0].host) && DistinctIds(s.states[0].cfg.folders) && i < |s.states|
    requires p in d.repos && d.repos[p].folderID != "" && Lookup(s.states[0].cfg.folders, d.repos[p].folderID).Some?
    ensures
      var id := d.repos[p].folderID;
      var f, f' := Lookup(s.states[0].cfg.folders, id), Lookup(s.states[i].cfg.folders, id);
      f'.Some? && f'.value.path == f.value.path && MarkerNameOf(f'.value) == MarkerNameOf(f.value)
  {
    hide Plan, Effect, Observes, ConnectionsConfigured, ValidOrders;
    if i > 0 {
      var id, a := d.repos[p].folderID, Planned(d, s)[i - 1];
      ConfiguredPathIsNeverChanged(d, s, p, i - 1);
      LookupAfter(s.states[i - 1], a, s.states[i], id);
      PassIsConsistent(d, s);
      assert a in Planned(d, s) && id in DesiredIDs(d);
      if Accepts(a, id) {
        ConfiguredIsNotAccepted(d, s.states[0], s.observed, s.orders, s.now, a);
      }
      if a.AddSyncthingFolder? && a.folderID == id {
        ConfiguredIsNotAdded(d, s.states[0], s.observed, s.orders, s.now, p, a);
      }
    }
  }

  lemma ConfiguredIsNotAdded(d: Desired, w: World, o: Observed, ord: Orders, now: int, p: Path, a: Action)
    requires Observes(w, d, o) && DistinctIds(w.cfg.folders) && ValidOrders(d, o, ord) && Reachable(d, w.host)
    requires p in d.repos && d.repos[p].folderID != "" && a.AddSyncthingFolder? && a.folderID == d.repos[p].folderID
    requires a in Plan(w.host.table, d, o, ord, now)
    ensures Lookup(w.cfg.folders, d.repos[p].folderID).None?
  {
    ObservedFolderOf(w.cfg.folders, w.disk, w.host.myID, d.repos[p].folderID);
    hide Plan, ValidOrders, SyncIgnoreFileContent, Matched, Observes, FromFolder;
    PlanOrigin(w.host.table, d, o, ord, now, a);
    var q :| FromFolder(w.host.table, d, o, q, a);
    OnlyMissingFoldersAreAdded(w.host.table, d, o, q, a);
  }

  lemma OnlyMissingFoldersAreAdded(table: IgnoreTable, d: Desired, o: Observed, p: Path, a: Action)
    requires FromFolder(table, d, o, p, a) && a.AddSyncthingFolder?
    ensures LastFolder(o.managedFolders, a.folderID).None?
  {
    hide SyncIgnoreFileContent, FolderRepairs;
    var obs := LastFolder(o.managedFolders, d.repos[p].folderID);
    if obs.Some? { RepairsAre(obs.value, d.repos[p], p, a); }
  }

  // ---------------------------------------------------------------- runs of passes

  function LastOf(run: seq<Pass>): Pass
    requires run != []
  {
    run[|run| - 1]
  }

  /** Passes that follow one another. */
  ghost predicate IsRun(d: Desired, run: seq<Pass>) {
    run != [] ==>
      var before := run[..|run| - 1];
      && IsPass(d, LastOf(run))
      && IsRun(d, before)
      && (before != [] ==> LastOf(before).states != [] && LastOf(run).states[0] == After(LastOf(before)))
  }

  /** The pass accepts no desired folder away from its path; whatever else it accepts is free. */
  ghost predicate AcceptsInPlace(d: Desired, s: Pass)
    requires IsPass(d, s)
  {
    forall a :: a in Planned(d, s) ==> InPlace(d, s.states[0].host, a)
  }

  lemma NextStaysCompatible(d: Desired, s: Pass)
    requires IsPass(d, s) && Compatible(d, s.states[0]) && AcceptsInPlace(d, s)
    ensures Compatible(d, After(s)) && After(s).host == s.states[0].host
  {
    hide Effect, Compatible, InPlace, Plan, Observes, ConnectionsConfigured, ValidOrders;
    PassIsConsistent(d, s);
    TraceStaysCompatible(d, Planned(d, s), s.states, |s.states| - 1);
  }

  lemma {:induction false} RunStaysCompatible(d: Desired, run: seq<Pass>)
    requires run != [] && IsRun(d, run) && run[0].states != [] && Compatible(d, run[0].states[0])
    requires forall k :: 0 <= k < |run| - 1 ==> IsPass(d, run[k]) && AcceptsInPlace(d, run[k])
    ensures Compatible(d, LastOf(run).states[0]) && LastOf(run).states[0].host == run[0].states[0].host
  {
    hide IsPass, Compatible, AcceptsInPlace;
    var before := run[..|run| - 1];
    if before != [] {
      assert before[0] == run[0];
      RunStaysCompatible(d, before);
      assert LastOf(before) == run[|run| - 2];
      NextStaysCompatible(d, LastOf(before));
    }
  }

  /** What a run keeps whatever it does, and what it never regains. */
  lemma {:induction false} RunKeeps(d: Desired, run: seq<Pass>)
    requires run != [] && IsRun(d, run) && run[0].states != []
    requires Reachable(d, run[0].states[0].host) && DistinctIds(run[0].states[0].cfg.folders)
    ensures LastOf(run).states[0].host == run[0].states[0].host && DistinctIds(LastOf(run).states[0].cfg.folders)
    ensures !Compatible(d, run[0].states[0]) ==> !Compatible(d, LastOf(run).states[0])
  {
    hide IsPass, Compatible, Reachable, DistinctIds;
    var before := run[..|run| - 1];
    if before != [] {
      assert before[0] == run[0];
      RunKeeps(d, before);
      HostAfter(d, LastOf(before));
      if !Compatible(d, LastOf(before).states[0]) { IncompatibleStays(d, LastOf(before)); }
    }
  }

  /** Self-stabilisation. Whatever subset of whatever plans failed, and whatever was accepted, once a pass succeeds the
      state settles exactly when that pass started in a compatible state and the last acceptance of each desired folder
      was faithful. The next plan, for any later observation, then holds no device, folder, schedule, marker or ignore
      action: only new acceptances, and removals of folders the successful pass accepted and nobody desires. */
  lemma SelfStabilises(d: Desired, run: seq<Pass>, o: Observed, ord: Orders, now: int)
    requires run != [] && IsRun(d, run) && run[0].states != []
    requires Reachable(d, run[0].states[0].host) && DistinctIds(run[0].states[0].cfg.folders)
    requires Succeeded(d, LastOf(run))
    requires Observes(After(LastOf(run)), d, o) && ConnectionsConfigured(After(LastOf(run)), o)
             && ValidOrders(d, o, ord)
    ensures
      var last, accepted := LastOf(run), AcceptedBy(Planned(d, LastOf(run)));
      var right := Compatible(d, last.states[0]) && Faithful(d, run[0].states[0].host, Planned(d, last));
      && (Compatible(d, After(last)) && SettledBut(d, After(last), accepted) <==> right)
      && (right ==> forall a :: a in Plan(run[0].states[0].host.table, d, o, ord, now) && Structural(a) ==>
            a.AcceptSubscription? || (a.RemoveSyncthingFolder? && a.folderID in accepted))
  {
    hide Plan, ValidOrders, Observes, ConnectionsConfigured, Compatible, Succeeded, Faithful, SettledBut, Structural,
         Reachable, DistinctIds, AcceptedBy;
    var last := LastOf(run);
    RunKeeps(d, run);
    SuccessfulPassSettlesExactly(d, last);
    HostAfter(d, last);
    hide IsPass, IsRun;
    if SettledBut(d, After(last), AcceptedBy(Planned(d, last))) && Compatible(d, After(last)) {
      forall a | a in Plan(run[0].states[0].host.table, d, o, ord, now) && Structural(a) && !a.AcceptSubscription?
        ensures a.RemoveSyncthingFolder? && a.folderID in AcceptedBy(Planned(d, last))
      {
        OnlyRemovalsAreLeft(d, After(last), o, ord, now, AcceptedBy(Planned(d, last)), a);
      }
    }
  }

  lemma OnlyRemovalsAreLeft(d: Desired, w: World, o: Observed, ord: Orders, now: int, accepted: set<string>, a: Action)
    requires Compatible(d, w) && SettledBut(d, w, accepted) && Observes(w, d, o) && ValidOrders(d, o, ord)
    requires a in Plan(w.host.table, d, o, ord, now) && Structural(a) && !a.AcceptSubscription?
    ensures a.RemoveSyncthingFolder? && a.folderID in accepted
  {
    hide Plan, ValidOrders, Observes, Compatible, Structural, Holds, Wants;
    var g := StructuralActionServesAnUnmetGoal(d, w, o, ord, now, a);
    assert g.Gone? && g.folderID in accepted;
  }

  /** A sufficient condition on the run: from a compatible start, no pass before the last accepts a desired folder away
      from its path. */
  lemma SelfStabilisesInPlace(d: Desired, run: seq<Pass>)
    requires run != [] && IsRun(d, run) && run[0].states != [] && Compatible(d, run[0].states[0])
    requires forall k :: 0 <= k < |run| - 1 ==> IsPass(d, run[k]) && AcceptsInPlace(d, run[k])
    requires Succeeded(d, LastOf(run)) && Faithful(d, run[0].states[0].host, Planned(d, LastOf(run)))
    ensures Compatible(d, After(LastOf(run)))
    ensures SettledBut(d, After(LastOf(run)), AcceptedBy(Planned(d, LastOf(run))))
  {
    hide IsPass, Faithful, Succeeded, AcceptedBy, AcceptsInPlace, SettledBut, PathAgrees;
    RunStaysCompatible(d, run);
    SuccessfulPassSettlesExactly(d, LastOf(run));
  }

  lemma HostAfter(d: Desired, s: Pass)
    requires IsPass(d, s)
    ensures After(s).host == s.states[0].host
    ensures DistinctIds(s.states[0].cfg.folders) ==> DistinctIds(After(s).cfg.folders)
  {
    hide Effect, DistinctIds;
    TraceKeepsHost(Planned(d, s), s.states, |s.states| - 1);
  }

  /** Where nothing is accepted any more, nothing structural is planned at all. */
  lemma SelfStabilisesToSilence(d: Desired, run: seq<Pass>, o: Observed, ord: Orders, now: int)
    requires run != [] && IsRun(d, run) && run[0].states != []
    requires Reachable(d, run[0].states[0].host) && DistinctIds(run[0].states[0].cfg.folders)
    requires Compatible(d, LastOf(run).states[0])
    requires Succeeded(d, LastOf(run)) && AcceptedBy(Planned(d, LastOf(run))) == {}
    requires Observes(After(LastOf(run)), d, o) && ConnectionsConfigured(After(LastOf(run)), o)
             && ValidOrders(d, o, ord)
    requires Matched(d, o) == []
    ensures forall a :: a in Plan(run[0].states[0].host.table, d, o, ord, now) ==> !Structural(a)
  {
    var table, last := run[0].states[0].host.table, Planned(d, LastOf(run));
    hide Plan, ValidOrders, Observes, ConnectionsConfigured, Compatible, Succeeded, Structural, SettledBut, IsPass,
         IsRun, Matched, Reachable, DistinctIds;
    forall p | p in d.repos && d.repos[p].folderID != "" ensures FaithfulAt(d, run[0].states[0].host, last, p) {
      forall a | a in last ensures !Accepts(a, d.repos[p].folderID) { NothingAccepted(last, a); }
      NeverAccepted(last, d.repos[p].folderID);
    }
    SelfStabilises(d, run, o, ord, now);
    forall a | a in Plan(table, d, o, ord, now) && Structural(a) ensures !a.AcceptSubscription? {
      if a.AcceptSubscription? { OnlyMatchesAreAccepted(table, d, o, ord, now, a); }
    }
  }

  // ---------------------------------------------------------------- device entries and the operator's own fields

  /** The keys of a folder record that belong to the operator. */
  ghost predicate SameUserFields(f: Folder, g: Folder) {
    && f.user == g.user && f.kind == g.kind
    && f.ignorePerms == g.ignorePerms && f.autoNormalize == g.autoNormalize
  }

  /** Through any pass, failing or not, a configured folder that is desired stays configured with the
      operator's own fields of its record untouched, its device list aside. */
  lemma {:induction false} PassKeepsUserFields(d: Desired, s: Pass, i: nat, id: string)
    requires IsPass(d, s) && i < |s.states| && id in DesiredIDs(d)
    requires Lookup(s.states[0].cfg.folders, id).Some?
    ensures Lookup(s.states[i].cfg.folders, id).Some?
    ensures SameUserFields(Lookup(s.states[0].cfg.folders, id).value, Lookup(s.states[i].cfg.folders, id).value)
  {
    hide Plan, Effect, Observes, ConnectionsConfigured, ValidOrders, DesiredIDs;
    if i > 0 {
      PassKeepsUserFields(d, s, i - 1, id);
      PassIsConsistent(d, s);
      assert Planned(d, s)[i - 1] in Planned(d, s);
      LookupAfter(s.states[i - 1], Planned(d, s)[i - 1], s.states[i], id);
    }
  }

  /** The plan rewrites the folder's device list. */
  ghost predicate RewritesDevices(d: Desired, s: Pass, p: Path)
    requires IsPass(d, s) && p in d.repos
  {
    UpdateSyncthingFolderDevices(d.repos[p].folderID, d.repos[p].shareWith) in Planned(d, s)
  }

  /** Through any pass a configured folder's device entries either survive whole, with every key they hold, or are
      replaced by fresh ones; and they survive wherever no rewrite is planned. */
  lemma {:induction false} DeviceEntriesThroughAPass(d: Desired, s: Pass, p: Path, i: nat)
    requires IsPass(d, s) && Reachable(d, s.states[0].host) && DistinctIds(s.states[0].cfg.folders) && i < |s.states|
    requires p in d.repos && d.repos[p].folderID != "" && Lookup(s.states[0].cfg.folders, d.repos[p].folderID).Some?
    ensures
      var id := d.repos[p].folderID;
      var f, f' := Lookup(s.states[0].cfg.folders, id), Lookup(s.states[i].cfg.folders, id);
      && f'.Some?
      && (|| f'.value.devices == f.value.devices
          || (f'.value.devices == FolderDevices(d.repos[p].shareWith, s.states[0].host.myID)
              && RewritesDevices(d, s, p)))
  {
    hide Plan, Effect, Observes, ConnectionsConfigured, ValidOrders, FolderDevices;
    if i > 0 {
      var id, a := d.repos[p].folderID, Planned(d, s)[i - 1];
      DeviceEntriesThroughAPass(d, s, p, i - 1);
      TraceKeepsHost(Planned(d, s), s.states, i - 1);
      LookupAfter(s.states[i - 1], a, s.states[i], id);
      PassIsConsistent(d, s);
      assert a in Planned(d, s) && id in DesiredIDs(d);
      if Accepts(a, id) {
        ConfiguredIsNotAccepted(d, s.states[0], s.observed, s.orders, s.now, a);
      } else if a.AddSyncthingFolder? && a.folderID == id {
        ConfiguredIsNotAdded(d, s.states[0], s.observed, s.orders, s.now, p, a);
      } else if a.UpdateSyncthingFolderDevices? && a.folderID == id {
        var q :| q in d.repos && d.repos[q].folderID == id && a.devices == d.repos[q].shareWith;
        assert q == p;
      }
    }
  }

  /** In a successful pass the entries of a configured folder survive exactly when their devices were the wanted ones;
      otherwise all of them are fresh, and whatever else they held is lost. */
  lemma DeviceEntriesSurviveExactly(d: Desired, s: Pass, p: Path)
    requires IsPass(d, s) && Compatible(d, s.states[0]) && Succeeded(d, s)
    requires p in d.repos && d.repos[p].folderID != "" && Lookup(s.states[0].cfg.folders, d.repos[p].folderID).Some?
    ensures
      var id, my := d.repos[p].folderID, s.states[0].host.myID;
      var f, f' := Lookup(s.states[0].cfg.folders, id).value, Lookup(After(s).cfg.folders, id);
      && f'.Some?
      && (f'.value.devices == f.devices <==> SameDevices(DeviceIDs(f.devices, my), d.repos[p].shareWith))
      && (f'.value.devices != f.devices ==> f'.value.devices == FolderDevices(d.repos[p].shareWith, my))
  {
    hide Plan, Effect, Apply, ConnectionsConfigured, ValidOrders, FolderDevices, SameDevices;
    var w, last, id := s.states[0], |s.states| - 1, d.repos[p].folderID;
    DeviceEntriesThroughAPass(d, s, p, last);
    TraceKeepsHost(Planned(d, s), s.states, last);
    forall a | a in Planned(d, s) ensures !Accepts(a, id) {
      if Accepts(a, id) { ConfiguredIsNotAccepted(d, w, s.observed, s.orders, s.now, a); }
    }
    UnacceptedFolderAfterSuccess(d, s, p);
    if RewritesDevices(d, s, p) {
      RewriteMeansDrift(d, w, s.observed, s.orders, s.now, p);
    }
  }

  lemma RewriteMeansDrift(d: Desired, w: World, o: Observed, ord: Orders, now: int, p: Path)
    requires Observes(w, d, o) && DistinctIds(w.cfg.folders) && ValidOrders(d, o, ord) && Reachable(d, w.host)
    requires p in d.repos && d.repos[p].folderID != "" && Lookup(w.cfg.folders, d.repos[p].folderID).Some?
    requires
      var rewrite := UpdateSyncthingFolderDevices(d.repos[p].folderID, d.repos[p].shareWith);
      rewrite in Plan(w.host.table, d, o, ord, now)
    ensures
      var devices := Lookup(w.cfg.folders, d.repos[p].folderID).value.devices;
      !SameDevices(DeviceIDs(devices, w.host.myID), d.repos[p].shareWith)
  {
    var a := UpdateSyncthingFolderDevices(d.repos[p].folderID, d.repos[p].shareWith);
    ObservedFolderOf(w.cfg.folders, w.disk, w.host.myID, d.repos[p].folderID);
    hide Plan, ValidOrders, SyncIgnoreFileContent, Matched, SameDevices, DeviceIDs, ObserveFolders, LastFolder,
         FromFolder;
    PlanOrigin(w.host.table, d, o, ord, now, a);
    var q :| FromFolder(w.host.table, d, o, q, a);
    OnlyDriftedFoldersAreRewritten(w.host.table, d, o, q, a);
  }

  lemma OnlyDriftedFoldersAreRewritten(table: IgnoreTable, d: Desired, o: Observed, p: Path, a: Action)
    requires FromFolder(table, d, o, p, a) && a.UpdateSyncthingFolderDevices?
    ensures
      var obs := LastFolder(o.managedFolders, a.folderID);
      obs.Some? && !SameDevices(obs.value.devices, a.devices)
  {
    hide SyncIgnoreFileContent, FolderRepairs, SameDevices;
    var obs := LastFolder(o.managedFolders, d.repos[p].folderID);
    if obs.Some? { RepairsAre(obs.value, d.repos[p], p, a); }
  }

  // ---------------------------------------------------------------- when a pass succeeds

  /** Each desired folder's directory exists and nothing but a directory sits at its marker. */
  ghost predicate Ready(d: Desired, disk: Disk) {
    forall p :: p in d.repos && d.repos[p].folderID != "" ==> CanBeMarked(disk, p) && IsDir(disk, p)
  }

  ghost predicate CanBeMarked(disk: Disk, p: Path) {
    IsDir(disk, p) && FOLDER_MARKER_NAME in disk[p].markers ==> disk[p].markers[FOLDER_MARKER_NAME]
  }

  /** Nothing on disk stands in the way of an acceptance. */
  ghost predicate AcceptReady(host: Host, disk: Disk, a: Action)
    requires a.AcceptSubscription?
  {
    && a.path != [] && Target(host, a) != []
    && (forall q :: q in Ancestors(Target(host, a)) && q in disk ==> disk[q].Directory?)
    && CanBeMarked(disk, Target(host, a))
  }

  /** The handler's own checks pass. */
  ghost predicate Applicable(d: Desired, w: World, a: Action) {
    && Consistent(d, a)
    && match a
       case UpdateSyncthingFolderDevices(id, _) => id in DesiredIDs(d) && Lookup(w.cfg.folders, id).Some?
       case UpdateSyncthingFolderSchedule(id) => id in DesiredIDs(d) && Lookup(w.cfg.folders, id).Some?
       case PauseSyncthingFolder(id) => id in DesiredIDs(d) && Lookup(w.cfg.folders, id).Some?
       case UnpauseSyncthingFolder(id) => id in DesiredIDs(d) && Lookup(w.cfg.folders, id).Some?
       case RescanFolderNow(id, _, _) => id != ""
       case EnsureFolderMarker(p) => p in d.repos && d.repos[p].folderID != ""
       case EnsureIgnoreFile(p, _) => d.repos[p].folderID != ""
       case AcceptSubscription(_, _, _, _, _) => AcceptReady(w.host, w.disk, a)
       case _ => true
  }

  lemma PlanIsApplicable(d: Desired, w: World, o: Observed, ord: Orders, now: int, a: Action)
    requires DistinctIds(w.cfg.folders) && Observes(w, d, o) && ValidOrders(d, o, ord)
    requires a in Plan(w.host.table, d, o, ord, now) && (a.AcceptSubscription? ==> AcceptReady(w.host, w.disk, a))
    ensures Applicable(d, w, a)
  {
    hide Plan, ValidOrders, SyncIgnoreFileContent, Matched, Repair, AcceptReady, Observes, DistinctIds;
    PlanIsConsistent(d, w, o, ord, now, a);
    PlanOrigin(w.host.table, d, o, ord, now, a);
    if p :| FromFolder(w.host.table, d, o, p, a) {
      FolderActionIsApplicable(d, w, o, p, a);
    }
  }

  lemma FolderActionIsApplicable(d: Desired, w: World, o: Observed, p: Path, a: Action)
    requires DistinctIds(w.cfg.folders) && Observes(w, d, o) && FromFolder(w.host.table, d, o, p, a)
    requires Consistent(d, a)
    ensures Applicable(d, w, a)
  {
    ObservedFolderOf(w.cfg.folders, w.disk, w.host.myID, d.repos[p].folderID);
    hide SyncIgnoreFileContent, ObserveFolders, LastFolder, Lookup, Consistent, Repair;
    if Repair(w.host.table, d, o, p, a) {
      RepairIsApplicable(d, w, o, p, a);
    } else {
      assert d.repos[p].folderID in DesiredIDs(d);
    }
  }

  lemma RepairIsApplicable(d: Desired, w: World, o: Observed, p: Path, a: Action)
    requires p in d.repos && d.repos[p].folderID != "" && Repair(w.host.table, d, o, p, a) && Consistent(d, a)
    requires LastFolder(o.managedFolders, d.repos[p].folderID).Some? ==>
             Lookup(w.cfg.folders, d.repos[p].folderID).Some?
    ensures Applicable(d, w, a)
  {
    var r := d.repos[p];
    assert r.folderID in DesiredIDs(d);
    hide SyncIgnoreFileContent, LastFolder, DesiredIDs, FolderRepairs, Lookup, Consistent;
    var obs := LastFolder(o.managedFolders, r.folderID);
    if obs.Some? { RepairsAre(obs.value, r, p, a); }
  }

  lemma ApplicableStays(d: Desired, w: World, a: Action, w': World, b: Action)
    requires Consistent(d, a) && Effect(w, a, w') && Applicable(d, w, b)
    ensures Applicable(d, w', b)
  {
    EffectKeepsHost(w, a, w');
    if b.AcceptSubscription? {
      AcceptStaysReady(w, a, w', b);
    } else if b.UpdateSyncthingFolderDevices? || b.UpdateSyncthingFolderSchedule? || b.PauseSyncthingFolder?
              || b.UnpauseSyncthingFolder? {
      LookupAfter(w, a, w', b.folderID);
    }
    hide Effect;
  }

  lemma AcceptStaysReady(w: World, a: Action, w': World, b: Action)
    requires Effect(w, a, w') && b.AcceptSubscription? && AcceptReady(w.host, w.disk, b)
    ensures AcceptReady(w'.host, w'.disk, b)
  {
    EffectKeepsHost(w, a, w');
    var t := Target(w.host, b);
    EffectKeeps(w, a, w', t);
    forall q | q in Ancestors(t) && q in w'.disk ensures w'.disk[q].Directory? {
      EffectKeeps(w, a, w', q);
    }
  }

  lemma ReadyStays(d: Desired, w: World, a: Action, w': World)
    requires Effect(w, a, w') && Ready(d, w.disk)
    ensures Ready(d, w'.disk)
  {
    hide Effect;
    forall p | p in d.repos && d.repos[p].folderID != "" ensures CanBeMarked(w'.disk, p) && IsDir(w'.disk, p) {
      EffectKeeps(w, a, w', p);
    }
  }

  lemma AcceptSucceeds(host: Host, disk: Disk, a: Action)
    requires a.AcceptSubscription? && AcceptReady(host, disk, a)
    ensures AcceptedDisk(host, disk, a).Ok?
  {
    var t := Target(host, a);
    assert t[..|t|] == t && t in Ancestors(t);
    DirsKeep(disk, t, t);
    ConfigKeeps(WithDirs(disk, t).value, t, a, t);
  }

  lemma ApplicableSucceeds(d: Desired, w: World, a: Action)
    requires Reachable(d, w.host) && Ready(d, w.disk) && Applicable(d, w, a)
    ensures Apply(w, a).Ok?
  {
    hide SyncIgnoreFileContent, AcceptedDisk, AcceptReady, WithFolder;
    match a
    case AddSyncthingFolder(_, p, _, _) => assert CanBeMarked(w.disk, p) && IsDir(w.disk, p);
    case EnsureFolderMarker(p) => assert CanBeMarked(w.disk, p) && IsDir(w.disk, p);
    case EnsureIgnoreFile(p, patterns) =>
      assert IsDir(w.disk, p);
      assert WithIgnore(w.disk, p, SyncIgnoreFileContent(w.host.table, patterns)).Ok?;
    case AcceptSubscription(_, _, _, _, _) => AcceptSucceeds(w.host, w.disk, a);
    case _ =>
  }

  /** The states a plan goes through when nothing external fails. */
  ghost function Follow(w: World, plan: seq<Action>): Result<seq<World>>
    decreases plan
  {
    if plan == [] then Ok([w])
    else match Apply(w, plan[0])
      case Err => Err
      case Ok(w') =>
        match Follow(w', plan[1..]) case Err => Err case Ok(ws) => Ok([w] + ws)
  }

  lemma {:induction false} FollowSucceeds(d: Desired, w: World, plan: seq<Action>)
    requires Reachable(d, w.host) && Ready(d, w.disk)
    requires forall a :: a in plan ==> Applicable(d, w, a)
    ensures Follow(w, plan).Ok?
    ensures var ws := Follow(w, plan).value;
            && |ws| == |plan| + 1 && ws[0] == w
            && forall i :: 0 <= i < |plan| ==> Apply(ws[i], plan[i]) == Ok(ws[i + 1])
    decreases plan
  {
    hide Apply, Reachable, Ready, Applicable;
    if plan != [] {
      var a := plan[0];
      ApplicableSucceeds(d, w, a);
      var w' := Apply(w, a).value;
      OneStep(d, w, a, w');
      forall b | b in plan[1..] ensures Applicable(d, w', b) { OneStepKeeps(d, w, a, w', b); }
      FollowSucceeds(d, w', plan[1..]);
      var ws := Follow(w, plan).value;
      forall i | 0 <= i < |plan| ensures Apply(ws[i], plan[i]) == Ok(ws[i + 1]) {
        if i > 0 { assert plan[i] == plan[1..][i - 1]; }
      }
    }
  }

  lemma OneStep(d: Desired, w: World, a: Action, w': World)
    requires Apply(w, a) == Ok(w') && Reachable(d, w.host) && Ready(d, w.disk)
    ensures Effect(w, a, w') && Reachable(d, w'.host) && Ready(d, w'.disk)
  {
    hide Apply, Ready;
    EffectKeepsHost(w, a, w');
    ReadyStays(d, w, a, w');
  }

  lemma OneStepKeeps(d: Desired, w: World, a: Action, w': World, b: Action)
    requires Effect(w, a, w') && Applicable(d, w, a) && Applicable(d, w, b)
    ensures Applicable(d, w', b)
  {
    assert Consistent(d, a);
    hide Applicable, Effect;
    ApplicableStays(d, w, a, w', b);
  }

  /** With the desired directories in place, nothing in the way of an acceptance and no external failure, a pass does
      succeed, from any state; and the fixpoint is reached in it exactly when that state is compatible and the
      acceptances are faithful. */
  lemma OnePassReachesTheFixpoint(d: Desired, w: World, o: Observed, ord: Orders, now: int) returns (s: Pass)
    requires Reachable(d, w.host) && DistinctIds(w.cfg.folders) && Ready(d, w.disk)
    requires Observes(w, d, o) && ConnectionsConfigured(w, o) && ValidOrders(d, o, ord)
    requires forall m :: m in Matched(d, o) ==> AcceptReady(w.host, w.disk, AcceptAction(d, m))
    ensures IsPass(d, s) && Succeeded(d, s) && s.states != [] && s.states[0] == w && s.observed == o
    ensures Planned(d, s) == Plan(w.host.table, d, o, ord, now)
    ensures (Compatible(d, After(s)) && SettledBut(d, After(s), AcceptedBy(Planned(d, s))))
       <==> Compatible(d, w) && Faithful(d, w.host, Planned(d, s))
  {
    var plan := Plan(w.host.table, d, o, ord, now);
    hide Plan, ValidOrders, Observes, Compatible, Reachable, Ready, Matched, AcceptReady, Applicable, Apply,
         AcceptAction, DistinctIds;
    forall a | a in plan ensures Applicable(d, w, a) {
      if a.AcceptSubscription? { OnlyMatchesAreAccepted(w.host.table, d, o, ord, now, a); }
      PlanIsApplicable(d, w, o, ord, now, a);
    }
    FollowSucceeds(d, w, plan);
    s := Pass(o, ord, now, Follow(w, plan).value);
    hide Follow, ConnectionsConfigured, AcceptedBy, Faithful, SettledBut;
    SuccessfulPassSettlesExactly(d, s);
  }

  // ---------------------------------------------------------------- a faithless acceptance

  const HERE: Path := ["home", "here"]
  const THERE: Path := ["home", "there"]

  /** One repository at HERE, shared with D1; the same folder subscribed to at THERE and offered by D2. */
  function OverlappingDesired(): Desired {
    Desired(map[HERE := RepoDesired("X", [], ["D1"], "", "", 0, Unset, [], 0)], [],
            [SubscriptionEntry("example.org/x", "", THERE)], [])
  }

  function FreshMachine(): World {
    World(Host("ME", ["home"], IgnoreTable("", [])), Config([], [], map[]), map[HERE := EMPTY_DIRECTORY])
  }

  function OverlappingObserved(): Observed {
    Observed([], [RepoObs(HERE, "", false, None, None, "", false)], [], {}, map[], None, map[], false, map[], 0,
             [OfferedFolder("X", "example.org/x", "D2")], map[])
  }

  lemma OverlapIsCompatible()
    ensures Compatible(OverlappingDesired(), FreshMachine()) && Ready(OverlappingDesired(), FreshMachine().disk)
    ensures Reachable(OverlappingDesired(), FreshMachine().host) && DistinctIds(FreshMachine().cfg.folders)
  {}

  lemma OverlapIsObserved() returns (ord: Orders)
    ensures ValidOrders(OverlappingDesired(), OverlappingObserved(), ord)
    ensures Observes(FreshMachine(), OverlappingDesired(), OverlappingObserved())
  {
    var o := OverlappingObserved();
    ord := Orders([HERE], [], o.trackedRepos);
    assert o.trackedRepos[0] in o.trackedRepos;
  }

  lemma OverlapMatches()
    ensures
      var d, o := OverlappingDesired(), OverlappingObserved();
      Matched(d, o) == [Acceptance(d.subscriptions[0], Offers(o)[0])]
  {
    var d, o := OverlappingDesired(), OverlappingObserved();
    var sub, offer := d.subscriptions[0], Offers(o)[0];
    assert Offers(o) == [offer] && Offers(o)[1..] == [] && d.subscriptions[1..] == [];
    assert LocalIDs(o) == {};
    assert Titled(Offers(o), Wanted(sub)) == [offer] && [offer][1..] == [];
    assert Candidates(sub, Offers(o), {}) == [offer];
  }

  function TheAcceptance(): Action {
    AcceptSubscription("X", "example.org/x", THERE, "D2", "")
  }

  lemma OverlapIsAccepted(d: Desired, o: Observed, m: Acceptance)
    requires d == OverlappingDesired() && o == OverlappingObserved()
    ensures m in Matched(d, o) <==> m == Acceptance(d.subscriptions[0], Offers(o)[0])
    ensures m in Matched(d, o) ==> AcceptAction(d, m) == TheAcceptance()
    ensures Acceptance(d.subscriptions[0], Offers(o)[0]) in Matched(d, o)
    ensures AcceptReady(FreshMachine().host, FreshMachine().disk, TheAcceptance())
  {
    OverlapMatches();
    hide Matched;
  }

  /** The last acceptance is the only one. */
  lemma OnlyAcceptanceDecides(d: Desired, s: Pass, m: Acceptance)
    requires IsPass(d, s) && Succeeded(d, s) && m in Matched(d, s.observed)
    requires forall x :: x in Matched(d, s.observed) ==> AcceptAction(d, x) == AcceptAction(d, m)
    requires m.offer.folderID in DesiredIDs(d)
    ensures RecordOf(After(s), AcceptAction(d, m))
  {
    hide Plan, ValidOrders, Observes, ConnectionsConfigured, Matched, Apply, Effect, LastAcceptance, RecordOf,
         DesiredIDs;
    var table, plan, acc := s.states[0].host.table, Planned(d, s), AcceptAction(d, m);
    MatchesAreAccepted(table, d, s.observed, s.orders, s.now, m);
    assert Accepts(acc, m.offer.folderID);
    var k := LastAcceptance(plan, m.offer.folderID).value;
    OnlyMatchesAreAccepted(table, d, s.observed, s.orders, s.now, plan[k]);
    LastAcceptanceDecides(d, s, m.offer.folderID);
  }

  lemma AcceptancePrevails(d: Desired, w: World, o: Observed, ord: Orders, now: int, m: Acceptance) returns (s: Pass)
    requires Reachable(d, w.host) && DistinctIds(w.cfg.folders) && Ready(d, w.disk)
    requires Observes(w, d, o) && ConnectionsConfigured(w, o) && ValidOrders(d, o, ord)
    requires m in Matched(d, o) && AcceptReady(w.host, w.disk, AcceptAction(d, m))
    requires forall x :: x in Matched(d, o) ==> AcceptAction(d, x) == AcceptAction(d, m)
    requires m.offer.folderID in DesiredIDs(d)
    ensures IsPass(d, s) && Succeeded(d, s) && s.states != [] && s.states[0] == w && After(s).host == w.host
    ensures RecordOf(After(s), AcceptAction(d, m))
  {
    hide *;
    s := OnePassReachesTheFixpoint(d, w, o, ord, now);
    OnlyAcceptanceDecides(d, s, m);
    HostAfter(d, s);
  }

  lemma OverlapIsWanted() returns (m: Acceptance)
    ensures
      var d, o := OverlappingDesired(), OverlappingObserved();
      && m == Acceptance(d.subscriptions[0], Offers(o)[0]) && m.offer.folderID in DesiredIDs(d)
      && ConnectionsConfigured(FreshMachine(), o)
  {
    var d, o := OverlappingDesired(), OverlappingObserved();
    m := Acceptance(d.subscriptions[0], Offers(o)[0]);
    assert d.repos[HERE].folderID == "X";
  }

  lemma MisplacedRecord(d: Desired, w: World)
    requires d == OverlappingDesired() && w.host == FreshMachine().host && RecordOf(w, TheAcceptance())
    ensures Lookup(w.cfg.folders, "X").Some? && Lookup(w.cfg.folders, "X").value.path == THERE
    ensures !PathAgrees(d, w, HERE) && !Holds(d, w, DevicesMatch(HERE)) && !Compatible(d, w)
  {
    var refs := FolderDevices(["D2"], "ME");
    assert ["D2"][1..] == [];
    assert refs == [FolderDevice("D2", "", map[])] && refs[1..] == [];
    assert DeviceIDs(refs, "ME") == ["D2"];
    ForeignMemberDiffers(["D2"], ["D1"], "D1");
  }

  /** The settlement of a fully successful pass fails for a desired folder that is accepted as well: from a fresh
      machine, one pass in which every action succeeds ends with the folder configured at the subscription's path
      and shared with the offering peer, and `ConfiguredPathIsNeverChanged` says that no later pass moves it. */
  lemma AcceptanceOverridesDesiredFolder() returns (s: Pass)
    ensures
      var d := OverlappingDesired();
      && IsPass(d, s) && s.states[0] == FreshMachine() && Compatible(d, s.states[0]) && Succeeded(d, s)
      && Lookup(After(s).cfg.folders, "X").Some? && Lookup(After(s).cfg.folders, "X").value.path == THERE
      && !PathAgrees(d, After(s), HERE) && !Holds(d, After(s), DevicesMatch(HERE)) && !Compatible(d, After(s))
  {
    hide Matched, ValidOrders, Observes, Compatible, Ready, AcceptReady, RecordOf, Plan, Effect, IsPass, Succeeded,
         AcceptAction;
    var d, w, o := OverlappingDesired(), FreshMachine(), OverlappingObserved();
    var m := OverlapIsWanted();
    var ord := OverlapIsObserved();
    OverlapIsCompatible();
    forall x | x in Matched(d, o) ensures AcceptAction(d, x) == TheAcceptance() { OverlapIsAccepted(d, o, x); }
    OverlapIsAccepted(d, o, m);
    s := AcceptancePrevails(d, w, o, ord, 0, m);
    MisplacedRecord(d, After(s));
  }

  // ---------------------------------------------------------------- what can never settle

  lemma {:induction false} NeverLocalOrBlank(refs: seq<FolderDevice>, myID: string)
    ensures "" !in DeviceIDs(refs, myID) && myID !in DeviceIDs(refs, myID)
  {
    if refs != [] { NeverLocalOrBlank(refs[1..], myID); }
  }

  lemma {:induction false} ObservedDevicesAreRemote(fs: seq<Folder>, disk: Disk, myID: string, x: FolderObs)
    requires x in ObserveFolders(fs, disk, myID)
    ensures "" !in x.devices && myID !in x.devices
  {
    if x == ObserveFolder(fs[0], disk, myID) {
      NeverLocalOrBlank(fs[0].devices, myID);
    } else {
      ObservedDevicesAreRemote(fs[1..], disk, myID, x);
    }
  }

  lemma ForeignMemberDiffers(a: seq<string>, b: seq<string>, x: string)
    requires x in b && x !in a
    ensures !SameDevices(a, b)
  {
    assert x in multiset(b) && x !in multiset(a);
  }

  /** A share list that names the local device or a blank one drifts forever: in whatever state, the plan adds the
      folder or rewrites its devices. */
  lemma LocalOrBlankShareDriftsForever(d: Desired, w: World, o: Observed, ord: Orders, now: int, p: Path)
    returns (a: Action)
    requires Observes(w, d, o) && ValidOrders(d, o, ord)
    requires p in d.repos && d.repos[p].folderID != ""
    requires "" in d.repos[p].shareWith || w.host.myID in d.repos[p].shareWith
    ensures a in Plan(w.host.table, d, o, ord, now) && Structural(a)
  {
    hide Plan, ValidOrders, SyncIgnoreFileContent, ObserveFolders;
    var r := d.repos[p];
    var obs := LastFolder(o.managedFolders, r.folderID);
    if obs.None? {
      a := AddSyncthingFolder(r.folderID, p, r.shareWith, r.canonical);
    } else {
      ObservedDevicesAreRemote(w.cfg.folders, w.disk, w.host.myID, obs.value);
      ForeignMemberDiffers(obs.value.devices, r.shareWith, if "" in r.shareWith then "" else w.host.myID);
      a := UpdateSyncthingFolderDevices(r.folderID, r.shareWith);
      RepairsAre(obs.value, r, p, a);
    }
    RepairIsPlanned(d, w, o, ord, now, p, a);
  }

  // ---------------------------------------------------------------- determinism

  /** `Diff` promises the same plan for the same inputs although it walks Go maps: with distinct folder
      IDs and repository paths each sorted walk has only one order. */
  lemma PlanIsDeterministic(table: IgnoreTable, d: Desired, o: Observed, x: Orders, y: Orders, now: int)
    requires ValidOrders(d, o, x) && ValidOrders(d, o, y)
    requires forall p, q :: p in d.repos && q in d.repos && d.repos[p].folderID == d.repos[q].folderID != "" ==> p == q
    requires forall f, g :: f in o.managedFolders && g in o.managedFolders && f.folderID == g.folderID ==> f == g
    requires forall r, s :: r in o.trackedRepos && s in o.trackedRepos && RepoObsKey(r) == RepoObsKey(s) ==> r == s
    ensures Plan(table, d, o, x, now) == Plan(table, d, o, y, now)
  {
    hide Plan, RepoObsKey;
    SameSets(x.desired, y.desired);
    SortedUnique(x.desired, y.desired, RepoKey(d));
    OneOrder(o.managedFolders, x.folders, y.folders, FolderKey);
    OneOrder(o.trackedRepos, x.repos, y.repos, RepoObsKey);
  }

  lemma OneOrder<T>(all: seq<T>, x: seq<T>, y: seq<T>, key: T -> string)
    requires SameElements(x, all) && SameElements(y, all) && SortedBy(x, key) && SortedBy(y, key)
    requires forall f, g :: f in all && g in all && key(f) == key(g) ==> f == g
    ensures x == y
  {
    forall f, g | f in x && g in x && key(f) == key(g) ensures f == g {
      SameElementsMembers(x, all, f);
      SameElementsMembers(x, all, g);
    }
    SortedUnique(x, y, key);
  }

  /** Two walks of the same map visit the same elements once each. */
  lemma {:induction false} SameSets(a: seq<Path>, b: seq<Path>)
    requires forall p :: p in a <==> p in b
    requires forall i, j :: 0 <= i < j < |a| ==> a[i] != a[j]
    requires forall i, j :: 0 <= i < j < |b| ==> b[i] != b[j]
    ensures SameElements(a, b)
  {
    forall p ensures multiset(a)[p] == multiset(b)[p] {
      OnceEach(a, p);
      OnceEach(b, p);
    }
  }

  lemma {:induction false} OnceEach(a: seq<Path>, p: Path)
    requires forall i, j :: 0 <= i < j < |a| ==> a[i] != a[j]
    ensures multiset(a)[p] == if p in a then 1 else 0
  {
    if a != [] {
      OnceEach(a[1..], p);
      MultisetTail(a);
    }
  }
}
