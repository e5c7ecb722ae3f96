/** `Diff` as it runs: index maps filled in loops, sorted copies, and one growing plan. */
module Planner {
  import opened Base
  import opened Ignore
  import opened Syncthing
  import opened Subscribe
  import opened World
  import opened Diff
  import Resolver

  /** The `obsFolders` and `obsRepoByPath` maps: a later entry replaces an earlier one. */
  method IndexFolders(fs: seq<FolderObs>) returns (m: map<string, FolderObs>)
    ensures forall id :: if id in m then LastFolder(fs, id) == Some(m[id]) else LastFolder(fs, id).None?
  {
    m := map[];
    for i := 0 to |fs|
      invariant forall id :: if id in m then LastFolder(fs[..i], id) == Some(m[id]) else LastFolder(fs[..i], id).None?
    {
      assert fs[..i + 1][..i] == fs[..i];
      m := m[fs[i].folderID := fs[i]];
    }
    assert fs[..|fs|] == fs;
  }

  method IndexRepos(rs: seq<RepoObs>) returns (m: map<Path, RepoObs>)
    ensures forall p :: if p in m then LastRepo(rs, p) == Some(m[p]) else LastRepo(rs, p).None?
  {
    m := map[];
    for i := 0 to |rs|
      invariant forall p :: if p in m then LastRepo(rs[..i], p) == Some(m[p]) else LastRepo(rs[..i], p).None?
    {
      assert rs[..i + 1][..i] == rs[..i];
      m := m[rs[i].path := rs[i]];
    }
    assert rs[..|rs|] == rs;
  }

  method EmitPeers(peers: seq<PeerDesired>, live: seq<string>) returns (plan: seq<Action>)
    ensures plan == PeerActions(peers, live)
  {
    var known := set id | id in live;
    plan := [];
    for i := 0 to |peers|
      invariant plan + PeerActions(peers[i..], live) == PeerActions(peers, live)
    {
      var p := peers[i];
      assert peers[i..][0] == p && peers[i..][1..] == peers[i + 1..];
      if p.deviceID != "" && p.deviceID !in known {
        plan := plan + [AddSyncthingDevice(p.name, p.deviceID)];
      }
    }
  }

  // ---------------------------------------------------------------- sorted walks

  lemma {:induction false} PermutationKeepsDistinct(a: seq<Path>, b: seq<Path>)
    requires SameElements(a, b)
    requires forall i, j :: 0 <= i < j < |a| ==> a[i] != a[j]
    ensures forall i, j :: 0 <= i < j < |b| ==> b[i] != b[j]
  {
    forall i, j | 0 <= i < j < |b| ensures b[i] != b[j] {
      if b[i] == b[j] {
        assert b == b[..i] + [b[i]] + b[i + 1..j] + [b[j]] + b[j + 1..];
        assert multiset(b)[b[i]] >= 2;
        AtMostOnce(a, b[i]);
      }
    }
  }

  lemma {:induction false} AtMostOnce(a: seq<Path>, p: Path)
    requires forall i, j :: 0 <= i < j < |a| ==> a[i] != a[j]
    ensures multiset(a)[p] <= 1
  {
    if a != [] {
      AtMostOnce(a[1..], p);
      MultisetTail(a);
      if p in a[1..] { assert p != a[0]; }
    }
  }

  /** Walk the map in whatever order, then sort by folder ID. */
  method DesiredOrder(d: Desired) returns (order: seq<Path>)
    ensures IsEnumeration(d, order) && SortedBy(order, RepoKey(d))
  {
    var todo := d.repos.Keys;
    var walked: seq<Path> := [];
    while todo != {}
      invariant todo <= d.repos.Keys
      invariant forall p :: p in walked <==> p in d.repos && p !in todo && d.repos[p].folderID != ""
      invariant forall i, j :: 0 <= i < j < |walked| ==> walked[i] != walked[j]
      decreases todo
    {
      var p :| p in todo;
      todo := todo - {p};
      if d.repos[p].folderID != "" { walked := walked + [p]; }
    }
    var repos := d.repos;
    var key: Path -> string := p => if p in repos then repos[p].folderID else "";
    order := SortBy(walked, key);
    PermutationKeepsDistinct(walked, order);
    forall p ensures p in order <==> p in walked { SameElementsMembers(order, walked, p); }
    forall i, j | 0 <= i < j < |order| ensures !LexLess(RepoKey(d)(order[j]), RepoKey(d)(order[i])) {
      assert key(order[j]) == RepoKey(d)(order[j]) && key(order[i]) == RepoKey(d)(order[i]);
    }
  }

  function Self(s: string): string { s }

  /** Compare two device lists by sorting copies of both. */
  method EqualSorted(a: seq<string>, b: seq<string>) returns (r: bool)
    ensures r <==> SameDevices(a, b)
  {
    var x := SortBy(a, Self);
    var y := SortBy(b, Self);
    if SameDevices(a, b) { SortedUnique(x, y, Self); }
    if |x| != |y| { return false; }
    for i := 0 to |x|
      invariant x[..i] == y[..i]
    {
      if x[i] != y[i] { return false; }
    }
    assert x == x[..|x|] == y[..|y|] == y;
    return true;
  }

  // ---------------------------------------------------------------- the sections

  method EmitFolder(table: IgnoreTable, d: Desired, o: Observed, p: Path, folders: map<string, FolderObs>,
                    repos: map<Path, RepoObs>)
    returns (plan: seq<Action>)
    requires p in d.repos
    requires forall id :: if id in folders then LastFolder(o.managedFolders, id) == Some(folders[id])
                          else LastFolder(o.managedFolders, id).None?
    requires forall q :: if q in repos then LastRepo(o.trackedRepos, q) == Some(repos[q])
                         else LastRepo(o.trackedRepos, q).None?
    ensures plan == FolderActions(table, d, o, p)
  {
    hide SyncIgnoreFileContent, SmartRescanAction, AutoPauseAction, FolderScheduleDrifted;
    var r := d.repos[p];
    plan := [];
    if r.folderID !in folders {
      plan := [AddSyncthingFolder(r.folderID, p, r.shareWith, r.canonical)];
    } else {
      var obs := folders[r.folderID];
      var same := EqualSorted(obs.devices, r.shareWith);
      plan := When(!same, UpdateSyncthingFolderDevices(r.folderID, r.shareWith));
      plan := plan + When(FolderScheduleDrifted(obs), UpdateSyncthingFolderSchedule(r.folderID));
      plan := plan + When(obs.markerDirMissing, EnsureFolderMarker(p));
      assert plan == FolderRepairs(obs, r, p);
      var upkeep: seq<Action> := [];
      if o.lastActivityByPath.Some? {
        upkeep := Emit(AutoPauseAction(obs, p, o.lastActivityByPath.value, o.now));
      }
      if !obs.paused {
        upkeep := upkeep + Emit(SmartRescanAction(obs, p, o));
      }
      assert upkeep == FolderUpkeep(obs, o, p);
      plan := plan + upkeep;
    }
    var have := if p in repos then repos[p].ignoreFileContent else "";
    var want := RenderIgnoreFile(table, r.ignore);
    assert have == ObservedIgnore(o, p);
    if have != want {
      plan := plan + [EnsureIgnoreFile(p, r.ignore)];
    }
  }

  method EmitRemoves(fs: seq<FolderObs>, keep: set<string>) returns (plan: seq<Action>)
    ensures plan == RemoveActions(fs, keep)
  {
    plan := [];
    for i := 0 to |fs|
      invariant plan + RemoveActions(fs[i..], keep) == RemoveActions(fs, keep)
    {
      assert fs[i..][0] == fs[i] && fs[i..][1..] == fs[i + 1..];
      if fs[i].folderID !in keep {
        plan := plan + [RemoveSyncthingFolder(fs[i].folderID)];
      }
    }
  }

  lemma {:induction false} BackupsOneMore(d: Desired, o: Observed, rs: seq<RepoObs>, r: RepoObs, now: int)
    ensures BackupSection(d, o, rs + [r], now) == BackupSection(d, o, rs, now) + BackupActions(d, o, r, now)
  {
    hide BackupActions;
    if rs == [] {
      assert rs + [r] == [r] && [r][1..] == [];
    } else {
      assert (rs + [r])[1..] == rs[1..] + [r];
      BackupsOneMore(d, o, rs[1..], r, now);
    }
  }

  method EmitBackups(d: Desired, o: Observed, repos: seq<RepoObs>, now: int) returns (plan: seq<Action>)
    ensures plan == BackupSection(d, o, repos, now)
  {
    plan := [];
    for i := 0 to |repos|
      invariant plan == BackupSection(d, o, repos[..i], now)
    {
      hide BackupActions, BackupSection;
      assert repos[..i + 1] == repos[..i] + [repos[i]];
      BackupsOneMore(d, o, repos[..i], repos[i], now);
      plan := plan + BackupActions(d, o, repos[i], now);
    }
    assert repos[..|repos|] == repos;
  }

  lemma {:induction false} ConcatAppend<T>(a: seq<seq<T>>, x: seq<T>)
    ensures Concat(a + [x]) == Concat(a) + x
  {
    if a == [] {
      assert a + [x] == [x] && [x][1..] == [];
    } else {
      assert (a + [x])[1..] == a[1..] + [x];
      ConcatAppend(a[1..], x);
    }
  }

  method EmitFolders(table: IgnoreTable, d: Desired, o: Observed, order: seq<Path>) returns (plan: seq<Action>)
    requires forall p :: p in order ==> p in d.repos
    ensures plan == FolderSection(table, d, o, order)
  {
    hide FolderActions;
    var folders := IndexFolders(o.managedFolders);
    var repos := IndexRepos(o.trackedRepos);
    ghost var parts: seq<seq<Action>> := [];
    plan := [];
    for i := 0 to |order|
      invariant |parts| == i && forall k :: 0 <= k < i ==> parts[k] == FolderActions(table, d, o, order[k])
      invariant plan == Concat(parts)
    {
      var actions := EmitFolder(table, d, o, order[i], folders, repos);
      ConcatAppend(parts, actions);
      parts := parts + [actions];
      plan := plan + actions;
    }
    assert parts == seq(|order|, i requires 0 <= i < |order| => FolderActions(table, d, o, order[i]));
  }

  method Accepted(d: Desired, o: Observed) returns (accs: seq<Acceptance>)
    ensures accs == Matched(d, o)
  {
    hide Acceptances, Candidates, StatusOf, Eligible, Disagree, Offers, LocalIDs;
    var statuses;
    accs, statuses := Resolver.Resolve(d.subscriptions, Offers(o), LocalIDs(o));
  }

  method EmitAcceptances(d: Desired, o: Observed) returns (plan: seq<Action>, ids: set<string>)
    ensures plan == AcceptActions(d, Matched(d, o)) && ids == AcceptedIDs(d, o)
  {
    hide AcceptAction, Acceptances;
    var accs := Accepted(d, o);
    plan := [];
    for i := 0 to |accs|
      invariant |plan| == i && forall k :: 0 <= k < i ==> plan[k] == AcceptAction(d, accs[k])
    {
      plan := plan + [AcceptAction(d, accs[i])];
    }
    ids := set acc | acc in accs :: acc.offer.folderID;
  }

  /** The plan for some order of the map walks. */
  ghost predicate IsPlan(table: IgnoreTable, d: Desired, o: Observed, now: int, plan: seq<Action>) {
    exists ord: Orders :: ValidOrders(d, o, ord) && plan == Plan(table, d, o, ord, now)
  }

  /** The whole computation. The returned orders record which walks of the maps it made. */
  method ComputePlan(table: IgnoreTable, d: Desired, o: Observed, now: int)
    returns (plan: seq<Action>, ghost ord: Orders)
    ensures ValidOrders(d, o, ord) && plan == Plan(table, d, o, ord, now)
    ensures IsPlan(table, d, o, now, plan)
  {
    hide RemoveActions, BackupSection, PeerActions, FolderSection, AcceptActions, Matched, AcceptedIDs;
    var order := DesiredOrder(d);
    var sorted := SortBy(o.managedFolders, FolderKey);
    var repos := SortBy(o.trackedRepos, RepoObsKey);
    ord := Orders(order, sorted, repos);
    var peers := EmitPeers(d.peers, o.livePeers);
    var folders := EmitFolders(table, d, o, order);
    var accepts, accepted := EmitAcceptances(d, o);
    var wanted := set p | p in d.repos && d.repos[p].folderID != "" :: d.repos[p].folderID;
    var removes := EmitRemoves(sorted, wanted + accepted);
    var backups := EmitBackups(d, o, repos, now);
    plan := peers + folders + accepts + removes + backups;
    assert ValidOrders(d, o, ord) && plan == Plan(table, d, o, ord, now);
  }
}
