/** Where a desired state comes from: the walk of internal/reconcile/providers.go over the scan roots
    and `BuildDesired` of internal/reconcile/types.go. */
module Discovery {
  import opened Base
  import opened Dedup
  import opened Ignore
  import opened Subscribe
  import opened World
  import opened Diff

  datatype Machine = Machine(
    peers: seq<PeerDesired>, subscribe: seq<SubscriptionEntry>,
    scanRoots: seq<Path>, exclude: seq<Path>, scanDepth: int,
    defaultShareWith: seq<string>, defaultCommitPolicy: string, defaultInterval: Interval, slot: nat)

  /** The part of state.toml that shapes the desired state. */
  datatype State = State(peers: seq<PeerDesired>, trackedOverrides: seq<Path>, subscriptions: seq<SubscriptionEntry>)

  // ---------------------------------------------------------------- the walk

  ghost predicate HasRepoFile(disk: Disk, p: Path) {
    IsDir(disk, p) && !disk[p].repoFile.NoFile?
  }

  /** The walk from `root` reaches `p`, which holds a `.dotkeeper.toml`: within depth, through existing
      directories, past no excluded directory and past no other repository. */
  ghost predicate Walked(disk: Disk, exclude: set<Path>, depth: int, root: Path, p: Path) {
    && root <= p && |p| - |root| <= depth
    && HasRepoFile(disk, p)
    && (forall k :: |root| <= k <= |p| ==> p[..k] !in exclude)
    && (forall k :: |root| <= k < |p| ==> IsDir(disk, p[..k]) && !HasRepoFile(disk, p[..k]))
  }

  ghost function Found(disk: Disk, exclude: set<Path>, depth: int, root: Path): set<Path> {
    set p | p in disk && Walked(disk, exclude, depth, root, p)
  }

  /** A repository's parsed file; `None` when it cannot be decoded. */
  function LoadRepo(disk: Disk, p: Path): Option<RepoConfig> {
    if IsDir(disk, p) && disk[p].repoFile.Parsed? then Some(disk[p].repoFile.config) else None
  }

  ghost function LoadAll(disk: Disk, ps: set<Path>): map<Path, Option<RepoConfig>> {
    map p | p in ps :: LoadRepo(disk, p)
  }

  predicate Child(disk: Disk, dir: Path, q: Path) {
    q in disk && disk[q].Directory? && |q| == |dir| + 1 && q[..|dir|] == dir
  }

  /** The sub-directories `os.ReadDir` lists. */
  function Children(disk: Disk, dir: Path): (r: set<Path>)
    ensures forall q :: q in r <==> Child(disk, dir, q)
  {
    set q | q in disk.Keys && Child(disk, dir, q)
  }

  /** Below a directory that is neither excluded nor a repository the walk is the walk of its children. */
  lemma WalkedThroughChild(disk: Disk, exclude: set<Path>, depth: int, dir: Path, p: Path)
    requires dir !in exclude && IsDir(disk, dir) && !HasRepoFile(disk, dir)
    ensures Walked(disk, exclude, depth, dir, p) <==>
            |dir| < |p| && Child(disk, dir, p[..|dir| + 1])
            && Walked(disk, exclude, depth - 1, p[..|dir| + 1], p) && 0 < depth
  {
    if Walked(disk, exclude, depth, dir, p) {
      assert p != dir;
      var q := p[..|dir| + 1];
      assert q[..|dir|] == p[..|dir|] == dir;
      if |q| == |p| { assert q == p; }
      assert p[..|q|] == q;
      assert Child(disk, dir, q);
    } else if |dir| < |p| && Child(disk, dir, p[..|dir| + 1])
              && Walked(disk, exclude, depth - 1, p[..|dir| + 1], p) && 0 < depth {
      var q := p[..|dir| + 1];
      assert p[..|dir|] == q[..|dir|] == dir;
      forall k | |dir| <= k <= |p| ensures p[..k] !in exclude {
        if k == |dir| { assert p[..k] == dir; }
      }
      forall k | |dir| <= k < |p| ensures IsDir(disk, p[..k]) && !HasRepoFile(disk, p[..k]) {
        if k == |dir| { assert p[..k] == dir; }
      }
    }
  }

  /** Nothing is found below an excluded directory, or without descending from a plain one. */
  lemma NothingFound(disk: Disk, exclude: set<Path>, depth: int, dir: Path)
    requires dir in exclude || (!HasRepoFile(disk, dir) && (depth <= 0 || !IsDir(disk, dir)))
    ensures Found(disk, exclude, depth, dir) == {}
  {
    forall p | p in disk ensures !Walked(disk, exclude, depth, dir, p) {
      if dir <= p {
        assert p[..|dir|] == dir;
        assert |p| == |dir| ==> p == dir;
      }
    }
  }

  lemma PlusIsAssociative<K, V>(a: map<K, V>, b: map<K, V>, c: map<K, V>)
    ensures a + b + c == a + (b + c)
  {}

  ghost function FoundBelow(disk: Disk, exclude: set<Path>, depth: int, dirs: set<Path>): set<Path> {
    set p | p in disk && exists q :: q in dirs && Walked(disk, exclude, depth, q, p)
  }

  ghost function LoadBelow(disk: Disk, exclude: set<Path>, depth: int, dirs: set<Path>): map<Path, Option<RepoConfig>> {
    LoadAll(disk, FoundBelow(disk, exclude, depth, dirs))
  }

  lemma NothingBelowNowhere(disk: Disk, exclude: set<Path>, depth: int)
    ensures LoadBelow(disk, exclude, depth, {}) == map[]
  {}

  lemma FoundBelowOneMore(disk: Disk, exclude: set<Path>, depth: int, dirs: set<Path>, dir: Path,
                          repos: map<Path, Option<RepoConfig>>)
    ensures repos + LoadBelow(disk, exclude, depth, dirs) + LoadAll(disk, Found(disk, exclude, depth, dir))
         == repos + LoadBelow(disk, exclude, depth, dirs + {dir})
  {
    assert FoundBelow(disk, exclude, depth, dirs + {dir})
        == FoundBelow(disk, exclude, depth, dirs) + Found(disk, exclude, depth, dir);
    PlusIsAssociative(repos, LoadBelow(disk, exclude, depth, dirs), LoadAll(disk, Found(disk, exclude, depth, dir)));
    assert LoadBelow(disk, exclude, depth, dirs + {dir})
        == LoadBelow(disk, exclude, depth, dirs) + LoadAll(disk, Found(disk, exclude, depth, dir));
  }

  /** `walkDir`: fills the shared `repos` map with exactly the reachable repositories. */
  method WalkDir(dir: Path, exclude: set<Path>, currentDepth: nat, maxDepth: nat, disk: Disk,
                 repos: map<Path, Option<RepoConfig>>)
    returns (r: map<Path, Option<RepoConfig>>)
    requires currentDepth <= maxDepth
    ensures r == repos + LoadAll(disk, Found(disk, exclude, maxDepth - currentDepth, dir))
    decreases maxDepth - currentDepth, 1
  {
    if dir in exclude {
      NothingFound(disk, exclude, maxDepth - currentDepth, dir);
      return repos;
    }
    if IsDir(disk, dir) && !disk[dir].repoFile.NoFile? {
      RepositoryIsALeaf(disk, exclude, maxDepth - currentDepth, dir);
      return repos[dir := LoadRepo(disk, dir)];
    }
    if currentDepth >= maxDepth || !IsDir(disk, dir) {
      NothingFound(disk, exclude, maxDepth - currentDepth, dir);
      return repos;
    }
    r := WalkChildren(dir, exclude, currentDepth, maxDepth, disk, repos);
  }

  /** The loop over the directory's entries. */
  method WalkChildren(dir: Path, exclude: set<Path>, currentDepth: nat, maxDepth: nat, disk: Disk,
                      repos: map<Path, Option<RepoConfig>>)
    returns (r: map<Path, Option<RepoConfig>>)
    requires currentDepth < maxDepth && dir !in exclude && IsDir(disk, dir) && !HasRepoFile(disk, dir)
    ensures r == repos + LoadAll(disk, Found(disk, exclude, maxDepth - currentDepth, dir))
    decreases maxDepth - currentDepth, 0
  {
    hide Walked, Found, FoundBelow, LoadAll;
    var depth := maxDepth - currentDepth - 1;
    var todo := Children(disk, dir);
    ghost var kids := todo;
    ghost var done: set<Path> := {};
    r := repos;
    NothingBelowNowhere(disk, exclude, depth);
    while todo != {}
      invariant todo + done == kids
      invariant r == repos + LoadBelow(disk, exclude, depth, done)
      decreases todo
    {
      var child :| child in todo;
      ghost var before := r;
      r := WalkDir(child, exclude, currentDepth + 1, maxDepth, disk, r);
      assert r == before + LoadAll(disk, Found(disk, exclude, depth, child));
      FoundBelowOneMore(disk, exclude, depth, done, child, repos);
      assert r == repos + LoadBelow(disk, exclude, depth, done + {child});
      todo := todo - {child};
      done := done + {child};
    }
    assert done == kids;
    FoundByChildren(disk, exclude, maxDepth - currentDepth, dir, kids);
    assert LoadBelow(disk, exclude, depth, kids) == LoadAll(disk, Found(disk, exclude, maxDepth - currentDepth, dir));
  }

  lemma FoundByChildren(disk: Disk, exclude: set<Path>, depth: int, dir: Path, kids: set<Path>)
    requires dir !in exclude && IsDir(disk, dir) && !HasRepoFile(disk, dir) && 0 < depth
    requires forall q :: Child(disk, dir, q) <==> q in kids
    ensures FoundBelow(disk, exclude, depth - 1, kids) == Found(disk, exclude, depth, dir)
  {
    forall p | p in disk
      ensures p in FoundBelow(disk, exclude, depth - 1, kids) <==> p in Found(disk, exclude, depth, dir)
    {
      WalkedThroughChild(disk, exclude, depth, dir, p);
      if q :| q in kids && Walked(disk, exclude, depth - 1, q, p) {
        assert Child(disk, dir, q);
        assert p[..|dir| + 1] == q;
      }
    }
  }

  lemma RepositoryIsALeaf(disk: Disk, exclude: set<Path>, depth: int, dir: Path)
    requires HasRepoFile(disk, dir) && dir !in exclude && 0 <= depth
    ensures Found(disk, exclude, depth, dir) == {dir}
  {
    assert forall k :: |dir| <= k <= |dir| ==> dir[..k] == dir;
    forall p | p in Found(disk, exclude, depth, dir) ensures p == dir {
      assert p[..|dir|] == dir;
    }
  }

  // ---------------------------------------------------------------- all roots

  function EffectiveDepth(m: Machine): nat {
    if m.scanDepth <= 0 then 3 else m.scanDepth
  }

  function EffectiveRoots(m: Machine): seq<Path> {
    if m.scanRoots == [] then [FALLBACK_MIRROR_ROOT] else m.scanRoots
  }

  function ExpandAll(home: Path, ps: seq<Path>): (r: seq<Path>)
    ensures |r| == |ps| && forall i :: 0 <= i < |ps| ==> r[i] == Expand(home, ps[i])
  {
    seq(|ps|, i requires 0 <= i < |ps| => Expand(home, ps[i]))
  }

  function ExcludeSet(m: Machine, home: Path): set<Path> {
    set p | p in m.exclude :: Expand(home, p)
  }

  ghost predicate Discovered(m: Machine, home: Path, disk: Disk, p: Path) {
    exists root :: root in ExpandAll(home, EffectiveRoots(m))
      && Walked(disk, ExcludeSet(m, home), EffectiveDepth(m), root, p)
  }

  ghost function DiscoveredSet(m: Machine, home: Path, disk: Disk): set<Path> {
    set p | p in disk && Discovered(m, home, disk, p)
  }

  method DiscoverRepos(m: Machine, home: Path, disk: Disk) returns (repos: map<Path, Option<RepoConfig>>)
    ensures repos == LoadAll(disk, DiscoveredSet(m, home, disk))
  {
    hide Walked, Expand, FoundBelow, Found, LoadAll;
    repos := map[];
    var roots := ExpandAll(home, EffectiveRoots(m));
    var exclude := ExcludeSet(m, home);
    ghost var done: set<Path> := {};
    NothingBelowNowhere(disk, exclude, EffectiveDepth(m));
    for i := 0 to |roots|
      invariant done == set k | 0 <= k < i :: roots[k]
      invariant repos == map[] + LoadBelow(disk, exclude, EffectiveDepth(m), done)
    {
      FoundBelowOneMore(disk, exclude, EffectiveDepth(m), done, roots[i], map[]);
      repos := WalkDir(roots[i], exclude, 0, EffectiveDepth(m), disk, repos);
      done := done + {roots[i]};
    }
    assert forall root :: root in done <==> root in roots;
    FoundFromAllRoots(m, home, disk, done);
  }

  lemma FoundFromAllRoots(m: Machine, home: Path, disk: Disk, roots: set<Path>)
    requires forall root :: root in roots <==> root in ExpandAll(home, EffectiveRoots(m))
    ensures map[] + LoadBelow(disk, ExcludeSet(m, home), EffectiveDepth(m), roots)
         == LoadAll(disk, DiscoveredSet(m, home, disk))
  {}

  // ---------------------------------------------------------------- tracked paths

  function TrackedPaths(s: Option<State>, home: Path): set<Path> {
    if s.None? then {} else set p | p in s.value.trackedOverrides :: Expand(home, p)
  }

  /** A tracked path whose file cannot be read aborts the pass, unless the walk met it first. */
  predicate Unreadable(disk: Disk, p: Path) {
    p in disk && (disk[p].PlainFile? || disk[p].repoFile.Malformed?)
  }

  ghost function RepoPaths(m: Machine, s: Option<State>, home: Path, disk: Disk): set<Path> {
    set p | p in disk && (p in DiscoveredSet(m, home, disk) || p in TrackedPaths(s, home)) && LoadRepo(disk, p).Some?
  }

  // ---------------------------------------------------------------- BuildDesired

  function PeerKey(p: PeerDesired): string {
    if p.name == "" then "" else p.deviceID
  }

  function SubscriptionKey(s: SubscriptionEntry): string {
    if s.canonical != "" then "url:" + s.canonical
    else if s.name != "" then "name:" + s.name
    else ""
  }

  function MergedPeers(m: Machine, s: Option<State>): seq<PeerDesired> {
    Distinct(m.peers + (if s.Some? then s.value.peers else []), PeerKey)
  }

  function MergedSubscriptions(m: Machine, s: Option<State>): seq<SubscriptionEntry> {
    Distinct(m.subscribe + (if s.Some? then s.value.subscriptions else []), SubscriptionKey)
  }

  /** A name added twice stands for the later peer. */
  function NamedPeer(peers: seq<PeerDesired>, name: string): Option<string> {
    if peers == [] then None
    else if peers[|peers| - 1].name == name then Some(peers[|peers| - 1].deviceID)
    else NamedPeer(peers[..|peers| - 1], name)
  }

  predicate LooksLikeDeviceID(s: string) {
    |s| >= 7 && '-' in s && forall c :: c in s ==> c == '-' || 'A' <= c <= 'Z' || '2' <= c <= '7'
  }

  function ResolveItem(peers: seq<PeerDesired>, item: string): string {
    match NamedPeer(peers, item)
    case Some(id) => id
    case None => if LooksLikeDeviceID(item) then item else ""
  }

  function ResolveShareWith(items: seq<string>, peers: seq<PeerDesired>): seq<string> {
    if items == [] then seq(|peers|, i requires 0 <= i < |peers| => peers[i].deviceID)
    else Distinct(seq(|items|, i requires 0 <= i < |items| => ResolveItem(peers, items[i])), Pattern)
  }

  function Or(a: string, b: string): string { if a == "" then b else a }

  function RepoDesiredOf(table: IgnoreTable, m: Machine, peers: seq<PeerDesired>, c: RepoConfig): RepoDesired {
    RepoDesired(c.folderID,
                MergeSyncIgnorePatterns(table.builtin, c.ignore),
                ResolveShareWith(if c.shareWith == [] then m.defaultShareWith else c.shareWith, peers),
                c.canonical,
                Or(c.policy, Or(m.defaultCommitPolicy, "manual")),
                c.idleSeconds,
                if c.interval.Unset? then m.defaultInterval else c.interval,
                c.skipSlots, m.slot)
  }

  ghost function DesiredRepos(host: Host, m: Machine, s: Option<State>, disk: Disk, peers: seq<PeerDesired>)
    : map<Path, RepoDesired>
  {
    map p | p in RepoPaths(m, s, host.home, disk) :: RepoDesiredOf(host.table, m, peers, LoadRepo(disk, p).value)
  }

  /** The desired state for the files on disk; an unreadable tracked repository is an error. */
  ghost function DesiredOf(host: Host, m: Machine, s: Option<State>, disk: Disk): Result<Desired> {
    if exists p :: p in TrackedPaths(s, host.home) && p !in DiscoveredSet(m, host.home, disk) && Unreadable(disk, p)
    then Err
    else
      var peers := MergedPeers(m, s);
      Ok(Desired(DesiredRepos(host, m, s, disk, peers), peers, MergedSubscriptions(m, s), EffectiveRoots(m)[0]))
  }

  /** No two subscriptions share an identity, so one declaration never shadows or doubles another. */
  lemma SubscriptionsAreDistinct(m: Machine, s: Option<State>)
    ensures NoRepeats(MergedSubscriptions(m, s), SubscriptionKey)
    ensures forall x :: x in m.subscribe && SubscriptionKey(x) != "" ==>
              exists y :: y in MergedSubscriptions(m, s) && SubscriptionKey(y) == SubscriptionKey(x)
  {
    var all := m.subscribe + (if s.Some? then s.value.subscriptions else []);
    FreshHasNoRepeats({}, all, SubscriptionKey);
    forall x | x in m.subscribe && SubscriptionKey(x) != ""
      ensures exists y :: y in MergedSubscriptions(m, s) && SubscriptionKey(y) == SubscriptionKey(x)
    {
      assert x in all;
      FreshCovers({}, all, SubscriptionKey, x);
    }
  }

  /** Share lists never repeat a device nor contain a blank one, as `Reachable` asks. */
  lemma ShareListsAreClean(items: seq<string>, peers: seq<PeerDesired>)
    requires items != [] || (NoRepeats(peers, PeerKey) && forall p :: p in peers ==> PeerKey(p) == p.deviceID != "")
    ensures "" !in ResolveShareWith(items, peers)
    ensures forall i, j :: 0 <= i < j < |ResolveShareWith(items, peers)| ==>
              ResolveShareWith(items, peers)[i] != ResolveShareWith(items, peers)[j]
  {
    var r := ResolveShareWith(items, peers);
    if items == [] {
      assert forall i :: 0 <= i < |r| ==> r[i] == PeerKey(peers[i]);
    } else {
      var ids := seq(|items|, i requires 0 <= i < |items| => ResolveItem(peers, items[i]));
      FreshHasNoRepeats({}, ids, Pattern);
      forall i, j | 0 <= i < j < |r| ensures r[i] != r[j] {
        assert Pattern(r[i]) != Pattern(r[j]);
      }
      assert forall x :: x in r ==> Pattern(x) != "";
    }
  }

  method ResolveShareList(items: seq<string>, peers: seq<PeerDesired>) returns (out: seq<string>)
    ensures out == ResolveShareWith(items, peers)
  {
    hide ResolveItem;
    if items == [] {
      out := [];
      for i := 0 to |peers|
        invariant |out| == i && forall k :: 0 <= k < i ==> out[k] == peers[k].deviceID
      {
        out := out + [peers[i].deviceID];
      }
      return;
    }
    var ids: seq<string> := [];
    for i := 0 to |items|
      invariant |ids| == i && forall k :: 0 <= k < i ==> ids[k] == ResolveItem(peers, items[k])
    {
      ids := ids + [ResolveItem(peers, items[i])];
    }
    assert ids == seq(|items|, i requires 0 <= i < |items| => ResolveItem(peers, items[i]));
    out := KeepFirst(ids, Pattern);
  }

  /** `mergeTrackedOverrideRepos`. */
  method MergeTracked(disk: Disk, found: map<Path, Option<RepoConfig>>, tracked: seq<Path>)
    returns (r: Result<map<Path, Option<RepoConfig>>>)
    requires forall p :: p in found ==> found[p] == LoadRepo(disk, p)
    ensures r.Err? <==> exists p :: p in tracked && p !in found && Unreadable(disk, p)
    ensures r.Ok? ==>
              && (forall p :: p in r.value ==> r.value[p] == LoadRepo(disk, p))
              && (forall p :: p in r.value <==> p in found || (p in tracked && LoadRepo(disk, p).Some?))
  {
    var repos := found;
    for i := 0 to |tracked|
      invariant forall p :: p in repos ==> repos[p] == LoadRepo(disk, p)
      invariant forall p :: p in repos <==> p in found || (p in tracked[..i] && LoadRepo(disk, p).Some?)
      invariant forall p :: p in tracked[..i] && p !in found ==> !Unreadable(disk, p)
    {
      var p := tracked[i];
      assert tracked[..i + 1] == tracked[..i] + [p];
      if p !in repos {
        if Unreadable(disk, p) { return Err; }
        var c := LoadRepo(disk, p);
        if c.Some? { repos := repos[p := c]; }
      }
    }
    assert tracked[..|tracked|] == tracked;
    r := Ok(repos);
  }

  /** `NewDesiredProvider`: discovery, tracked overrides and `BuildDesired` in sequence. */
  method ProvideDesired(host: Host, m: Machine, s: Option<State>, disk: Disk) returns (r: Result<Desired>)
    ensures r == DesiredOf(host, m, s, disk)
  {
    var found := DiscoverRepos(m, host.home, disk);
    var tracked := ExpandAll(host.home, if s.Some? then s.value.trackedOverrides else []);
    TrackedAre(s, host.home, tracked);
    var merged := MergeTracked(disk, found, tracked);
    if merged.Err? { return Err; }
    var peers := KeepFirst(m.peers + (if s.Some? then s.value.peers else []), PeerKey);
    var subs := KeepFirst(m.subscribe + (if s.Some? then s.value.subscriptions else []), SubscriptionKey);
    var repos := BuildRepos(host.table, m, peers, merged.value);
    ReposAgree(host, m, s, disk, peers, merged.value);
    r := Ok(Desired(repos, peers, subs, EffectiveRoots(m)[0]));
  }

  lemma TrackedAre(s: Option<State>, home: Path, tracked: seq<Path>)
    requires tracked == ExpandAll(home, if s.Some? then s.value.trackedOverrides else [])
    ensures forall p :: p in TrackedPaths(s, home) <==> p in tracked
  {}

  ghost function Built(table: IgnoreTable, m: Machine, peers: seq<PeerDesired>, repos: map<Path, Option<RepoConfig>>)
    : map<Path, RepoDesired>
  {
    map p | p in repos && repos[p].Some? :: RepoDesiredOf(table, m, peers, repos[p].value)
  }

  lemma ReposAgree(host: Host, m: Machine, s: Option<State>, disk: Disk, peers: seq<PeerDesired>,
                   repos: map<Path, Option<RepoConfig>>)
    requires forall p :: p in repos ==> repos[p] == LoadRepo(disk, p)
    requires forall p :: p in repos <==>
               p in DiscoveredSet(m, host.home, disk) || (p in TrackedPaths(s, host.home) && LoadRepo(disk, p).Some?)
    ensures Built(host.table, m, peers, repos) == DesiredRepos(host, m, s, disk, peers)
  {
    hide RepoDesiredOf, DiscoveredSet, TrackedPaths;
    assert forall p :: p in repos && repos[p].Some? ==> p in disk;
    var a, b := Built(host.table, m, peers, repos), DesiredRepos(host, m, s, disk, peers);
    forall p ensures p in a <==> p in b {
      assert p in b <==> p in RepoPaths(m, s, host.home, disk);
    }
  }

  method BuildRepos(table: IgnoreTable, m: Machine, peers: seq<PeerDesired>, repos: map<Path, Option<RepoConfig>>)
    returns (desired: map<Path, RepoDesired>)
    ensures desired == Built(table, m, peers, repos)
  {
    hide ResolveShareWith, MergeSyncIgnorePatterns;
    desired := map[];
    var todo := repos.Keys;
    while todo != {}
      invariant todo <= repos.Keys
      invariant desired == map p | p in repos && p !in todo && repos[p].Some? ::
                RepoDesiredOf(table, m, peers, repos[p].value)
      decreases todo
    {
      var p :| p in todo;
      todo := todo - {p};
      if repos[p].Some? {
        var c := repos[p].value;
        var shareWith := ResolveShareList(if c.shareWith == [] then m.defaultShareWith else c.shareWith, peers);
        var ignore := MergePatterns(table.builtin, c.ignore);
        desired := desired[p := RepoDesired(c.folderID, ignore, shareWith, c.canonical,
                                            Or(c.policy, Or(m.defaultCommitPolicy, "manual")), c.idleSeconds,
                                            if c.interval.Unset? then m.defaultInterval else c.interval,
                                            c.skipSlots, m.slot)];
      }
    }
  }

  // ---------------------------------------------------------------- in terms of the files' own fields

  predicate IsDeviceID(s: string) {
    |s| >= 7 && '-' in s && forall c <- s :: c == '-' || 'A' <= c <= 'Z' || '2' <= c <= '7'
  }

  /** An item of a share list stands for a device: it names a peer, the last one of that name, or else it is a device
      ID itself. */
  ghost predicate StandsFor(peers: seq<PeerDesired>, item: string, id: string) {
    || (exists i :: 0 <= i < |peers| && peers[i].name == item && peers[i].deviceID == id
          && forall j :: i < j < |peers| ==> peers[j].name != item)
    || (item == id && IsDeviceID(id) && forall i :: 0 <= i < |peers| ==> peers[i].name != item)
  }

  lemma {:induction false} NamedPeerIsLast(peers: seq<PeerDesired>, name: string)
    ensures NamedPeer(peers, name).None? <==> forall i :: 0 <= i < |peers| ==> peers[i].name != name
    ensures NamedPeer(peers, name).Some? ==>
              exists i :: 0 <= i < |peers| && peers[i].name == name && peers[i].deviceID == NamedPeer(peers, name).value
                && forall j :: i < j < |peers| ==> peers[j].name != name
  {
    if peers != [] {
      var last := |peers| - 1;
      NamedPeerIsLast(peers[..last], name);
      if peers[last].name != name && NamedPeer(peers, name).Some? {
        var i :| 0 <= i < last && peers[..last][i].name == name
                 && peers[..last][i].deviceID == NamedPeer(peers, name).value
                 && forall j :: i < j < last ==> peers[..last][j].name != name;
        assert peers[i].name == name && forall j :: i < j < |peers| && j < last ==> peers[..last][j] == peers[j];
      }
    }
  }

  lemma ItemStandsFor(peers: seq<PeerDesired>, item: string, id: string)
    requires id != ""
    ensures ResolveItem(peers, item) == id <==> StandsFor(peers, item, id)
  {
    NamedPeerIsLast(peers, item);
    hide NamedPeer;
  }

  /** A share list holds exactly the devices its items stand for; an empty one, every peer's in order. */
  lemma ShareListExactly(items: seq<string>, peers: seq<PeerDesired>, id: string)
    ensures items != [] ==>
              (id in ResolveShareWith(items, peers) <==> id != "" && exists x :: x in items && StandsFor(peers, x, id))
    ensures items == [] ==>
              && |ResolveShareWith(items, peers)| == |peers|
              && forall i :: 0 <= i < |peers| ==> ResolveShareWith(items, peers)[i] == peers[i].deviceID
  {
    if items != [] {
      var ids := seq(|items|, i requires 0 <= i < |items| => ResolveItem(peers, items[i]));
      forall x ensures id != "" ==> (ResolveItem(peers, x) == id <==> StandsFor(peers, x, id)) {
        if id != "" { ItemStandsFor(peers, x, id); }
      }
      hide ResolveItem, StandsFor;
      InDistinct(ids, Pattern, id);
      if id != "" && id in ids { FirstMention(ids, id); }
      if x :| x in items && ResolveItem(peers, x) == id {
        var i :| 0 <= i < |items| && items[i] == x;
        assert ids[i] == id;
      }
    }
  }

  lemma FirstMention(ids: seq<string>, id: string)
    requires id in ids && id != ""
    ensures id in Distinct(ids, Pattern)
  {
    FreshCovers({}, ids, Pattern, id);
  }

  /** Its order is that of the items: one more item adds the device it stands for at the end, unless it is there. */
  lemma ShareListGrows(items: seq<string>, peers: seq<PeerDesired>, x: string)
    requires items != []
    ensures
      var was, now := ResolveShareWith(items, peers), ResolveShareWith(items + [x], peers);
      || now == was
      || (exists id :: id != "" && id !in was && StandsFor(peers, x, id) && now == was + [id])
  {
    var ids := seq(|items|, i requires 0 <= i < |items| => ResolveItem(peers, items[i]));
    var more := seq(|items| + 1, i requires 0 <= i < |items| + 1 => ResolveItem(peers, (items + [x])[i]));
    var id := ResolveItem(peers, x);
    if id != "" { ItemStandsFor(peers, x, id); }
    hide ResolveItem, StandsFor, Fresh;
    assert more == ids + [id];
    OneMoreKept(ids, id);
  }

  lemma OneMoreKept(ids: seq<string>, id: string)
    ensures
      var was := Distinct(ids, Pattern);
      Distinct(ids + [id], Pattern) == if id == "" || id in was then was else was + [id]
  {
    FreshAppend({}, ids, [id], Pattern);
    var seen := KeysOf(ids, Pattern);
    assert {} + seen == seen;
    assert [id][1..] == [];
    assert Fresh(seen, [id], Pattern) == if id == "" || id in seen then [] else [id];
    hide Fresh;
    assert id in seen <==> id in ids;
    if id != "" && id in ids { FirstMention(ids, id); }
    if id in Distinct(ids, Pattern) { InDistinct(ids, Pattern, id); }
  }

  /** The peers of the desired state: of the machine's and the state file's entries, in this order, those with a name
      and an ID, the first of each ID. */
  lemma PeersExactly(m: Machine, s: Option<State>, p: PeerDesired)
    ensures
      var all := m.peers + (if s.Some? then s.value.peers else []);
      p in MergedPeers(m, s) <==>
        exists i :: 0 <= i < |all| && all[i] == p && p.name != "" && p.deviceID != ""
          && forall j :: 0 <= j < i ==> all[j].name == "" || all[j].deviceID != p.deviceID
  {
    InDistinct(m.peers + (if s.Some? then s.value.peers else []), PeerKey, p);
  }

  /** Two subscriptions declare one thing: the same canonical identity or, neither having one, the same name. */
  predicate SameSubscription(a: SubscriptionEntry, b: SubscriptionEntry) {
    if a.canonical != "" || b.canonical != "" then a.canonical == b.canonical else a.name == b.name
  }

  lemma KeysOfSubscriptions(a: SubscriptionEntry, b: SubscriptionEntry)
    requires SubscriptionKey(a) != ""
    ensures SubscriptionKey(a) == SubscriptionKey(b) <==> SameSubscription(a, b)
  {
    assert ("url:" + a.canonical)[4..] == a.canonical && ("url:" + b.canonical)[4..] == b.canonical;
    assert ("name:" + a.name)[5..] == a.name && ("name:" + b.name)[5..] == b.name;
    assert ("url:" + a.canonical)[0] == 'u' && ("name:" + b.name)[0] == 'n';
    assert ("url:" + b.canonical)[0] == 'u' && ("name:" + a.name)[0] == 'n';
  }

  /** The subscriptions of the desired state: declared ones before those of the state file, the first of each, none
      without identity and name. */
  lemma SubscriptionsExactly(m: Machine, s: Option<State>, x: SubscriptionEntry)
    ensures
      var all := m.subscribe + (if s.Some? then s.value.subscriptions else []);
      x in MergedSubscriptions(m, s) <==>
        exists i :: 0 <= i < |all| && all[i] == x && (x.canonical != "" || x.name != "")
          && forall j :: 0 <= j < i ==> !SameSubscription(x, all[j])
  {
    var all := m.subscribe + (if s.Some? then s.value.subscriptions else []);
    InDistinct(all, SubscriptionKey, x);
    forall y | SubscriptionKey(x) != "" ensures SubscriptionKey(x) == SubscriptionKey(y) <==> SameSubscription(x, y) {
      KeysOfSubscriptions(x, y);
    }
    assert SubscriptionKey(x) != "" <==> x.canonical != "" || x.name != "";
    hide SubscriptionKey, SameSubscription, Fresh;
  }

  /** Where the walk starts, and how deep it goes, when the machine file does not say. */
  lemma DefaultsOfTheWalk(m: Machine, home: Path, p: Path)
    ensures m.scanRoots == [] ==> ExpandAll(home, EffectiveRoots(m)) == [home + ["Documents", "GitHub"]]
    ensures m.scanRoots != [] ==> EffectiveRoots(m) == m.scanRoots
    ensures EffectiveDepth(m) == if m.scanDepth > 0 then m.scanDepth else 3
    ensures Expand(home, ["~"] + p) == home + p && (p != [] && p[0] != "~" ==> Expand(home, p) == p)
  {
    assert (["~"] + p)[1..] == p;
    assert FALLBACK_MIRROR_ROOT[1..] == ["Documents", "GitHub"];
  }

  predicate Blocks(disk: Disk, p: Path) {
    p in disk && (disk[p] == PlainFile || (disk[p].Directory? && disk[p].repoFile == Malformed))
  }

  /** A tracked path stops everything exactly when something is there that is not a directory, or its repository file
      cannot be decoded, and the walk has not met it. */
  lemma TrackedFailsExactly(host: Host, m: Machine, s: Option<State>, disk: Disk)
    ensures DesiredOf(host, m, s, disk).Err? <==>
            && s.Some?
            && exists q :: q in s.value.trackedOverrides && Blocks(disk, Expand(host.home, q))
                           && Expand(host.home, q) !in DiscoveredSet(m, host.home, disk)
  {
    hide DiscoveredSet, Expand;
    if s.Some? {
      forall q | q in s.value.trackedOverrides ensures Expand(host.home, q) in TrackedPaths(s, host.home) {}
    }
  }

  /** From the scan root a walk can get to `p`: there is a repository file, decodable or not, within the depth, none in
      a directory on the way, and nothing on the way is excluded. */
  ghost predicate ReachedFrom(m: Machine, home: Path, disk: Disk, root: Path, p: Path) {
    && root <= p && |p| <= |root| + (if m.scanDepth > 0 then m.scanDepth else 3)
    && p in disk && disk[p].Directory? && disk[p].repoFile != NoFile
    && (forall k :: |root| <= k < |p| ==> OpenDirectory(disk, p[..k]))
    && forall k :: |root| <= k <= |p| ==> !ExcludedAt(m, home, p[..k])
  }

  predicate OpenDirectory(disk: Disk, p: Path) {
    p in disk && disk[p].Directory? && disk[p].repoFile == NoFile
  }

  predicate ExcludedAt(m: Machine, home: Path, p: Path) {
    exists x :: x in m.exclude && Expand(home, x) == p
  }

  /** Exactly those are found. */
  lemma FoundByFields(m: Machine, home: Path, disk: Disk, p: Path)
    ensures p in DiscoveredSet(m, home, disk) <==>
            exists root :: root in ExpandAll(home, EffectiveRoots(m)) && ReachedFrom(m, home, disk, root, p)
  {
    hide Expand;
    forall root ensures p in disk && Walked(disk, ExcludeSet(m, home), EffectiveDepth(m), root, p) <==>
                        ReachedFrom(m, home, disk, root, p)
    {
      WalkByFields(m, home, disk, root, p);
    }
    hide Walked, ReachedFrom, ExcludeSet, EffectiveDepth, EffectiveRoots;
  }

  lemma WalkByFields(m: Machine, home: Path, disk: Disk, root: Path, p: Path)
    ensures p in disk && Walked(disk, ExcludeSet(m, home), EffectiveDepth(m), root, p) <==>
            ReachedFrom(m, home, disk, root, p)
  {
    hide Expand;
    forall q ensures q in ExcludeSet(m, home) <==> ExcludedAt(m, home, q) {}
    forall q ensures OpenDirectory(disk, q) <==> IsDir(disk, q) && !HasRepoFile(disk, q) {}
    hide ExcludeSet, ExcludedAt, OpenDirectory;
  }

  /** What a repository's file becomes, field by field. A field it leaves out comes from the machine file. */
  lemma DesiredByFields(host: Host, m: Machine, s: Option<State>, disk: Disk, d: Desired, p: Path)
    requires DesiredOf(host, m, s, disk) == Ok(d)
    ensures p in d.repos <==>
            && IsDir(disk, p) && disk[p].repoFile.Parsed?
            && (p in DiscoveredSet(m, host.home, disk)
                || (s.Some? && exists q :: q in s.value.trackedOverrides && Expand(host.home, q) == p))
    ensures p in d.repos ==>
      var c, r := disk[p].repoFile.config, d.repos[p];
      && r.folderID == c.folderID && r.canonical == c.canonical
      && r.idleSeconds == c.idleSeconds && r.skipSlots == c.skipSlots && r.machineSlot == m.slot
      && r.shareWith == ResolveShareWith(if c.shareWith == [] then m.defaultShareWith else c.shareWith, d.peers)
      && (c.policy != "" ==> r.commitPolicy == c.policy)
      && (c.policy == "" && m.defaultCommitPolicy != "" ==> r.commitPolicy == m.defaultCommitPolicy)
      && (c.policy == m.defaultCommitPolicy == "" ==> r.commitPolicy == "manual")
      && (c.interval.Unset? ==> r.interval == m.defaultInterval) && (!c.interval.Unset? ==> r.interval == c.interval)
      && forall x :: x in r.ignore <==>
           x != "" && exists y :: (y in host.table.builtin || y in c.ignore) && TrimSpace(y) == x
    ensures d.peers == MergedPeers(m, s) && d.subscriptions == MergedSubscriptions(m, s)
  {
    hide DiscoveredSet, Expand, ResolveShareWith, MergeSyncIgnorePatterns, TrimSpace;
    assert p in d.repos <==> p in RepoPaths(m, s, host.home, disk);
    if p in d.repos {
      var own := disk[p].repoFile.config.ignore;
      forall x
        ensures x in d.repos[p].ignore <==>
                x != "" && exists y :: (y in host.table.builtin || y in own) && TrimSpace(y) == x
      {
        RulesExactly(host.table.builtin, own, x);
      }
    }
  }
}
