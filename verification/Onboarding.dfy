/** Subscription onboarding across passes: an accepted folder is provisioned on disk and in Syncthing,
    rediscovered by the next walk, and from then on kept exactly as the acceptance left it. */
module Onboarding {
  import opened Base
  import opened Dedup
  import opened Ignore
  import opened Paths
  import opened Syncthing
  import opened Subscribe
  import opened World
  import opened Diff
  import opened Convergence
  import opened Fixpoint
  import opened Discovery

  /** Structural actions on the folder `id` or on the path `p`. */
  ghost predicate Concerns(a: Action, id: string, p: Path) {
    match a
    case AddSyncthingFolder(x, q, _, _) => x == id || q == p
    case UpdateSyncthingFolderDevices(x, _) => x == id
    case UpdateSyncthingFolderSchedule(x) => x == id
    case EnsureFolderMarker(q) => q == p
    case EnsureIgnoreFile(q, _) => q == p
    case AcceptSubscription(x, _, _, _, _) => x == id
    case RemoveSyncthingFolder(x) => x == id
    case _ => false
  }

  /** What accepting the subscription leaves behind, the repository file aside. */
  ghost predicate SetUp(w: World, acc: Action)
    requires acc.AcceptSubscription?
  {
    RecordOf(w, acc) && MarkerPresent(w.disk, Target(w.host, acc), FOLDER_MARKER_NAME)
  }

  /** The repository file at the directory is the one the acceptance writes. */
  ghost predicate Files(w: World, acc: Action)
    requires acc.AcceptSubscription?
  {
    RepoFileAt(w.disk, Target(w.host, acc)) == Parsed(AcceptedConfig(acc))
  }

  ghost predicate Provisioned(w: World, acc: Action)
    requires acc.AcceptSubscription?
  {
    SetUp(w, acc) && Files(w, acc)
  }

  /** No `.dotkeeper.toml` sits at the path, or just the one the acceptance would write. */
  ghost predicate Claimable(disk: Disk, p: Path, acc: Action)
    requires acc.AcceptSubscription?
  {
    RepoFileAt(disk, p).NoFile? || RepoFileAt(disk, p) == Parsed(AcceptedConfig(acc))
  }

  // ---------------------------------------------------------------- one action

  lemma AcceptSetsUp(w: World, acc: Action, w': World)
    requires acc.AcceptSubscription? && Apply(w, acc) == Ok(w')
    ensures SetUp(w', acc)
  {
    AcceptedIsMarked(w.host, w.disk, acc);
    AcceptanceMakesRecord(w, acc, w');
    hide AcceptedDisk, WithFolder, RecordOf;
  }

  lemma AcceptProvisions(w: World, acc: Action, w': World)
    requires acc.AcceptSubscription? && Apply(w, acc) == Ok(w') && Claimable(w.disk, Target(w.host, acc), acc)
    ensures Provisioned(w', acc)
  {
    AcceptedIsMarked(w.host, w.disk, acc);
    AcceptSetsUp(w, acc, w');
    hide AcceptedDisk, WithFolder, SetUp;
  }

  /** Actions that cannot disturb the accepted folder. */
  predicate SparesFolder(acc: Action, a: Action)
    requires acc.AcceptSubscription?
  {
    a.AddSyncthingFolder? || a.UpdateSyncthingFolderDevices? || a.AcceptSubscription? || a.RemoveSyncthingFolder? ==>
      a == acc || a.folderID != acc.folderID
  }

  /** Complete or cut short, such an action leaves the folder set up. */
  lemma StaysSetUp(w: World, acc: Action, a: Action, w': World)
    requires acc.AcceptSubscription? && SparesFolder(acc, a) && Effect(w, a, w') && SetUp(w, acc)
    ensures SetUp(w', acc)
  {
    EffectKeepsHost(w, a, w');
    EffectKeeps(w, a, w', Target(w.host, acc));
    LookupAfter(w, a, w', acc.folderID);
    hide Effect;
  }

  /** A repository file is never replaced. */
  lemma StaysFiled(w: World, acc: Action, a: Action, w': World)
    requires acc.AcceptSubscription? && Effect(w, a, w') && Files(w, acc)
    ensures Files(w', acc)
  {
    EffectKeepsHost(w, a, w');
    EffectKeeps(w, a, w', Target(w.host, acc));
    hide Effect;
  }

  lemma StaysProvisioned(w: World, acc: Action, a: Action, w': World)
    requires acc.AcceptSubscription? && SparesFolder(acc, a) && Effect(w, a, w') && Provisioned(w, acc)
    ensures Provisioned(w', acc)
  {
    hide SetUp, Files, Effect, SparesFolder;
    StaysSetUp(w, acc, a, w');
    StaysFiled(w, acc, a, w');
  }

  lemma StaysClaimable(w: World, acc: Action, a: Action, w': World)
    requires acc.AcceptSubscription? && Effect(w, a, w') && Claimable(w.disk, Target(w.host, acc), acc)
    requires a.AcceptSubscription? && a != acc ==> Target(w.host, a) != Target(w.host, acc)
    ensures Claimable(w'.disk, Target(w'.host, acc), acc)
  {
    EffectKeepsHost(w, a, w');
    EffectKeeps(w, a, w', Target(w.host, acc));
    hide Effect;
  }

  // ---------------------------------------------------------------- one pass

  /** A pass with the desired state of its time. */
  datatype Tick = Tick(desired: Desired, pass: Pass)

  ghost predicate IsTick(t: Tick) {
    IsPass(t.desired, t.pass) && DistinctIds(t.pass.states[0].cfg.folders)
  }

  ghost function PlanOf(t: Tick): seq<Action>
    requires IsTick(t)
  {
    Planned(t.desired, t.pass)
  }

  ghost function StartOf(t: Tick): World
    requires IsTick(t)
  {
    t.pass.states[0]
  }

  ghost function EndOf(t: Tick): World
    requires IsTick(t)
  {
    After(t.pass)
  }

  /** Some occurrence of the action in the pass succeeded. */
  ghost predicate DoneIn(t: Tick, a: Action)
    requires IsTick(t)
  {
    DoneBefore(t, a, |PlanOf(t)|)
  }

  ghost predicate DoneBefore(t: Tick, a: Action, i: nat)
    requires IsTick(t)
  {
    exists k: nat :: k < i && DoneAt(t, a, k)
  }

  lemma DoneBeforeNext(t: Tick, a: Action, i: nat)
    requires IsTick(t) && i > 0
    ensures DoneBefore(t, a, i) <==> DoneBefore(t, a, i - 1) || DoneAt(t, a, i - 1)
  {
    hide IsTick, DoneAt;
  }

  ghost predicate DoneAt(t: Tick, a: Action, k: nat)
    requires IsTick(t)
  {
    k < |PlanOf(t)| && PlanOf(t)[k] == a && Apply(t.pass.states[k], a) == Ok(t.pass.states[k + 1])
  }

  ghost predicate IsOffer(host: Host, acc: Action) {
    && acc.AcceptSubscription? && acc.folderID != "" && Target(host, acc) != []
    && acc.fromDeviceID != "" && acc.fromDeviceID != host.myID
  }

  /** The offer comes from a peer other than the machine itself, some acceptance of it succeeded, and no other
      acceptance of the pass takes the same folder ID. */
  ghost predicate AcceptedIn(t: Tick, acc: Action)
    requires IsTick(t)
  {
    && IsOffer(StartOf(t).host, acc) && DoneIn(t, acc)
    && forall b :: b in PlanOf(t) && Accepts(b, acc.folderID) ==> b == acc
  }

  /** After the pass its directory holds the acceptance's own repository file. */
  ghost predicate Owns(t: Tick, acc: Action)
    requires IsTick(t) && acc.AcceptSubscription?
  {
    Files(EndOf(t), acc)
  }

  /** A way to own the directory: no other repository file claims it, and no other acceptance of the pass takes it. */
  ghost predicate Unrivalled(t: Tick, acc: Action)
    requires IsTick(t) && acc.AcceptSubscription?
  {
    var host := StartOf(t).host;
    && Claimable(StartOf(t).disk, Target(host, acc), acc)
    && forall b :: b in PlanOf(t) && b.AcceptSubscription? && b != acc ==> Target(host, b) != Target(host, acc)
  }

  lemma TickKeepsHost(t: Tick, i: nat)
    requires IsTick(t) && i < |t.pass.states|
    ensures t.pass.states[i].host == StartOf(t).host && DistinctIds(t.pass.states[i].cfg.folders)
  {
    hide Plan, Effect, Observes, ConnectionsConfigured, ValidOrders, DistinctIds;
    TraceKeepsHost(PlanOf(t), t.pass.states, i);
  }

  /** An unrivalled directory stays claimable throughout the pass. */
  lemma {:induction false} TraceStaysClaimable(t: Tick, acc: Action, i: nat)
    requires IsTick(t) && acc.AcceptSubscription? && Unrivalled(t, acc) && i < |t.pass.states|
    ensures Claimable(t.pass.states[i].disk, Target(t.pass.states[i].host, acc), acc)
  {
    hide Plan, Effect, Observes, ConnectionsConfigured, ValidOrders, Claimable, Target;
    if i > 0 {
      TraceStaysClaimable(t, acc, i - 1);
      TickKeepsHost(t, i - 1);
      assert PlanOf(t)[i - 1] in PlanOf(t);
      StaysClaimable(t.pass.states[i - 1], acc, PlanOf(t)[i - 1], t.pass.states[i]);
    }
  }

  /** From a successful acceptance on, some repository file is at its directory. */
  lemma {:induction false} TraceStaysFiled(t: Tick, acc: Action, k: nat, i: nat)
    requires IsTick(t) && acc.AcceptSubscription? && DoneAt(t, acc, k) && k < i < |t.pass.states|
    ensures !RepoFileAt(t.pass.states[i].disk, Target(StartOf(t).host, acc)).NoFile?
  {
    hide Plan, Effect, Apply, Observes, ConnectionsConfigured, ValidOrders, RepoFileAt, Target;
    TickKeepsHost(t, i - 1);
    if i == k + 1 {
      CompletedClaims(t.pass.states[k], acc, t.pass.states[i]);
    } else {
      TraceStaysFiled(t, acc, k, i - 1);
      EffectKeeps(t.pass.states[i - 1], PlanOf(t)[i - 1], t.pass.states[i], Target(StartOf(t).host, acc));
    }
  }

  lemma AcceptedIsFiled(t: Tick, acc: Action)
    requires IsTick(t) && AcceptedIn(t, acc)
    ensures !RepoFileAt(EndOf(t).disk, Target(StartOf(t).host, acc)).NoFile?
  {
    hide Plan, Effect, Observes, ConnectionsConfigured, ValidOrders, RepoFileAt, DoneAt;
    var k: nat :| k < |PlanOf(t)| && DoneAt(t, acc, k);
    TraceStaysFiled(t, acc, k, |t.pass.states| - 1);
  }

  lemma UnrivalledOwns(t: Tick, acc: Action)
    requires IsTick(t) && AcceptedIn(t, acc) && Unrivalled(t, acc)
    ensures Owns(t, acc)
  {
    hide Plan, Effect, Observes, ConnectionsConfigured, ValidOrders, RepoFileAt, Unrivalled;
    TraceStaysClaimable(t, acc, |t.pass.states| - 1);
    TickKeepsHost(t, |t.pass.states| - 1);
    AcceptedIsFiled(t, acc);
  }

  /** What follows an acceptance in its plan spares the accepted folder. */
  lemma LateActionsSpare(t: Tick, acc: Action, k: nat, i: nat)
    requires IsTick(t) && AcceptedIn(t, acc) && k < i < |PlanOf(t)| && PlanOf(t)[k] == acc
    ensures SparesFolder(acc, PlanOf(t)[i])
  {
    hide SyncIgnoreFileContent, Plan, ValidOrders, Observes, Matched, Effect, ConnectionsConfigured, DoneIn;
    var table, d, s := StartOf(t).host.table, t.desired, t.pass;
    var a := PlanOf(t)[i];
    assert a in PlanOf(t);
    NothingElseAfterAcceptances(table, d, s.observed, s.orders, s.now, k, i);
    if a.RemoveSyncthingFolder? {
      RemovedIsForeign(t, a);
      OnlyMatchesAreAccepted(table, d, s.observed, s.orders, s.now, acc);
    }
  }

  lemma RemovedIsForeign(t: Tick, a: Action)
    requires IsTick(t) && a in PlanOf(t) && a.RemoveSyncthingFolder?
    ensures Foreign(t.desired, t.pass.observed, a)
  {
    hide SyncIgnoreFileContent, Plan, ValidOrders, Repair, Observes, ConnectionsConfigured, Matched, Effect;
    var table, d, s := StartOf(t).host.table, t.desired, t.pass;
    PlanOrigin(table, d, s.observed, s.orders, s.now, a);
    if p :| FromFolder(table, d, s.observed, p, a) {
      RepairIsNoAcceptance(table, d, s.observed, p, a);
    }
  }

  /** From a successful acceptance on, the folder is set up, whatever fails afterwards. */
  lemma {:induction false} TraceSetsUp(t: Tick, acc: Action, k: nat, i: nat)
    requires IsTick(t) && AcceptedIn(t, acc) && DoneAt(t, acc, k) && k < i < |t.pass.states|
    ensures SetUp(t.pass.states[i], acc)
  {
    hide Plan, Effect, Apply, Observes, ConnectionsConfigured, ValidOrders, SetUp, SparesFolder, Target, DoneIn;
    if i == k + 1 {
      AcceptSetsUp(t.pass.states[k], acc, t.pass.states[i]);
    } else {
      TraceSetsUp(t, acc, k, i - 1);
      LateActionsSpare(t, acc, k, i - 1);
      StaysSetUp(t.pass.states[i - 1], acc, PlanOf(t)[i - 1], t.pass.states[i]);
    }
  }

  /** The walk found the folder again, under its ID alone, with its offering peer as share list. */
  ghost predicate Rediscovered(host: Host, d: Desired, acc: Action)
    requires acc.AcceptSubscription?
  {
    var p := Target(host, acc);
    && p in d.repos && d.repos[p].folderID == acc.folderID
    && d.repos[p].shareWith == [acc.fromDeviceID]
    && d.repos[p].ignore == MergeSyncIgnorePatterns(host.table.builtin, [])
    && forall q :: q in d.repos && d.repos[q].folderID == acc.folderID ==> q == p
  }

  /** The configured record of a provisioned folder needs no repair. */
  lemma ProvisionedNeedsNoRepair(w: World, d: Desired, o: Observed, acc: Action, a: Action)
    requires Observes(w, d, o) && DistinctIds(w.cfg.folders) && IsOffer(w.host, acc)
    requires Provisioned(w, acc) && Rediscovered(w.host, d, acc)
    requires FromFolder(w.host.table, d, o, Target(w.host, acc), a)
    requires Concerns(a, acc.folderID, Target(w.host, acc))
    ensures a in IgnoreActions(w.host.table, d, o, Target(w.host, acc))
  {
    hide IgnoreActions, MergeSyncIgnorePatterns;
    var p := Target(w.host, acc);
    ObservedFolderOf(w.cfg.folders, w.disk, w.host.myID, acc.folderID);
    WrittenDevices([acc.fromDeviceID], w.host.myID);
    RepairsAre(LastFolder(o.managedFolders, acc.folderID).value, d.repos[p], p, a);
  }

  lemma NotAcceptedAgain(t: Tick, acc: Action, a: Action)
    requires IsTick(t) && IsOffer(StartOf(t).host, acc) && RecordOf(StartOf(t), acc)
    requires a in PlanOf(t) && a.AcceptSubscription?
    ensures a.folderID != acc.folderID
  {
    hide Plan, ValidOrders, Observes, Effect, ConnectionsConfigured;
    var s := t.pass;
    if a.folderID == acc.folderID {
      ConfiguredIsNotAccepted(t.desired, StartOf(t), s.observed, s.orders, s.now, a);
    }
  }

  /** A provisioned, rediscovered folder draws at most its ignore file. */
  lemma LaterPassEmitsAtMostIgnore(t: Tick, acc: Action, a: Action)
    requires IsTick(t) && IsOffer(StartOf(t).host, acc)
    requires Provisioned(StartOf(t), acc) && Rediscovered(StartOf(t).host, t.desired, acc)
    requires a in PlanOf(t) && Concerns(a, acc.folderID, Target(StartOf(t).host, acc))
    ensures a in IgnoreActions(StartOf(t).host.table, t.desired, t.pass.observed, Target(StartOf(t).host, acc))
  {
    hide IgnoreActions, MergeSyncIgnorePatterns, Effect, Provisioned, Plan, ValidOrders, FolderRepairs, Observes,
         ConnectionsConfigured, Matched;
    var w, d, o := StartOf(t), t.desired, t.pass.observed;
    var p := Target(w.host, acc);
    PlanOrigin(w.host.table, d, o, t.pass.orders, t.pass.now, a);
    assert acc.folderID in DesiredIDs(d);
    if q :| FromFolder(w.host.table, d, o, q, a) {
      if q == p {
        ProvisionedNeedsNoRepair(w, d, o, acc, a);
      } else {
        OtherFolderActions(w, d, o, q, a, acc.folderID, p);
      }
    } else if a.AcceptSubscription? {
      ProvisionedRecord(w, acc);
      NotAcceptedAgain(t, acc, a);
    }
  }

  lemma ProvisionedRecord(w: World, acc: Action)
    requires acc.AcceptSubscription? && Provisioned(w, acc)
    ensures RecordOf(w, acc)
  {}

  lemma OtherFolderActions(w: World, d: Desired, o: Observed, q: Path, a: Action, id: string, p: Path)
    requires FromFolder(w.host.table, d, o, q, a) && d.repos[q].folderID != id && q != p
    ensures !Concerns(a, id, p)
  {
    hide SyncIgnoreFileContent;
    var obs := LastFolder(o.managedFolders, d.repos[q].folderID);
    if obs.Some? { RepairsAre(obs.value, d.repos[q], q, a); }
  }

  // ---------------------------------------------------------------- any number of passes

  lemma LaterPassSpares(t: Tick, acc: Action, a: Action)
    requires IsTick(t) && IsOffer(StartOf(t).host, acc)
    requires Provisioned(StartOf(t), acc) && Rediscovered(StartOf(t).host, t.desired, acc)
    requires a in PlanOf(t)
    ensures SparesFolder(acc, a)
    ensures
      var p := Target(StartOf(t).host, acc);
      a.EnsureIgnoreFile? && a.repoPath == p ==> a == EnsureIgnoreFile(p, t.desired.repos[p].ignore)
  {
    hide SyncIgnoreFileContent, MergeSyncIgnorePatterns, IsTick, PlanOf, Provisioned;
    if Concerns(a, acc.folderID, Target(StartOf(t).host, acc)) { LaterPassEmitsAtMostIgnore(t, acc, a); }
  }

  /** Through a later pass the folder stays provisioned, and its ignore file as it was or as wanted. */
  lemma {:induction false} LaterPassKeeps(t: Tick, acc: Action, i: nat)
    requires IsTick(t) && IsOffer(StartOf(t).host, acc) && i < |t.pass.states|
    requires Provisioned(StartOf(t), acc) && Rediscovered(StartOf(t).host, t.desired, acc)
    ensures Provisioned(t.pass.states[i], acc) && t.pass.states[i].host == StartOf(t).host
    ensures IgnoreWanted(StartOf(t), acc) || DoneBefore(t, IgnoreOf(StartOf(t).host, acc), i) ==>
              IgnoreWanted(t.pass.states[i], acc)
  {
    hide Plan, Effect, Apply, Observes, ConnectionsConfigured, ValidOrders, Provisioned, SparesFolder, Rediscovered,
         IgnoreWanted, DoneAt, IgnoreOf, Target;
    TickKeepsHost(t, i);
    if i > 0 {
      var w, a, w' := t.pass.states[i - 1], PlanOf(t)[i - 1], t.pass.states[i];
      LaterPassKeeps(t, acc, i - 1);
      assert a in PlanOf(t);
      LaterPassSpares(t, acc, a);
      StaysProvisioned(w, acc, a, w');
      IgnoreAfterAction(t, acc, i - 1);
      DoneBeforeNext(t, IgnoreOf(StartOf(t).host, acc), i);
    }
  }

  /** The ignore action of an accepted folder. */
  function IgnoreOf(host: Host, acc: Action): Action
    requires acc.AcceptSubscription?
  {
    EnsureIgnoreFile(Target(host, acc), MergeSyncIgnorePatterns(host.table.builtin, []))
  }

  ghost predicate IgnoreWanted(w: World, acc: Action)
    requires acc.AcceptSubscription?
  {
    ReadIgnore(w.disk, Target(w.host, acc))
      == SyncIgnoreFileContent(w.host.table, MergeSyncIgnorePatterns(w.host.table.builtin, []))
  }

  lemma IgnoreAfterAction(t: Tick, acc: Action, i: nat)
    requires IsTick(t) && IsOffer(StartOf(t).host, acc) && i < |PlanOf(t)|
    requires Provisioned(StartOf(t), acc) && Rediscovered(StartOf(t).host, t.desired, acc)
    ensures IgnoreWanted(t.pass.states[i], acc) || DoneAt(t, IgnoreOf(StartOf(t).host, acc), i) ==>
              IgnoreWanted(t.pass.states[i + 1], acc)
  {
    hide Plan, Effect, Apply, Observes, ConnectionsConfigured, ValidOrders, Provisioned, SparesFolder,
         SyncIgnoreFileContent, MergeSyncIgnorePatterns, ReadIgnore;
    var w, a, w' := t.pass.states[i], PlanOf(t)[i], t.pass.states[i + 1];
    var p := Target(StartOf(t).host, acc);
    assert a in PlanOf(t);
    LaterPassSpares(t, acc, a);
    TickKeepsHost(t, i);
    TickKeepsHost(t, i + 1);
    EffectKeeps(w, a, w', p);
    if DoneAt(t, IgnoreOf(StartOf(t).host, acc), i) { IgnoreServed(w, a, w'); }
  }

  /** The ignore action is planned exactly when the file is not as wanted. */
  lemma IgnoreIsPlannedExactly(t: Tick, acc: Action)
    requires IsTick(t) && IsOffer(StartOf(t).host, acc) && Rediscovered(StartOf(t).host, t.desired, acc)
    ensures
      var act := IgnoreOf(StartOf(t).host, acc);
      && (!IgnoreWanted(StartOf(t), acc) ==> act in PlanOf(t))
      && (forall a ::
            a in IgnoreActions(StartOf(t).host.table, t.desired, t.pass.observed, Target(StartOf(t).host, acc)) ==>
              a == act && !IgnoreWanted(StartOf(t), acc))
  {
    hide SyncIgnoreFileContent, MergeSyncIgnorePatterns, Effect, Plan, ConnectionsConfigured, ReadIgnore;
    var w, s := StartOf(t), t.pass;
    var act := IgnoreOf(w.host, acc);
    ObservedIgnoreOf(w, t.desired, s.observed, act.repoPath);
    if !IgnoreWanted(w, acc) {
      assert act in IgnoreActions(w.host.table, t.desired, s.observed, act.repoPath);
      RepairIsPlanned(t.desired, w, s.observed, s.orders, s.now, act.repoPath, act);
    }
  }

  ghost predicate IsTickRun(ticks: seq<Tick>) {
    && (forall k :: 0 <= k < |ticks| ==> IsTick(ticks[k]))
    && (forall k :: 0 < k < |ticks| ==> StartOf(ticks[k]) == EndOf(ticks[k - 1]))
  }

  lemma FirstPassProvisions(t: Tick, acc: Action)
    requires IsTick(t) && AcceptedIn(t, acc) && Owns(t, acc)
    ensures Provisioned(EndOf(t), acc) && EndOf(t).host == StartOf(t).host
  {
    hide Plan, Effect, Observes, ConnectionsConfigured, ValidOrders, SetUp, Files, DoneAt;
    var last := |t.pass.states| - 1;
    var k: nat :| k < |PlanOf(t)| && DoneAt(t, acc, k);
    TraceSetsUp(t, acc, k, last);
    TickKeepsHost(t, last);
  }

  lemma NextIsOnTrack(t: Tick, u: Tick, acc: Action)
    requires IsTick(t) && IsTick(u) && StartOf(u) == EndOf(t) && IsOffer(StartOf(t).host, acc)
    requires Provisioned(StartOf(t), acc) && Rediscovered(StartOf(t).host, t.desired, acc)
    ensures Provisioned(StartOf(u), acc) && StartOf(u).host == StartOf(t).host
    ensures
      var act := IgnoreOf(StartOf(t).host, acc);
      IgnoreWanted(StartOf(t), acc) || act !in PlanOf(t) || DoneIn(t, act) ==> IgnoreWanted(StartOf(u), acc)
  {
    hide Plan, Effect, Apply, Observes, ConnectionsConfigured, ValidOrders, Provisioned, Rediscovered, IgnoreWanted,
         SyncIgnoreFileContent, MergeSyncIgnorePatterns;
    LaterPassKeeps(t, acc, |t.pass.states| - 1);
    IgnoreIsPlannedExactly(t, acc);
  }

  lemma {:induction false} ProvisionedThroughout(host: Host, ticks: seq<Tick>, acc: Action, k: nat)
    requires IsTickRun(ticks) && 0 < k < |ticks| && host == StartOf(ticks[0]).host
    requires AcceptedIn(ticks[0], acc) && Owns(ticks[0], acc)
    requires forall j :: 0 < j < k ==> Rediscovered(host, ticks[j].desired, acc)
    ensures StartOf(ticks[k]).host == host && Provisioned(StartOf(ticks[k]), acc)
    ensures
      var act := IgnoreOf(host, acc);
      (exists j :: 0 < j < k && (act !in PlanOf(ticks[j]) || DoneIn(ticks[j], act))) ==>
        IgnoreWanted(StartOf(ticks[k]), acc)
  {
    hide IsTick, PlanOf, DoneIn, Provisioned, Rediscovered, IgnoreWanted, IgnoreOf, Owns;
    assert StartOf(ticks[k]) == EndOf(ticks[k - 1]);
    if k == 1 {
      FirstPassProvisions(ticks[0], acc);
    } else {
      ProvisionedThroughout(host, ticks, acc, k - 1);
      NextIsOnTrack(ticks[k - 1], ticks[k], acc);
    }
  }

  /** An accepted subscription settles, whatever else fails. Once the acceptance has succeeded and owns its directory,
      and as long as that is rediscovered, no later pass removes, re-accepts or repairs the folder; a pass emits at
      most its ignore file, and only when every pass between tried to write that file and failed. */
  lemma AcceptedSubscriptionSettles(host: Host, ticks: seq<Tick>, acc: Action, k: nat, a: Action)
    requires IsTickRun(ticks) && 0 < k < |ticks| && host == StartOf(ticks[0]).host
    requires AcceptedIn(ticks[0], acc) && Owns(ticks[0], acc)
    requires forall j :: 0 < j <= k ==> Rediscovered(host, ticks[j].desired, acc)
    requires a in PlanOf(ticks[k]) && Concerns(a, acc.folderID, Target(host, acc))
    ensures a == EnsureIgnoreFile(Target(host, acc), MergeSyncIgnorePatterns(host.table.builtin, []))
    ensures forall j :: 0 < j < k ==> a in PlanOf(ticks[j]) && !DoneIn(ticks[j], a)
  {
    hide IsTick, PlanOf, DoneIn, Provisioned, Rediscovered, IgnoreWanted, MergeSyncIgnorePatterns, Owns, Concerns;
    ProvisionedThroughout(host, ticks, acc, k);
    LaterPassEmitsAtMostIgnore(ticks[k], acc, a);
    IgnoreIsPlannedExactly(ticks[k], acc);
    assert a == IgnoreOf(host, acc) && !IgnoreWanted(StartOf(ticks[k]), acc);
  }

  // ---------------------------------------------------------------- when it is rediscovered

  /** The desired state built from the disk contains a provisioned folder whose path the walk reaches
      or a tracked override names, provided its peer's ID stands for itself and no other repository
      file carries the folder ID. */
  lemma ProvisionedIsRediscovered(m: Machine, s: Option<State>, w: World, acc: Action, d: Desired)
    requires acc.AcceptSubscription? && Provisioned(w, acc) && DesiredOf(w.host, m, s, w.disk) == Ok(d)
    requires
      var p := Target(w.host, acc);
      p in DiscoveredSet(m, w.host.home, w.disk) || p in TrackedPaths(s, w.host.home)
    requires acc.fromDeviceID != "" && ResolveItem(MergedPeers(m, s), acc.fromDeviceID) == acc.fromDeviceID
    requires forall q :: q in RepoPaths(m, s, w.host.home, w.disk) ==>
               LoadRepo(w.disk, q).value.folderID == acc.folderID ==> q == Target(w.host, acc)
    ensures Rediscovered(w.host, d, acc)
  {
    var p := Target(w.host, acc);
    var c := AcceptedConfig(acc);
    var peers := MergedPeers(m, s);
    assert LoadRepo(w.disk, p) == Some(c) && p in RepoPaths(m, s, w.host.home, w.disk);
    assert d.repos[p] == RepoDesiredOf(w.host.table, m, peers, c);
    OneDevice(peers, acc.fromDeviceID);
    forall q | q in d.repos && d.repos[q].folderID == acc.folderID ensures q == p {
      assert q in RepoPaths(m, s, w.host.home, w.disk);
    }
  }

  lemma OneDevice(peers: seq<PeerDesired>, id: string)
    requires id != "" && ResolveItem(peers, id) == id
    ensures ResolveShareWith([id], peers) == [id]
  {
    var items := [id];
    var ids := seq(|items|, i requires 0 <= i < |items| => ResolveItem(peers, items[i]));
    assert ids == [id];
    assert ids[1..] == [];
    var none: seq<string> := [];
    assert Fresh({}, ids, Pattern) == [id] + Fresh({} + {id}, none, Pattern);
  }

  /** The default placement, one level below the first scan root, is always reached by the walk unless
      the root or the directory is excluded or the root is itself a repository. */
  lemma DefaultPlacementIsWalked(m: Machine, home: Path, disk: Disk, name: string)
    requires var root := Expand(home, EffectiveRoots(m)[0]);
             && IsDir(disk, root) && !HasRepoFile(disk, root) && root !in ExcludeSet(m, home)
             && HasRepoFile(disk, root + [name]) && root + [name] !in ExcludeSet(m, home)
    ensures Expand(home, EffectiveRoots(m)[0]) + [name] in DiscoveredSet(m, home, disk)
  {
    var root := Expand(home, EffectiveRoots(m)[0]);
    OneLevelBelow(disk, ExcludeSet(m, home), EffectiveDepth(m), root, name);
    hide Walked, Expand, EffectiveDepth, EffectiveRoots, ExcludeSet;
    assert ExpandAll(home, EffectiveRoots(m))[0] == root;
    assert root in ExpandAll(home, EffectiveRoots(m));
  }

  lemma OneLevelBelow(disk: Disk, exclude: set<Path>, depth: int, root: Path, name: string)
    requires IsDir(disk, root) && !HasRepoFile(disk, root) && root !in exclude && depth > 0
    requires HasRepoFile(disk, root + [name]) && root + [name] !in exclude
    ensures Walked(disk, exclude, depth, root, root + [name])
  {
    var p := root + [name];
    assert p[..|root|] == root && p[..|root| + 1] == p;
  }

  /** The other direction: once configured, the folder is removed by the next pass exactly when no
      desired repository carries its ID. */
  lemma UndiscoveredIsRemoved(t: Tick, id: string)
    requires IsTick(t) && id != "" && Lookup(StartOf(t).cfg.folders, id).Some?
    ensures RemoveSyncthingFolder(id) in PlanOf(t) <==> id !in DesiredIDs(t.desired)
  {
    var w, d, s := StartOf(t), t.desired, t.pass;
    var a := RemoveSyncthingFolder(id);
    hide SyncIgnoreFileContent, Effect, Plan, ValidOrders, Repair, Observes, ConnectionsConfigured, DesiredIDs;
    if id !in DesiredIDs(d) { ForeignFolderIsAimedAt(d, w, s.observed, s.orders, s.now, id); }
    if a in PlanOf(t) { RemovedIsForeign(t, a); }
  }

  // ---------------------------------------------------------------- two acceptances for one directory

  ghost predicate Targets(host: Host, b: Action, p: Path) {
    b.AcceptSubscription? && Target(host, b) == p
  }

  /** Until an acceptance for `p` leaves its file there, none has completed. */
  lemma {:induction false} FirstClaimLasts(t: Tick, p: Path, i: nat)
    requires IsTick(t) && i < |t.pass.states| && RepoFileAt(StartOf(t).disk, p).NoFile?
    ensures || (RepoFileAt(t.pass.states[i].disk, p).NoFile?
                && forall b :: Targets(StartOf(t).host, b, p) ==> !DoneBefore(t, b, i))
            || (exists b :: b in PlanOf(t) && Targets(StartOf(t).host, b, p)
                  && RepoFileAt(t.pass.states[i].disk, p) == Parsed(AcceptedConfig(b)))
  {
    hide Plan, Effect, Apply, Observes, ConnectionsConfigured, ValidOrders, RepoFileAt, Target;
    if i > 0 {
      FirstClaimLasts(t, p, i - 1);
      TickKeepsHost(t, i - 1);
      var w, a, w' := t.pass.states[i - 1], PlanOf(t)[i - 1], t.pass.states[i];
      assert a in PlanOf(t);
      EffectKeeps(w, a, w', p);
      if Targets(w.host, a, p) && Apply(w, a) == Ok(w') && RepoFileAt(w'.disk, p).NoFile? {
        CompletedClaims(w, a, w');
      }
      forall b ensures DoneBefore(t, b, i) <==> DoneBefore(t, b, i - 1) || DoneAt(t, b, i - 1) {
        DoneBeforeNext(t, b, i);
      }
    }
  }

  lemma CompletedClaims(w: World, a: Action, w': World)
    requires a.AcceptSubscription? && Apply(w, a) == Ok(w')
    ensures !RepoFileAt(w'.disk, Target(w.host, a)).NoFile?
  {
    AcceptedIsMarked(w.host, w.disk, a);
  }

  /** Nothing overwrites a repository file, so when several acceptances of one pass take the same
      directory a single one of them owns it afterwards; the folder ID found there is its own, and
      every other accepted folder is left without a repository file. */
  lemma OneAcceptanceOwnsTheDirectory(t: Tick, p: Path, c: Action) returns (b: Action)
    requires IsTick(t) && RepoFileAt(StartOf(t).disk, p).NoFile?
    requires DoneIn(t, c) && Targets(StartOf(t).host, c, p)
    ensures b in PlanOf(t) && Targets(StartOf(t).host, b, p)
    ensures LoadRepo(EndOf(t).disk, p) == Some(AcceptedConfig(b))
    ensures c.folderID != b.folderID ==> LoadRepo(EndOf(t).disk, p).value.folderID != c.folderID
  {
    hide Plan, Effect, Apply, Observes, ConnectionsConfigured, ValidOrders;
    FirstClaimLasts(t, p, |t.pass.states| - 1);
    b :| b in PlanOf(t) && Targets(StartOf(t).host, b, p) && RepoFileAt(EndOf(t).disk, p) == Parsed(AcceptedConfig(b));
  }

  // ---------------------------------------------------------------- acceptances by the fields of what is offered

  /** The subscription asks for a folder with this title. */
  predicate AsksTitle(sub: SubscriptionEntry, title: string) {
    || (sub.canonical != "" && title == sub.canonical)
    || (sub.canonical == "" && sub.name != "" && title == "dk:" + sub.name)
  }

  /** Offered under the title the subscription asks for, and not configured here. */
  ghost predicate Available(o: Observed, sub: SubscriptionEntry, f: OfferedFolder) {
    f in o.offeredFolders && AsksTitle(sub, f.title) && forall x :: x in o.managedFolders ==> x.folderID != f.folderID
  }

  /** The action takes the offered folder for the subscription: its ID and title, from the device that offers it, at the
      subscription's path or by the default convention. */
  ghost predicate Takes(d: Desired, o: Observed, a: Action, sub: SubscriptionEntry, f: OfferedFolder) {
    && a.AcceptSubscription? && a.folderID == f.folderID && a.title == f.title && a.fromDeviceID == f.fromDeviceID
    && a.fromPeerName == (if f.fromDeviceID in o.peerNameByID then o.peerNameByID[f.fromDeviceID] else "")
    && a.path == if sub.path != [] then sub.path else DefaultMirrorPath(d.defaultMirrorPath, sub)
  }

  lemma OfferOfFolder(o: Observed, sub: SubscriptionEntry, f: OfferedFolder)
    ensures Available(o, sub, f) ==> Eligible(sub, Offers(o), LocalIDs(o), OfferOf(o, f))
    ensures AsksTitle(sub, f.title) <==> Asks(sub, OfferOf(o, f))
  {
    if Available(o, sub, f) {
      var i :| 0 <= i < |o.offeredFolders| && o.offeredFolders[i] == f;
      assert Offers(o)[i] == OfferOf(o, f);
    }
  }

  /** The offered folder behind an eligible offer. */
  lemma FolderOfOffer(o: Observed, sub: SubscriptionEntry, x: Offer) returns (f: OfferedFolder)
    requires Eligible(sub, Offers(o), LocalIDs(o), x)
    ensures Available(o, sub, f) && x == OfferOf(o, f)
  {
    var i :| 0 <= i < |Offers(o)| && Offers(o)[i] == x;
    f := o.offeredFolders[i];
    OfferOfFolder(o, sub, f);
    hide Asks, AsksTitle;
    assert x.folderID !in LocalIDs(o);
  }

  /** Each planned acceptance takes an available folder for a declared subscription, and every other available folder of
      that subscription is the same one. */
  lemma PlannedAcceptanceIsOffered(d: Desired, w: World, o: Observed, ord: Orders, now: int, a: Action)
    returns (sub: SubscriptionEntry, f: OfferedFolder)
    requires ValidOrders(d, o, ord) && a in Plan(w.host.table, d, o, ord, now) && a.AcceptSubscription?
    ensures sub in d.subscriptions && Available(o, sub, f) && Takes(d, o, a, sub, f)
    ensures forall g :: Available(o, sub, g) ==> g.folderID == f.folderID
  {
    hide Plan, ValidOrders, Asks, AsksTitle, DefaultMirrorPath, Acceptances, Eligible, Available, Offers, LocalIDs,
         Disagree;
    OnlyMatchesAreAccepted(w.host.table, d, o, ord, now, a);
    var m :| m in Matched(d, o) && a == AcceptAction(d, m);
    AcceptedIsEligible(d.subscriptions, Offers(o), LocalIDs(o), m);
    sub := m.subscription;
    f := FolderOfOffer(o, sub, m.offer);
    forall g | Available(o, sub, g) ensures g.folderID == f.folderID {
      OfferOfFolder(o, sub, g);
      AgreeOn(sub, Offers(o), LocalIDs(o), m.offer, OfferOf(o, g));
    }
  }

  lemma AgreeOn(sub: SubscriptionEntry, offers: seq<Offer>, local: set<string>, x: Offer, y: Offer)
    requires !Disagree(sub, offers, local) && Eligible(sub, offers, local, x) && Eligible(sub, offers, local, y)
    ensures x.folderID == y.folderID
  {
    hide Eligible;
  }

  /** Conversely a folder that is the only one available to a subscription is accepted. */
  lemma AvailableFolderIsAccepted(d: Desired, w: World, o: Observed, ord: Orders, now: int, sub: SubscriptionEntry,
                                  f: OfferedFolder) returns (a: Action)
    requires ValidOrders(d, o, ord) && sub in d.subscriptions && Available(o, sub, f)
    requires forall g :: Available(o, sub, g) ==> g.folderID == f.folderID
    ensures a in Plan(w.host.table, d, o, ord, now) && Accepts(a, f.folderID)
  {
    hide Plan, ValidOrders, Asks, AsksTitle, DefaultMirrorPath, Acceptances, Eligible, Available, Offers, LocalIDs,
         Disagree;
    OfferOfFolder(o, sub, f);
    OnlyOneIsAvailable(o, sub, f);
    var acc := EligibleIsAccepted(d.subscriptions, Offers(o), LocalIDs(o), sub, OfferOf(o, f));
    MatchesAreAccepted(w.host.table, d, o, ord, now, acc);
    a := AcceptAction(d, acc);
  }

  lemma OnlyOneIsAvailable(o: Observed, sub: SubscriptionEntry, f: OfferedFolder)
    requires forall g :: Available(o, sub, g) ==> g.folderID == f.folderID
    ensures !Disagree(sub, Offers(o), LocalIDs(o))
  {
    hide Eligible, Available, Offers, LocalIDs;
    forall x | Eligible(sub, Offers(o), LocalIDs(o), x) ensures x.folderID == f.folderID {
      var g := FolderOfOffer(o, sub, x);
    }
  }

  // ---------------------------------------------------------------- two subscriptions for one directory

  /** Ordinary names are placed right under the mirror root, which is ~/Documents/GitHub unless the machine has one. */
  lemma PlacedUnderTheRoot(root: Path, dir: string, name: string)
    requires '/' !in name && name != "" && TrimSuffix(name, ".git") !in {"", ".", ".."}
    ensures
      var at := if root == [] then ["~", "Documents", "GitHub"] else root;
      && DefaultMirrorPath(root, SubscriptionEntry(dir + "/" + name, "", [])) == at + [TrimSuffix(name, ".git")]
      && DefaultMirrorPath(root, SubscriptionEntry("", name, [])) == at + [TrimSuffix(name, ".git")]
  {
    BaseOfJoined(dir, name);
    hide BaseName, TrimSuffix;
    var at := if root == [] then ["~", "Documents", "GitHub"] else root;
    TrimmedHasNoSlash(name);
    hide JoinParts, SplitSlash;
    JoinOfName(at, TrimSuffix(name, ".git"));
  }

  lemma TrimmedHasNoSlash(name: string)
    requires '/' !in name
    ensures '/' !in TrimSuffix(name, ".git")
  {
    assert forall c :: c in TrimSuffix(name, ".git") ==> c in name;
  }

  /** The name the directory of a subscription is placed under; blank for the mirror root itself. */
  function PlacedName(sub: SubscriptionEntry): string {
    var name := MirrorName(sub);
    if name == "." || name == "/" then "" else name
  }

  /** A subscription by canonical identity, or by a name of one element. */
  predicate OneElement(sub: SubscriptionEntry) {
    sub.canonical == "" ==> '/' !in sub.name
  }

  /** The default convention looks at the last element of an identity, or at the name, alone: two subscriptions are
      placed in one directory exactly when those agree up to `.git`, whatever their hosts and owners, and whether they
      are declared by identity or by name. */
  lemma SameDirectoryExactly(root: Path, a: SubscriptionEntry, b: SubscriptionEntry)
    requires OneElement(a) && OneElement(b)
    ensures DefaultMirrorPath(root, a) == DefaultMirrorPath(root, b) <==> PlacedName(a) == PlacedName(b)
  {
    hide MirrorName;
    var at := if root == [] then FALLBACK_MIRROR_ROOT else root;
    PlacedAt(at, a);
    PlacedAt(at, b);
    hide PlacedName, OneElement, Join;
    assert |at[..|at| - 1]| == |at| - 1;
    assert (at + [PlacedName(a)])[|at|] == PlacedName(a) && (at + [PlacedName(b)])[|at|] == PlacedName(b);
  }

  lemma PlacedAt(at: Path, sub: SubscriptionEntry)
    requires at != [] && OneElement(sub)
    ensures Join(at, MirrorName(sub)) ==
            var name := PlacedName(sub);
            if name == "" then at else if name == ".." then at[..|at| - 1] else at + [name]
  {
    MirrorNameHasNoSlash(sub);
    hide MirrorName, JoinParts, SplitSlash;
    if MirrorName(sub) == "/" {
      JoinOfSlash(at);
    } else {
      JoinOfName(at, MirrorName(sub));
    }
  }

  lemma MirrorNameHasNoSlash(sub: SubscriptionEntry)
    requires OneElement(sub)
    ensures MirrorName(sub) == "/" || '/' !in MirrorName(sub)
  {
    BaseHasNoSlash(sub.canonical);
    hide BaseName;
    assert forall c :: c in TrimSuffix(sub.name, ".git") ==> c in sub.name;
    assert forall c :: c in TrimSuffix(BaseName(sub.canonical), ".git") ==> c in BaseName(sub.canonical);
  }

  lemma JoinOfSlash(at: Path)
    ensures Join(at, "/") == at
  {
    assert SplitSlash("/") == [""] + SplitSlash("");
    assert SplitSlash("") == [""] && [""][1..] == [];
    assert (["", ""])[1..] == [""];
    assert JoinParts(at, [""]) == JoinParts(at, []) == at;
  }

  lemma {:induction false} LastHasNoSlash(path: string)
    ensures '/' !in AfterLastSlash(path)
  {
    if path != "" && path[|path| - 1] != '/' { LastHasNoSlash(path[..|path| - 1]); }
  }

  lemma BaseHasNoSlash(path: string)
    ensures BaseName(path) == "/" || '/' !in BaseName(path)
  {
    LastHasNoSlash(DropSlashes(path));
  }

  /** For identities of the usual shape: the directories coincide exactly when the names do. */
  lemma SameNameSameDirectory(root: Path, dir: string, name: string, dir2: string, name2: string)
    requires '/' !in name && '/' !in name2 && name != "" && name2 != ""
    ensures DefaultMirrorPath(root, SubscriptionEntry(dir + "/" + name, "", []))
            == DefaultMirrorPath(root, SubscriptionEntry(dir2 + "/" + name2, "", []))
       <==> var x, y := TrimSuffix(name, ".git"), TrimSuffix(name2, ".git");
            x == y || (x in {"", "."} && y in {"", "."})
  {
    BaseOfJoined(dir, name);
    BaseOfJoined(dir2, name2);
    hide BaseName, DefaultMirrorPath;
    SameDirectoryExactly(root, SubscriptionEntry(dir + "/" + name, "", []),
                         SubscriptionEntry(dir2 + "/" + name2, "", []));
    assert forall c :: c in TrimSuffix(name, ".git") ==> c in name;
    assert forall c :: c in TrimSuffix(name2, ".git") ==> c in name2;
    assert '/' in "/";
  }

  /** A subscription by name meets one by identity exactly when the name is its last element, up to `.git`. */
  lemma NameMeetsIdentity(root: Path, name: string, dir: string, last: string)
    requires '/' !in name && '/' !in last && name != "" && last != ""
    ensures DefaultMirrorPath(root, SubscriptionEntry("", name, []))
            == DefaultMirrorPath(root, SubscriptionEntry(dir + "/" + last, "", []))
       <==> var x, y := TrimSuffix(name, ".git"), TrimSuffix(last, ".git");
            x == y || (x in {"", "."} && y in {"", "."})
  {
    BaseOfJoined(dir, last);
    hide BaseName, DefaultMirrorPath;
    SameDirectoryExactly(root, SubscriptionEntry("", name, []), SubscriptionEntry(dir + "/" + last, "", []));
    assert forall c :: c in TrimSuffix(name, ".git") ==> c in name;
    assert forall c :: c in TrimSuffix(last, ".git") ==> c in last;
    assert '/' in "/";
  }

  // -- names of several elements

  /** Where a name leads from the mirror root: so many levels up, then down. */
  datatype Place = Place(ups: nat, downs: Path)

  function Lead(p: Place, parts: seq<string>): Place
    decreases parts
  {
    if parts == [] then p
    else if parts[0] == "" || parts[0] == "." then Lead(p, parts[1..])
    else if parts[0] == ".." then
      Lead(if p.downs == [] then Place(p.ups + 1, []) else Place(p.ups, p.downs[..|p.downs| - 1]), parts[1..])
    else Lead(Place(p.ups, p.downs + [parts[0]]), parts[1..])
  }

  function PlaceOf(sub: SubscriptionEntry): Place {
    Lead(Place(0, []), SplitSlash(MirrorName(sub)))
  }

  /** How much of the root is left so many levels up. */
  function Left(root: Path, ups: nat): nat {
    if ups <= |root| then |root| - ups else 0
  }

  function At(root: Path, p: Place): Path {
    root[..Left(root, p.ups)] + p.downs
  }

  lemma {:induction false} JoinLeads(root: Path, p: Place, parts: seq<string>)
    ensures JoinParts(At(root, p), parts) == At(root, Lead(p, parts))
    decreases parts
  {
    if parts != [] {
      var next := if parts[0] == "" || parts[0] == "." then p
                  else if parts[0] == ".." then
                    if p.downs == [] then Place(p.ups + 1, []) else Place(p.ups, p.downs[..|p.downs| - 1])
                  else Place(p.ups, p.downs + [parts[0]]);
      StepLeads(root, p, parts[0]);
      JoinLeads(root, next, parts[1..]);
    }
  }

  lemma StepLeads(root: Path, p: Place, x: string)
    ensures At(root, Place(p.ups, p.downs + [x])) == At(root, p) + [x]
    ensures
      var up := if p.downs == [] then Place(p.ups + 1, []) else Place(p.ups, p.downs[..|p.downs| - 1]);
      At(root, up) == if At(root, p) == [] then [] else At(root, p)[..|At(root, p)| - 1]
  {}

  /** For any two subscriptions, names of several elements included: the directories coincide exactly when the one that
      leads further up comes down again through the part of the root in between to where the other leads. */
  lemma NestedNamesMeetExactly(root: Path, a: SubscriptionEntry, b: SubscriptionEntry)
    requires PlaceOf(a).ups <= PlaceOf(b).ups
    ensures
      var at := if root == [] then FALLBACK_MIRROR_ROOT else root;
      DefaultMirrorPath(root, a) == DefaultMirrorPath(root, b)
      <==> PlaceOf(b).downs == at[Left(at, PlaceOf(b).ups)..Left(at, PlaceOf(a).ups)] + PlaceOf(a).downs
  {
    LeadsTo(root, a);
    LeadsTo(root, b);
    hide DefaultMirrorPath, PlaceOf;
    SamePlaceExactly(if root == [] then FALLBACK_MIRROR_ROOT else root, PlaceOf(a), PlaceOf(b));
  }

  lemma LeadsTo(root: Path, sub: SubscriptionEntry)
    ensures DefaultMirrorPath(root, sub) == At(if root == [] then FALLBACK_MIRROR_ROOT else root, PlaceOf(sub))
  {
    hide MirrorName, SplitSlash, Lead, JoinParts;
    var at := if root == [] then FALLBACK_MIRROR_ROOT else root;
    assert At(at, Place(0, [])) == at;
    JoinLeads(at, Place(0, []), SplitSlash(MirrorName(sub)));
  }

  lemma SamePlaceExactly(at: Path, p: Place, q: Place)
    requires p.ups <= q.ups
    ensures At(at, p) == At(at, q) <==> q.downs == at[Left(at, q.ups)..Left(at, p.ups)] + p.downs
  {
    var x, y := Left(at, p.ups), Left(at, q.ups);
    assert at[..x] == at[..y] + at[y..x];
    assert At(at, p) == at[..y] + (at[y..x] + p.downs);
    CommonPrefix(at[..y], at[y..x] + p.downs, q.downs);
  }

  lemma CommonPrefix(p: Path, a: Path, b: Path)
    ensures p + a == p + b <==> a == b
  {
    assert (p + a)[|p|..] == a && (p + b)[|p|..] == b;
  }

  // ---------------------------------------------------------------- the acceptance that lost its directory

  /** No repository file names the folder. */
  ghost predicate Unfiled(disk: Disk, id: string) {
    forall p :: RepoFileAt(disk, p).Parsed? ==> RepoFileAt(disk, p).config.folderID != id
  }

  /** Every acceptance of the folder is for the directory `p`. */
  ghost predicate OnlyFor(t: Tick, id: string, p: Path)
    requires IsTick(t)
  {
    forall a :: a in PlanOf(t) && Accepts(a, id) ==> Target(StartOf(t).host, a) == p
  }

  ghost predicate UnfiledElsewhere(disk: Disk, id: string, p: Path) {
    forall q :: q != p && RepoFileAt(disk, q).Parsed? ==> RepoFileAt(disk, q).config.folderID != id
  }

  /** Only its own directory can get a file for the folder, and a file there is never replaced. */
  lemma {:induction false} StaysUnfiledElsewhere(t: Tick, id: string, p: Path, i: nat)
    requires IsTick(t) && OnlyFor(t, id, p) && i < |t.pass.states| && UnfiledElsewhere(StartOf(t).disk, id, p)
    ensures UnfiledElsewhere(t.pass.states[i].disk, id, p)
    ensures RepoFileAt(StartOf(t).disk, p).NoFile?
         || RepoFileAt(t.pass.states[i].disk, p) == RepoFileAt(StartOf(t).disk, p)
  {
    hide Plan, Effect, Apply, Observes, ConnectionsConfigured, ValidOrders, RepoFileAt, Target;
    if i > 0 {
      StaysUnfiledElsewhere(t, id, p, i - 1);
      TickKeepsHost(t, i - 1);
      var w, a, w' := t.pass.states[i - 1], PlanOf(t)[i - 1], t.pass.states[i];
      assert a in PlanOf(t);
      EffectKeeps(w, a, w', p);
      forall q | q != p && RepoFileAt(w'.disk, q).Parsed? ensures RepoFileAt(w'.disk, q).config.folderID != id {
        EffectKeeps(w, a, w', q);
      }
    }
  }

  /** With the directory taken, nothing a pass does ever writes a file for the folder. */
  lemma PassLeavesUnfiled(t: Tick, id: string, p: Path)
    requires IsTick(t) && OnlyFor(t, id, p)
    requires Unfiled(StartOf(t).disk, id) && !RepoFileAt(StartOf(t).disk, p).NoFile?
    ensures Unfiled(EndOf(t).disk, id) && !RepoFileAt(EndOf(t).disk, p).NoFile?
  {
    hide RepoFileAt, OnlyFor;
    StaysUnfiledElsewhere(t, id, p, |t.pass.states| - 1);
  }

  /** The losers of a collision end their pass with no repository file anywhere. */
  lemma LoserIsUnfiled(t: Tick, p: Path, c: Action) returns (b: Action)
    requires c.AcceptSubscription? && IsTick(t)
    requires RepoFileAt(StartOf(t).disk, p).NoFile? && Unfiled(StartOf(t).disk, c.folderID)
    requires DoneIn(t, c) && Targets(StartOf(t).host, c, p) && OnlyFor(t, c.folderID, p)
    ensures b in PlanOf(t) && Targets(StartOf(t).host, b, p)
    ensures RepoFileAt(EndOf(t).disk, p) == Parsed(AcceptedConfig(b))
    ensures c.folderID != b.folderID ==> Unfiled(EndOf(t).disk, c.folderID)
  {
    hide OnlyFor, DoneIn, IsTick;
    b := OneAcceptanceOwnsTheDirectory(t, p, c);
    PassKeepsElsewhere(t, c.folderID, p);
  }

  lemma PassKeepsElsewhere(t: Tick, id: string, p: Path)
    requires IsTick(t) && OnlyFor(t, id, p) && UnfiledElsewhere(StartOf(t).disk, id, p)
    ensures UnfiledElsewhere(EndOf(t).disk, id, p)
  {
    hide UnfiledElsewhere, OnlyFor;
    StaysUnfiledElsewhere(t, id, p, |t.pass.states| - 1);
  }

  lemma {:induction false} UnfiledThroughout(ticks: seq<Tick>, id: string, p: Path, k: nat)
    requires IsTickRun(ticks) && k < |ticks| && forall j :: 0 <= j < k ==> OnlyFor(ticks[j], id, p)
    requires Unfiled(StartOf(ticks[0]).disk, id) && !RepoFileAt(StartOf(ticks[0]).disk, p).NoFile?
    ensures Unfiled(StartOf(ticks[k]).disk, id) && !RepoFileAt(StartOf(ticks[k]).disk, p).NoFile?
  {
    hide IsTick, Unfiled, RepoFileAt, OnlyFor;
    if k > 0 {
      UnfiledThroughout(ticks, id, p, k - 1);
      assert StartOf(ticks[k]) == EndOf(ticks[k - 1]);
      PassLeavesUnfiled(ticks[k - 1], id, p);
    }
  }

  /** The subscription still names the folder: it is offered under the wanted title, and so is no other folder this
      machine lacks. */
  ghost predicate StillOffered(t: Tick, sub: SubscriptionEntry, id: string) {
    var offers := Offers(t.pass.observed);
    && sub in t.desired.subscriptions && Wanted(sub) != ""
    && (exists x :: x in offers && x.title == Wanted(sub) && x.folderID == id)
    && forall x :: x in offers && x.title == Wanted(sub) && x.folderID !in LocalIDs(t.pass.observed) ==>
         x.folderID == id
  }

  lemma OfferedIsAccepted(t: Tick, sub: SubscriptionEntry, id: string)
    requires IsTick(t) && StillOffered(t, sub, id) && id != "" && Lookup(StartOf(t).cfg.folders, id).None?
    ensures exists a :: a in PlanOf(t) && Accepts(a, id)
  {
    var d, s, local := t.desired, t.pass, LocalIDs(t.pass.observed);
    NotConfiguredIsNotLocal(StartOf(t), d, s.observed, id);
    hide Plan, Effect, Observes, ConnectionsConfigured, ValidOrders, LocalIDs;
    var x :| x in Offers(s.observed) && x.title == Wanted(sub) && x.folderID == id;
    var cs := Candidates(sub, Offers(s.observed), local);
    assert x in Titled(Offers(s.observed), Wanted(sub)) && x in cs;
    assert forall c :: c in cs ==> c in Titled(Offers(s.observed), Wanted(sub));
    assert cs[0] in cs;
    AcceptanceIsComplete(d.subscriptions, Offers(s.observed), local, sub);
    MatchesAreAccepted(StartOf(t).host.table, d, s.observed, s.orders, s.now, Acceptance(sub, cs[0]));
    assert Accepts(AcceptAction(d, Acceptance(sub, cs[0])), id);
  }

  lemma NotConfiguredIsNotLocal(w: World, d: Desired, o: Observed, id: string)
    requires Observes(w, d, o) && Lookup(w.cfg.folders, id).None?
    ensures id !in LocalIDs(o)
  {
    forall f | f in o.managedFolders ensures f.folderID != id {
      ObservedIsFolder(w.cfg.folders, w.disk, w.host.myID, f);
      var g :| g in w.cfg.folders && g.id == f.folderID;
      LookupFinds(w.cfg.folders, g);
    }
  }

  lemma {:induction false} LookupFinds(fs: seq<Folder>, g: Folder)
    requires g in fs
    ensures Lookup(fs, g.id).Some?
  {
    if g != fs[0] { LookupFinds(fs[1..], g); }
  }

  /** The desired state of the tick was built from the disk it started on. */
  ghost predicate BuiltFromDisk(t: Tick, m: Machine, s: Option<State>)
    requires IsTick(t)
  {
    DesiredOf(StartOf(t).host, m, s, StartOf(t).disk) == Ok(t.desired)
  }

  lemma UnfiledIsUndesired(t: Tick, m: Machine, s: Option<State>, id: string)
    requires IsTick(t) && BuiltFromDisk(t, m, s) && Unfiled(StartOf(t).disk, id)
    ensures id !in DesiredIDs(t.desired)
  {
    hide IsTick;
    var w := StartOf(t);
    forall p | p in t.desired.repos ensures t.desired.repos[p].folderID != id {
      assert p in RepoPaths(m, s, w.host.home, w.disk);
      assert RepoFileAt(w.disk, p).Parsed?;
    }
  }

  /** An acceptance that lost its directory to another repository file never settles. In every later pass the folder
      is either configured, and then removed, or not configured, and then accepted again. */
  lemma LostAcceptanceNeverSettles(ticks: seq<Tick>, sub: SubscriptionEntry, id: string, p: Path, k: nat,
                                   m: Machine, s: Option<State>)
    requires IsTickRun(ticks) && k < |ticks| && id != "" && forall j :: 0 <= j < k ==> OnlyFor(ticks[j], id, p)
    requires Unfiled(StartOf(ticks[0]).disk, id) && !RepoFileAt(StartOf(ticks[0]).disk, p).NoFile?
    requires BuiltFromDisk(ticks[k], m, s) && StillOffered(ticks[k], sub, id)
    ensures if Lookup(StartOf(ticks[k]).cfg.folders, id).Some? then RemoveSyncthingFolder(id) in PlanOf(ticks[k])
            else exists a :: a in PlanOf(ticks[k]) && Accepts(a, id)
  {
    hide IsTick, PlanOf, Unfiled, RepoFileAt, OnlyFor, BuiltFromDisk, StillOffered, DesiredIDs;
    UnfiledThroughout(ticks, id, p, k);
    UnfiledIsUndesired(ticks[k], m, s, id);
    if Lookup(StartOf(ticks[k]).cfg.folders, id).Some? {
      UndiscoveredIsRemoved(ticks[k], id);
    } else {
      OfferedIsAccepted(ticks[k], sub, id);
    }
  }

  /** No action of the pass touches the folder or its directory, but for the ignore file. */
  ghost predicate Quiet(host: Host, t: Tick, acc: Action)
    requires IsTick(t) && acc.AcceptSubscription?
  {
    forall a :: a in PlanOf(t) && Concerns(a, acc.folderID, Target(host, acc)) ==> a == IgnoreOf(host, acc)
  }

  /** An accepted folder that does not own its directory has no repository file, and another is in its place. */
  lemma RivalIsUnfiled(t: Tick, acc: Action)
    requires IsTick(t) && AcceptedIn(t, acc) && !Owns(t, acc) && Unfiled(StartOf(t).disk, acc.folderID)
    ensures
      var p := Target(StartOf(t).host, acc);
      OnlyFor(t, acc.folderID, p) && Unfiled(EndOf(t).disk, acc.folderID) && !RepoFileAt(EndOf(t).disk, p).NoFile?
  {
    var p := Target(StartOf(t).host, acc);
    AcceptedIsFiled(t, acc);
    AcceptedIsOnlyFor(t, acc);
    EndKeepsHost(t);
    hide IsTick, PlanOf, RepoFileAt, Unfiled, DoneIn, OnlyFor, StartOf, EndOf, Target;
    if RepoFileAt(StartOf(t).disk, p).NoFile? {
      var b := LoserIsUnfiled(t, p, acc);
      assert b.folderID == acc.folderID ==> Accepts(b, acc.folderID);
    } else {
      PassLeavesUnfiled(t, acc.folderID, p);
    }
  }

  lemma EndKeepsHost(t: Tick)
    requires IsTick(t)
    ensures EndOf(t).host == StartOf(t).host
  {
    hide Plan, Effect, Observes, ConnectionsConfigured, ValidOrders, DistinctIds;
    TickKeepsHost(t, |t.pass.states| - 1);
  }

  lemma AcceptedIsOnlyFor(t: Tick, acc: Action)
    requires IsTick(t) && AcceptedIn(t, acc)
    ensures OnlyFor(t, acc.folderID, Target(StartOf(t).host, acc))
  {
    hide IsTick, PlanOf, DoneIn, StartOf, Target;
  }

  /** Of the folders accepted for one directory exactly the one whose repository file is there settles: the pass after,
      and every later one, leaves it alone, and none leaves any other alone. */
  lemma AcceptanceSettlesExactly(host: Host, ticks: seq<Tick>, acc: Action, k: nat, sub: SubscriptionEntry,
                                 m: Machine, s: Option<State>)
    requires IsTickRun(ticks) && 0 < k < |ticks| && host == StartOf(ticks[0]).host && AcceptedIn(ticks[0], acc)
    requires Unfiled(StartOf(ticks[0]).disk, acc.folderID)
    requires forall j :: 0 < j < k ==> OnlyFor(ticks[j], acc.folderID, Target(host, acc))
    requires Owns(ticks[0], acc) ==> forall j :: 0 < j <= k ==> Rediscovered(host, ticks[j].desired, acc)
    requires BuiltFromDisk(ticks[k], m, s) && StillOffered(ticks[k], sub, acc.folderID)
    ensures Quiet(host, ticks[k], acc) <==> Owns(ticks[0], acc)
  {
    hide IsTick, PlanOf, RepoFileAt, Unfiled, DoneIn, OnlyFor, Owns, BuiltFromDisk, StillOffered, Rediscovered;
    if Owns(ticks[0], acc) {
      forall a | a in PlanOf(ticks[k]) && Concerns(a, acc.folderID, Target(host, acc))
        ensures a == IgnoreOf(host, acc)
      {
        AcceptedSubscriptionSettles(host, ticks, acc, k, a);
      }
    } else {
      RivalIsUnfiled(ticks[0], acc);
      RestOfRun(ticks);
      assert StartOf(ticks[1]) == EndOf(ticks[0]);
      LostAcceptanceNeverSettles(ticks[1..], sub, acc.folderID, Target(host, acc), k - 1, m, s);
    }
  }

  lemma RestOfRun(ticks: seq<Tick>)
    requires IsTickRun(ticks) && |ticks| > 1
    ensures IsTickRun(ticks[1..])
  {
    hide IsTick;
  }

  /** No two of them own it. */
  lemma OneOwner(t: Tick, b: Action, c: Action)
    requires IsTick(t) && AcceptedIn(t, b) && AcceptedIn(t, c) && Owns(t, b) && Owns(t, c)
    requires Target(EndOf(t).host, b) == Target(EndOf(t).host, c) && b in PlanOf(t)
    ensures b == c
  {
    hide IsTick, PlanOf, DoneIn;
    assert AcceptedConfig(b).folderID == b.folderID && AcceptedConfig(c).folderID == c.folderID;
  }
}
