/** Scheduled git backups of internal/reconcile/diff.go over whole runs of one repository. */
module Backups {
  import opened Base
  import opened World
  import opened Diff

  /** A plan's backup section holds exactly what some observed repository calls for. */
  lemma {:induction false} InBackupSection(d: Desired, o: Observed, repos: seq<RepoObs>, now: int, a: Action)
    ensures a in BackupSection(d, o, repos, now) <==> exists r <- repos :: a in BackupActions(d, o, r, now)
  {
    hide BackupActions;
    if repos != [] {
      InBackupSection(d, o, repos[1..], now, a);
      assert repos == [repos[0]] + repos[1..];
    }
  }

  /** A commit or a push of a repository is planned exactly when its backup fires and there is something to commit, or a
      head not pushed yet. */
  lemma BackupsExactly(d: Desired, o: Observed, repos: seq<RepoObs>, now: int, p: Path)
    ensures GitCommitDirty(p, BACKUP_MESSAGE) in BackupSection(d, o, repos, now) <==>
            exists r <- repos :: r.path == p && BackupFires(d, r, now) && r.isDirty
    ensures GitPushRepo(p) in BackupSection(d, o, repos, now) <==>
            exists r <- repos :: r.path == p && BackupFires(d, r, now) && r.headCommit != ""
                                 && !(p in o.lastPushed && o.lastPushed[p] == r.headCommit)
  {
    hide BackupFires;
    InBackupSection(d, o, repos, now, GitCommitDirty(p, BACKUP_MESSAGE));
    InBackupSection(d, o, repos, now, GitPushRepo(p));
    forall r ensures GitCommitDirty(p, BACKUP_MESSAGE) in BackupActions(d, o, r, now) <==>
                     r.path == p && BackupFires(d, r, now) && r.isDirty
    {
      assert BackupFires(d, r, now) && r.isDirty ==>
               BackupActions(d, o, r, now)[0] == GitCommitDirty(r.path, BACKUP_MESSAGE);
    }
    forall r ensures GitPushRepo(p) in BackupActions(d, o, r, now) <==>
                     r.path == p && BackupFires(d, r, now) && r.headCommit != ""
                     && !(p in o.lastPushed && o.lastPushed[p] == r.headCommit)
    {
      var acts := BackupActions(d, o, r, now);
      var unpushed := !(r.path in o.lastPushed && o.lastPushed[r.path] == r.headCommit);
      assert BackupFires(d, r, now) && r.headCommit != "" && unpushed ==> acts[|acts| - 1] == GitPushRepo(r.path);
    }
  }

  /** A rebase or merge only defers a backup: once it is over, the backup fires at whatever later time. */
  lemma DeferredBackupFires(d: Desired, r: RepoObs, now: int, later: int)
    requires now <= later && r.devWorkflowActive && BackupFires(d, r.(devWorkflowActive := false), now)
    ensures !BackupFires(d, r, now) && BackupFires(d, r.(devWorkflowActive := false), later)
  {}

  /** One pass as one repository sees it: the clock, what was observed, and when a push was recorded. */
  datatype Tick = Tick(now: int, obs: RepoObs, pushedAt: Option<int>)

  ghost predicate Next(t: Tick, u: Tick) {
    && t.now <= u.now && u.obs.path == t.obs.path
    && u.obs.lastBackupAt == (if t.pushedAt.Some? then t.pushedAt else t.obs.lastBackupAt)
    && (t.pushedAt.Some? ==> t.now <= t.pushedAt.value <= u.now)
  }

  ghost predicate IsRun(run: seq<Tick>) {
    forall i :: 0 < i < |run| ==> Next(run[i - 1], run[i])
  }

  lemma {:induction false} LastBackupOnlyAdvances(run: seq<Tick>, i: nat, j: nat)
    requires IsRun(run) && i < j < |run| && run[i].pushedAt.Some?
    ensures run[j].obs.lastBackupAt.Some? && run[i].pushedAt.value <= run[j].obs.lastBackupAt.value
    ensures run[i].pushedAt.value <= run[j].now && run[j].obs.path == run[i].obs.path
    decreases j
  {
    assert Next(run[j - 1], run[j]);
    if i < j - 1 {
      LastBackupOnlyAdvances(run, i, j - 1);
    }
  }

  /** With the timer policy, nothing is committed or pushed for a repository within its interval of a recorded push. */
  lemma TimerBackupsAreSpaced(d: Desired, o: Observed, run: seq<Tick>, i: nat, j: nat)
    requires IsRun(run) && i < j < |run| && run[i].pushedAt.Some?
    requires run[i].obs.path in d.repos && d.repos[run[i].obs.path].commitPolicy == "timer"
    requires run[j].now < run[i].pushedAt.value + IntervalLength(d.repos[run[i].obs.path].interval)
    ensures BackupActions(d, o, run[j].obs, run[j].now) == []
  {
    LastBackupOnlyAdvances(run, i, j);
  }

  // ---------------------------------------------------------------- when a backup fires

  /** A repository without changes for so long: five minutes unless its file says. */
  function QuietFor(r: RepoDesired): int {
    if r.idleSeconds == 0 then 300_000_000_000 else r.idleSeconds * 1_000_000_000
  }

  /** With the on-idle policy, and no rebase or merge going on, a backup fires exactly when the repository is clean, or
      has not changed for its quiet time; never on a skipped slot, and never with the manual policy. */
  lemma OnIdleFiresExactly(d: Desired, obs: RepoObs, now: int)
    requires obs.path in d.repos && d.repos[obs.path].commitPolicy == "on-idle"
    ensures
      var r := d.repos[obs.path];
      BackupFires(d, obs, now) <==>
        && r.machineSlot !in r.skipSlots && !obs.devWorkflowActive
        && (!obs.isDirty || obs.lastChangeAt == None || now - obs.lastChangeAt.value >= QuietFor(r))
  {}

  /** With the timer policy it fires exactly when no push is recorded or its interval has passed since. */
  lemma TimerFiresExactly(d: Desired, obs: RepoObs, now: int)
    requires obs.path in d.repos && d.repos[obs.path].commitPolicy == "timer"
    ensures
      var r := d.repos[obs.path];
      BackupFires(d, obs, now) <==>
        && r.machineSlot !in r.skipSlots && !obs.devWorkflowActive
        && (obs.lastBackupAt == None || now - obs.lastBackupAt.value >= IntervalLength(r.interval))
  {}

  lemma NothingElseFires(d: Desired, obs: RepoObs, now: int)
    requires BackupFires(d, obs, now)
    ensures obs.path in d.repos && d.repos[obs.path].commitPolicy in {"on-idle", "timer"}
  {}

  /** The named intervals, a day when none is set and an hour for one that cannot be read. */
  lemma IntervalLengths(ns: int)
    ensures IntervalLength(Hourly) == 3_600_000_000_000 && IntervalLength(Daily) == 24 * IntervalLength(Hourly)
    ensures IntervalLength(Weekly) == 7 * IntervalLength(Daily) && IntervalLength(Monthly) == 30 * IntervalLength(Daily)
    ensures IntervalLength(Unset) == IntervalLength(Daily)
    ensures IntervalLength(Every(ns)) == if ns > 0 then ns else IntervalLength(Hourly)
  {}

  /** Once a repository has been quiet for its time the backup keeps firing until the observation changes, whatever the
      policy: no pass in between can miss it. */
  lemma FiringLasts(d: Desired, obs: RepoObs, now: int, later: int)
    requires now <= later && BackupFires(d, obs, now)
    ensures BackupFires(d, obs, later)
  {}
}
