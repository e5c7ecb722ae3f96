/** Auto-pause and smart rescan over whole runs of one folder: internal/reconcile/diff.go decides,
    internal/reconcile/applier.go applies and records. */
module Pausing {
  import opened Base
  import opened World
  import opened Diff

  /** One reconcile pass as one folder sees it: the clock, the newest activity the tracker reports (if it
      knows the folder), the paused flag and last recorded rescan found, the folder's health, and what
      became of the pause decision and of the rescan. */
  datatype Tick = Tick(
    now: int, activity: Option<int>, paused: bool, lastRescan: Option<int>, health: Option<FolderHealth>, wake: bool,
    pauseApplied: bool, rescanApplied: bool, rescanAt: int)

  function ObsOf(t: Tick): FolderObs {
    FolderObs("f", ["f"], [], false, 0, true, 1, t.paused)
  }

  function ObservedOf(t: Tick): Observed {
    Observed([ObsOf(t)], [], [], {}, map[],
             Some(if t.activity.Some? then map[["f"] := t.activity.value] else map[]),
             if t.health.Some? then map[["f"] := t.health.value] else map[], t.wake,
             if t.lastRescan.Some? then map[["f"] := t.lastRescan.value] else map[], t.now, [], map[])
  }

  function PauseDecision(t: Tick): Option<Action> {
    AutoPauseAction(ObsOf(t), ["f"], ObservedOf(t).lastActivityByPath.value, t.now)
  }

  /** The pass emits a rescan: paused folders are never rescanned. */
  predicate RescanDecided(t: Tick) {
    !t.paused && SmartRescanAction(ObsOf(t), ["f"], ObservedOf(t)).Some?
  }

  predicate Pauses(t: Tick) {
    PauseDecision(t) == Some(PauseSyncthingFolder("f")) && t.pauseApplied
  }

  predicate Unpauses(t: Tick) {
    PauseDecision(t) == Some(UnpauseSyncthingFolder("f")) && t.pauseApplied
  }

  predicate Rescans(t: Tick) {
    RescanDecided(t) && t.rescanApplied
  }

  /** The next pass finds what this one left: the flag flips only when a decision was applied, a rescan is
      recorded when it ran, clock and activity never go back, and activity the tracker did not report
      yet is no older than this pass. */
  ghost predicate Next(t: Tick, u: Tick) {
    && t.now <= u.now
    && u.paused == (if Pauses(t) then true else if Unpauses(t) then false else t.paused)
    && u.lastRescan == (if Rescans(t) then Some(t.rescanAt) else t.lastRescan)
    && (Rescans(t) ==> t.now <= t.rescanAt <= u.now)
    && (t.activity.Some? && u.activity.Some? ==> u.activity == t.activity || t.now <= u.activity.value)
    && (t.activity.Some? ==> u.activity.Some?)
  }

  ghost predicate IsRun(run: seq<Tick>) {
    && (forall i :: 0 < i < |run| ==> Next(run[i - 1], run[i]))
    && forall i :: 0 <= i < |run| && run[i].activity.Some? ==>
         forall j :: i <= j < |run| && run[j].activity.Some? ==> run[i].activity.value <= run[j].activity.value
  }

  lemma {:induction false} ClockNeverGoesBack(run: seq<Tick>, i: nat, j: nat)
    requires IsRun(run) && i <= j < |run|
    ensures run[i].now <= run[j].now
    decreases j
  {
    if i < j {
      ClockNeverGoesBack(run, i, j - 1);
      assert Next(run[j - 1], run[j]);
    }
  }

  lemma Decisions(t: Tick)
    ensures Pauses(t) ==> !t.paused && t.activity.Some? && t.now - t.activity.value >= IDLE_THRESHOLD_FOR_PAUSE
    ensures Unpauses(t) ==> t.paused && t.activity.Some? && t.now - t.activity.value <= RECENT_ACTIVITY_FOR_UNPAUSE
  {}

  /** No flapping: a pause comes at least a day minus a minute after any earlier unpause. */
  lemma PauseWaitsADay(run: seq<Tick>, i: nat, j: nat)
    requires IsRun(run) && i < j < |run| && Unpauses(run[i]) && Pauses(run[j])
    ensures run[j].now - run[i].now >= DAY - MINUTE
  {}

  /** Activity that turns up after a pass is dated no earlier than that pass. */
  lemma {:induction false} NewActivityIsRecent(run: seq<Tick>, i: nat, j: nat)
    requires IsRun(run) && i <= j < |run| && run[i].activity.Some?
    ensures run[j].activity.Some?
    ensures run[j].activity == run[i].activity || run[i].now <= run[j].activity.value
    decreases j
  {
    hide Pauses, Unpauses, Rescans, PauseDecision;
    if i < j {
      NewActivityIsRecent(run, i, j - 1);
      assert Next(run[j - 1], run[j]);
      ClockNeverGoesBack(run, i, j - 1);
    }
  }

  /** A paused folder wakes only for activity that happened after it was paused. */
  lemma UnpauseNeedsNewActivity(run: seq<Tick>, i: nat, j: nat)
    requires IsRun(run) && i < j < |run| && Pauses(run[i]) && Unpauses(run[j])
    ensures run[j].activity.Some? && run[i].now <= run[j].activity.value
  {
    hide Pauses, Unpauses, PauseDecision;
    Decisions(run[i]);
    Decisions(run[j]);
    NewActivityIsRecent(run, i, j);
    ClockNeverGoesBack(run, i, j);
  }

  /** Pauses and unpauses alternate: between two pauses there is an unpause. */
  lemma {:induction false} StaysPaused(run: seq<Tick>, i: nat, j: nat)
    requires IsRun(run) && i < j < |run| && Pauses(run[i])
    requires forall k :: i < k < j ==> !Unpauses(run[k])
    ensures run[j].paused && !Pauses(run[j])
    decreases j
  {
    hide PauseDecision;
    assert Next(run[j - 1], run[j]);
    Decisions(run[j]);
    if i < j - 1 {
      StaysPaused(run, i, j - 1);
    } else {
      Decisions(run[i]);
    }
  }

  lemma RescanIsDue(t: Tick)
    requires !t.paused && t.lastRescan.Some?
    ensures t.now - t.lastRescan.value >= RESCAN_BACKSTOP_RELIABLE ==> RescanDecided(t)
  {}

  /** Between two consecutive passes that find the folder unpaused, with every rescan succeeding, the
      last recorded rescan is never older than seven days plus the gap between the two passes. */
  lemma RescanIsNeverFarBehind(run: seq<Tick>, i: nat)
    requires IsRun(run) && 0 < i < |run|
    requires !run[i - 1].paused && !run[i].paused && run[i - 1].lastRescan.Some?
    requires RescanDecided(run[i - 1]) ==> run[i - 1].rescanApplied
    ensures run[i].lastRescan.Some?
    ensures run[i].now - run[i].lastRescan.value < RESCAN_BACKSTOP_RELIABLE + (run[i].now - run[i - 1].now)
         || run[i].now == run[i].lastRescan.value
  {}

  /** Over any stretch of passes that find the folder unpaused, no two of them more than `gap` apart, every
      window of seven days plus `gap` contains a rescan. */
  lemma RescanWithinAWeekPlusGap(run: seq<Tick>, i: nat, j: nat, gap: nat)
    requires IsRun(run) && i < j < |run|
    requires forall k :: i <= k <= j ==> !run[k].paused && (RescanDecided(run[k]) ==> run[k].rescanApplied)
    requires forall k :: i < k <= j ==> run[k].now - run[k - 1].now <= gap
    requires run[i].lastRescan.Some? && run[i].lastRescan.value <= run[i].now
    requires run[j].now - run[i].now >= RESCAN_BACKSTOP_RELIABLE + gap
    ensures exists k :: i <= k < j && Rescans(run[k]) && run[k].now - run[i].now < RESCAN_BACKSTOP_RELIABLE + gap
  {
    hide Pauses, Unpauses, RescanDecided, SmartRescanAction;
    if forall k :: i <= k < j && run[k].now - run[i].now < RESCAN_BACKSTOP_RELIABLE + gap ==> !Rescans(run[k]) {
      var k := LateTick(run, i, j, gap);
      NoRescanKeepsHistory(run, i, k);
      RescanIsDue(run[k]);
    }
  }

  /** The first pass at least seven days after `run[i]`. */
  lemma LateTick(run: seq<Tick>, i: nat, j: nat, gap: nat) returns (k: nat)
    requires IsRun(run) && i < j < |run|
    requires forall k :: i < k <= j ==> run[k].now - run[k - 1].now <= gap
    requires run[j].now - run[i].now >= RESCAN_BACKSTOP_RELIABLE + gap
    ensures i < k < j && RESCAN_BACKSTOP_RELIABLE <= run[k].now - run[i].now < RESCAN_BACKSTOP_RELIABLE + gap
    ensures forall m :: i <= m < k ==> run[m].now - run[i].now < RESCAN_BACKSTOP_RELIABLE
  {
    hide Pauses, Unpauses, Rescans;
    k := i + 1;
    while run[k].now - run[i].now < RESCAN_BACKSTOP_RELIABLE
      invariant i < k <= j
      invariant forall m :: i <= m < k ==> run[m].now - run[i].now < RESCAN_BACKSTOP_RELIABLE
      decreases j - k
    {
      k := k + 1;
    }
    assert run[k].now - run[k - 1].now <= gap;
  }

  lemma {:induction false} NoRescanKeepsHistory(run: seq<Tick>, i: nat, k: nat)
    requires IsRun(run) && i <= k < |run| && forall m :: i <= m < k ==> !Rescans(run[m])
    ensures run[k].lastRescan == run[i].lastRescan
    decreases k
  {
    hide Pauses, Unpauses;
    if i < k {
      NoRescanKeepsHistory(run, i, k - 1);
      assert Next(run[k - 1], run[k]);
    }
  }
}
