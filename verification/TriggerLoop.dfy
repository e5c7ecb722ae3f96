/** cmd/dotkeeper/cmds_v5.go: the reconcile loop's single-slot channel, worker, ticker and debounce timer. */
module TriggerLoop {
  import opened Base
  import opened Paths

  // ---------------------------------------------------------------- which files matter

  predicate IsConfigFile(path: string) {
    BaseName(path) in {".dotkeeper.toml", "machine.toml", "state.toml"}
  }

  /** A config file is noticed in whatever directory it lies, and a file that only ends in its name is not. */
  lemma ConfigFilesAreNoticed(dir: string, file: string)
    requires file != "" && '/' !in file
    ensures IsConfigFile(dir + "/" + file) <==> file in {".dotkeeper.toml", "machine.toml", "state.toml"}
  {
    BaseOfJoined(dir, file);
  }

  // ---------------------------------------------------------------- the loop

  datatype Event = Trigger | Config(at: int) | Start | Finish

  datatype Loop = Loop(
    now: int,
    slot: bool,            // the pending channel holds a reason
    running: bool,         // the worker is inside Reconcile
    workerAlive: bool,
    loopAlive: bool,       // the trigger goroutine
    timer: Option<int>,    // when the debounce timer is due
    inFlight: nat,         // timer callbacks that have fired but not yet requested
    log: seq<Event>)

  datatype Step =
    | Wait(d: nat)
    | TickerFires
    | FileChanges(path: string)
    | TimerFires
    | Callback
    | Begin
    | End
    | StopWorker
    | StopLoop

  /** requestReconcile: a full slot drops the reason. */
  function Request(s: Loop): Loop {
    s.(slot := true, log := s.log + [Trigger])
  }

  ghost predicate Next(s: Loop, step: Step, t: Loop) {
    match step
    case Wait(d) => t == s.(now := s.now + d)
    case TickerFires => s.loopAlive && t == Request(s)
    case FileChanges(path) =>
      && s.loopAlive
      && t == if IsConfigFile(path) then s.(timer := Some(s.now + SECOND), log := s.log + [Config(s.now)]) else s
    case TimerFires => s.timer.Some? && s.timer.value <= s.now && t == s.(timer := None, inFlight := s.inFlight + 1)
    case Callback => s.inFlight > 0 && t == Request(s.(inFlight := s.inFlight - 1))
    case Begin => s.workerAlive && !s.running && s.slot
        && t == s.(slot := false, running := true, log := s.log + [Start])
    case End => s.running && t == s.(running := false, log := s.log + [Finish])
    case StopWorker => s.workerAlive && !s.running && t == s.(workerAlive := false)
    case StopLoop => s.loopAlive && t == s.(loopAlive := false, timer := None)
  }

  /** The initial trigger is in the slot. */
  ghost predicate Init(s: Loop) {
    s.slot && !s.running && s.workerAlive && s.loopAlive && s.timer == None && s.inFlight == 0 && s.log == [Trigger]
  }

  // ---------------------------------------------------------------- what every step keeps

  /** No reconcile has started since. */
  ghost predicate StillWaiting(log: seq<Event>, i: nat) {
    forall j :: i < j < |log| ==> log[j] != Start
  }

  ghost predicate TriggerWaits(log: seq<Event>) {
    exists i: nat :: i < |log| && log[i] == Trigger && StillWaiting(log, i)
  }

  ghost predicate ChangeWaits(log: seq<Event>) {
    exists i: nat :: i < |log| && log[i].Config? && StillWaiting(log, i)
  }

  /** Starts and finishes alternate, and `running` says which is next. */
  ghost predicate Alternates(log: seq<Event>, running: bool) {
    if log == [] then !running
    else
      match log[|log| - 1]
      case Start => running && Alternates(log[..|log| - 1], false)
      case Finish => !running && Alternates(log[..|log| - 1], true)
      case _ => Alternates(log[..|log| - 1], running)
  }

  ghost predicate FinishedBetween(log: seq<Event>, i: int, j: int) {
    exists k :: i < k < j && 0 <= k < |log| && log[k] == Finish
  }

  lemma {:induction false} FinishedSince(log: seq<Event>, i: nat)
    requires Alternates(log, false) && i < |log| && log[i] == Start
    ensures FinishedBetween(log, i, |log|)
  {
    var before, last := log[..|log| - 1], log[|log| - 1];
    if last != Finish {
      FinishedSince(before, i);
      var k :| i < k < |before| && 0 <= k < |before| && before[k] == Finish;
      assert log[k] == Finish;
    }
  }

  /** No two reconciles overlap: one has finished before another starts. */
  lemma {:induction false} StartsAreSeparated(log: seq<Event>, running: bool, i: nat, j: nat)
    requires Alternates(log, running) && i < j < |log| && log[i] == Start && log[j] == Start
    ensures FinishedBetween(log, i, j)
  {
    var before := log[..|log| - 1];
    if j == |log| - 1 {
      FinishedSince(before, i);
    } else {
      StartsAreSeparated(before, log[|log| - 1] != Start && (log[|log| - 1] == Finish || running), i, j);
    }
    var k :| i < k < j && 0 <= k < |before| && before[k] == Finish;
    assert log[k] == Finish;
  }

  /** When the last config change was seen. */
  function LastChange(log: seq<Event>): Option<int> {
    if log == [] then None
    else if log[|log| - 1].Config? then Some(log[|log| - 1].at)
    else LastChange(log[..|log| - 1])
  }

  ghost predicate Inv(s: Loop) {
    && (TriggerWaits(s.log) <==> s.slot)
    && (ChangeWaits(s.log) && s.loopAlive ==> s.timer.Some? || s.inFlight > 0 || s.slot)
    && (s.timer.Some? ==> LastChange(s.log).Some? && s.timer.value == LastChange(s.log).value + SECOND)
    && Alternates(s.log, s.running)
  }

  lemma WaitsOneMore(log: seq<Event>, e: Event)
    ensures TriggerWaits(log + [e]) <==> e == Trigger || (e != Start && TriggerWaits(log))
    ensures ChangeWaits(log + [e]) <==> e.Config? || (e != Start && ChangeWaits(log))
  {
    var after := log + [e];
    assert after[|log|] == e && StillWaiting(after, |log|);
    forall i: nat | i < |log| ensures StillWaiting(after, i) <==> e != Start && StillWaiting(log, i) {
      assert StillWaiting(after, i) ==> after[|log|] != Start;
      if StillWaiting(after, i) {
        forall j | i < j < |log| ensures log[j] != Start { assert after[j] == log[j]; }
      }
    }
    if e != Start && TriggerWaits(log) {
      var i: nat :| i < |log| && log[i] == Trigger && StillWaiting(log, i);
      assert after[i] == Trigger && StillWaiting(after, i);
    }
    if e != Start && ChangeWaits(log) {
      var i: nat :| i < |log| && log[i].Config? && StillWaiting(log, i);
      assert after[i].Config? && StillWaiting(after, i);
    }
  }

  lemma StepKeepsInv(s: Loop, step: Step, t: Loop)
    requires Inv(s) && Next(s, step, t)
    ensures Inv(t)
  {
    hide TriggerWaits, ChangeWaits, IsConfigFile;
    if t.log != s.log {
      var e := t.log[|s.log|];
      assert t.log == s.log + [e] && t.log[..|s.log|] == s.log;
      WaitsOneMore(s.log, e);
    }
  }

  // ---------------------------------------------------------------- whole runs

  /** A run from the start, with the steps it took. */
  ghost predicate Took(run: seq<Loop>, steps: seq<Step>) {
    && |run| == |steps| + 1 && Init(run[0])
    && forall i :: 0 <= i < |steps| ==> Next(run[i], steps[i], run[i + 1])
  }

  lemma InitHasInv(s: Loop)
    requires Init(s)
    ensures Inv(s)
  {
    assert s.log[0] == Trigger && StillWaiting(s.log, 0);
  }

  /** What a step adds to the log: a tick and a debounced change ask for a reconcile, a change to one of the three files
      is seen, a reconcile starts or ends. */
  function Logged(s: Loop, step: Step): seq<Event> {
    match step
    case TickerFires => [Trigger]
    case Callback => [Trigger]
    case FileChanges(path) =>
      if BaseName(path) in {".dotkeeper.toml", "machine.toml", "state.toml"} then [Config(s.now)] else []
    case Begin => [Start]
    case End => [Finish]
    case _ => []
  }

  /** The log tells the run: the initial trigger, then each step's event. Nothing is asked for silently and nothing
      asked for is left out. */
  lemma LogTellsTheRun(run: seq<Loop>, steps: seq<Step>, i: nat)
    requires Took(run, steps) && i < |steps|
    ensures run[0].log == [Trigger] && run[i + 1].log == run[i].log + Logged(run[i], steps[i])
    ensures steps[i].TickerFires? || steps[i].Callback? ==> run[i + 1].slot
    ensures steps[i].FileChanges? && Logged(run[i], steps[i]) != [] ==> run[i + 1].timer == Some(run[i].now + SECOND)
    ensures steps[i].TimerFires? ==> run[i + 1].inFlight == run[i].inFlight + 1
  {
    hide BaseName;
  }

  /** A config change waits for a reconcile, and nothing is left that would ask for one. */
  ghost predicate Lost(s: Loop) {
    ChangeWaits(s.log) && s.timer.None? && s.inFlight == 0 && !s.slot
  }

  /** The trigger goroutine stops, and with it a timer that alone stood for a waiting change. */
  ghost predicate Loses(s: Loop, step: Step) {
    step.StopLoop? && ChangeWaits(s.log) && s.timer.Some? && s.inFlight == 0 && !s.slot
  }

  lemma LostAfterStep(s: Loop, step: Step, t: Loop)
    requires Inv(s) && Next(s, step, t)
    ensures Lost(t) <==> Lost(s) || Loses(s, step)
  {
    hide TriggerWaits, ChangeWaits, IsConfigFile, LastChange, Alternates;
    if t.log != s.log {
      var e := t.log[|s.log|];
      assert t.log == s.log + [e];
      WaitsOneMore(s.log, e);
    }
  }

  lemma {:induction false} ChangeIsLostExactly(run: seq<Loop>, steps: seq<Step>)
    requires Took(run, steps)
    ensures Inv(run[|steps|])
    ensures Lost(run[|steps|]) <==> exists i :: 0 <= i < |steps| && Loses(run[i], steps[i])
  {
    hide Inv, Next, Lost, Loses;
    if steps == [] {
      InitHasInv(run[0]);
      NothingLostAtFirst(run[0]);
    } else {
      var last := |steps| - 1;
      ChangeIsLostExactly(run[..|steps|], steps[..last]);
      StepKeepsInv(run[last], steps[last], run[|steps|]);
      LostAfterStep(run[last], steps[last], run[|steps|]);
    }
  }

  lemma NothingLostAtFirst(s: Loop)
    requires Init(s)
    ensures !Lost(s)
  {}

  /** In every run, the slot is full exactly when some trigger has not been followed by a reconcile; a config change not
      followed by one still has its timer, its callback or the slot, unless the trigger goroutine stopped while the
      timer was all it had, and then it has nothing ever after; and no two reconciles overlap. */
  lemma NoLostWakeup(run: seq<Loop>, steps: seq<Step>)
    requires Took(run, steps)
    ensures
      var s := run[|steps|];
      && (TriggerWaits(s.log) <==> s.slot)
      && (ChangeWaits(s.log) && !(s.timer.Some? || s.inFlight > 0 || s.slot) <==>
            exists i :: 0 <= i < |steps| && Loses(run[i], steps[i]))
      && (s.loopAlive ==> forall i :: 0 <= i < |steps| ==> !Loses(run[i], steps[i]))
      && forall i: nat, j: nat :: i < j < |s.log| && s.log[i] == Start && s.log[j] == Start ==>
            FinishedBetween(s.log, i, j)
  {
    ChangeIsLostExactly(run, steps);
    hide Took, ChangeWaits, TriggerWaits, Loses, LastChange;
    var s := run[|steps|];
    forall i: nat, j: nat | i < j < |s.log| && s.log[i] == Start && s.log[j] == Start
      ensures FinishedBetween(s.log, i, j)
    {
      StartsAreSeparated(s.log, s.running, i, j);
    }
  }

  /** A burst of changes is served one second after its last: the timer is always due then. */
  lemma DebounceFollowsLastChange(run: seq<Loop>, steps: seq<Step>)
    requires Took(run, steps) && run[|steps|].timer.Some?
    ensures LastChange(run[|steps|].log) == Some(run[|steps|].timer.value - SECOND)
  {
    ChangeIsLostExactly(run, steps);
  }

  // ---------------------------------------------------------------- everything is served in the end

  predicate Internal(step: Step) {
    step.TimerFires? || step.Callback? || step.Begin? || step.End?
  }

  /** Work still to be done; each internal step leaves less of it. */
  function Backlog(s: Loop): nat {
    (if s.timer.Some? then 4 else 0) + 3 * s.inFlight + (if s.slot then 2 else 0) + (if s.running then 1 else 0)
  }

  lemma InternalStepsMakeProgress(s: Loop, step: Step, t: Loop)
    requires Next(s, step, t) && Internal(step)
    ensures Backlog(t) < Backlog(s)
  {}

  /** While work remains and the worker lives, an internal step can be taken, at once or after waiting for the timer. */
  lemma SomethingCanHappen(s: Loop) returns (d: nat, step: Step, t: Loop)
    requires s.workerAlive && Backlog(s) > 0
    ensures Internal(step) && Next(s.(now := s.now + d), step, t)
  {
    d := 0;
    if s.running {
      step, t := End, s.(running := false, log := s.log + [Finish]);
    } else if s.slot {
      step, t := Begin, s.(slot := false, running := true, log := s.log + [Start]);
    } else if s.inFlight > 0 {
      step, t := Callback, Request(s.(inFlight := s.inFlight - 1));
    } else {
      d := if s.timer.value <= s.now then 0 else s.timer.value - s.now;
      step, t := TimerFires, s.(now := s.now + d, timer := None, inFlight := s.inFlight + 1);
    }
  }

  /** When no work remains, every trigger has been followed by a reconcile, and so has every change exactly when none
      was lost. */
  lemma NothingLeftMeansAllServed(run: seq<Loop>, steps: seq<Step>)
    requires Took(run, steps) && Backlog(run[|steps|]) == 0
    ensures !TriggerWaits(run[|steps|].log)
    ensures ChangeWaits(run[|steps|].log) <==> exists i :: 0 <= i < |steps| && Loses(run[i], steps[i])
  {
    ChangeIsLostExactly(run, steps);
    hide Took, ChangeWaits, TriggerWaits, Loses, LastChange, Alternates;
  }

  /** Shutdown can lose a change while the worker lives: one change after the initial reconcile, then the trigger
      goroutine stops within the second of the debounce. */
  lemma ShutdownLosesAChange() returns (run: seq<Loop>, steps: seq<Step>)
    ensures Took(run, steps) && run[|steps|].workerAlive && Lost(run[|steps|])
  {
    var changed, log := "/machine.toml", [Trigger, Start, Finish];
    assert changed == "" + "/" + "machine.toml";
    ConfigFilesAreNoticed("", "machine.toml");
    steps := [Begin, End, FileChanges(changed), StopLoop];
    run := [Loop(0, true, false, true, true, None, 0, [Trigger]),
            Loop(0, false, true, true, true, None, 0, [Trigger, Start]),
            Loop(0, false, false, true, true, None, 0, log),
            Loop(0, false, false, true, true, Some(SECOND), 0, log + [Config(0)]),
            Loop(0, false, false, true, false, None, 0, log + [Config(0)])];
    assert run[4].log[3] == Config(0) && StillWaiting(run[4].log, 3);
    assert Next(run[0], steps[0], run[1]) && Next(run[1], steps[1], run[2]);
    assert Next(run[2], steps[2], run[3]) && Next(run[3], steps[3], run[4]);
    hide Next, IsConfigFile, StillWaiting;
  }
}
