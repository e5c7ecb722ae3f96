/** internal/config/state_v2.go and atomic.go: any number of MutateStateV2 processes, crashes and lock-free readers on
    one state file, step by step. */
module StateFile {
  import opened Base

  // ---------------------------------------------------------------- what a mutation does

  datatype Others = Others(syncthingDeviceID: string, peers: seq<string>, observedRepos: map<string, string>,
                           lastSeenPeers: map<string, int>)

  datatype StateV2 = StateV2(schemaVersion: int, trackedOverrides: seq<string>, others: Others)

  /** The callbacks given to MutateStateV2; every caller but track and untrack leaves TrackedOverrides alone. */
  datatype Mutation = TrackRepo(path: string) | UntrackRepo(path: string) | Update(change: Others -> Option<Others>)

  function Tracked(tracked: seq<string>, path: string): seq<string> {
    if path in tracked then tracked else tracked + [path]
  }

  function Untracked(tracked: seq<string>, path: string): seq<string> {
    if tracked == [] then []
    else
      var last := tracked[|tracked| - 1];
      Untracked(tracked[..|tracked| - 1], path) + if last == path then [] else [last]
  }

  /** applyTrackRepo's callback. */
  method Track(tracked: seq<string>, path: string) returns (r: seq<string>)
    ensures r == Tracked(tracked, path) == tracked + if path in tracked then [] else [path]
  {
    for i := 0 to |tracked|
      invariant path !in tracked[..i]
    {
      if tracked[i] == path {
        return tracked;
      }
    }
    return tracked + [path];
  }

  /** applyUntrackRepo's callback. */
  method Untrack(tracked: seq<string>, path: string) returns (r: seq<string>)
    ensures r == Untracked(tracked, path)
  {
    r := [];
    for i := 0 to |tracked|
      invariant r == Untracked(tracked[..i], path)
    {
      assert tracked[..i + 1][..i] == tracked[..i];
      if tracked[i] != path {
        r := r + [tracked[i]];
      }
    }
    assert tracked[..|tracked|] == tracked;
  }

  function Run(m: Mutation, s: StateV2): Option<StateV2> {
    match m
    case TrackRepo(path) => Some(s.(trackedOverrides := Tracked(s.trackedOverrides, path)))
    case UntrackRepo(path) => Some(s.(trackedOverrides := Untracked(s.trackedOverrides, path)))
    case Update(change) => match change(s.others) { case None => None case Some(o) => Some(s.(others := o)) }
  }

  /** The file found at first, how states are written and read, and what each process was called to do. */
  datatype Environment = Environment(
    initial: Option<string>, render: StateV2 -> string, parse: string -> Option<StateV2>, mutation: nat -> Mutation)

  ghost predicate RoundTrips(env: Environment) {
    forall s: StateV2 :: env.parse(env.render(s)) == Some(s)
  }

  const NO_STATE := StateV2(2, [], Others("", [], map[], map[]))

  /** What MutateStateV2 hands its callback for this file content: a missing file is a fresh state, version 0 means
      2. */
  function Current(env: Environment, text: Option<string>): Result<StateV2> {
    match text
    case None => Ok(NO_STATE)
    case Some(t) =>
      match env.parse(t)
      case None => Err
      case Some(s) => Ok(if s.schemaVersion == 0 then s.(schemaVersion := 2) else s)
  }

  /** Process `p`, run alone on a file with this content, would commit `y`. */
  predicate Commits(env: Environment, text: Option<string>, p: nat, y: StateV2)
  {
    Current(env, text).Ok? && var r := Run(env.mutation(p), Current(env, text).value); r.Some? && r.value == y
  }

  predicate Succeeds(env: Environment, text: Option<string>, p: nat) {
    Current(env, text).Ok? && Run(env.mutation(p), Current(env, text).value).Some?
  }

  /** The file content after running the logged mutations one after another. */
  function Replay(env: Environment, log: seq<nat>): Option<string> {
    if log == [] then env.initial
    else
      var before := Replay(env, log[..|log| - 1]);
      match Current(env, before)
      case Err => before
      case Ok(x) =>
        match Run(env.mutation(log[|log| - 1]), x)
        case None => before
        case Some(y) => Some(env.render(y))
  }

  lemma ReplayOneMore(env: Environment, log: seq<nat>, p: nat, y: StateV2)
    requires Commits(env, Replay(env, log), p, y)
    ensures Replay(env, log + [p]) == Some(env.render(y))
  {
    assert (log + [p])[..|log|] == log;
  }

  // ---------------------------------------------------------------- the processes

  datatype Phase =
    | Started
    | Locked
    | Stated(present: bool)
    | Loaded(state: StateV2)
    | Mutated(state: StateV2)
    | Writing(state: StateV2, temp: nat, written: nat)
    | Synced(state: StateV2, temp: nat)
    | Renamed
    | Succeeded
    | Failed
    | Crashed

  predicate Inside(ph: Phase) {
    !ph.Started? && !ph.Succeeded? && !ph.Failed? && !ph.Crashed?
  }

  /** A lock-free reader, with the number of mutations committed when it opened the file. */
  datatype Reader = Opened(inode: nat, since: nat, got: string) | Finished(text: Option<string>, since: nat)

  datatype System = System(
    target: Option<nat>,        // the inode state.toml names
    temps: map<nat, nat>,       // temporary files: name to inode
    inodes: map<nat, string>,
    lock: Option<nat>,
    procs: map<nat, Phase>,
    readers: map<nat, Reader>,
    log: seq<nat>)              // processes in the order of their renames

  function Text(s: System): Option<string> {
    if s.target.Some? && s.target.value in s.inodes then Some(s.inodes[s.target.value]) else None
  }

  datatype Step =
    | Begin(p: nat)
    | GiveUp(p: nat)
    | Lock(p: nat)
    | Stat(p: nat)
    | Load(p: nat)
    | Mutate(p: nat)
    | Create(p: nat, temp: nat, inode: nat)
    | Write(p: nat, upTo: nat)
    | Sync(p: nat)
    | Rename(p: nat)
    | Return(p: nat)
    | Abort(p: nat, removed: bool)
    | Crash(p: nat)
    | Open(r: nat)
    | Read(r: nat, upTo: nat)
    | Close(r: nat)

  function At(s: System, p: nat): Phase {
    if p in s.procs then s.procs[p] else Started
  }

  function Set(s: System, p: nat, ph: Phase): System {
    s.(procs := s.procs[p := ph])
  }

  /** Leaving MutateStateV2 closes the lock file, which releases the lock. */
  function Leave(s: System, p: nat, ph: Phase): System {
    Set(s, p, ph).(lock := if s.lock == Some(p) then None else s.lock)
  }

  /** The temporary file of a failing write is removed, unless that fails too. */
  function Cleaned(s: System, ph: Phase, removed: bool): System {
    if removed && (ph.Writing? || ph.Synced?) then s.(temps := s.temps - {ph.temp}) else s
  }

  ghost predicate Next(env: Environment, s: System, step: Step, t: System) {
    match step
    case Begin(p) => p !in s.procs && t == Set(s, p, Started)
    case GiveUp(p) => p in s.procs && s.procs[p].Started? && t == Set(s, p, Failed)
    case Lock(p) => p in s.procs && s.procs[p].Started? && s.lock == None && t == Set(s, p, Locked).(lock := Some(p))
    case Stat(p) => At(s, p).Locked? && t == Set(s, p, Stated(s.target.Some?))
    case Load(p) =>
      && At(s, p).Stated?
      && var x := Current(env, if s.procs[p].present then Text(s) else None);
      && t == if x.Ok? then Set(s, p, Loaded(x.value)) else Leave(s, p, Failed)
    case Mutate(p) =>
      && At(s, p).Loaded?
      && var y := Run(env.mutation(p), s.procs[p].state);
      && t == if y.Some? then Set(s, p, Mutated(y.value)) else Leave(s, p, Failed)
    case Create(p, temp, inode) =>
      && At(s, p).Mutated? && temp !in s.temps && inode !in s.inodes
      && t == Set(s, p, Writing(s.procs[p].state, temp, 0)).(temps := s.temps[temp := inode],
                                                              inodes := s.inodes[inode := ""])
    case Write(p, n) =>
      && At(s, p).Writing?
      && var Writing(y, temp, written) := s.procs[p];
      && temp in s.temps && written <= n <= |env.render(y)|
      && t == Set(s, p, Writing(y, temp, n)).(inodes := s.inodes[s.temps[temp] := env.render(y)[..n]])
    case Sync(p) =>
      && At(s, p).Writing? && s.procs[p].written == |env.render(s.procs[p].state)|
      && t == Set(s, p, Synced(s.procs[p].state, s.procs[p].temp))
    case Rename(p) =>
      && At(s, p).Synced? && s.procs[p].temp in s.temps
      && var temp := s.procs[p].temp;
      && t == Set(s, p, Renamed).(target := Some(s.temps[temp]), temps := s.temps - {temp}, log := s.log + [p])
    case Return(p) => At(s, p).Renamed? && t == Leave(s, p, Succeeded)
    case Abort(p, removed) =>
      && Inside(At(s, p)) && !At(s, p).Renamed? && t == Leave(Cleaned(s, At(s, p), removed), p, Failed)
    case Crash(p) => p in s.procs && (Inside(s.procs[p]) || s.procs[p].Started?) && t == Leave(s, p, Crashed)
    case Open(r) =>
      && r !in s.readers
      && t == s.(readers := s.readers[r := if s.target.None? then Finished(None, |s.log|)
                                           else Opened(s.target.value, |s.log|, "")])
    case Read(r, n) =>
      && r in s.readers && s.readers[r].Opened?
      && var Opened(inode, since, got) := s.readers[r];
      && inode in s.inodes && |got| <= n <= |s.inodes[inode]|
      && t == s.(readers := s.readers[r := Opened(inode, since, got + s.inodes[inode][|got|..n])])
    case Close(r) =>
      && r in s.readers && s.readers[r].Opened?
      && var Opened(inode, since, got) := s.readers[r];
      && inode in s.inodes && |got| == |s.inodes[inode]|
      && t == s.(readers := s.readers[r := Finished(Some(got), since)])
  }

  ghost predicate Init(env: Environment, s: System) {
    && (s.target.Some? ==> s.target.value in s.inodes) && Text(s) == env.initial
    && s.temps == map[] && s.lock == None && s.procs == map[] && s.readers == map[] && s.log == []
  }

  // ---------------------------------------------------------------- what every step keeps

  ghost predicate LockHeld(s: System) {
    && (forall p :: p in s.procs && Inside(s.procs[p]) ==> s.lock == Some(p))
    && (s.lock.Some? ==> s.lock.value in s.procs && Inside(s.procs[s.lock.value]))
  }

  ghost predicate FilesApart(s: System) {
    && (s.target.Some? ==> s.target.value in s.inodes)
    && (forall n :: n in s.temps ==> s.temps[n] in s.inodes && s.target != Some(s.temps[n]))
    && forall m, n :: m in s.temps && n in s.temps && m != n ==> s.temps[m] != s.temps[n]
  }

  /** What a process in a phase knows of the file. */
  ghost predicate Knows(env: Environment, s: System, p: nat, ph: Phase) {
    match ph
    case Stated(present) => present == s.target.Some?
    case Loaded(x) => Current(env, Text(s)) == Ok(x)
    case Mutated(y) => Commits(env, Text(s), p, y)
    case Writing(y, temp, n) =>
      && Commits(env, Text(s), p, y) && temp in s.temps && s.temps[temp] in s.inodes
      && n <= |env.render(y)| && s.inodes[s.temps[temp]] == env.render(y)[..n]
    case Synced(y, temp) =>
      && Commits(env, Text(s), p, y) && temp in s.temps && s.temps[temp] in s.inodes
      && s.inodes[s.temps[temp]] == env.render(y)
    case _ => true
  }

  /** A process is in the log exactly from its rename on; a crash leaves open which. */
  ghost predicate Logged(s: System, p: nat, ph: Phase) {
    && (ph.Renamed? || ph.Succeeded? ==> p in s.log)
    && (!ph.Renamed? && !ph.Succeeded? && !ph.Crashed? ==> p !in s.log)
  }

  ghost predicate ReaderSees(env: Environment, s: System, r: Reader) {
    && r.since <= |s.log|
    && match r
       case Finished(text, since) => text == Replay(env, s.log[..since])
       case Opened(inode, since, got) =>
         && inode in s.inodes && inode !in s.temps.Values
         && Replay(env, s.log[..since]) == Some(s.inodes[inode]) && got <= s.inodes[inode]
  }

  /** Every logged mutation read what its predecessors left and committed. */
  ghost predicate Effective(env: Environment, log: seq<nat>) {
    forall i :: 0 <= i < |log| ==> Succeeds(env, Replay(env, log[..i]), log[i])
  }

  ghost predicate Unique(log: seq<nat>) {
    forall i, j :: 0 <= i < j < |log| ==> log[i] != log[j]
  }

  ghost predicate Inv(env: Environment, s: System) {
    && LockHeld(s) && FilesApart(s)
    && Text(s) == Replay(env, s.log)
    && (forall p :: p in s.procs ==> Knows(env, s, p, s.procs[p]) && Logged(s, p, s.procs[p]))
    && (forall p :: p in s.log ==> p in s.procs)
    && (forall r :: r in s.readers ==> ReaderSees(env, s, s.readers[r]))
    && Effective(env, s.log) && Unique(s.log)
  }

  lemma OthersAreOutside(s: System, p: nat)
    requires LockHeld(s) && (s.lock == None || s.lock == Some(p))
    ensures forall q :: q in s.procs && q != p ==> !Inside(s.procs[q])
  {}

  ghost predicate ReadersUndisturbed(s: System, t: System) {
    && t.readers == s.readers
    && forall r :: r in s.readers && s.readers[r].Opened? ==>
         var i := s.readers[r].inode;
         i in s.inodes && i in t.inodes && t.inodes[i] == s.inodes[i] && i !in t.temps.Values
  }

  /** A step that changes one process's phase, and no content anyone else can see. */
  lemma PhaseStep(env: Environment, s: System, t: System, p: nat, ph: Phase)
    requires Inv(env, s)
    requires t.procs == s.procs[p := ph] && t.log == s.log && Text(t) == Text(s) && ReadersUndisturbed(s, t)
    requires LockHeld(t) && FilesApart(t) && Knows(env, t, p, ph) && Logged(t, p, ph)
    requires t.(procs := s.procs, lock := s.lock) == s || forall q :: q in s.procs && q != p ==> !Inside(s.procs[q])
    ensures Inv(env, t)
  {
    hide Effective, Unique, LockHeld, FilesApart, Replay, Commits, Current;
    forall q | q in t.procs ensures Knows(env, t, q, t.procs[q]) && Logged(t, q, t.procs[q]) {
      if q != p {
        assert Knows(env, s, q, s.procs[q]) && Logged(s, q, s.procs[q]);
      }
    }
    forall r | r in t.readers ensures ReaderSees(env, t, t.readers[r]) {
      assert ReaderSees(env, s, s.readers[r]);
    }
  }

  lemma WriteStep(env: Environment, s: System, t: System, p: nat, n: nat)
    requires Inv(env, s) && Next(env, s, Write(p, n), t)
    ensures Inv(env, t)
  {
    hide Effective, Unique, Replay, Commits;
    var Writing(y, temp, written) := s.procs[p];
    assert Knows(env, s, p, s.procs[p]) && Logged(s, p, s.procs[p]);
    OthersAreOutside(s, p);
    forall r | r in s.readers && s.readers[r].Opened? ensures s.readers[r].inode != s.temps[temp] {
      assert ReaderSees(env, s, s.readers[r]);
    }
    PhaseStep(env, s, t, p, Writing(y, temp, n));
  }

  lemma NewTemporaryIsApart(s: System, t: System, temp: nat, inode: nat)
    requires FilesApart(s) && temp !in s.temps && inode !in s.inodes && t.target == s.target
    requires t.temps == s.temps[temp := inode] && t.inodes == s.inodes[inode := ""]
    ensures FilesApart(t) && Text(t) == Text(s)
  {}

  lemma CreateStep(env: Environment, s: System, t: System, p: nat, temp: nat, inode: nat)
    requires Inv(env, s) && Next(env, s, Create(p, temp, inode), t)
    ensures Inv(env, t)
  {
    hide Effective, Unique, Replay, Commits, FilesApart, Text;
    var y := s.procs[p].state;
    assert Knows(env, s, p, s.procs[p]) && Logged(s, p, s.procs[p]);
    OthersAreOutside(s, p);
    assert LockHeld(t);
    hide LockHeld;
    NewTemporaryIsApart(s, t, temp, inode);
    forall r | r in s.readers && s.readers[r].Opened?
      ensures s.readers[r].inode in s.inodes && s.readers[r].inode !in t.temps.Values
    {
      assert ReaderSees(env, s, s.readers[r]);
    }
    hide ReaderSees, Inv;
    assert Knows(env, t, p, Writing(y, temp, 0)) && Logged(t, p, Writing(y, temp, 0));
    PhaseStep(env, s, t, p, Writing(y, temp, 0));
  }

  lemma AbortStep(env: Environment, s: System, t: System, p: nat, removed: bool)
    requires Inv(env, s) && Next(env, s, Abort(p, removed), t)
    ensures Inv(env, t)
  {
    hide Effective, Unique, Replay, Commits;
    assert Knows(env, s, p, s.procs[p]) && Logged(s, p, s.procs[p]);
    OthersAreOutside(s, p);
    forall r | r in s.readers && s.readers[r].Opened?
      ensures s.readers[r].inode in s.inodes && s.readers[r].inode !in t.temps.Values
    {
      assert ReaderSees(env, s, s.readers[r]);
    }
    PhaseStep(env, s, t, p, Failed);
  }

  /** A step of one process that touches no file. */
  lemma QuietStep(env: Environment, s: System, t: System, p: nat, ph: Phase)
    requires Inv(env, s) && t == s.(procs := s.procs[p := ph], lock := t.lock)
    requires LockHeld(t) && Knows(env, s, p, ph) && Logged(s, p, ph)
    ensures Inv(env, t)
  {
    hide Effective, Unique, Replay, LockHeld, Commits, Current, Logged;
    assert Knows(env, t, p, ph) && Logged(t, p, ph) by { SameKnowledge(env, s, t, p, ph); }
    forall r | r in s.readers && s.readers[r].Opened?
      ensures s.readers[r].inode in s.inodes && s.readers[r].inode !in s.temps.Values
    {
      assert ReaderSees(env, s, s.readers[r]);
    }
    PhaseStep(env, s, t, p, ph);
  }

  lemma SameKnowledge(env: Environment, s: System, t: System, p: nat, ph: Phase)
    requires t == s.(procs := t.procs, lock := t.lock) && Knows(env, s, p, ph) && Logged(s, p, ph)
    ensures Knows(env, t, p, ph) && Logged(t, p, ph)
  {}

  lemma EnterStep(env: Environment, s: System, t: System, step: Step)
    requires Inv(env, s) && Next(env, s, step, t) && (step.Begin? || step.GiveUp? || step.Lock?)
    ensures Inv(env, t)
  {
    hide Effective, Unique, Replay, ReaderSees, FilesApart, Commits, Current;
    var p := step.p;
    if p in s.procs {
      assert Logged(s, p, s.procs[p]);
    }
    assert LockHeld(t);
    hide LockHeld;
    QuietStep(env, s, t, p, t.procs[p]);
  }

  lemma LeaveStep(env: Environment, s: System, t: System, step: Step)
    requires Inv(env, s) && Next(env, s, step, t) && (step.Return? || step.Crash?)
    ensures Inv(env, t)
  {
    hide Effective, Unique, Replay, ReaderSees, FilesApart, Commits, Current;
    var p := step.p;
    assert Logged(s, p, s.procs[p]);
    assert LockHeld(t);
    hide LockHeld;
    QuietStep(env, s, t, p, t.procs[p]);
  }

  lemma StatStep(env: Environment, s: System, t: System, p: nat)
    requires Inv(env, s) && (Next(env, s, Stat(p), t) || Next(env, s, Sync(p), t))
    ensures Inv(env, t)
  {
    hide Effective, Unique, Replay, ReaderSees, FilesApart, Commits, Current;
    assert Knows(env, s, p, s.procs[p]) && Logged(s, p, s.procs[p]);
    QuietStep(env, s, t, p, t.procs[p]);
  }

  lemma LoadStep(env: Environment, s: System, t: System, p: nat)
    requires Inv(env, s) && Next(env, s, Load(p), t)
    ensures Inv(env, t)
  {
    hide Effective, Unique, Replay, ReaderSees, FilesApart, Current;
    assert Knows(env, s, p, s.procs[p]) && Logged(s, p, s.procs[p]);
    QuietStep(env, s, t, p, t.procs[p]);
  }

  lemma MutateStep(env: Environment, s: System, t: System, p: nat)
    requires Inv(env, s) && Next(env, s, Mutate(p), t)
    ensures Inv(env, t)
  {
    hide Effective, Unique, Replay, ReaderSees, FilesApart, Current, Run, Text, RoundTrips;
    assert Knows(env, s, p, s.procs[p]) && Logged(s, p, s.procs[p]);
    QuietStep(env, s, t, p, t.procs[p]);
  }

  lemma RenamedIsApart(s: System, t: System, temp: nat)
    requires FilesApart(s) && temp in s.temps && t.target == Some(s.temps[temp])
    requires t.temps == s.temps - {temp} && t.inodes == s.inodes
    ensures FilesApart(t) && Text(t) == Some(s.inodes[s.temps[temp]])
  {}

  lemma RenameStep(env: Environment, s: System, t: System, p: nat)
    requires Inv(env, s) && Next(env, s, Rename(p), t)
    ensures Inv(env, t)
  {
    hide Replay, Commits, Current, Effective, FilesApart, Text;
    var Synced(y, temp) := s.procs[p];
    assert Knows(env, s, p, s.procs[p]) && Logged(s, p, s.procs[p]);
    OthersAreOutside(s, p);
    ReplayOneMore(env, s.log, p, y);
    EffectiveOneMore(env, s.log, p, y);
    assert LockHeld(t) && Unique(t.log);
    hide LockHeld, Unique;
    RenamedIsApart(s, t, temp);
    forall q | q in t.procs ensures Knows(env, t, q, t.procs[q]) && Logged(t, q, t.procs[q]) {
      if q != p { assert Logged(s, q, s.procs[q]); }
    }
    forall r | r in t.readers ensures ReaderSees(env, t, t.readers[r]) {
      assert ReaderSees(env, s, s.readers[r]);
      assert t.log[..s.readers[r].since] == s.log[..s.readers[r].since];
    }
  }

  lemma EffectiveOneMore(env: Environment, log: seq<nat>, p: nat, y: StateV2)
    requires Effective(env, log) && Commits(env, Replay(env, log), p, y)
    ensures Effective(env, log + [p])
  {
    hide Replay;
    var after := log + [p];
    forall i | 0 <= i < |after| ensures Succeeds(env, Replay(env, after[..i]), after[i]) {
      if i < |log| {
        assert after[..i] == log[..i] && after[i] == log[i];
        assert Succeeds(env, Replay(env, log[..i]), log[i]);
      } else {
        assert after[..i] == log;
      }
    }
  }

  lemma ReaderStep(env: Environment, s: System, t: System, r: nat)
    requires Inv(env, s) && r in t.readers && t == s.(readers := s.readers[r := t.readers[r]])
    requires ReaderSees(env, s, t.readers[r])
    ensures Inv(env, t)
  {
    hide Effective, Unique, Replay, Commits, Current;
    forall q | q in t.procs ensures Knows(env, t, q, t.procs[q]) && Logged(t, q, t.procs[q]) {
      assert Knows(env, s, q, s.procs[q]) && Logged(s, q, s.procs[q]);
    }
    forall q | q in t.readers ensures ReaderSees(env, t, t.readers[q]) {
      assert q != r ==> ReaderSees(env, s, s.readers[q]);
    }
  }

  lemma OpenStep(env: Environment, s: System, t: System, r: nat)
    requires Inv(env, s) && Next(env, s, Open(r), t)
    ensures Inv(env, t)
  {
    hide Effective, Unique, Replay, Knows, LockHeld;
    assert s.log[..|s.log|] == s.log;
    ReaderStep(env, s, t, r);
  }

  lemma ReadStep(env: Environment, s: System, t: System, r: nat, n: nat)
    requires Inv(env, s) && Next(env, s, Read(r, n), t)
    ensures Inv(env, t)
  {
    hide Effective, Unique, Replay, Knows, LockHeld, FilesApart;
    assert ReaderSees(env, s, s.readers[r]);
    var text, got := s.inodes[s.readers[r].inode], s.readers[r].got;
    assert got + text[|got|..n] == text[..n];
    ReaderStep(env, s, t, r);
  }

  lemma CloseStep(env: Environment, s: System, t: System, r: nat)
    requires Inv(env, s) && Next(env, s, Close(r), t)
    ensures Inv(env, t)
  {
    hide Effective, Unique, Replay, Knows, LockHeld, FilesApart;
    assert ReaderSees(env, s, s.readers[r]);
    var text, got := s.inodes[s.readers[r].inode], s.readers[r].got;
    assert got == text[..|text|] == text;
    ReaderStep(env, s, t, r);
  }

  lemma LogGrows(env: Environment, s: System, step: Step, t: System)
    requires Next(env, s, step, t)
    ensures s.log <= t.log
  {
    hide Current, Run, Text;
  }

  lemma StepKeepsInv(env: Environment, s: System, step: Step, t: System)
    requires Inv(env, s) && Next(env, s, step, t)
    ensures Inv(env, t) && s.log <= t.log
  {
    LogGrows(env, s, step, t);
    hide Inv, Next;
    match step {
      case Write(p, n) => WriteStep(env, s, t, p, n);
      case Create(p, temp, inode) => CreateStep(env, s, t, p, temp, inode);
      case Abort(p, removed) => AbortStep(env, s, t, p, removed);
      case Rename(p) => RenameStep(env, s, t, p);
      case Open(r) => OpenStep(env, s, t, r);
      case Read(r, n) => ReadStep(env, s, t, r, n);
      case Close(r) => CloseStep(env, s, t, r);
      case Stat(p) => StatStep(env, s, t, p);
      case Sync(p) => StatStep(env, s, t, p);
      case Load(p) => LoadStep(env, s, t, p);
      case Mutate(p) => MutateStep(env, s, t, p);
      case Return(p) => LeaveStep(env, s, t, step);
      case Crash(p) => LeaveStep(env, s, t, step);
      case _ => EnterStep(env, s, t, step);
    }
  }

  // ---------------------------------------------------------------- whole runs

  ghost predicate IsRun(env: Environment, run: seq<System>) {
    && run != [] && Init(env, run[0])
    && forall i :: 0 <= i < |run| - 1 ==> CanStep(env, run[i], run[i + 1])
  }

  ghost predicate CanStep(env: Environment, s: System, t: System) {
    exists step :: Next(env, s, step, t)
  }

  lemma InitHasInv(env: Environment, s: System)
    requires Init(env, s)
    ensures Inv(env, s)
  {}

  lemma RunsExtend(env: Environment, run: seq<System>)
    requires IsRun(env, run) && |run| > 1
    ensures IsRun(env, run[..|run| - 1]) && CanStep(env, run[|run| - 2], run[|run| - 1])
  {}

  lemma RunStep(env: Environment, s: System, t: System)
    requires Inv(env, s) && CanStep(env, s, t)
    ensures Inv(env, t) && s.log <= t.log
  {
    hide Inv, Next;
    var step :| Next(env, s, step, t);
    StepKeepsInv(env, s, step, t);
  }

  lemma {:induction false} RunKeepsInv(env: Environment, run: seq<System>)
    requires IsRun(env, run)
    ensures Inv(env, run[|run| - 1])
  {
    assert Init(env, run[0]);
    if |run| == 1 {
      hide Inv, Init;
      InitHasInv(env, run[0]);
    } else {
      hide Inv, Init, CanStep, IsRun;
      RunsExtend(env, run);
      RunKeepsInv(env, run[..|run| - 1]);
      RunStep(env, run[|run| - 2], run[|run| - 1]);
    }
  }

  /** After any interleaving and any crashes, the file is the fold of the committed mutations in rename order: each read
      what its predecessor wrote, none committed twice, every call that returned success is among them, and no call that
      returned an error is. */
  lemma FileIsFoldOfCommits(env: Environment, run: seq<System>)
    requires IsRun(env, run)
    ensures
      var s := run[|run| - 1];
      && Text(s) == Replay(env, s.log) && Effective(env, s.log) && Unique(s.log)
      && forall p :: p in s.procs ==>
           && (s.procs[p].Succeeded? ==> p in s.log)
           && (s.procs[p].Failed? ==> p !in s.log)
  {
    RunKeepsInv(env, run);
  }

  /** A committed mutation stays committed: the order of renames only grows. */
  lemma {:induction false} NoCommitIsLost(env: Environment, run: seq<System>, i: nat)
    requires IsRun(env, run) && i < |run|
    ensures run[i].log <= run[|run| - 1].log
  {
    hide Inv, Init, CanStep, IsRun;
    if i < |run| - 1 {
      var before := run[..|run| - 1];
      RunsExtend(env, run);
      NoCommitIsLost(env, before, i);
      RunKeepsInv(env, before);
      RunStep(env, run[|run| - 2], run[|run| - 1]);
      PrefixOfPrefix(run[i].log, run[|run| - 2].log, run[|run| - 1].log);
    }
  }

  lemma PrefixOfPrefix(a: seq<nat>, b: seq<nat>, c: seq<nat>)
    requires a <= b <= c
    ensures a <= c
  {}

  /** A lock-free reader ends up with exactly the file as it stood when it opened it, never part of one. */
  lemma ReadersSeeWholeFiles(env: Environment, run: seq<System>, r: nat)
    requires IsRun(env, run) && r in run[|run| - 1].readers && run[|run| - 1].readers[r].Finished?
    ensures
      var s := run[|run| - 1];
      s.readers[r].since <= |s.log| && s.readers[r].text == Replay(env, s.log[..s.readers[r].since])
  {
    RunKeepsInv(env, run);
    assert ReaderSees(env, run[|run| - 1], run[|run| - 1].readers[r]);
  }

  // ---------------------------------------------------------------- orphan temporaries

  predicate HasTemp(ph: Phase) {
    ph.Writing? || ph.Synced?
  }

  ghost function Held(s: System): set<nat> {
    set p | p in s.procs && HasTemp(s.procs[p]) :: s.procs[p].temp
  }

  /** Temporary files no process will rename or remove any more. */
  ghost function Orphans(s: System): set<nat> {
    s.temps.Keys - Held(s)
  }

  /** The process dies with its temporary file open, or gives up and fails to remove it. */
  predicate Orphaning(s: System, step: Step) {
    (step.Crash? || (step.Abort? && !step.removed)) && HasTemp(At(s, step.p))
  }

  ghost function Orphaned(s: System, step: Step): set<nat> {
    if Orphaning(s, step) then {At(s, step.p).temp} else {}
  }

  lemma OneHolder(env: Environment, s: System, p: nat)
    requires Inv(env, s) && p in s.procs && Inside(s.procs[p])
    ensures Held(s) == if HasTemp(s.procs[p]) then {s.procs[p].temp} else {}
    ensures HasTemp(s.procs[p]) ==> s.procs[p].temp in s.temps
    ensures forall q :: q in s.procs && q != p ==> !HasTemp(s.procs[q])
  {
    OthersAreOutside(s, p);
    assert Knows(env, s, p, s.procs[p]);
    hide Inv;
    if HasTemp(s.procs[p]) { assert s.procs[p].temp in Held(s); }
  }

  lemma SameHolders(s: System, t: System, p: nat)
    requires p in t.procs && t.procs == s.procs[p := t.procs[p]] && !HasTemp(t.procs[p])
    requires p in s.procs ==> !HasTemp(s.procs[p])
    ensures Held(t) == Held(s)
  {
    forall q ensures q in t.procs && HasTemp(t.procs[q]) <==> q in s.procs && HasTemp(s.procs[q]) {}
    forall x ensures x in Held(t) <==> x in Held(s) {
      if q :| q in t.procs && HasTemp(t.procs[q]) && t.procs[q].temp == x { assert q in s.procs; }
      if q :| q in s.procs && HasTemp(s.procs[q]) && s.procs[q].temp == x { assert q in t.procs; }
    }
  }

  /** What a step of process `p` does to the temporary files. */
  ghost predicate TempsFollow(s: System, step: Step, t: System, p: nat) {
    var was, now := At(s, p), At(t, p);
    if HasTemp(now) then
      if HasTemp(was) then t.temps == s.temps && now.temp == was.temp
      else now.temp !in s.temps && t.temps.Keys == s.temps.Keys + {now.temp}
    else if HasTemp(was) then
      t.temps.Keys == s.temps.Keys - if Orphaning(s, step) then {} else {was.temp}
    else t.temps == s.temps
  }

  lemma StepMovesTemps(env: Environment, s: System, step: Step, t: System)
    requires Next(env, s, step, t)
    requires !step.Open? && !step.Read? && !step.Close?
    ensures step.p in t.procs && t.procs == s.procs[step.p := t.procs[step.p]] && TempsFollow(s, step, t, step.p)
    ensures HasTemp(At(t, step.p)) ==> Inside(At(s, step.p))
    ensures Orphaning(s, step) ==> HasTemp(At(s, step.p)) && !HasTemp(At(t, step.p))
  {
    hide Current, Run, Text;
    if step.Abort? || step.Crash? || step.Return? { EndMovesTemps(env, s, step, t); }
    hide Leave, Cleaned;
  }

  lemma EndMovesTemps(env: Environment, s: System, step: Step, t: System)
    requires Next(env, s, step, t) && (step.Abort? || step.Crash? || step.Return?)
    ensures step.p in t.procs && t.procs == s.procs[step.p := t.procs[step.p]] && TempsFollow(s, step, t, step.p)
    ensures !HasTemp(At(t, step.p))
  {}

  function TempOf(ph: Phase): set<nat> {
    if HasTemp(ph) then {ph.temp} else {}
  }

  lemma HolderMoves(s: System, step: Step, t: System, p: nat)
    requires TempsFollow(s, step, t, p) && Held(s) == TempOf(At(s, p)) && Held(t) == TempOf(At(t, p))
    requires HasTemp(At(s, p)) ==> At(s, p).temp in s.temps
    requires Orphaning(s, step) ==> step.p == p && HasTemp(At(s, p)) && !HasTemp(At(t, p))
    ensures Orphans(t) == Orphans(s) + Orphaned(s, step) && Orphans(s) !! Orphaned(s, step)
  {
    hide Held, At;
  }

  lemma HeldByOne(env: Environment, s: System, step: Step, t: System, p: nat)
    requires Inv(env, s) && p in s.procs && Inside(s.procs[p])
    requires p in t.procs && t.procs == s.procs[p := t.procs[p]]
    ensures Held(s) == TempOf(At(s, p)) && Held(t) == TempOf(At(t, p))
    ensures HasTemp(At(s, p)) ==> At(s, p).temp in s.temps
  {
    OneHolder(env, s, p);
    hide Inv;
    HolderAfter(t, p);
  }

  /** A step adds to the orphans exactly the temporary file it abandons, and no step ever removes one. */
  lemma OrphansAfterStep(env: Environment, s: System, step: Step, t: System)
    requires Inv(env, s) && Next(env, s, step, t)
    ensures Orphans(t) == Orphans(s) + Orphaned(s, step) && Orphans(s) !! Orphaned(s, step)
  {
    if step.Open? || step.Read? || step.Close? {
      assert t.procs == s.procs;
      return;
    }
    StepMovesTemps(env, s, step, t);
    hide Inv, Next;
    if Inside(At(s, step.p)) {
      HeldByOne(env, s, step, t, step.p);
      hide Held, Orphans, Orphaned, TempsFollow, TempOf;
      HolderMoves(s, step, t, step.p);
    } else {
      SameHolders(s, t, step.p);
      hide Held;
    }
  }

  /** A process that was inside is still the only possible holder. */
  lemma HolderAfter(t: System, p: nat)
    requires p in t.procs && forall q :: q in t.procs && q != p ==> !HasTemp(t.procs[q])
    ensures Held(t) == if HasTemp(t.procs[p]) then {t.procs[p].temp} else {}
  {
    if HasTemp(t.procs[p]) { assert t.procs[p].temp in Held(t); }
  }

  /** The steps a run took. */
  ghost predicate Took(env: Environment, run: seq<System>, steps: seq<Step>) {
    && |run| == |steps| + 1
    && forall i :: 0 <= i < |steps| ==> Next(env, run[i], steps[i], run[i + 1])
  }

  lemma {:induction false} OrphansExactly(env: Environment, run: seq<System>, steps: seq<Step>)
    requires Took(env, run, steps) && Init(env, run[0])
    ensures Inv(env, run[|steps|])
    ensures forall x :: x in Orphans(run[|steps|]) <==> exists i :: 0 <= i < |steps| && x in Orphaned(run[i], steps[i])
  {
    hide Init, Inv, Next, Orphans, Orphaned;
    if steps == [] {
      InitHasInv(env, run[0]);
      NoneAtFirst(env, run[0]);
    } else {
      var last := |steps| - 1;
      OrphansExactly(env, run[..|steps|], steps[..last]);
      StepKeepsInv(env, run[last], steps[last], run[|steps|]);
      OrphansAfterStep(env, run[last], steps[last], run[|steps|]);
      forall x ensures (exists i :: 0 <= i < |steps| && x in Orphaned(run[i], steps[i]))
                  <==> x in Orphaned(run[last], steps[last])
                       || exists i :: 0 <= i < last && x in Orphaned(run[i], steps[i]) {}
    }
  }

  lemma NoneAtFirst(env: Environment, s: System)
    requires Init(env, s)
    ensures Orphans(s) == {}
  {}

  /** The documented promise that a crash never leaves an orphan around holds of a run exactly when no process crashed
      with its temporary file open or failed to remove it on an error. */
  lemma NoOrphanExactly(env: Environment, run: seq<System>, steps: seq<Step>)
    requires Took(env, run, steps) && Init(env, run[0])
    ensures Orphans(run[|steps|]) == {} <==> forall i :: 0 <= i < |steps| ==> !Orphaning(run[i], steps[i])
  {
    hide Init, Inv, Next, Orphans;
    OrphansExactly(env, run, steps);
    forall i | 0 <= i < |steps| && Orphaning(run[i], steps[i])
      ensures exists x :: x in Orphans(run[|steps|])
    {
      var x := At(run[i], steps[i].p).temp;
      assert x in Orphaned(run[i], steps[i]);
      assert x in Orphans(run[|steps|]);
    }
    if x :| x in Orphans(run[|steps|]) {
      var i :| 0 <= i < |steps| && x in Orphaned(run[i], steps[i]);
      assert Orphaning(run[i], steps[i]);
    }
  }

  /** One process, started on a missing file, crashes after creating its temporary file. */
  function CrashSchedule(): seq<Step> {
    [Begin(0), Lock(0), Stat(0), Load(0), Mutate(0), Create(0, 7, 1), Crash(0)]
  }

  function CrashRun(path: string): seq<System> {
    var y := NO_STATE.(trackedOverrides := [path]);
    var idle := System(None, map[], map[], None, map[], map[], []);
    var held := idle.(lock := Some(0));
    [idle,
     idle.(procs := map[0 := Started]),
     held.(procs := map[0 := Locked]),
     held.(procs := map[0 := Stated(false)]),
     held.(procs := map[0 := Loaded(NO_STATE)]),
     held.(procs := map[0 := Mutated(y)]),
     held.(procs := map[0 := Writing(y, 7, 0)], temps := map[7 := 1], inodes := map[1 := ""]),
     idle.(procs := map[0 := Crashed], temps := map[7 := 1], inodes := map[1 := ""])]
  }

  lemma CrashRunStarts(env: Environment, path: string, i: nat)
    requires i < 4
    ensures Next(env, CrashRun(path)[i], CrashSchedule()[i], CrashRun(path)[i + 1])
  {}

  lemma CrashRunMutates(env: Environment, path: string)
    requires env.mutation(0) == TrackRepo(path)
    ensures Next(env, CrashRun(path)[4], CrashSchedule()[4], CrashRun(path)[5])
  {
    assert [] + [path] == [path];
  }

  lemma CrashRunEnds(env: Environment, path: string, i: nat)
    requires 5 <= i < 7
    ensures Next(env, CrashRun(path)[i], CrashSchedule()[i], CrashRun(path)[i + 1])
  {}

  lemma CrashRunOrphans(path: string)
    ensures Text(CrashRun(path)[7]) == None && Orphans(CrashRun(path)[7]) == {7}
  {
    assert Held(CrashRun(path)[7]) == {};
  }

  /** The smallest run that leaves an orphan. */
  lemma CrashLeavesAnOrphan(env: Environment, path: string) returns (run: seq<System>, steps: seq<Step>)
    requires env.initial == None && env.mutation(0) == TrackRepo(path)
    ensures Took(env, run, steps) && Init(env, run[0])
    ensures Text(run[|steps|]) == None && Orphans(run[|steps|]) == {7}
  {
    run, steps := CrashRun(path), CrashSchedule();
    CrashRunMutates(env, path);
    CrashRunOrphans(path);
    hide Next, Orphans;
    forall i | 0 <= i < |steps| ensures Next(env, run[i], steps[i], run[i + 1]) {
      if i < 4 { CrashRunStarts(env, path, i); } else if i > 4 { CrashRunEnds(env, path, i); }
    }
  }

  // ---------------------------------------------------------------- tracked paths

  ghost predicate NoDuplicates(s: seq<string>) {
    forall i, j :: 0 <= i < j < |s| ==> s[i] != s[j]
  }

  lemma {:induction false} UntrackedSpec(tracked: seq<string>, path: string)
    ensures forall x :: x in Untracked(tracked, path) <==> x in tracked && x != path
    ensures NoDuplicates(tracked) ==> NoDuplicates(Untracked(tracked, path))
  {
    if tracked != [] {
      var t, last := tracked[..|tracked| - 1], tracked[|tracked| - 1];
      UntrackedSpec(t, path);
      assert tracked == t + [last];
      assert NoDuplicates(tracked) ==> NoDuplicates(t) && last !in t;
    }
  }

  /** One entry more, at the end: it goes or it stays, and those before it keep their order. */
  lemma UntrackedOneMore(tracked: seq<string>, x: string, path: string)
    ensures Untracked(tracked + [x], path) ==
            if x == path then Untracked(tracked, path) else Untracked(tracked, path) + [x]
    ensures Untracked([], path) == []
  {
    assert (tracked + [x])[..|tracked|] == tracked;
  }

  /** The state a file content stands for. */
  function StateOf(env: Environment, text: Option<string>): StateV2 {
    if Current(env, text).Ok? then Current(env, text).value else NO_STATE
  }

  /** Tracked paths stay free of duplicates through every sequence of commits. */
  lemma {:induction false} TrackedStaysDuplicateFree(env: Environment, log: seq<nat>)
    requires RoundTrips(env) && NoDuplicates(StateOf(env, env.initial).trackedOverrides)
    ensures NoDuplicates(StateOf(env, Replay(env, log)).trackedOverrides)
  {
    if log != [] {
      TrackedStaysDuplicateFree(env, log[..|log| - 1]);
      var x := Current(env, Replay(env, log[..|log| - 1]));
      if x.Ok? && env.mutation(log[|log| - 1]).UntrackRepo? {
        UntrackedSpec(x.value.trackedOverrides, env.mutation(log[|log| - 1]).path);
      }
    }
  }

  /** What the last committed track or untrack of a path said, or else the initial file. */
  ghost predicate LastSaysTracked(env: Environment, log: seq<nat>, path: string) {
    if log == [] then path in StateOf(env, env.initial).trackedOverrides
    else
      var m := env.mutation(log[|log| - 1]);
      if m == TrackRepo(path) then true
      else if m == UntrackRepo(path) then false
      else LastSaysTracked(env, log[..|log| - 1], path)
  }

  /** No update is lost: a path is tracked exactly when the last commit that names it tracked it. */
  lemma {:induction false} TrackedIffLastSaysSo(env: Environment, log: seq<nat>, path: string)
    requires RoundTrips(env) && Effective(env, log)
    ensures path in StateOf(env, Replay(env, log)).trackedOverrides <==> LastSaysTracked(env, log, path)
  {
    if log != [] {
      var before, m := log[..|log| - 1], env.mutation(log[|log| - 1]);
      WholeCommit(env, log);
      hide Effective, Replay, StateOf;
      TrackedIffLastSaysSo(env, before, path);
      if m.UntrackRepo? { UntrackedSpec(StateOf(env, Replay(env, before)).trackedOverrides, m.path); }
    }
  }

  /** The last commit ran on what the earlier ones left. */
  lemma WholeCommit(env: Environment, log: seq<nat>)
    requires RoundTrips(env) && Effective(env, log) && log != []
    ensures
      var before, m := log[..|log| - 1], env.mutation(log[|log| - 1]);
      var x, y := StateOf(env, Replay(env, before)), StateOf(env, Replay(env, log));
      && Effective(env, before) && Run(m, x).Some?
      && y.trackedOverrides == Run(m, x).value.trackedOverrides && y.others == Run(m, x).value.others
  {
    hide Replay;
    var before := log[..|log| - 1];
    assert Succeeds(env, Replay(env, log[..|before|]), log[|before|]);
    forall i | 0 <= i < |before| ensures Succeeds(env, Replay(env, before[..i]), before[i]) {
      assert Succeeds(env, Replay(env, log[..i]), log[i]);
      assert before[..i] == log[..i];
    }
    var y := Run(env.mutation(log[|before|]), StateOf(env, Replay(env, before))).value;
    ReplayOneMore(env, before, log[|before|], y);
    assert before + [log[|before|]] == log;
  }

  // ---------------------------------------------------------------- everything but the tracked paths

  /** The rest of the state after the updates of a log, each given what the one before it returned; tracking and
      untracking are not among them. */
  ghost function OthersAfter(env: Environment, log: seq<nat>): Others {
    if log == [] then StateOf(env, env.initial).others
    else
      var before := OthersAfter(env, log[..|log| - 1]);
      match env.mutation(log[|log| - 1])
      case Update(change) => if change(before).Some? then change(before).value else before
      case _ => before
  }

  /** The tracked paths after the tracks and untracks of a log: at the end if new, and gone altogether; updates are not
      among them. */
  ghost function PathsAfter(env: Environment, log: seq<nat>): seq<string> {
    if log == [] then StateOf(env, env.initial).trackedOverrides
    else
      var before := PathsAfter(env, log[..|log| - 1]);
      match env.mutation(log[|log| - 1])
      case TrackRepo(path) => if path in before then before else before + [path]
      case UntrackRepo(path) => Untracked(before, path)
      case _ => before
  }

  /** One committed mutation and the two halves of the state. */
  lemma CommitByParts(m: Mutation, x: StateV2)
    requires Run(m, x).Some?
    ensures
      var y := Run(m, x).value;
      && y.schemaVersion == x.schemaVersion
      && (m.Update? ==> y.trackedOverrides == x.trackedOverrides && m.change(x.others) == Some(y.others))
      && (!m.Update? ==> y.others == x.others)
      && (m.TrackRepo? ==>
            y.trackedOverrides == x.trackedOverrides + if m.path in x.trackedOverrides then [] else [m.path])
      && (m.UntrackRepo? ==> y.trackedOverrides == Untracked(x.trackedOverrides, m.path))
  {
    if m.TrackRepo? && m.path in x.trackedOverrides { assert x.trackedOverrides + [] == x.trackedOverrides; }
  }

  lemma {:induction false} StateByParts(env: Environment, log: seq<nat>)
    requires RoundTrips(env) && Effective(env, log)
    ensures StateOf(env, Replay(env, log)).others == OthersAfter(env, log)
    ensures StateOf(env, Replay(env, log)).trackedOverrides == PathsAfter(env, log)
  {
    if log != [] {
      var before, m := log[..|log| - 1], env.mutation(log[|log| - 1]);
      WholeCommit(env, log);
      hide Effective, Replay, StateOf, Run, Untracked;
      StateByParts(env, before);
      CommitByParts(m, StateOf(env, Replay(env, before)));
    }
  }

  /** Nothing a caller wrote is lost or mixed up: over every interleaving and crash the file's state holds, next to the
      tracked paths, what the update callbacks of the committed processes made of the initial rest, each called with the
      result of the one committed before it; and the tracked paths are what the committed tracks and untracks made. */
  lemma FileHoldsEveryUpdate(env: Environment, run: seq<System>)
    requires IsRun(env, run) && RoundTrips(env)
    ensures
      var s := run[|run| - 1];
      && StateOf(env, Text(s)).others == OthersAfter(env, s.log)
      && StateOf(env, Text(s)).trackedOverrides == PathsAfter(env, s.log)
      && forall p :: p in s.procs ==>
           (s.procs[p].Succeeded? ==> p in s.log) && (s.procs[p].Failed? ==> p !in s.log)
  {
    FileIsFoldOfCommits(env, run);
    hide IsRun, Replay, StateOf, Text;
    StateByParts(env, run[|run| - 1].log);
  }

  /** One update run alone: what its callback returns for the file's rest is what the file then holds. */
  lemma UpdateIsWritten(env: Environment, s: StateV2, p: nat, change: Others -> Option<Others>)
    requires RoundTrips(env) && env.initial == Some(env.render(s)) && s.schemaVersion != 0
    requires env.mutation(p) == Update(change) && change(s.others).Some?
    ensures Replay(env, [p]).Some?
    ensures env.parse(Replay(env, [p]).value) == Some(s.(others := change(s.others).value))
  {
    assert [p][..0] == [];
    assert Replay(env, []) == env.initial;
  }

  /** A state file without a version is read as version 2, a missing one as an empty state of that version. */
  lemma FirstState(env: Environment, s: StateV2)
    requires RoundTrips(env)
    ensures StateOf(env, Some(env.render(s)))
            == s.(schemaVersion := if s.schemaVersion == 0 then 2 else s.schemaVersion)
    ensures StateOf(env, None) == StateV2(2, [], Others("", [], map[], map[]))
  {}

  /** Once a readable file is in place, every reader can read what it finds. */
  lemma {:induction false} EveryVersionIsReadable(env: Environment, log: seq<nat>)
    requires RoundTrips(env) && Current(env, env.initial).Ok?
    ensures Current(env, Replay(env, log)).Ok?
    ensures log != [] && Effective(env, log) ==> StateOf(env, Replay(env, log)).schemaVersion != 0
  {
    if log != [] {
      EveryVersionIsReadable(env, log[..|log| - 1]);
    }
  }
}
