/** internal/reconcile/cache.go: any number of overlapping loads of one file through the cache, while writers replace
    the file between any two steps of a load. */
module ConfigCache {
  import opened Base

  /** (mtime, size) of a file. */
  datatype Key = Key(mtime: int, size: nat)

  datatype Content = Malformed | Good(value: string)

  datatype Version = Absent | Present(key: Key, content: Content)

  /** loadMachine, loadState and loadRepo. */
  datatype Loader = Machine | State | Repo

  /** A decoded value, the nil that stands for a missing file, or an error. */
  datatype Outcome = Loaded(value: string) | Missing | Failed

  /** A cache entry; `asOf` is the version its outcome was read from, kept only for the proofs. */
  datatype Entry = Entry(key: Key, outcome: Outcome, asOf: nat) | NotFound

  /** A load in progress, with the versions current when it began and when its statKey ran. */
  datatype Call =
    | Begun(start: nat)
    | Statted(start: nat, key: Option<Key>, at: nat)
    | Missed(start: nat, key: Option<Key>, at: nat)       // to be loaded from disk
    | Confirmed(start: nat, key: Option<Key>, at: nat)    // the loader's own stat found the file
    | Decoded(start: nat, key: Option<Key>, at: nat, outcome: Outcome, asOf: nat)
    | Returned(start: nat, end: nat, outcome: Outcome)

  datatype System = System(versions: seq<Version>, entry: Option<Entry>, calls: map<nat, Call>)

  datatype Step =
    | Change(v: Version)      // a writer replaces, removes or creates the file
    | Begin(c: nat)
    | StatKey(c: nat)
    | Lookup(c: nat)
    | Check(c: nat)           // the loader's own stat
    | Decode(c: nat)
    | Store(c: nat)

  function Now(s: System): nat
    requires s.versions != []
  {
    |s.versions| - 1
  }

  function KeyOf(v: Version): Option<Key> {
    if v.Present? then Some(v.key) else None
  }

  /** What the loader makes of a file it finds missing. */
  function WhenAbsent(loader: Loader): Outcome {
    if loader == Machine then Failed else Missing
  }

  function WhenRead(v: Version): Outcome {
    if v.Present? && v.content.Good? then Loaded(v.content.value) else Failed
  }

  /** The cached answer to a lookup, if there is one. Only loadState looks up a file that is not there. */
  function Hit(loader: Loader, entry: Option<Entry>, key: Option<Key>): Option<Outcome> {
    match key
    case Some(k) =>
      if entry.Some? && entry.value.Entry? && entry.value.key == k then Some(entry.value.outcome) else None
    case None => if loader == State && entry == Some(NotFound) then Some(Missing) else None
  }

  /** What a successful load leaves in the cache. */
  function Stored(loader: Loader, key: Option<Key>, outcome: Outcome, asOf: nat, entry: Option<Entry>): Option<Entry> {
    match key
    case Some(k) => Some(Entry(k, outcome, asOf))
    case None => if loader == State then Some(NotFound) else entry
  }

  function Set(s: System, c: nat, call: Call): System {
    s.(calls := s.calls[c := call])
  }

  function Finish(s: System, c: nat, outcome: Outcome): System
    requires s.versions != [] && c in s.calls
  {
    Set(s, c, Returned(s.calls[c].start, Now(s), outcome))
  }

  ghost predicate Next(loader: Loader, s: System, step: Step, t: System) {
    && s.versions != []
    && match step
       case Change(v) => t == s.(versions := s.versions + [v])
       case Begin(c) => c !in s.calls && t == Set(s, c, Begun(Now(s)))
       case StatKey(c) =>
         && c in s.calls && s.calls[c].Begun?
         && t == Set(s, c, Statted(s.calls[c].start, KeyOf(s.versions[Now(s)]), Now(s)))
       case Lookup(c) =>
         && c in s.calls && s.calls[c].Statted?
         && var Statted(start, key, at) := s.calls[c];
         && var hit := Hit(loader, s.entry, key);
         && t == if hit.Some? then Finish(s, c, hit.value) else Set(s, c, Missed(start, key, at))
       case Check(c) =>
         && c in s.calls && s.calls[c].Missed?
         && var Missed(start, key, at) := s.calls[c];
         && t == if s.versions[Now(s)].Present? then Set(s, c, Confirmed(start, key, at))
                 else Set(s, c, Decoded(start, key, at, WhenAbsent(loader), Now(s)))
       case Decode(c) =>
         && c in s.calls && s.calls[c].Confirmed?
         && var Confirmed(start, key, at) := s.calls[c];
         && t == Set(s, c, Decoded(start, key, at, WhenRead(s.versions[Now(s)]), Now(s)))
       case Store(c) =>
         && c in s.calls && s.calls[c].Decoded?
         && var Decoded(start, key, at, outcome, asOf) := s.calls[c];
         && t == if outcome.Failed? then Finish(s, c, Failed)
                 else Finish(s, c, outcome).(entry := Stored(loader, key, outcome, asOf, s.entry))
  }

  ghost predicate Init(s: System) {
    |s.versions| == 1 && s.entry == None && s.calls == map[]
  }

  // ---------------------------------------------------------------- what every step keeps

  /** The outcome is the file's content at this version; an error means it was missing or malformed then. */
  predicate Tells(outcome: Outcome, v: Version) {
    match outcome
    case Loaded(value) => v.Present? && v.content == Good(value)
    case Missing => v.Absent?
    case Failed => v.Absent? || v.content.Malformed?
  }

  ghost predicate TellsOfOne(versions: seq<Version>, outcome: Outcome, from: nat, to: nat) {
    exists k :: from <= k <= to && k < |versions| && Tells(outcome, versions[k])
  }

  predicate SameKey(versions: seq<Version>, j: nat, k: nat)
    requires j < |versions| && k < |versions|
  {
    versions[j].Present? && versions[k].Present? && versions[j].key == versions[k].key
  }

  /** What a load makes of a version it meets whole; all but `Failed` is cached. */
  function OutcomeAt(loader: Loader, v: Version): Outcome {
    if v.Absent? then WhenAbsent(loader) else WhenRead(v)
  }

  /** Version `k` has the key of an earlier version `j`, and in between a version `a` could be cached under that key
      which is not what `k` says. */
  ghost predicate Harmful(loader: Loader, versions: seq<Version>, j: int, a: int, k: int) {
    && 0 <= j <= a < k < |versions| && SameKey(versions, j, k)
    && !OutcomeAt(loader, versions[a]).Failed? && !Tells(OutcomeAt(loader, versions[a]), versions[k])
  }

  /** Such a version was current between `from` and `to`, and the cached one had gone before. */
  ghost predicate HarmfulIn(loader: Loader, versions: seq<Version>, from: nat, to: nat) {
    exists j, a, k :: a < from <= k <= to && Harmful(loader, versions, j, a, k)
  }

  /** An entry holds what the file said at or after the version its key names. */
  ghost predicate EntryOk(loader: Loader, versions: seq<Version>, e: Entry) {
    e.Entry? ==>
      && e.asOf < |versions| && e.outcome == OutcomeAt(loader, versions[e.asOf]) && !e.outcome.Failed?
      && exists j :: 0 <= j <= e.asOf && KeyOf(versions[j]) == Some(e.key)
  }

  ghost predicate CallOk(loader: Loader, versions: seq<Version>, call: Call) {
    && call.start < |versions|
    && match call
       case Begun(_) => true
       case Statted(start, key, at) => start <= at < |versions| && key == KeyOf(versions[at])
       case Missed(start, key, at) => start <= at < |versions| && key == KeyOf(versions[at])
       case Confirmed(start, key, at) => start <= at < |versions| && key == KeyOf(versions[at])
       case Decoded(start, key, at, outcome, asOf) =>
         && start <= at <= asOf < |versions| && key == KeyOf(versions[at]) && Tells(outcome, versions[asOf])
         && (!outcome.Failed? ==> outcome == OutcomeAt(loader, versions[asOf]))
       case Returned(start, end, outcome) =>
         end < |versions| && (TellsOfOne(versions, outcome, start, end) || HarmfulIn(loader, versions, start, end))
  }

  ghost predicate Inv(loader: Loader, s: System) {
    && s.versions != []
    && (s.entry.Some? ==> EntryOk(loader, s.versions, s.entry.value))
    && forall c :: c in s.calls ==> CallOk(loader, s.versions, s.calls[c])
  }

  /** More versions change nothing that is known of the earlier ones. */
  lemma ChangeKeepsInv(loader: Loader, s: System, v: Version)
    requires Inv(loader, s)
    ensures Inv(loader, s.(versions := s.versions + [v]))
  {
    var after := s.versions + [v];
    if s.entry.Some? && s.entry.value.Entry? {
      var e := s.entry.value;
      var j :| 0 <= j <= e.asOf && KeyOf(s.versions[j]) == Some(e.key);
      assert after[j] == s.versions[j];
    }
    forall c | c in s.calls ensures CallOk(loader, after, s.calls[c]) {
      assert CallOk(loader, s.versions, s.calls[c]);
      if s.calls[c].Returned? { ReturnedStays(loader, s.versions, v, s.calls[c]); }
    }
  }

  lemma ReturnedStays(loader: Loader, versions: seq<Version>, v: Version, call: Call)
    requires call.Returned? && CallOk(loader, versions, call)
    ensures CallOk(loader, versions + [v], call)
  {
    var Returned(start, end, outcome) := call;
    var after := versions + [v];
    if k :| start <= k <= end && k < |versions| && Tells(outcome, versions[k]) {
      assert Tells(outcome, after[k]);
    } else {
      var j, a, k :| a < start <= k <= end && Harmful(loader, versions, j, a, k);
      assert Harmful(loader, after, j, a, k);
    }
  }

  /** A hit answers with the file's content at or after the load's begin, unless the key it found names an older
      version too and another content was cached under it. */
  lemma HitIsCurrent(loader: Loader, s: System, start: nat, key: Option<Key>, at: nat)
    requires Inv(loader, s) && start <= at <= Now(s) && key == KeyOf(s.versions[at]) && Hit(loader, s.entry, key).Some?
    ensures TellsOfOne(s.versions, Hit(loader, s.entry, key).value, start, Now(s))
            || HarmfulIn(loader, s.versions, start, Now(s))
  {
    if key.None? {
      assert Tells(Missing, s.versions[at]);
    } else {
      var e := s.entry.value;
      var j :| 0 <= j <= e.asOf && KeyOf(s.versions[j]) == Some(e.key);
      assert Tells(e.outcome, s.versions[e.asOf]);
      if e.asOf < start && !Tells(e.outcome, s.versions[at]) {
        assert Harmful(loader, s.versions, j, e.asOf, at);
      }
    }
  }

  lemma StepKeepsInv(loader: Loader, s: System, step: Step, t: System)
    requires Inv(loader, s) && Next(loader, s, step, t)
    ensures Inv(loader, t)
  {
    match step {
      case Change(v) => ChangeKeepsInv(loader, s, v);
      case Lookup(c) => LookupKeepsInv(loader, s, c, t);
      case Store(c) => StoreKeepsInv(loader, s, c, t);
      case Begin(_) =>
      case _ => assert CallOk(loader, s.versions, s.calls[step.c]);
    }
  }

  lemma LookupKeepsInv(loader: Loader, s: System, c: nat, t: System)
    requires Inv(loader, s) && Next(loader, s, Lookup(c), t)
    ensures Inv(loader, t)
  {
    var Statted(start, key, at) := s.calls[c];
    assert CallOk(loader, s.versions, s.calls[c]);
    if Hit(loader, s.entry, key).Some? {
      HitIsCurrent(loader, s, start, key, at);
    }
    hide Hit, Tells, EntryOk, HarmfulIn, TellsOfOne;
  }

  lemma StoreKeepsInv(loader: Loader, s: System, c: nat, t: System)
    requires Inv(loader, s) && Next(loader, s, Store(c), t)
    ensures Inv(loader, t)
  {
    var Decoded(start, key, at, outcome, asOf) := s.calls[c];
    assert CallOk(loader, s.versions, s.calls[c]);
    assert Tells(outcome, s.versions[asOf]);
    hide HarmfulIn, OutcomeAt;
  }

  // ---------------------------------------------------------------- whole runs

  ghost predicate CanStep(loader: Loader, s: System, t: System) {
    exists step :: Next(loader, s, step, t)
  }

  ghost predicate IsRun(loader: Loader, run: seq<System>) {
    && run != [] && Init(run[0])
    && forall i :: 0 <= i < |run| - 1 ==> CanStep(loader, run[i], run[i + 1])
  }

  lemma {:induction false} RunKeepsInv(loader: Loader, run: seq<System>)
    requires IsRun(loader, run)
    ensures Inv(loader, run[|run| - 1])
  {
    if |run| > 1 {
      hide Inv, Next;
      var before := run[..|run| - 1];
      forall i | 0 <= i < |before| - 1 ensures CanStep(loader, before[i], before[i + 1]) {
        assert CanStep(loader, run[i], run[i + 1]);
      }
      RunKeepsInv(loader, before);
      assert CanStep(loader, run[|run| - 2], run[|run| - 1]);
      var step :| Next(loader, run[|run| - 2], step, run[|run| - 1]);
      StepKeepsInv(loader, run[|run| - 2], step, run[|run| - 1]);
    }
  }

  /** Every load, however the loads and the writers interleave, returns the file's content at some instant between its
      begin and its return, unless a version current in that time has the (mtime, size) of an older one under which
      another content could be cached. */
  lemma EveryLoadIsOfItsOwnTime(loader: Loader, run: seq<System>, c: nat)
    requires IsRun(loader, run) && c in run[|run| - 1].calls && run[|run| - 1].calls[c].Returned?
    ensures
      var s, call := run[|run| - 1], run[|run| - 1].calls[c];
      || TellsOfOne(s.versions, call.outcome, call.start, call.end)
      || HarmfulIn(loader, s.versions, call.start, call.end)
  {
    RunKeepsInv(loader, run);
    assert CallOk(loader, run[|run| - 1].versions, run[|run| - 1].calls[c]);
  }

  /** A load during which the file does not change returns what the file says, unless an older version had its key. */
  lemma UndisturbedLoadIsExact(loader: Loader, run: seq<System>, c: nat)
    requires IsRun(loader, run) && c in run[|run| - 1].calls && run[|run| - 1].calls[c].Returned?
    requires run[|run| - 1].calls[c].start == run[|run| - 1].calls[c].end < |run[|run| - 1].versions|
    ensures
      var s, call := run[|run| - 1], run[|run| - 1].calls[c];
      || Tells(call.outcome, s.versions[call.start])
      || exists j, a :: Harmful(loader, s.versions, j, a, call.start)
  {
    EveryLoadIsOfItsOwnTime(loader, run, c);
    hide IsRun, Harmful;
  }

  /** What a load of a file that never changes returns: its value; nothing, or for the machine file an error, when it is
      missing; an error when it is malformed. */
  function OfStillFile(loader: Loader, v: Version): Outcome {
    match v
    case Absent => (match loader case Machine => Failed case State => Missing case Repo => Missing)
    case Present(_, Good(value)) => Loaded(value)
    case Present(_, Malformed) => Failed
  }

  ghost predicate Still(loader: Loader, s: System, v: Version) {
    && s.versions == [v]
    && (s.entry.Some? ==> s.entry.value == if v.Absent? then NotFound else Entry(v.key, OfStillFile(loader, v), 0))
    && (s.entry.Some? && v.Absent? ==> loader == State)
    && forall c :: c in s.calls ==> StillCall(loader, s.calls[c], v)
  }

  ghost predicate StillCall(loader: Loader, call: Call, v: Version) {
    match call
    case Begun(_) => true
    case Statted(_, key, _) => key == KeyOf(v)
    case Missed(_, key, _) => key == KeyOf(v)
    case Confirmed(_, key, _) => key == KeyOf(v) && v.Present?
    case Decoded(_, key, _, outcome, asOf) => key == KeyOf(v) && outcome == OfStillFile(loader, v) && asOf == 0
    case Returned(_, _, outcome) => outcome == OfStillFile(loader, v)
  }

  lemma StepKeepsStill(loader: Loader, s: System, step: Step, t: System, v: Version)
    requires Still(loader, s, v) && Next(loader, s, step, t) && !step.Change?
    ensures Still(loader, t, v)
  {
    assert step.c in s.calls ==> StillCall(loader, s.calls[step.c], v);
  }

  lemma {:induction false} RunStaysStill(loader: Loader, run: seq<System>, v: Version)
    requires IsRun(loader, run) && run[|run| - 1].versions == [v]
    ensures Still(loader, run[|run| - 1], v)
  {
    if |run| > 1 {
      hide Still, OfStillFile;
      var before, s, t := run[..|run| - 1], run[|run| - 2], run[|run| - 1];
      forall i | 0 <= i < |before| - 1 ensures CanStep(loader, before[i], before[i + 1]) {
        assert CanStep(loader, run[i], run[i + 1]);
      }
      assert CanStep(loader, s, t);
      var step :| Next(loader, s, step, t);
      VersionsOnlyGrow(loader, s, step, t);
      RunHasVersions(loader, before);
      RunStaysStill(loader, before, v);
      StepKeepsStill(loader, s, step, t, v);
    }
  }

  /** Whatever the cache answers and however loads overlap, every load of a file that does not change returns that. */
  lemma StillFileIsReadExactly(loader: Loader, run: seq<System>, v: Version, c: nat)
    requires IsRun(loader, run) && run[|run| - 1].versions == [v]
    requires c in run[|run| - 1].calls && run[|run| - 1].calls[c].Returned?
    ensures run[|run| - 1].calls[c].outcome == OfStillFile(loader, v)
  {
    RunStaysStill(loader, run, v);
    assert StillCall(loader, run[|run| - 1].calls[c], v);
  }

  lemma VersionsOnlyGrow(loader: Loader, s: System, step: Step, t: System)
    requires Next(loader, s, step, t)
    ensures t.versions == if step.Change? then s.versions + [step.v] else s.versions
  {}

  lemma RunHasVersions(loader: Loader, run: seq<System>)
    requires IsRun(loader, run)
    ensures run[|run| - 1].versions != []
  {
    RunKeepsInv(loader, run);
  }

  // ---------------------------------------------------------------- which histories are safe

  /** Some run comes to this state. */
  ghost predicate Reached(loader: Loader, s: System) {
    exists run :: IsRun(loader, run) && run[|run| - 1] == s
  }

  lemma ReachedFirst(loader: Loader, v: Version)
    ensures Reached(loader, System([v], None, map[]))
  {
    var s := System([v], None, map[]);
    assert IsRun(loader, [s]) && [s][0] == s;
  }

  lemma ReachedNext(loader: Loader, s: System, step: Step, t: System)
    requires Reached(loader, s) && Next(loader, s, step, t)
    ensures Reached(loader, t)
  {
    hide Next;
    var run :| IsRun(loader, run) && run[|run| - 1] == s;
    var longer := run + [t];
    forall i | 0 <= i < |longer| - 1 ensures CanStep(loader, longer[i], longer[i + 1]) {
      if i < |run| - 1 { assert CanStep(loader, run[i], run[i + 1]); }
    }
    assert IsRun(loader, longer) && longer[|longer| - 1] == t;
  }

  /** The history up to its `n`th version. */
  function Upto(versions: seq<Version>, n: nat): seq<Version>
    requires n < |versions|
  {
    versions[..n + 1]
  }

  /** Writers alone take the file from its `m`th to its `n`th version. */
  lemma {:induction false} ReachedByWriters(loader: Loader, vs: seq<Version>, m: nat, n: nat, e: Option<Entry>,
                                            calls: map<nat, Call>)
    requires m <= n < |vs| && Reached(loader, System(Upto(vs, m), e, calls))
    ensures Reached(loader, System(Upto(vs, n), e, calls))
  {
    if m < n {
      ReachedByWriters(loader, vs, m, n - 1, e, calls);
      assert Upto(vs, n) == Upto(vs, n - 1) + [vs[n]];
      ReachedNext(loader, System(Upto(vs, n - 1), e, calls), Change(vs[n]), System(Upto(vs, n), e, calls));
    }
  }

  /** A load that stats the file at version `j`, misses, and reads it at version `a`. */
  lemma FirstLoad(loader: Loader, vs: seq<Version>, j: nat, a: nat)
    requires j <= a < |vs| && vs[j].Present? && !OutcomeAt(loader, vs[a]).Failed?
    ensures
      var o := OutcomeAt(loader, vs[a]);
      Reached(loader, System(Upto(vs, a), Some(Entry(vs[j].key, o, a)), map[0 := Returned(j, a, o)]))
  {
    hide Reached;
    var key, o := Some(vs[j].key), OutcomeAt(loader, vs[a]);
    var s := System(Upto(vs, j), None, map[]);
    ReachedFirst(loader, vs[0]);
    assert Upto(vs, 0) == [vs[0]];
    ReachedByWriters(loader, vs, 0, j, None, map[]);
    ReachedNext(loader, s, Begin(0), s.(calls := map[0 := Begun(j)]));
    ReachedNext(loader, s.(calls := map[0 := Begun(j)]), StatKey(0), s.(calls := map[0 := Statted(j, key, j)]));
    var missed := map[0 := Missed(j, key, j)];
    ReachedNext(loader, s.(calls := map[0 := Statted(j, key, j)]), Lookup(0), s.(calls := missed));
    ReachedByWriters(loader, vs, j, a, None, missed);
    FirstRead(loader, vs, j, a);
    var t := System(Upto(vs, a), None, map[0 := Decoded(j, key, j, o, a)]);
    ReachedNext(loader, t, Store(0), System(Upto(vs, a), Some(Entry(vs[j].key, o, a)), map[0 := Returned(j, a, o)]));
  }

  /** The loader's own stat and read, both at version `a`. */
  lemma FirstRead(loader: Loader, vs: seq<Version>, j: nat, a: nat)
    requires j <= a < |vs| && vs[j].Present?
    requires Reached(loader, System(Upto(vs, a), None, map[0 := Missed(j, Some(vs[j].key), j)]))
    ensures
      var calls := map[0 := Decoded(j, Some(vs[j].key), j, OutcomeAt(loader, vs[a]), a)];
      Reached(loader, System(Upto(vs, a), None, calls))
  {
    hide Reached;
    var key, o := Some(vs[j].key), OutcomeAt(loader, vs[a]);
    var s := System(Upto(vs, a), None, map[0 := Missed(j, key, j)]);
    var done := s.(calls := map[0 := Decoded(j, key, j, o, a)]);
    if vs[a].Present? {
      ReachedNext(loader, s, Check(0), s.(calls := map[0 := Confirmed(j, key, j)]));
      ReachedNext(loader, s.(calls := map[0 := Confirmed(j, key, j)]), Decode(0), done);
    } else {
      ReachedNext(loader, s, Check(0), done);
    }
  }

  /** A second load, begun at version `k`, that hits what the first has left. */
  lemma SecondLoad(loader: Loader, vs: seq<Version>, e: Entry, first: Call, k: nat)
    requires k < |vs| && e.Entry? && KeyOf(vs[k]) == Some(e.key)
    requires Reached(loader, System(Upto(vs, k), Some(e), map[0 := first]))
    ensures Reached(loader, System(Upto(vs, k), Some(e), map[0 := first, 1 := Returned(k, k, e.outcome)]))
  {
    hide Reached;
    var s := System(Upto(vs, k), Some(e), map[0 := first]);
    var begun := s.(calls := map[0 := first, 1 := Begun(k)]);
    var statted := s.(calls := map[0 := first, 1 := Statted(k, Some(e.key), k)]);
    ReachedNext(loader, s, Begin(1), begun);
    ReachedNext(loader, begun, StatKey(1), statted);
    ReachedNext(loader, statted, Lookup(1), s.(calls := map[0 := first, 1 := Returned(k, k, e.outcome)]));
  }

  /** Each returned load of each run with this history is of its own time. */
  ghost predicate Safe(loader: Loader, vs: seq<Version>) {
    forall s, c :: Reached(loader, s) && s.versions == vs && c in s.calls && s.calls[c].Returned? ==>
      TellsOfOne(vs, s.calls[c].outcome, s.calls[c].start, s.calls[c].end)
  }

  /** A harmful history has a run with a load that returns content the file no longer had when the load began, although
      the file did not change during it. */
  lemma HarmfulHistoryServesStaleContent(loader: Loader, vs: seq<Version>, j: nat, a: nat, k: nat) returns (s: System)
    requires Harmful(loader, vs, j, a, k)
    ensures Reached(loader, s) && s.versions == vs && 1 in s.calls
    ensures s.calls[1] == Returned(k, k, OutcomeAt(loader, vs[a]))
    ensures !TellsOfOne(vs, OutcomeAt(loader, vs[a]), k, k)
  {
    hide Reached, OutcomeAt;
    var o := OutcomeAt(loader, vs[a]);
    var e, first := Entry(vs[j].key, o, a), Returned(j, a, o);
    var last := |vs| - 1;
    FirstLoad(loader, vs, j, a);
    ReachedByWriters(loader, vs, a, k, Some(e), map[0 := first]);
    SecondLoad(loader, vs, e, first, k);
    var calls := map[0 := first, 1 := Returned(k, k, o)];
    ReachedByWriters(loader, vs, k, last, Some(e), calls);
    assert Upto(vs, last) == vs;
    s := System(vs, Some(e), calls);
  }

  /** Which histories of the file are safe under the cache: exactly those in which no version has the (mtime, size) of
      an earlier one while something else could have been cached under it since. */
  lemma SafeExactly(loader: Loader, vs: seq<Version>)
    ensures Safe(loader, vs) <==> forall j, a, k :: !Harmful(loader, vs, j, a, k)
  {
    hide OutcomeAt, Tells;
    if j, a, k :| Harmful(loader, vs, j, a, k) {
      var s := HarmfulHistoryServesStaleContent(loader, vs, j, a, k);
      assert Reached(loader, s) && s.calls[1].Returned?;
    }
    forall s, c | Reached(loader, s) && s.versions == vs && c in s.calls && s.calls[c].Returned?
      ensures TellsOfOne(vs, s.calls[c].outcome, s.calls[c].start, s.calls[c].end)
           || exists j, a, k :: Harmful(loader, vs, j, a, k)
    {
      var run :| IsRun(loader, run) && run[|run| - 1] == s;
      EveryLoadIsOfItsOwnTime(loader, run, c);
    }
  }

  /** A rewrite that keeps (mtime, size) is enough. */
  lemma ReusedKeyServesStaleContent(loader: Loader, k: Key, a: string, b: string) returns (s: System)
    requires a != b
    ensures Reached(loader, s) && s.versions == [Present(k, Good(a)), Present(k, Good(b))] && 1 in s.calls
    ensures s.calls[1] == Returned(1, 1, Loaded(a)) && !TellsOfOne(s.versions, Loaded(a), 1, 1)
  {
    s := HarmfulHistoryServesStaleContent(loader, [Present(k, Good(a)), Present(k, Good(b))], 0, 0, 1);
  }

  /** The stale content can be that of a version in between, with a key of its own. */
  lemma StaleContentFromInBetween(loader: Loader, k: Key, l: Key, a: string, b: string) returns (s: System)
    requires a != b
    ensures Reached(loader, s) && 1 in s.calls
    ensures s.versions == [Present(k, Good(a)), Present(l, Good(b)), Present(k, Good(a))]
    ensures s.calls[1] == Returned(2, 2, Loaded(b)) && !TellsOfOne(s.versions, Loaded(b), 2, 2)
  {
    var vs := [Present(k, Good(a)), Present(l, Good(b)), Present(k, Good(a))];
    s := HarmfulHistoryServesStaleContent(loader, vs, 0, 1, 2);
  }
}
