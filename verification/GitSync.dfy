/** The git parts of internal/reconcile/applier.go and internal/gitsync/sync.go: HEAD, index and worktree as maps
    from path to blob, each git command succeeding or failing as a whole. */
module GitSync {

  type Blob = string
  type Tree = map<string, Blob>

  /** Which deleted paths git shows as renames instead, by comparing two trees. */
  type Pairing = (Tree, Tree) -> set<string>

  // ---------------------------------------------------------------- what the commands do

  /** What `git add -A` makes of the index: every file in the worktree that is tracked or not ignored. */
  function Visible(index: Tree, work: Tree, ignored: set<string>): Tree {
    map p | p in work && (p in index || p !in ignored) :: work[p]
  }

  /** `git diff --cached --diff-filter=D`: staged deletions, without those shown as renames. */
  function StagedDeletions(head: Tree, index: Tree, pairing: Pairing): set<string> {
    head.Keys - index.Keys - pairing(head, index)
  }

  /** `git reset HEAD -- paths`. */
  function Unstaged(head: Tree, index: Tree, paths: set<string>): Tree {
    (index - paths) + map p | p in head && p in paths :: head[p]
  }

  function SetOf(s: seq<string>): set<string> {
    set x | x in s
  }

  lemma SetOfOneMore(s: seq<string>, x: string)
    ensures SetOf(s + [x]) == SetOf(s) + {x}
  {}

  // ---------------------------------------------------------------- what the safeguard promises

  /** Deletions `git add -A` would add to those staged before. */
  function Unintended(head: Tree, index: Tree, work: Tree, ignored: set<string>, pairing: Pairing): set<string> {
    StagedDeletions(head, Visible(index, work, ignored), pairing) - StagedDeletions(head, index, pairing)
  }

  /** `index` with the old blobs of the given paths. */
  function Restored(head: Tree, index: Tree, paths: set<string>): Tree {
    index + map p | p in head && p in paths :: head[p]
  }

  /** The tree to be committed: the worktree, plus the old blob of every path that vanished from it unasked. */
  function Safeguarded(head: Tree, index: Tree, work: Tree, ignored: set<string>, pairing: Pairing): Tree {
    Restored(head, Visible(index, work, ignored), Unintended(head, index, work, ignored, pairing))
  }

  function NoRenames(a: Tree, b: Tree): set<string> {
    {}
  }

  /** Without rename detection: a path is in the tree exactly when the worktree shows it, with that content, or when it
      was committed and not staged for deletion beforehand, with its old content. */
  lemma SafeguardedExactly(head: Tree, index: Tree, work: Tree, ignored: set<string>, p: string)
    ensures
      var tree, visible := Safeguarded(head, index, work, ignored, NoRenames), Visible(index, work, ignored);
      && (p in tree <==> p in visible || (p in head && p in index))
      && (p in visible ==> tree[p] == work[p])
      && (p !in visible && p in head && p in index ==> tree[p] == head[p])
  {}

  /** Committing again at once changes nothing. */
  lemma SafeguardedAgain(head: Tree, index: Tree, work: Tree, ignored: set<string>)
    ensures
      var tree := Safeguarded(head, index, work, ignored, NoRenames);
      Safeguarded(tree, tree, work, ignored, NoRenames) == tree
  {}

  /** Which commands succeed. */
  datatype Outcomes = Outcomes(firstDiff: bool, add: bool, quiet: bool, secondDiff: bool, reset: bool, quietAgain: bool,
                               commit: bool)

  predicate AllWork(o: Outcomes) {
    o.firstDiff && o.add && o.quiet && o.secondDiff && o.reset && o.quietAgain && o.commit
  }

  /** The tree either implementation commits, given which diffs and resets worked. */
  function Committed(head: Tree, index: Tree, work: Tree, ignored: set<string>, pairing: Pairing, o: Outcomes): Tree {
    var before := if o.firstDiff then StagedDeletions(head, index, pairing) else {};
    var staged := Visible(index, work, ignored);
    var undo := if o.secondDiff then StagedDeletions(head, staged, pairing) - before else {};
    if o.reset then Unstaged(head, staged, undo) else staged
  }

  lemma AllWorkingIsSafeguarded(head: Tree, index: Tree, work: Tree, ignored: set<string>, pairing: Pairing,
                                o: Outcomes)
    requires AllWork(o)
    ensures Committed(head, index, work, ignored, pairing, o) == Safeguarded(head, index, work, ignored, pairing)
  {}

  /** What both implementations rely on: with nothing to undo the reset changes nothing, and an index equal to HEAD
      has nothing to undo. */
  lemma SafeguardFacts(head: Tree, index: Tree, work: Tree, ignored: set<string>, pairing: Pairing, o: Outcomes)
    ensures Unstaged(head, Visible(index, work, ignored), {}) == Visible(index, work, ignored)
    ensures Visible(index, work, ignored) == head ==> Committed(head, index, work, ignored, pairing, o) == head
    ensures AllWork(o) ==>
              Committed(head, index, work, ignored, pairing, o) == Safeguarded(head, index, work, ignored, pairing)
  {
    if AllWork(o) { AllWorkingIsSafeguarded(head, index, work, ignored, pairing, o); }
  }

  /** What becomes of one path. Shown by the worktree, it is committed as it stands. Vanished although nobody staged
      its deletion, it is lost exactly when the second listing or the reset failed or git takes it for renamed: the
      safeguard fails open there. Staged for deletion, it comes back exactly when the first listing failed, or took it
      for renamed, and the second does not. */
  lemma CommittedExactly(head: Tree, index: Tree, work: Tree, ignored: set<string>, pairing: Pairing, o: Outcomes,
                         p: string)
    ensures
      var after, visible := Committed(head, index, work, ignored, pairing, o), Visible(index, work, ignored);
      if p in work && (p in index || p !in ignored) then p in after && after[p] == work[p]
      else if p !in head then p !in after
      else
        && (p in after ==> after[p] == head[p])
        && (p in index ==> (p !in after <==> !o.secondDiff || !o.reset || p in pairing(head, visible)))
        && (p !in index ==>
              (p in after <==> o.secondDiff && o.reset && p !in pairing(head, visible)
                               && (!o.firstDiff || p in pairing(head, index))))
  {}

  /** The commit is the safeguarded tree exactly when, both commands of the safeguard having worked, the first listing
      worked too or names nothing the second does; or, one of them having failed, there was nothing to undo. */
  lemma FailuresAreHarmlessExactly(head: Tree, index: Tree, work: Tree, ignored: set<string>, pairing: Pairing,
                                   o: Outcomes)
    ensures
      var staged := Visible(index, work, ignored);
      Committed(head, index, work, ignored, pairing, o) == Safeguarded(head, index, work, ignored, pairing)
      <==> if o.secondDiff && o.reset
           then o.firstDiff || StagedDeletions(head, staged, pairing) !! StagedDeletions(head, index, pairing)
           else Unintended(head, index, work, ignored, pairing) == {}
  {}

  /** One file, removed from the worktree only, is deleted by the commit when the reset fails; removed with `git rm`, it
      comes back when the first listing fails. */
  lemma FailuresDoHarm(p: string, x: Blob, o: Outcomes)
    requires AllWork(o)
    ensures
      var head, none: Tree := map[p := x], map[];
      && Safeguarded(head, head, none, {}, NoRenames) == head
      && Committed(head, head, none, {}, NoRenames, o.(reset := false)) == none
      && Safeguarded(head, none, none, {}, NoRenames) == none
      && Committed(head, none, none, {}, NoRenames, o.(firstDiff := false)) == head
  {
    var head: Tree := map[p := x];
    assert Visible(head, map[], {}) == map[] && Visible(map[], map[], {}) == map[];
  }

  // ---------------------------------------------------------------- rename detection

  lemma RestoredExactly(head: Tree, index: Tree, x: set<string>, y: set<string>)
    requires x <= head.Keys - index.Keys && y <= head.Keys - index.Keys
    ensures Restored(head, index, x) == Restored(head, index, y) <==> x == y
  {
    assert Restored(head, index, x).Keys == index.Keys + x;
    assert Restored(head, index, y).Keys == index.Keys + y;
  }

  /** Git's rename detection, whatever it pairs, leaves the safeguard alone exactly when no path that vanished unasked
      is taken for renamed afterwards, and no path staged for deletion is taken for renamed before but not
      afterwards. */
  lemma RenamesAreHarmlessExactly(head: Tree, index: Tree, work: Tree, ignored: set<string>, pairing: Pairing)
    ensures
      var visible := Visible(index, work, ignored);
      Safeguarded(head, index, work, ignored, pairing) == Safeguarded(head, index, work, ignored, NoRenames)
      <==> forall p :: p in head && p !in visible ==>
             && (p in index ==> p !in pairing(head, visible))
             && (p !in index && p in pairing(head, index) ==> p in pairing(head, visible))
  {
    var visible := Visible(index, work, ignored);
    var x, y := Unintended(head, index, work, ignored, pairing), Unintended(head, index, work, ignored, NoRenames);
    RestoredExactly(head, visible, x, y);
    forall p ensures p in x <==> p in head && p !in visible && p !in pairing(head, visible)
                                 && (p in index || p in pairing(head, index)) {}
    forall p ensures p in y <==> p in head && p !in visible && p in index {}
  }

  /** Renames of unchanged content: a deleted path whose blob turns up at an added one. */
  function ExactRenames(a: Tree, b: Tree): set<string> {
    set p | p in a && p !in b && exists q :: q in b && q !in a && b[q] == a[p]
  }

  /** A plain `mv a b` deletes `a` in the commit although nobody staged that: git shows it as a rename. */
  lemma PlainMoveDeletes(a: string, b: string, x: Blob)
    requires a != b
    ensures
      var head, work: Tree := map[a := x], map[b := x];
      Safeguarded(head, head, work, {}, ExactRenames) == work
  {
    var head: Tree, work: Tree := map[a := x], map[b := x];
    assert Visible(head, work, {}) == work;
    assert b in work && b !in head && work[b] == head[a];
    assert a in ExactRenames(head, work);
  }

  /** `git mv a b`, then an edit of `b`: the staged move was listed as a rename, so `a` comes back. */
  lemma MovedThenEditedComesBack(a: string, b: string, x: Blob, y: Blob)
    requires a != b && x != y
    ensures
      var head, index, work: Tree := map[a := x], map[b := x], map[b := y];
      Safeguarded(head, index, work, {}, ExactRenames) == map[a := x, b := y]
  {
    var head: Tree, index: Tree, work: Tree := map[a := x], map[b := x], map[b := y];
    assert Visible(index, work, {}) == work;
    assert b in index && b !in head && index[b] == head[a];
    assert a in ExactRenames(head, index);
    assert a !in ExactRenames(head, work);
  }

  // ---------------------------------------------------------------- Syncthing delivery

  /** `git diff --quiet upstream --` and `git diff --cached --quiet upstream --`. */
  predicate MatchesUpstream(index: Tree, work: Tree, upstream: Tree) {
    && index == upstream
    && forall p :: p in index ==> p in work && work[p] == upstream[p]
  }

  /** `git reset --hard upstream`: tracked files upstream lacks are removed, the rest are written. */
  function HardReset(index: Tree, work: Tree, upstream: Tree): Tree {
    (work - (index.Keys - upstream.Keys)) + upstream
  }

  predicate SameAsUpstream(work: Tree, upstream: Tree, p: string) {
    p in work && p in upstream && work[p] == upstream[p]
  }

  /** `git ls-files --others --exclude-standard`. */
  function Untracked(index: Tree, work: Tree, ignored: set<string>): set<string> {
    work.Keys - index.Keys - ignored
  }

  /** `git diff --name-only`. */
  function Modified(index: Tree, work: Tree): set<string> {
    set p | p in index && (p !in work || work[p] != index[p])
  }

  /** Untracked files with upstream's content. */
  function Redundant(index: Tree, work: Tree, ignored: set<string>, upstream: Tree): set<string> {
    set p | p in Untracked(index, work, ignored) && SameAsUpstream(work, upstream, p)
  }

  /** Modified files with upstream's content. */
  function Delivered(index: Tree, work: Tree, upstream: Tree): set<string> {
    set p | p in Modified(index, work) && SameAsUpstream(work, upstream, p)
  }

  /** `git checkout upstream -- path` for each path. */
  function Restaged(index: Tree, upstream: Tree, paths: set<string>): Tree {
    index + map p | p in paths && p in upstream :: upstream[p]
  }

  lemma RestagedOneMore(index: Tree, upstream: Tree, paths: set<string>, p: string)
    requires p in upstream
    ensures Restaged(index, upstream, paths + {p}) == Restaged(index, upstream, paths)[p := upstream[p]]
  {}

  lemma NothingRestaged(index: Tree, upstream: Tree)
    ensures Restaged(index, upstream, {}) == index
  {}

  lemma NothingBehind(upstreamCommits: set<string>, commits: set<string>)
    ensures |upstreamCommits - commits| == 0 <==> upstreamCommits <= commits
  {
    if upstreamCommits - commits == {} {
      forall c | c in upstreamCommits ensures c in commits {
        assert c !in upstreamCommits - commits;
      }
    }
  }

  lemma HardResetKeepsFiles(index: Tree, work: Tree, upstream: Tree)
    requires MatchesUpstream(index, work, upstream)
    ensures HardReset(index, work, upstream) == work
  {}

  /** Removing redundant files leaves the delivered ones, which are tracked; and once what is not stuck is removed and
      restaged, a second run would find nothing but what is stuck. */
  lemma DeliveryFacts(index: Tree, work: Tree, ignored: set<string>, upstream: Tree, stuck: set<string>)
    ensures
      var work' := work - (Redundant(index, work, ignored, upstream) - stuck);
      var index' := Restaged(index, upstream, Delivered(index, work', upstream) - stuck);
      && Delivered(index, work', upstream) == Delivered(index, work, upstream)
      && Redundant(index', work', ignored, upstream) <= stuck && Delivered(index', work', upstream) <= stuck
      && (forall p :: p in work' ==> p in work && work'[p] == work[p])
      && (forall p :: p in work && p !in work' ==> SameAsUpstream(work, upstream, p))
      && (work' != work ==> Redundant(index, work, ignored, upstream) - stuck != {})
  {}

  /** By the files' own contents: what counts as delivered whole, and otherwise which untracked files go and which
      tracked ones are restaged. */
  lemma DeliveryByFields(index: Tree, work: Tree, ignored: set<string>, upstream: Tree, stuck: set<string>, p: string)
    ensures MatchesUpstream(index, work, upstream) <==>
            index == upstream && forall q :: q in upstream ==> q in work && work[q] == upstream[q]
    ensures
      var work' := work - (Redundant(index, work, ignored, upstream) - stuck);
      p in work && p !in work' <==>
        && p in work && p !in index && p !in ignored && p !in stuck && p in upstream && work[p] == upstream[p]
    ensures
      var index' := Restaged(index, upstream, Delivered(index, work, upstream) - stuck);
      && index'.Keys == index.Keys
      && (p in index ==>
            index'[p] == if p in work && p in upstream && work[p] == upstream[p] && p !in stuck then work[p]
                         else index[p])
  {}

  datatype Delivery = Nothing | Advanced | Resolved(files: nat)

  /** A repository as git sees it; `commits` are the ones reachable from HEAD. */
  class Repo {
    var head: Tree
    var commits: set<string>
    var index: Tree
    var work: Tree
    const ignored: set<string>
    const pairing: Pairing

    constructor (head: Tree, commits: set<string>, index: Tree, work: Tree, ignored: set<string>, pairing: Pairing)
      ensures this.head == head && this.commits == commits && this.index == index && this.work == work
      ensures this.ignored == ignored && this.pairing == pairing
    {
      this.head, this.commits, this.index, this.work := head, commits, index, work;
      this.ignored, this.pairing := ignored, pairing;
    }

    /** The lines of a listing, in some order. */
    method Lines(paths: set<string>) returns (lines: seq<string>)
      ensures SetOf(lines) == paths && forall i, j :: 0 <= i < j < |lines| ==> lines[i] != lines[j]
    {
      lines := [];
      var rest := paths;
      while rest != {}
        invariant rest <= paths && SetOf(lines) == paths - rest
        invariant forall i, j :: 0 <= i < j < |lines| ==> lines[i] != lines[j]
      {
        var p :| p in rest;
        SetOfOneMore(lines, p);
        assert p !in SetOf(lines);
        lines, rest := lines + [p], rest - {p};
      }
    }

    /** stagedDeletions: a failing diff lists nothing. */
    method ListStagedDeletions(works: bool) returns (lines: seq<string>)
      ensures SetOf(lines) == if works then StagedDeletions(head, index, pairing) else {}
    {
      if !works {
        return [];
      }
      lines := Lines(StagedDeletions(head, index, pairing));
    }

    /** The deletions listed now that were not listed before. */
    method NewDeletions(before: seq<string>, works: bool) returns (unintended: set<string>)
      ensures unintended == (if works then StagedDeletions(head, index, pairing) else {}) - SetOf(before)
    {
      var lines := ListStagedDeletions(works);
      unintended := {};
      for i := 0 to |lines|
        invariant unintended == SetOf(lines[..i]) - SetOf(before)
      {
        assert lines[..i + 1] == lines[..i] + [lines[i]];
        SetOfOneMore(lines[..i], lines[i]);
        if lines[i] !in before {
          unintended := unintended + {lines[i]};
        }
      }
      assert lines[..|lines|] == lines;
    }

    /** applyGitCommitDirty. */
    method ApplyGitCommitDirty(o: Outcomes, id: string) returns (ok: bool)
      modifies this`head, this`index, this`commits
      ensures commits == old(commits) + if head != old(head) then {id} else {}
      ensures ok ==> head == old(Committed(head, index, work, ignored, pairing, o))
      ensures !ok ==> head == old(head)
      ensures AllWork(o) ==> ok && head == old(Safeguarded(head, index, work, ignored, pairing))
    {
      SafeguardFacts(head, index, work, ignored, pairing, o);
      hide StagedDeletions, Visible, Unstaged, Safeguarded;
      var before := ListStagedDeletions(o.firstDiff);
      if !o.add {
        return false;
      }
      index := Visible(index, work, ignored);
      if o.quiet && index == head {
        return true;
      }
      var unintended := NewDeletions(before, o.secondDiff);
      if unintended != {} {
        if o.reset {
          index := Unstaged(head, index, unintended);
        }
        if o.quietAgain && index == head {
          return true;
        }
      }
      ok := Commit(o.commit, id);
    }

    /** The staging and commit part of SyncRepo. */
    method SyncRepo(o: Outcomes, id: string) returns (ok: bool)
      modifies this`head, this`index, this`commits
      ensures commits == old(commits) + if head != old(head) then {id} else {}
      ensures ok ==> head == old(Committed(head, index, work, ignored, pairing, o))
      ensures !ok ==> head == old(head)
      ensures AllWork(o) ==> ok && head == old(Safeguarded(head, index, work, ignored, pairing))
    {
      SafeguardFacts(head, index, work, ignored, pairing, o);
      hide StagedDeletions, Visible, Unstaged, Safeguarded;
      var before := ListStagedDeletions(o.firstDiff);
      if !o.add {
        return false;
      }
      index := Visible(index, work, ignored);
      var unintended := NewDeletions(before, o.secondDiff);
      if unintended != {} && o.reset {
        index := Unstaged(head, index, unintended);
      }
      ok := true;
      if !(o.quiet && index == head) {
        ok := Commit(o.commit, id);
      }
    }

    /** `git commit` refuses an index without changes. */
    method Commit(works: bool, id: string) returns (ok: bool)
      modifies this`head, this`commits
      ensures ok <==> works && index != old(head)
      ensures head == if ok then index else old(head)
      ensures commits == old(commits) + if ok then {id} else {}
    {
      ok := works && index != head;
      if ok {
        head, commits := index, commits + {id};
      }
    }

    /** reconcileSyncthingDelivery: no file content is lost. The fast path leaves the worktree as it was; the slow path
        removes only untracked files, and restages only files, that already have upstream's content. `stuck` are the
        paths on which a removal or checkout fails. Commits are another matter: the fast path takes upstream's history
        as it is, so it drops commits exactly when it runs on a branch that has some upstream lacks. */
    method ReconcileDelivery(upstream: Tree, upstreamCommits: set<string>, countWorks: bool, resetWorks: bool,
                             stuck: set<string>) returns (r: Delivery)
      modifies this
      ensures r.Advanced? <==> old(MatchesUpstream(index, work, upstream)) && countWorks && resetWorks
                               && !(upstreamCommits <= old(commits))
      ensures commits == if r.Advanced? then upstreamCommits else old(commits)
      ensures !(old(commits) <= commits) <==> r.Advanced? && !(old(commits) <= upstreamCommits)
      ensures forall p :: p in work ==> p in old(work) && work[p] == old(work)[p]
      ensures forall p :: p in old(work) && p !in work ==> SameAsUpstream(old(work), upstream, p) && r.Resolved?
      ensures old(MatchesUpstream(index, work, upstream)) ==>
        && (r.Advanced? || r.Nothing?) && work == old(work) && index == old(index)
        && head == if r.Advanced? then upstream else old(head)
      ensures old(!MatchesUpstream(index, work, upstream)) ==>
        && head == old(head)
        && work == old(work - (Redundant(index, work, ignored, upstream) - stuck))
        && index == old(Restaged(index, upstream, Delivered(index, work, upstream) - stuck))
        && Redundant(index, work, ignored, upstream) <= stuck && Delivered(index, work, upstream) <= stuck
    {
      if MatchesUpstream(index, work, upstream) {
        HardResetKeepsFiles(index, work, upstream);
        assert index == upstream;
        var behind := if countWorks then |upstreamCommits - commits| else 0;
        NothingBehind(upstreamCommits, commits);
        if behind > 0 && resetWorks {
          head, work, index := upstream, HardReset(index, work, upstream), upstream;
          commits := upstreamCommits;
          return Advanced;
        }
        return Nothing;
      }
      hide MatchesUpstream, Redundant, Delivered, Restaged, SameAsUpstream;
      DeliveryFacts(index, work, ignored, upstream, stuck);
      var removed := RemoveRedundant(upstream, stuck);
      var restaged := Restage(upstream, stuck);
      r := if removed + restaged > 0 then Resolved(removed + restaged) else Nothing;
    }

    method RemoveRedundant(upstream: Tree, stuck: set<string>) returns (resolved: nat)
      modifies this`work
      ensures work == old(work - (Redundant(index, work, ignored, upstream) - stuck))
      ensures resolved == old(|Redundant(index, work, ignored, upstream) - stuck|)
    {
      hide Untracked, SameAsUpstream, Chosen, Redundant;
      ghost var work0 := work;
      var untracked := Lines(Untracked(index, work, ignored));
      RedundantChosen(untracked, index, work, ignored, upstream, stuck);
      ghost var gone: set<string> := {};
      resolved := 0;
      for i := 0 to |untracked|
        invariant gone == Chosen(untracked[..i], work0, upstream, stuck)
        invariant work == work0 - gone && resolved == |gone|
      {
        var p := untracked[i];
        assert untracked[..i + 1] == untracked[..i] + [p];
        assert p !in untracked[..i];
        ChosenOneMore(untracked[..i], p, work0, upstream, stuck);
        SameUntilRemoved(work0, gone, upstream, p);
        if SameAsUpstream(work, upstream, p) && p !in stuck {
          RemovedOneMore(work0, gone, p);
          work, gone, resolved := work - {p}, gone + {p}, resolved + 1;
        }
      }
      assert untracked[..|untracked|] == untracked;
    }

    method Restage(upstream: Tree, stuck: set<string>) returns (resolved: nat)
      modifies this`work, this`index
      ensures work == old(work)
      ensures index == old(Restaged(index, upstream, Delivered(index, work, upstream) - stuck))
      ensures resolved == old(|Delivered(index, work, upstream) - stuck|)
    {
      hide Restaged;
      var modified := Lines(Modified(index, work));
      NothingRestaged(index, upstream);
      ghost var done: set<string> := {};
      resolved := 0;
      for i := 0 to |modified|
        invariant done == Chosen(modified[..i], work, upstream, stuck)
        invariant work == old(work) && index == Restaged(old(index), upstream, done) && resolved == |done|
      {
        var p := modified[i];
        ChosenOneMore(modified[..i], p, work, upstream, stuck);
        assert modified[..i + 1] == modified[..i] + [p];
        if SameAsUpstream(work, upstream, p) && p !in stuck {
          RestagedOneMore(old(index), upstream, done, p);
          assert work[p := upstream[p]] == work;
          index, work := index[p := upstream[p]], work[p := upstream[p]];
          done, resolved := done + {p}, resolved + 1;
        }
      }
      assert modified[..|modified|] == modified;
      assert done == old(Delivered(index, work, upstream) - stuck) by {
        ChosenOf(modified, old(Modified(index, work)), work, upstream, stuck);
      }
    }
  }

  /** The lines of a listing that are acted on. */
  ghost function Chosen(lines: seq<string>, work: Tree, upstream: Tree, stuck: set<string>): set<string> {
    set p | p in lines && SameAsUpstream(work, upstream, p) && p !in stuck
  }

  lemma ChosenOneMore(lines: seq<string>, p: string, work: Tree, upstream: Tree, stuck: set<string>)
    ensures Chosen(lines + [p], work, upstream, stuck) ==
            Chosen(lines, work, upstream, stuck) + if SameAsUpstream(work, upstream, p) && p !in stuck then {p} else {}
    ensures p !in lines ==> p !in Chosen(lines, work, upstream, stuck)
  {
    forall y ensures y in lines + [p] <==> y in lines || y == p {}
  }

  lemma RedundantChosen(lines: seq<string>, index: Tree, work: Tree, ignored: set<string>, upstream: Tree,
                        stuck: set<string>)
    requires SetOf(lines) == Untracked(index, work, ignored)
    ensures Chosen(lines, work, upstream, stuck) == Redundant(index, work, ignored, upstream) - stuck
    ensures Chosen([], work, upstream, stuck) == {}
  {
    ChosenOf(lines, Untracked(index, work, ignored), work, upstream, stuck);
  }

  lemma RemovedOneMore(work: Tree, gone: set<string>, p: string)
    ensures (work - gone) - {p} == work - (gone + {p})
  {}

  lemma SameUntilRemoved(work: Tree, gone: set<string>, upstream: Tree, p: string)
    requires p !in gone
    ensures SameAsUpstream(work - gone, upstream, p) <==> SameAsUpstream(work, upstream, p)
  {}

  lemma ChosenOf(lines: seq<string>, listed: set<string>, work: Tree, upstream: Tree, stuck: set<string>)
    requires SetOf(lines) == listed
    ensures Chosen(lines, work, upstream, stuck) == (set p | p in listed && SameAsUpstream(work, upstream, p)) - stuck
  {}

  /** Two branches with the same files: the delivery of theirs drops the commit that only this one has. */
  method DeliveryDropsACommit(files: Tree) returns (repo: Repo, r: Delivery)
    ensures fresh(repo) && r == Advanced
    ensures repo.commits == {"base", "theirs"} && repo.head == files && repo.work == files
  {
    repo := new Repo(files, {"base", "mine"}, files, files, {}, NoRenames);
    assert "theirs" !in repo.commits && "theirs" in {"base", "theirs"};
    r := repo.ReconcileDelivery(files, {"base", "theirs"}, true, true, {});
  }
}
