/** internal/config/ignore.go: the canonical `.stignore` content. The header and the built-in
    pattern table are parameters, so every result holds for any table. */
module Ignore {
  import opened Dedup

  predicate IsSpace(c: char) {
    c == ' ' || c == '\t' || c == '\n' || c == '\r' || c == 11 as char || c == 12 as char
  }

  function TrimLeft(s: string): (r: string)
    ensures r == "" || !IsSpace(r[0])
    ensures |r| <= |s| && r == s[|s| - |r|..]
  {
    if s != "" && IsSpace(s[0]) then TrimLeft(s[1..]) else s
  }

  function TrimRight(s: string): (r: string)
    ensures r == "" || !IsSpace(r[|r| - 1])
    ensures |r| <= |s| && r == s[..|r|]
  {
    if s != "" && IsSpace(s[|s| - 1]) then TrimRight(s[..|s| - 1]) else s
  }

  /** `strings.TrimSpace` on ASCII text. */
  function TrimSpace(s: string): (r: string)
    ensures r == "" || (!IsSpace(r[0]) && !IsSpace(r[|r| - 1]))
  {
    var t := TrimLeft(s);
    TrimRight(t)
  }

  function TrimAll(ps: seq<string>): (r: seq<string>)
    ensures |r| == |ps| && forall i :: 0 <= i < |ps| ==> r[i] == TrimSpace(ps[i])
  {
    seq(|ps|, i requires 0 <= i < |ps| => TrimSpace(ps[i]))
  }

  function Pattern(p: string): string { p }

  /** The built-in rules, then the repository's own: trimmed, no blanks, no repeats. */
  function MergeSyncIgnorePatterns(builtin: seq<string>, extra: seq<string>): seq<string> {
    Distinct(TrimAll(builtin + extra), Pattern)
  }

  lemma TrimAllOfTrimmed(ps: seq<string>)
    requires forall p :: p in ps ==> TrimSpace(p) == p
    ensures TrimAll(ps) == ps
  {}

  lemma MergedIsTrimmed(builtin: seq<string>, extra: seq<string>)
    ensures forall p :: p in MergeSyncIgnorePatterns(builtin, extra) ==> TrimSpace(p) == p && p != ""
  {}

  lemma TrimAllAppend(a: seq<string>, b: seq<string>)
    ensures TrimAll(a + b) == TrimAll(a) + TrimAll(b)
  {}

  /** A desired state already holds merged patterns and the content is rendered from a second
      merge, so merging must be idempotent for a written file to match the wanted one. */
  lemma MergeIsIdempotent(builtin: seq<string>, extra: seq<string>)
    ensures MergeSyncIgnorePatterns(builtin, MergeSyncIgnorePatterns(builtin, extra))
         == MergeSyncIgnorePatterns(builtin, extra)
  {
    var m := MergeSyncIgnorePatterns(builtin, extra);
    TrimAllAppend(builtin, extra);
    TrimAllAppend(builtin, m);
    assert TrimAll(m) == m by {
      MergedIsTrimmed(builtin, extra);
      TrimAllOfTrimmed(m);
    }
    MergeTwice(TrimAll(builtin), TrimAll(extra), Pattern);
  }

  /** Every built-in rule survives, whatever the repository adds, ahead of the additions. */
  lemma BuiltinRulesComeFirst(builtin: seq<string>, extra: seq<string>)
    ensures MergeSyncIgnorePatterns(builtin, []) <= MergeSyncIgnorePatterns(builtin, extra)
  {
    TrimAllAppend(builtin, extra);
    assert builtin + [] == builtin;
    FreshAppend({}, TrimAll(builtin), TrimAll(extra), Pattern);
  }

  lemma EveryRuleIsKept(builtin: seq<string>, extra: seq<string>, p: string)
    requires p in builtin + extra && TrimSpace(p) != ""
    ensures TrimSpace(p) in MergeSyncIgnorePatterns(builtin, extra)
  {
    hide TrimSpace;
    var all := TrimAll(builtin + extra);
    var i :| 0 <= i < |builtin + extra| && (builtin + extra)[i] == p;
    assert all[i] in all && Pattern(all[i]) == TrimSpace(p);
    FreshCovers({}, all, Pattern, all[i]);
  }

  /** Conversely each merged rule is one of the two lists', trimmed and not blank. */
  lemma RulesExactly(builtin: seq<string>, extra: seq<string>, r: string)
    ensures r in MergeSyncIgnorePatterns(builtin, extra) <==>
            r != "" && exists p :: (p in builtin || p in extra) && TrimSpace(p) == r
  {
    hide TrimSpace;
    var all := builtin + extra;
    if r in MergeSyncIgnorePatterns(builtin, extra) {
      InDistinct(TrimAll(all), Pattern, r);
      var i :| 0 <= i < |all| && TrimAll(all)[i] == r;
      assert all[i] in builtin || all[i] in extra;
    }
    if p :| (p in builtin || p in extra) && TrimSpace(p) == r != "" {
      EveryRuleIsKept(builtin, extra, p);
    }
  }

  function Lines(ps: seq<string>): string {
    if ps == [] then "" else ps[0] + "\n" + Lines(ps[1..])
  }

  lemma {:induction false} LinesAppend(ps: seq<string>, p: string)
    ensures Lines(ps + [p]) == Lines(ps) + p + "\n"
  {
    if ps == [] {
      assert [p][1..] == [];
      assert Lines([p]) == p + "\n" + "";
    } else {
      assert (ps + [p])[1..] == ps[1..] + [p];
      LinesAppend(ps[1..], p);
    }
  }

  datatype IgnoreTable = IgnoreTable(header: string, builtin: seq<string>)

  function SyncIgnoreFileContent(table: IgnoreTable, patterns: seq<string>): string {
    table.header + Lines(MergeSyncIgnorePatterns(table.builtin, patterns))
  }

  lemma ContentOfMerged(table: IgnoreTable, extra: seq<string>)
    ensures SyncIgnoreFileContent(table, MergeSyncIgnorePatterns(table.builtin, extra))
         == SyncIgnoreFileContent(table, extra)
  {
    MergeIsIdempotent(table.builtin, extra);
  }

  /** The file starts with the header; every merged rule is a line of its own after it. */
  lemma EveryRuleIsALine(table: IgnoreTable, patterns: seq<string>, r: string)
    requires r in MergeSyncIgnorePatterns(table.builtin, patterns)
    ensures exists before, after :: SyncIgnoreFileContent(table, patterns) == table.header + (before + r + "\n" + after)
                                    && (before == "" || before[|before| - 1] == '\n')
  {
    hide MergeSyncIgnorePatterns;
    var before, after := LineOf(MergeSyncIgnorePatterns(table.builtin, patterns), r);
  }

  lemma {:induction false} LineOf(ps: seq<string>, r: string) returns (before: string, after: string)
    requires r in ps
    ensures Lines(ps) == before + r + "\n" + after && (before == "" || before[|before| - 1] == '\n')
  {
    if ps[0] == r {
      before, after := "", Lines(ps[1..]);
    } else {
      before, after := LineOf(ps[1..], r);
      assert Lines(ps) == (ps[0] + "\n" + before) + r + "\n" + after;
      before := ps[0] + "\n" + before;
    }
  }

  method MergePatterns(builtin: seq<string>, extra: seq<string>) returns (merged: seq<string>)
    ensures merged == MergeSyncIgnorePatterns(builtin, extra)
  {
    merged := KeepFirst(TrimAll(builtin + extra), Pattern);
  }

  method RenderIgnoreFile(table: IgnoreTable, patterns: seq<string>) returns (b: string)
    ensures b == SyncIgnoreFileContent(table, patterns)
  {
    hide MergeSyncIgnorePatterns;
    var merged := MergePatterns(table.builtin, patterns);
    var body := "";
    for i := 0 to |merged|
      invariant body == Lines(merged[..i])
    {
      LinesAppend(merged[..i], merged[i]);
      assert merged[..i + 1] == merged[..i] + [merged[i]];
      body := body + merged[i] + "\n";
    }
    assert merged[..|merged|] == merged;
    b := table.header + body;
  }
}
