/** Strings cut at slashes and suffixes, and filepath's Base and Join. */
module Paths {
  import opened Base

  predicate EndsWith(s: string, suffix: string) {
    |s| >= |suffix| && s[|s| - |suffix|..] == suffix
  }

  function TrimSuffix(s: string, suffix: string): string {
    if EndsWith(s, suffix) then s[..|s| - |suffix|] else s
  }

  function SplitSlash(s: string): (r: seq<string>)
    ensures |r| > 0 && forall c :: c in r ==> '/' !in c
    decreases s
  {
    var i := IndexOf(s, '/');
    if i == |s| then [s] else [s[..i]] + SplitSlash(s[i + 1..])
  }

  function IndexOf(s: string, c: char): (i: nat)
    ensures i <= |s| && c !in s[..i]
    ensures i < |s| ==> s[i] == c
  {
    if s == "" || s[0] == c then 0 else 1 + IndexOf(s[1..], c)
  }

  /** `filepath.Join` of an absolute cleaned path with one more element. */
  function JoinParts(root: Path, parts: seq<string>): Path
    decreases parts
  {
    if parts == [] then root
    else if parts[0] == "" || parts[0] == "." then JoinParts(root, parts[1..])
    else if parts[0] == ".." then JoinParts(if root == [] then [] else root[..|root| - 1], parts[1..])
    else JoinParts(root + [parts[0]], parts[1..])
  }

  function Join(root: Path, name: string): Path {
    JoinParts(root, SplitSlash(name))
  }

  function DropSlashes(path: string): string {
    if path != "" && path[|path| - 1] == '/' then DropSlashes(path[..|path| - 1]) else path
  }

  function AfterLastSlash(path: string): string {
    if path == "" || path[|path| - 1] == '/' then ""
    else AfterLastSlash(path[..|path| - 1]) + [path[|path| - 1]]
  }

  /** `filepath.Base`. */
  function BaseName(path: string): string {
    if path == "" then "."
    else if DropSlashes(path) == "" then "/"
    else AfterLastSlash(DropSlashes(path))
  }

  lemma {:induction false} TailAfterSlash(dir: string, file: string)
    requires '/' !in file
    ensures AfterLastSlash(dir + "/" + file) == file
  {
    var path := dir + "/" + file;
    if file == "" {
      assert path[|path| - 1] == '/';
    } else {
      var short := file[..|file| - 1];
      assert path[..|path| - 1] == dir + "/" + short;
      assert path[|path| - 1] == file[|file| - 1];
      TailAfterSlash(dir, short);
      assert file == short + [file[|file| - 1]];
    }
  }

  lemma {:induction false} AfterNoSlash(name: string)
    requires '/' !in name
    ensures AfterLastSlash(name) == name
  {
    if name != "" {
      AfterNoSlash(name[..|name| - 1]);
      assert name[|name| - 1] in name && name == name[..|name| - 1] + [name[|name| - 1]];
    }
  }

  lemma BaseOfName(name: string)
    requires name != "" && '/' !in name
    ensures BaseName(name) == name
  {
    assert name[|name| - 1] in name;
    AfterNoSlash(name);
  }

  /** A path as written. */
  function PathText(p: Path): string {
    if p == [] then "" else PathText(p[..|p| - 1]) + "/" + p[|p| - 1]
  }

  lemma BaseOfJoined(dir: string, file: string)
    requires file != "" && '/' !in file
    ensures BaseName(dir + "/" + file) == file
  {
    var path := dir + "/" + file;
    assert path[|path| - 1] == file[|file| - 1] && file[|file| - 1] in file;
    TailAfterSlash(dir, file);
  }

  /** A name without slashes is one element. */
  lemma JoinOfName(root: Path, name: string)
    requires '/' !in name
    ensures Join(root, name) ==
            if name == "" || name == "." then root
            else if name == ".." then (if root == [] then [] else root[..|root| - 1])
            else root + [name]
  {
    assert SplitSlash(name) == [name];
    assert JoinParts(root, [name]) == if name == "" || name == "." then root
            else if name == ".." then (if root == [] then [] else root[..|root| - 1])
            else root + [name];
  }
}
