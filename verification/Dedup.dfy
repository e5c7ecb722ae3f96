/** The `seen`-map loop that recurs across the configuration code: keep the first entry of every
    non-blank key, in order. */
module Dedup {

  /** The entries of `s` whose key is neither blank nor in `seen`, first occurrence only. */
  function Fresh<T>(seen: set<string>, s: seq<T>, key: T -> string): (r: seq<T>)
    ensures forall x :: x in r ==> x in s && key(x) != "" && key(x) !in seen
    decreases s
  {
    if s == [] then []
    else if key(s[0]) == "" || key(s[0]) in seen then Fresh(seen, s[1..], key)
    else [s[0]] + Fresh(seen + {key(s[0])}, s[1..], key)
  }

  function Distinct<T>(s: seq<T>, key: T -> string): seq<T> {
    Fresh({}, s, key)
  }

  ghost function KeysOf<T>(s: seq<T>, key: T -> string): set<string> {
    set x | x in s :: key(x)
  }

  ghost predicate NoRepeats<T>(s: seq<T>, key: T -> string) {
    forall i, j :: 0 <= i < j < |s| ==> key(s[i]) != key(s[j])
  }

  /** The result repeats no key. */
  lemma {:induction false} FreshHasNoRepeats<T>(seen: set<string>, s: seq<T>, key: T -> string)
    ensures NoRepeats(Fresh(seen, s, key), key)
    decreases s
  {
    if s != [] {
      var k := key(s[0]);
      if k == "" || k in seen {
        FreshHasNoRepeats(seen, s[1..], key);
      } else {
        FreshHasNoRepeats(seen + {k}, s[1..], key);
        var t := Fresh(seen + {k}, s[1..], key);
        forall j | 0 <= j < |t| ensures key(t[j]) != k {
          assert t[j] in t;
        }
      }
    }
  }

  /** The result covers every non-blank key that is not in `seen`. */
  lemma {:induction false} FreshCovers<T>(seen: set<string>, s: seq<T>, key: T -> string, x: T)
    requires x in s && key(x) != "" && key(x) !in seen
    ensures exists y :: y in Fresh(seen, s, key) && key(y) == key(x)
    decreases s
  {
    var k := key(s[0]);
    if k == "" || k in seen {
      FreshCovers(seen, s[1..], key, x);
    } else if k == key(x) {
      assert s[0] in Fresh(seen, s, key);
    } else {
      FreshCovers(seen + {k}, s[1..], key, x);
      var y :| y in Fresh(seen + {k}, s[1..], key) && key(y) == key(x);
      assert y in Fresh(seen, s, key);
    }
  }

  /** Kept entries stand in the order, and are the first, of their key. */
  lemma {:induction false} FreshKeepsFirst<T>(seen: set<string>, s: seq<T>, key: T -> string, i: nat)
    requires i < |s| && key(s[i]) != "" && key(s[i]) !in seen
    requires forall j :: 0 <= j < i ==> key(s[j]) != key(s[i])
    ensures s[i] in Fresh(seen, s, key)
    decreases s
  {
    if i > 0 {
      var k := key(s[0]);
      if k == "" || k in seen {
        FreshKeepsFirst(seen, s[1..], key, i - 1);
      } else {
        FreshKeepsFirst(seen + {k}, s[1..], key, i - 1);
      }
    }
  }

  /** Exactly the first entry of each non-blank key is kept. */
  lemma InDistinct<T>(s: seq<T>, key: T -> string, x: T)
    ensures x in Distinct(s, key) <==>
            exists i :: 0 <= i < |s| && s[i] == x && key(x) != "" && forall j :: 0 <= j < i ==> key(s[j]) != key(x)
  {
    hide Fresh;
    if x in Distinct(s, key) {
      var i := FirstOfKey(s, key, x);
      FreshKeepsFirst({}, s, key, i);
      FreshHasNoRepeats({}, s, key);
      var r := Fresh({}, s, key);
      var a :| 0 <= a < |r| && r[a] == x;
      var b :| 0 <= b < |r| && r[b] == s[i];
      assert a == b;
    }
    if i :| 0 <= i < |s| && s[i] == x && key(x) != "" && forall j :: 0 <= j < i ==> key(s[j]) != key(x) {
      FreshKeepsFirst({}, s, key, i);
    }
  }

  lemma {:induction false} FirstOfKey<T>(s: seq<T>, key: T -> string, x: T) returns (i: nat)
    requires x in s
    ensures i < |s| && key(s[i]) == key(x) && forall j :: 0 <= j < i ==> key(s[j]) != key(x)
  {
    if key(s[0]) == key(x) {
      i := 0;
    } else {
      i := FirstOfKey(s[1..], key, x);
      i := i + 1;
    }
  }

  lemma {:induction false} FreshAppend<T>(seen: set<string>, a: seq<T>, b: seq<T>, key: T -> string)
    ensures Fresh(seen, a + b, key) == Fresh(seen, a, key) + Fresh(seen + KeysOf(a, key), b, key)
    decreases a
  {
    if a == [] {
      assert a + b == b;
      assert seen + KeysOf(a, key) == seen;
    } else {
      var k := key(a[0]);
      assert (a + b)[1..] == a[1..] + b;
      assert KeysOf(a, key) == {k} + KeysOf(a[1..], key) by {
        assert a == [a[0]] + a[1..];
      }
      if k == "" {
        FreshAppend(seen, a[1..], b, key);
        FreshIgnoresBlank(seen + KeysOf(a[1..], key), b, key);
        assert seen + KeysOf(a, key) == seen + KeysOf(a[1..], key) + {""};
      } else if k in seen {
        FreshAppend(seen, a[1..], b, key);
        assert seen + KeysOf(a, key) == seen + KeysOf(a[1..], key);
      } else {
        FreshAppend(seen + {k}, a[1..], b, key);
        assert seen + {k} + KeysOf(a[1..], key) == seen + KeysOf(a, key);
      }
    }
  }

  lemma {:induction false} FreshIgnoresBlank<T>(seen: set<string>, s: seq<T>, key: T -> string)
    ensures Fresh(seen + {""}, s, key) == Fresh(seen, s, key)
    decreases s
  {
    if s != [] {
      FreshIgnoresBlank(seen, s[1..], key);
      FreshIgnoresBlank(seen + {key(s[0])}, s[1..], key);
      assert seen + {""} + {key(s[0])} == seen + {key(s[0])} + {""};
    }
  }

  lemma {:induction false} FreshOfSeen<T>(seen: set<string>, s: seq<T>, key: T -> string)
    requires forall x :: x in s ==> key(x) in seen || key(x) == ""
    ensures Fresh(seen, s, key) == []
  {
    if s != [] { FreshOfSeen(seen, s[1..], key); }
  }

  /** Running the loop over its own output changes nothing. */
  lemma {:induction false} FreshTwice<T>(seen: set<string>, s: seq<T>, key: T -> string)
    ensures Fresh(seen, Fresh(seen, s, key), key) == Fresh(seen, s, key)
    decreases s
  {
    if s != [] {
      var k := key(s[0]);
      if k == "" || k in seen {
        FreshTwice(seen, s[1..], key);
      } else {
        FreshTwice(seen + {k}, s[1..], key);
        var t := Fresh(seen + {k}, s[1..], key);
        assert ([s[0]] + t)[1..] == t;
      }
    }
  }

  /** Merging a base list with an already merged list is the merged list. */
  lemma MergeTwice<T>(base: seq<T>, extra: seq<T>, key: T -> string)
    ensures Distinct(base + Distinct(base + extra, key), key) == Distinct(base + extra, key)
  {
    hide Fresh;
    var ks := KeysOf(base, key);
    var head, tail := Fresh({}, base, key), Fresh(ks, extra, key);
    assert {} + ks == ks;
    FreshAppend({}, base, extra, key);
    FreshAppend({}, base, head + tail, key);
    FreshAppend(ks, head, tail, key);
    forall x | x in head ensures key(x) in ks {}
    FreshOfSeen(ks, head, key);
    assert ks + KeysOf(head, key) == ks;
    FreshTwice(ks, extra, key);
    assert [] + tail == tail;
  }

  /** The loop itself. */
  method KeepFirst<T>(s: seq<T>, key: T -> string) returns (out: seq<T>)
    ensures out == Distinct(s, key)
  {
    out := [];
    var seen: set<string> := {};
    for i := 0 to |s|
      invariant out + Fresh(seen, s[i..], key) == Distinct(s, key)
    {
      var k := key(s[i]);
      assert s[i..][0] == s[i] && s[i..][1..] == s[i + 1..];
      if k != "" && k !in seen {
        assert out + Fresh(seen, s[i..], key) == out + [s[i]] + Fresh(seen + {k}, s[i + 1..], key);
        seen := seen + {k};
        out := out + [s[i]];
      }
    }
  }
}
