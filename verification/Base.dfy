/** Values shared by every module: optional values, outcomes, lexicographic order and sorting. */
module Base {

  datatype Option<+T> = None | Some(value: T)

  /** The outcome of an operation that can return an error. */
  datatype Result<+T> = Ok(value: T) | Err

  /** A cleaned absolute path as its components; the empty list stands for a blank path. */
  type Path = seq<string>

  const SECOND: int := 1_000_000_000
  const MINUTE: int := 60 * SECOND
  const HOUR: int := 60 * MINUTE
  const DAY: int := 24 * HOUR

  /** Go's `<` on strings. */
  predicate LexLess(a: string, b: string) {
    if b == "" then false
    else if a == "" then true
    else if a[0] != b[0] then a[0] < b[0]
    else LexLess(a[1..], b[1..])
  }

  lemma {:induction false} LexTotal(a: string, b: string)
    ensures a == b || LexLess(a, b) || LexLess(b, a)
    ensures !(LexLess(a, b) && LexLess(b, a))
    ensures a == b ==> !LexLess(a, b)
  {
    if a != "" && b != "" && a[0] == b[0] {
      LexTotal(a[1..], b[1..]);
      assert a == [a[0]] + a[1..] && b == [b[0]] + b[1..];
    }
  }

  lemma {:induction false} LexTransitive(a: string, b: string, c: string)
    requires !LexLess(b, a) && !LexLess(c, b)
    ensures !LexLess(c, a)
  {
    if a != "" && b != "" && c != "" && a[0] == b[0] == c[0] {
      LexTransitive(a[1..], b[1..], c[1..]);
    }
  }

  /** What `sort.Slice` leaves behind: no element strictly before an earlier one. */
  ghost predicate SortedBy<T>(s: seq<T>, key: T -> string) {
    forall i, j :: 0 <= i < j < |s| ==> !LexLess(key(s[j]), key(s[i]))
  }

  ghost predicate SameElements<T>(a: seq<T>, b: seq<T>) {
    multiset(a) == multiset(b)
  }

  lemma SameElementsMembers<T>(a: seq<T>, b: seq<T>, x: T)
    requires SameElements(a, b)
    ensures x in a <==> x in b
  {
    assert x in a <==> x in multiset(a);
    assert x in b <==> x in multiset(b);
  }

  lemma MultisetTail<T>(s: seq<T>)
    requires s != []
    ensures multiset(s) == multiset{s[0]} + multiset(s[1..])
    ensures multiset(s[1..]) == multiset(s) - multiset{s[0]}
  {
    assert s == [s[0]] + s[1..];
  }

  lemma HeadIsLeast<T>(s: seq<T>, key: T -> string, x: T)
    requires SortedBy(s, key) && x in s
    ensures !LexLess(key(x), key(s[0]))
  {
    LexTotal(key(x), key(x));
    var i :| 0 <= i < |s| && s[i] == x;
  }

  /** Sorting has one answer once equal keys mean equal elements, so a sorted plan does not
      depend on the order in which a Go map was walked. */
  lemma {:induction false} SortedUnique<T>(a: seq<T>, b: seq<T>, key: T -> string)
    requires SortedBy(a, key) && SortedBy(b, key) && SameElements(a, b)
    requires forall x, y :: x in a && y in a && key(x) == key(y) ==> x == y
    ensures a == b
    decreases |a|, 1
  {
    assert |a| == |multiset(a)| == |multiset(b)| == |b|;
    if a != [] {
      SameElementsMembers(a, b, a[0]);
      SameElementsMembers(a, b, b[0]);
      HeadIsLeast(a, key, b[0]);
      HeadIsLeast(b, key, a[0]);
      LexTotal(key(a[0]), key(b[0]));
      SortedTails(a, b, key);
      assert a == [a[0]] + a[1..] && b == [b[0]] + b[1..];
    }
  }

  lemma SortedTails<T>(a: seq<T>, b: seq<T>, key: T -> string)
    requires a != [] && b != [] && a[0] == b[0]
    requires SortedBy(a, key) && SortedBy(b, key) && SameElements(a, b)
    requires forall x, y :: x in a && y in a && key(x) == key(y) ==> x == y
    ensures a[1..] == b[1..]
    decreases |a|, 0
  {
    MultisetTail(a);
    MultisetTail(b);
    var s, t := a[1..], b[1..];
    assert forall x :: x in s ==> x in a;
    SortedUnique(s, t, key);
  }

  /** The position at which insertion keeps `s` sorted. */
  function InsertBy<T>(s: seq<T>, x: T, key: T -> string): (r: seq<T>)
    ensures SameElements(r, [x] + s)
  {
    if s == [] then [x]
    else if LexLess(key(x), key(s[0])) then [x] + s
    else
      var t := InsertBy(s[1..], x, key);
      assert s == [s[0]] + s[1..];
      [s[0]] + t
  }

  lemma {:induction false} InsertBySorted<T>(s: seq<T>, x: T, key: T -> string)
    requires SortedBy(s, key)
    ensures SortedBy(InsertBy(s, x, key), key)
  {
    if s == [] {
    } else if LexLess(key(x), key(s[0])) {
      forall y | y in s ensures !LexLess(key(y), key(x)) {
        HeadIsLeast(s, key, y);
        LexTotal(key(x), key(s[0]));
        LexTransitive(key(x), key(s[0]), key(y));
      }
      ConsSorted(x, s, key);
    } else {
      InsertBySorted(s[1..], x, key);
      var t := InsertBy(s[1..], x, key);
      forall y | y in t ensures !LexLess(key(y), key(s[0])) {
        SameElementsMembers(t, [x] + s[1..], y);
        if y in s[1..] { HeadIsLeast(s, key, y); }
      }
      ConsSorted(s[0], t, key);
    }
  }

  lemma ConsSorted<T>(x: T, s: seq<T>, key: T -> string)
    requires SortedBy(s, key) && forall y :: y in s ==> !LexLess(key(y), key(x))
    ensures SortedBy([x] + s, key)
  {}

  lemma InsertKeepsElements<T>(r: seq<T>, s: seq<T>, i: nat, key: T -> string)
    requires i < |s| && SameElements(r, s[..i])
    ensures SameElements(InsertBy(r, s[i], key), s[..i + 1])
  {
    assert s[..i + 1] == s[..i] + [s[i]];
    assert multiset([s[i]] + r) == multiset{s[i]} + multiset(r);
  }

  /** `sort.Slice` on a copy, keyed by a string. */
  method SortBy<T>(s: seq<T>, key: T -> string) returns (r: seq<T>)
    ensures SortedBy(r, key) && SameElements(r, s)
  {
    hide SortedBy, SameElements;
    r := [];
    assert SortedBy(r, key) && SameElements(r, s[..0]) by { EmptySorted(s, key); }
    for i := 0 to |s|
      invariant SortedBy(r, key) && SameElements(r, s[..i])
    {
      InsertBySorted(r, s[i], key);
      InsertKeepsElements(r, s, i, key);
      r := InsertBy(r, s[i], key);
    }
    assert s[..|s|] == s;
  }

  lemma EmptySorted<T>(s: seq<T>, key: T -> string)
    ensures SortedBy<T>([], key) && SameElements<T>([], s[..0])
  {}
}
