/** `Resolve` of internal/subscribe/resolver.go as it runs: an index of slices whose backing arrays the
    resolver filters in place, so that repeated identities and returned offer lists alias them. */
module Resolver {
  import opened Base
  import opened Subscribe

  /** A Go slice header: the first `len` elements of a backing array. */
  datatype Slice = Slice(arr: array<Offer>, len: nat)

  datatype StatusEntry = StatusEntry(subscription: SubscriptionEntry, status: Status, offers: Slice)

  // ---------------------------------------------------------------- the filter, on values

  /** The backing array after one filtering pass: the kept offers, then whatever was left behind them. */
  function Filtered(s: seq<Offer>, local: set<string>): (r: seq<Offer>)
    ensures |r| == |s|
  {
    NotLocal(s, local) + s[|NotLocal(s, local)|..]
  }

  function FilteredTimes(s: seq<Offer>, local: set<string>, n: nat): (r: seq<Offer>)
    ensures |r| == |s|
  {
    if n == 0 then s else Filtered(FilteredTimes(s, local, n - 1), local)
  }

  lemma {:induction false} NotLocalAppend(a: seq<Offer>, b: seq<Offer>, local: set<string>)
    ensures NotLocal(a + b, local) == NotLocal(a, local) + NotLocal(b, local)
  {
    if a == [] {
      assert a + b == b;
    } else {
      assert (a + b)[1..] == a[1..] + b;
      NotLocalAppend(a[1..], b, local);
    }
  }

  lemma {:induction false} NotLocalTwice(s: seq<Offer>, local: set<string>)
    ensures NotLocal(NotLocal(s, local), local) == NotLocal(s, local)
  {
    if s != [] {
      NotLocalTwice(s[1..], local);
      if s[0].folderID !in local {
        assert NotLocal(s, local)[1..] == NotLocal(s[1..], local);
      }
    }
  }

  /** Filtering a filtered array again keeps the first answer as a prefix and can only repeat offers
      that were left behind it. */
  lemma FilterAgain(s: seq<Offer>, local: set<string>)
    ensures NotLocal(Filtered(s, local), local) ==
            NotLocal(s, local) + NotLocal(s[|NotLocal(s, local)|..], local)
  {
    var f := NotLocal(s, local);
    NotLocalAppend(f, s[|f|..], local);
    NotLocalTwice(s, local);
  }

  /** What the `n`th lookup of one identity reports. */
  function Reported(s: seq<Offer>, local: set<string>, n: nat): seq<Offer> {
    NotLocal(FilteredTimes(s, local, n), local)
  }

  lemma NextFilter(s: seq<Offer>, local: set<string>, n: nat)
    requires n > 0
    ensures Reported(s, local, n - 1) <= FilteredTimes(s, local, n)
    ensures Reported(s, local, n - 1) <= Reported(s, local, n)
  {
    hide NotLocal;
    FilterAgain(FilteredTimes(s, local, n - 1), local);
  }

  /** Earlier reports stay a prefix of the array, whatever later lookups do to it. */
  lemma {:induction false} ReportsArePrefixes(s: seq<Offer>, local: set<string>, m: nat, n: nat)
    requires m < n
    ensures Reported(s, local, m) <= FilteredTimes(s, local, n)
    ensures Reported(s, local, m) <= Reported(s, local, n)
  {
    hide FilteredTimes, NotLocal, Reported;
    NextFilter(s, local, n);
    if m < n - 1 {
      ReportsArePrefixes(s, local, m, n - 1);
    }
  }

  lemma {:induction false} SameOffersReported(s: seq<Offer>, local: set<string>, n: nat)
    ensures forall o :: o in Reported(s, local, n) <==> o in NotLocal(s, local)
    ensures NotLocal(s, local) <= Reported(s, local, n)
  {
    if n > 0 {
      SameOffersReported(s, local, n - 1);
      FilterAgain(FilteredTimes(s, local, n - 1), local);
      if n > 0 { ReportsArePrefixes(s, local, 0, n); }
      SameMembers(s, local, n);
      forall o | o in NotLocal(s, local) ensures o in Reported(s, local, n) {
        assert NotLocal(s, local) <= Reported(s, local, n);
      }
    }
  }

  lemma {:induction false} SameMembers(s: seq<Offer>, local: set<string>, n: nat)
    ensures forall o :: o in FilteredTimes(s, local, n) ==> o in s
  {
    if n > 0 {
      SameMembers(s, local, n - 1);
      var before := FilteredTimes(s, local, n - 1);
      var f := NotLocal(before, local);
      forall o | o in f + before[|f|..] ensures o in before {}
    }
  }

  /** However often an identity is looked up, its status and first candidate are those of the scan. */
  lemma RepeatedLookupAgrees(s: seq<Offer>, local: set<string>, n: nat)
    ensures StatusOf(Reported(s, local, n)) == StatusOf(NotLocal(s, local))
    ensures NotLocal(s, local) != [] ==>
            Reported(s, local, n) != [] && Reported(s, local, n)[0] == NotLocal(s, local)[0]
  {
    SameOffersReported(s, local, n);
    var a, b := Reported(s, local, n), NotLocal(s, local);
    if a != [] { assert a[0] in a; }
  }

  lemma {:induction false} NoneKept(s: seq<Offer>, local: set<string>)
    requires forall o :: o in s ==> o.folderID in local
    ensures NotLocal(s, local) == []
  {
    if s != [] { NoneKept(s[1..], local); }
  }

  /** The offer list of a repeated identity is not always that of the scan: at each lookup after the first it is
      exactly when no offer kept by the filter sits behind one it drops. */
  lemma RepeatedListAgreesExactlyWhenKeptComeFirst(s: seq<Offer>, local: set<string>, n: nat)
    requires n > 0
    ensures Reported(s, local, n) == NotLocal(s, local)
       <==> forall i :: |NotLocal(s, local)| <= i < |s| ==> s[i].folderID in local
  {
    var f := NotLocal(s, local);
    var tail := s[|f|..];
    ReportedOnce(s, local);
    if n > 1 { ReportsArePrefixes(s, local, 1, n); }
    hide Reported, NotLocal;
    if i :| |f| <= i < |s| && s[i].folderID !in local {
      assert tail[i - |f|] == s[i] && tail[i - |f|] in NotLocal(tail, local);
      assert |Reported(s, local, n)| > |f|;
    } else {
      assert forall o :: o in tail ==> o.folderID in local;
      assert NotLocal(tail, local) == [] by { NoneKept(tail, local); }
      NothingLeftBehind(s, local, n);
    }
  }

  /** With nothing kept behind the first answer, every later lookup repeats it. */
  lemma {:induction false} NothingLeftBehind(s: seq<Offer>, local: set<string>, n: nat)
    requires n > 0 && NotLocal(s[|NotLocal(s, local)|..], local) == []
    ensures FilteredTimes(s, local, n) == Filtered(s, local) && Reported(s, local, n) == NotLocal(s, local)
  {
    FilterAgain(s, local);
    if n > 1 {
      NothingLeftBehind(s, local, n - 1);
      hide NotLocal;
      var f, tail := NotLocal(s, local), s[|NotLocal(s, local)|..];
      assert Filtered(Filtered(s, local), local) == f + (f + tail)[|f|..];
    } else {
      assert FilteredTimes(s, local, 0) == s;
    }
  }

  lemma ReportedOnce(s: seq<Offer>, local: set<string>)
    ensures Reported(s, local, 1) == NotLocal(s, local) + NotLocal(s[|NotLocal(s, local)|..], local)
  {
    assert FilteredTimes(s, local, 1) == Filtered(FilteredTimes(s, local, 0), local);
    FilterAgain(s, local);
  }

  /** The smallest case: one local offer ahead of one that is kept. */
  lemma RepeatedListCanRepeatAnOffer(x: Offer, y: Offer, local: set<string>)
    requires x.folderID in local && y.folderID !in local
    ensures NotLocal([x, y], local) == [y] && Reported([x, y], local, 1) == [y, y]
  {
    assert [x, y][1..] == [y] && [y][1..] == [];
    assert NotLocal([y], local) == [y] + NotLocal([], local);
    assert Filtered([x, y], local) == [y, y];
    assert [y, y][1..] == [y];
    assert FilteredTimes([x, y], local, 1) == Filtered(FilteredTimes([x, y], local, 0), local);
  }

  lemma {:induction false} TitledAppend(a: seq<Offer>, o: Offer, t: string)
    ensures Titled(a + [o], t) == Titled(a, t) + if o.title == t && t != "" then [o] else []
  {
    if a == [] {
      assert a + [o] == [o] && [o][1..] == [];
      assert Titled([o], t) == (if o.title == t && t != "" then [o] else []) + Titled([], t);
    } else {
      assert (a + [o])[1..] == a[1..] + [o];
      TitledAppend(a[1..], o, t);
    }
  }

  // ---------------------------------------------------------------- the index

  /** The slices' backing arrays. */
  ghost function Arrays(index: map<string, Slice>): set<object> {
    set t | t in index :: index[t].arr
  }

  ghost predicate SliceIs(s: Slice, content: seq<Offer>)
    reads s.arr
  {
    s.len <= s.arr.Length && s.arr[..s.len] == content
  }

  /** No two slices share an array, and each holds what `g` says. */
  ghost predicate Represents(index: map<string, Slice>, g: map<string, seq<Offer>>)
    reads Arrays(index)
  {
    && index.Keys == g.Keys
    && (forall s, t :: s in index && t in index && s != t ==> index[s].arr != index[t].arr)
    && forall t :: t in index ==> index[t].arr in Arrays(index) && SliceIs(index[t], g[t])
  }

  /** The offers grouped by title. */
  ghost predicate Groups(g: map<string, seq<Offer>>, offers: seq<Offer>) {
    forall t :: if t in g then g[t] == Titled(offers, t) != [] else Titled(offers, t) == []
  }

  /** `append`: in place while capacity lasts, into a larger array otherwise. */
  method Append(s: Slice, o: Offer) returns (r: Slice)
    requires s.len <= s.arr.Length
    modifies s.arr
    ensures r.len == s.len + 1 <= r.arr.Length
    ensures r.arr == s.arr || fresh(r.arr)
    ensures r.arr[..r.len] == old(s.arr[..s.len]) + [o]
  {
    if s.len < s.arr.Length {
      s.arr[s.len] := o;
      return Slice(s.arr, s.len + 1);
    }
    var bigger := new Offer[2 * s.len + 1](_ => o);
    for i := 0 to s.len
      invariant forall k :: 0 <= k < i ==> bigger[k] == s.arr[k]
      invariant forall k :: i <= k < bigger.Length ==> bigger[k] == o
      invariant s.arr[..s.len] == old(s.arr[..s.len])
    {
      bigger[i] := s.arr[i];
    }
    r := Slice(bigger, s.len + 1);
  }

  /** `index[o.Label] = append(index[o.Label], o)`. */
  method AddOffer(index: map<string, Slice>, o: Offer, ghost g: map<string, seq<Offer>>)
    returns (r: map<string, Slice>)
    requires Represents(index, g)
    modifies Arrays(index)
    ensures Represents(r, g[o.title := (if o.title in g then g[o.title] else []) + [o]])
    ensures fresh(Arrays(r) - Arrays(index))
  {
    var s: Slice;
    if o.title in index {
      s := index[o.title];
    } else {
      var none := new Offer[0];
      s := Slice(none, 0);
    }
    ghost var was := if o.title in g then g[o.title] else [];
    assert SliceIs(s, was);
    label before:
    var grown := Append(s, o);
    forall t | t in index && t != o.title ensures SliceIs(index[t], g[t]) && index[t].arr != grown.arr {
      assert old@before(SliceIs(index[t], g[t]));
      assert index[t].arr != s.arr;
    }
    SliceReplaced(index, g, o.title, grown, was + [o]);
    r := index[o.title := grown];
    hide Represents;
    assert Arrays(r) <= Arrays(index) + {grown.arr};
  }

  /** One entry of an index replaced by a slice of its own. */
  lemma SliceReplaced(index: map<string, Slice>, g: map<string, seq<Offer>>, t: string, s: Slice, content: seq<Offer>)
    requires index.Keys == g.Keys && SliceIs(s, content)
    requires forall u, v :: u in index && v in index && u != v ==> index[u].arr != index[v].arr
    requires forall u :: u in index && u != t ==> SliceIs(index[u], g[u]) && index[u].arr != s.arr
    ensures Represents(index[t := s], g[t := content])
  {
    hide SliceIs;
  }

  lemma EmptyIndex()
    ensures Represents(map[], map[]) && Groups(map[], [])
  {}

  lemma GroupsGrow(g: map<string, seq<Offer>>, offers: seq<Offer>, o: Offer)
    requires Groups(g, offers)
    ensures Groups(if o.title == "" then g else g[o.title := (if o.title in g then g[o.title] else []) + [o]],
                   offers + [o])
  {
    forall t ensures Titled(offers + [o], t) == Titled(offers, t) + if o.title == t && t != "" then [o] else [] {
      TitledAppend(offers, o, t);
    }
  }

  /** The resolver builds two such indexes over the same offers, one consulted by canonical URL and one
      by name. */
  method BuildIndex(offers: seq<Offer>) returns (index: map<string, Slice>, ghost g: map<string, seq<Offer>>)
    ensures Represents(index, g) && Groups(g, offers)
    ensures fresh(Arrays(index))
  {
    EmptyIndex();
    hide Represents, Groups, Titled;
    index, g := map[], map[];
    assert offers[..0] == [];
    for i := 0 to |offers|
      invariant Represents(index, g) && Groups(g, offers[..i])
      invariant fresh(Arrays(index))
    {
      var o := offers[i];
      assert offers[..i + 1] == offers[..i] + [o];
      GroupsGrow(g, offers[..i], o);
      if o.title != "" {
        index := AddOffer(index, o, g);
        g := g[o.title := (if o.title in g then g[o.title] else []) + [o]];
      }
    }
    assert offers[..|offers|] == offers;
  }

  // ---------------------------------------------------------------- the resolver

  /** The loop `filtered := candidates[:0]; filtered = append(filtered, c)`. */
  method FilterInPlace(a: array<Offer>, n: nat, local: set<string>) returns (k: nat)
    requires n <= a.Length
    modifies a
    ensures k == |NotLocal(old(a[..n]), local)| <= n
    ensures a[..n] == Filtered(old(a[..n]), local)
  {
    hide NotLocal, Filtered;
    ghost var was, kept: seq<Offer> := a[..n], [];
    k := 0;
    NothingKept(local);
    for i := 0 to n
      invariant k == |kept| <= i && kept == NotLocal(was[..i], local)
      invariant forall j :: 0 <= j < k ==> a[j] == kept[j]
      invariant forall j :: k <= j < n ==> a[j] == was[j]
    {
      OneKept(was, i, local);
      if a[i].folderID !in local {
        kept := kept + [a[i]];
        a[k] := a[i];
        k := k + 1;
      }
    }
    assert was[..n] == was;
    FilteredIs(was, local, kept);
    forall j | 0 <= j < n ensures a[..n][j] == (kept + was[k..])[j] {}
  }

  lemma NothingKept(local: set<string>)
    ensures NotLocal([], local) == []
  {}

  lemma FilteredIs(s: seq<Offer>, local: set<string>, kept: seq<Offer>)
    requires kept == NotLocal(s, local)
    ensures Filtered(s, local) == kept + s[|kept|..]
  {}

  lemma OneKept(s: seq<Offer>, i: nat, local: set<string>)
    requires i < |s|
    ensures NotLocal(s[..i + 1], local) == NotLocal(s[..i], local) + if s[i].folderID !in local then [s[i]] else []
  {
    assert s[..i + 1] == s[..i] + [s[i]] && [s[i]][1..] == [];
    NotLocalAppend(s[..i], [s[i]], local);
  }

  method IsAmbiguous(a: array<Offer>, n: nat) returns (r: bool)
    requires n <= a.Length
    ensures r <==> !OneFolder(a[..n])
  {
    for i := 0 to n
      invariant forall j :: 0 <= j < i ==> a[j].folderID == a[0].folderID
    {
      if a[i].folderID != a[0].folderID {
        assert a[..n][i] in a[..n] && a[..n][0] in a[..n];
        return true;
      }
    }
    return false;
  }

  /** Which of the two indexes a subscription consults. */
  predicate ByURL(sub: SubscriptionEntry) {
    sub.canonical != ""
  }

  /** How many subscriptions among `subs` consult the same array as `sub`. */
  ghost function Rounds(subs: seq<SubscriptionEntry>, byURL: bool, title: string): nat {
    if subs == [] then 0
    else
      var last := subs[|subs| - 1];
      Rounds(subs[..|subs| - 1], byURL, title) + (if ByURL(last) == byURL && Wanted(last) == title then 1 else 0)
  }

  ghost function RoundOf(subs: seq<SubscriptionEntry>, i: nat): nat
    requires i < |subs|
  {
    Rounds(subs[..i], ByURL(subs[i]), Wanted(subs[i]))
  }

  /** The offer list reported for the `i`th subscription. */
  ghost function ReportOf(subs: seq<SubscriptionEntry>, offers: seq<Offer>, local: set<string>, i: nat): seq<Offer>
    requires i < |subs|
  {
    Reported(Titled(offers, Wanted(subs[i])), local, RoundOf(subs, i))
  }

  lemma {:induction false} AcceptancesAppend(subs: seq<SubscriptionEntry>, sub: SubscriptionEntry,
                                             offers: seq<Offer>, local: set<string>)
    ensures Acceptances(subs + [sub], offers, local) == Acceptances(subs, offers, local)
            + AcceptanceOf(sub, offers, local)
  {
    hide AcceptanceOf;
    if subs == [] {
      assert subs + [sub] == [sub] && [sub][1..] == [];
    } else {
      assert (subs + [sub])[1..] == subs[1..] + [sub];
      AcceptancesAppend(subs[1..], sub, offers, local);
    }
  }

  lemma RoundsGrow(subs: seq<SubscriptionEntry>, sub: SubscriptionEntry, byURL: bool, t: string)
    ensures Rounds(subs + [sub], byURL, t) ==
            Rounds(subs, byURL, t) + if ByURL(sub) == byURL && Wanted(sub) == t then 1 else 0
  {
    assert (subs + [sub])[..|subs|] == subs;
  }

  /** A lookup happens before the count that includes it. */
  lemma {:induction false} RoundIsCounted(subs: seq<SubscriptionEntry>, i: nat)
    requires i < |subs|
    ensures RoundOf(subs, i) < Rounds(subs, ByURL(subs[i]), Wanted(subs[i]))
  {
    var front := subs[..|subs| - 1];
    if i < |front| {
      RoundIsCounted(front, i);
      assert front[..i] == subs[..i];
    } else {
      assert subs[..i] == front;
    }
  }

  /** The content of one index after the subscriptions `subs` were resolved. */
  ghost predicate After(g: map<string, seq<Offer>>, byURL: bool, subs: seq<SubscriptionEntry>,
                        offers: seq<Offer>, local: set<string>)
  {
    forall t :: if t in g then g[t] == FilteredTimes(Titled(offers, t), local, Rounds(subs, byURL, t))
                else Titled(offers, t) == []
  }

  /** Status and first candidate from a filtered array. */
  method Classify(a: array<Offer>, k: nat) returns (status: Status, first: Option<Offer>)
    requires k <= a.Length
    ensures status == StatusOf(a[..k])
    ensures first == if status == Accepted then Some(a[0]) else None
    ensures status == Accepted ==> k > 0
  {
    status := Pending;
    if k > 0 {
      var ambiguous := IsAmbiguous(a, k);
      status := if ambiguous then Ambiguous else Accepted;
    }
    first := if status == Accepted then Some(a[0]) else None;
  }

  ghost function Step(g: map<string, seq<Offer>>, sub: SubscriptionEntry, local: set<string>): map<string, seq<Offer>> {
    if Wanted(sub) in g then g[Wanted(sub) := Filtered(g[Wanted(sub)], local)] else g
  }

  lemma StepKeepsKeys(g: map<string, seq<Offer>>, sub: SubscriptionEntry, local: set<string>)
    ensures Step(g, sub, local).Keys == g.Keys
  {}

  ghost function ReportFrom(g: map<string, seq<Offer>>, sub: SubscriptionEntry, local: set<string>): seq<Offer> {
    if Wanted(sub) in g then NotLocal(g[Wanted(sub)], local) else []
  }

  /** One subscription: look up, filter in place, classify. */
  method ResolveOne(sub: SubscriptionEntry, index: map<string, Slice>, ghost g: map<string, seq<Offer>>,
                    local: set<string>)
    returns (entry: StatusEntry, first: Option<Offer>)
    requires Represents(index, g)
    modifies Arrays(index)
    ensures Represents(index, Step(g, sub, local))
    ensures
      var report := ReportFrom(g, sub, local);
      && entry.subscription == sub && entry.status == StatusOf(report)
      && entry.offers.len == |report|
      && (if Wanted(sub) in index then entry.offers.arr == index[Wanted(sub)].arr else fresh(entry.offers.arr))
      && first == if entry.status == Accepted then Some(report[0]) else None
  {
    hide NotLocal, OneFolder, Wanted, Filtered;
    var t := Wanted(sub);
    if t !in index {
      var none := new Offer[0];
      return StatusEntry(sub, Pending, Slice(none, 0)), None;
    }
    var s := index[t];
    assert SliceIs(s, g[t]);
    label before:
    var k := FilterInPlace(s.arr, s.len, local);
    forall u | u in index && u != t ensures SliceIs(index[u], g[u]) {
      assert old@before(SliceIs(index[u], g[u]));
      assert index[u].arr != s.arr;
    }
    SliceReplaced(index, g, t, s, Filtered(g[t], local));
    assert index[t := s] == index;
    hide Represents;
    ghost var report := NotLocal(g[t], local);
    FilteredIs(g[t], local, report);
    assert s.arr[..k] == s.arr[..s.len][..k] == report;
    var status;
    status, first := Classify(s.arr, k);
    entry := StatusEntry(sub, status, Slice(s.arr, k));
  }

  ghost function NextByURL(g: map<string, seq<Offer>>, sub: SubscriptionEntry, local: set<string>)
    : map<string, seq<Offer>>
  {
    if ByURL(sub) then Step(g, sub, local) else g
  }

  ghost function NextByName(g: map<string, seq<Offer>>, sub: SubscriptionEntry, local: set<string>)
    : map<string, seq<Offer>>
  {
    if ByURL(sub) then g else Step(g, sub, local)
  }

  ghost function ReportIn(gu: map<string, seq<Offer>>, gn: map<string, seq<Offer>>, sub: SubscriptionEntry,
                          local: set<string>): seq<Offer> {
    ReportFrom(if ByURL(sub) then gu else gn, sub, local)
  }

  /** The entry tells what the consulted index held, and lives in its array. */
  ghost predicate Reports(e: StatusEntry, sub: SubscriptionEntry, gu: map<string, seq<Offer>>,
                          gn: map<string, seq<Offer>>, local: set<string>,
                          url: map<string, Slice>, name: map<string, Slice>)
  {
    var index, report := if ByURL(sub) then url else name, ReportIn(gu, gn, sub, local);
    && e.subscription == sub && e.status == StatusOf(report) && e.offers.len == |report|
    && (e.status == Accepted ==> report != [])
    && (Wanted(sub) in index ==> e.offers.arr == index[Wanted(sub)].arr)
  }

  /** A subscription with a canonical identity consults the one index, any other the other. */
  method ResolveNext(sub: SubscriptionEntry, urlIndex: map<string, Slice>, ghost gu: map<string, seq<Offer>>,
                     nameIndex: map<string, Slice>, ghost gn: map<string, seq<Offer>>, local: set<string>)
    returns (entry: StatusEntry, first: Option<Offer>)
    requires Arrays(urlIndex) !! Arrays(nameIndex) && Represents(urlIndex, gu) && Represents(nameIndex, gn)
    modifies Arrays(urlIndex), Arrays(nameIndex)
    ensures Represents(urlIndex, NextByURL(gu, sub, local)) && Represents(nameIndex, NextByName(gn, sub, local))
    ensures Reports(entry, sub, gu, gn, local, urlIndex, nameIndex)
    ensures first == if entry.status == Accepted then Some(ReportIn(gu, gn, sub, local)[0]) else None
  {
    hide NotLocal, OneFolder, Wanted, ByURL, Step, ReportFrom, Represents;
    if ByURL(sub) {
      entry, first := ResolveOne(sub, urlIndex, gu, local);
      assert unchanged(Arrays(nameIndex));
    } else {
      entry, first := ResolveOne(sub, nameIndex, gn, local);
      assert unchanged(Arrays(urlIndex));
    }
  }

  /** The index the next subscription leaves. */
  lemma NextIndex(g: map<string, seq<Offer>>, byURL: bool, subs: seq<SubscriptionEntry>, sub: SubscriptionEntry,
                  offers: seq<Offer>, local: set<string>)
    requires After(g, byURL, subs, offers, local)
    ensures After(if ByURL(sub) == byURL then Step(g, sub, local) else g, byURL, subs + [sub], offers, local)
  {
    hide Wanted, Titled, NotLocal, Filtered, ByURL;
    var g' := if ByURL(sub) == byURL then Step(g, sub, local) else g;
    forall t
      ensures if t in g' then g'[t] == FilteredTimes(Titled(offers, t), local, Rounds(subs + [sub], byURL, t))
              else Titled(offers, t) == []
    {
      RoundsGrow(subs, sub, byURL, t);
    }
  }

  /** The next subscription's report. */
  lemma NextReport(g: map<string, seq<Offer>>, subs: seq<SubscriptionEntry>, sub: SubscriptionEntry,
                   offers: seq<Offer>, local: set<string>)
    requires After(g, ByURL(sub), subs, offers, local)
    ensures
      var report := ReportFrom(g, sub, local);
      && report == Reported(Titled(offers, Wanted(sub)), local, Rounds(subs, ByURL(sub), Wanted(sub)))
      && StatusOf(report) == StatusOf(Candidates(sub, offers, local))
      && AcceptanceOf(sub, offers, local) == if StatusOf(report) == Accepted then [Acceptance(sub, report[0])] else []
  {
    hide Wanted, Titled, ByURL, Rounds, OneFolder;
    var t := Wanted(sub);
    var n := Rounds(subs, ByURL(sub), t);
    RepeatedLookupAgrees(Titled(offers, t), local, n);
    if t !in g {
      assert FilteredTimes(Titled(offers, t), local, n) == [];
    }
  }

  /** What one subscription does to the indexes and the acceptances. */
  lemma NextRound(gu: map<string, seq<Offer>>, gn: map<string, seq<Offer>>, subs: seq<SubscriptionEntry>, i: nat,
                  offers: seq<Offer>, local: set<string>)
    requires i < |subs| && After(gu, true, subs[..i], offers, local) && After(gn, false, subs[..i], offers, local)
    ensures
      var sub, next := subs[i], subs[..i + 1];
      var report := ReportFrom(if ByURL(sub) then gu else gn, sub, local);
      && After(if ByURL(sub) then Step(gu, sub, local) else gu, true, next, offers, local)
      && After(if ByURL(sub) then gn else Step(gn, sub, local), false, next, offers, local)
      && Step(gu, sub, local).Keys == gu.Keys && Step(gn, sub, local).Keys == gn.Keys
      && Acceptances(next, offers, local) ==
         Acceptances(subs[..i], offers, local)
         + if StatusOf(report) == Accepted then [Acceptance(sub, report[0])] else []
  {
    var sub := subs[i];
    assert subs[..i + 1] == subs[..i] + [sub];
    StepKeepsKeys(gu, sub, local);
    StepKeepsKeys(gn, sub, local);
    hide After, Step, ReportFrom, Acceptances, AcceptanceOf, Wanted;
    AcceptancesAppend(subs[..i], sub, offers, local);
    NextIndex(gu, true, subs[..i], sub, offers, local);
    NextIndex(gn, false, subs[..i], sub, offers, local);
    NextReport(if ByURL(sub) then gu else gn, subs[..i], sub, offers, local);
  }

  /** Where the offer list of the `j`th entry lives. */
  ghost predicate EntryFits(e: StatusEntry, subs: seq<SubscriptionEntry>, j: nat, offers: seq<Offer>,
                            local: set<string>, url: map<string, Slice>, name: map<string, Slice>)
    requires j < |subs|
  {
    var index, t := if ByURL(subs[j]) then url else name, Wanted(subs[j]);
    && e.subscription == subs[j] && e.status == StatusOf(Candidates(subs[j], offers, local))
    && e.offers.len == |ReportOf(subs, offers, local, j)|
    && (t in index ==> e.offers.arr == index[t].arr)
    && (t !in index ==> e.offers.len == 0)
  }

  ghost predicate AllFit(es: seq<StatusEntry>, subs: seq<SubscriptionEntry>, offers: seq<Offer>, local: set<string>,
                         url: map<string, Slice>, name: map<string, Slice>)
  {
    |es| <= |subs| && forall j :: 0 <= j < |es| ==> EntryFits(es[j], subs, j, offers, local, url, name)
  }

  /** The entry just resolved fits. */
  lemma NextFits(es: seq<StatusEntry>, e: StatusEntry, subs: seq<SubscriptionEntry>, offers: seq<Offer>,
                 local: set<string>, url: map<string, Slice>, name: map<string, Slice>,
                 g: map<string, seq<Offer>>)
    requires AllFit(es, subs, offers, local, url, name) && |es| < |subs|
    requires var sub := subs[|es|];
             var report := ReportFrom(g, sub, local);
             && After(g, ByURL(sub), subs[..|es|], offers, local)
             && g.Keys == (if ByURL(sub) then url else name).Keys
             && e.subscription == sub && e.status == StatusOf(report) && e.offers.len == |report|
             && (Wanted(sub) in g ==> e.offers.arr == (if ByURL(sub) then url else name)[Wanted(sub)].arr)
    ensures AllFit(es + [e], subs, offers, local, url, name)
  {
    hide Wanted, NotLocal, Titled, Rounds, OneFolder;
    var sub := subs[|es|];
    NextReport(g, subs[..|es|], sub, offers, local);
    assert EntryFits(e, subs, |es|, offers, local, url, name);
  }

  /** The list of an earlier entry is still what was reported then. */
  lemma EntryStands(e: StatusEntry, subs: seq<SubscriptionEntry>, j: nat, offers: seq<Offer>, local: set<string>,
                    url: map<string, Slice>, name: map<string, Slice>, gu: map<string, seq<Offer>>,
                    gn: map<string, seq<Offer>>)
    requires j < |subs| && EntryFits(e, subs, j, offers, local, url, name)
    requires Represents(url, gu) && Represents(name, gn)
    requires After(gu, true, subs, offers, local) && After(gn, false, subs, offers, local)
    ensures SliceIs(e.offers, ReportOf(subs, offers, local, j))
  {
    hide Wanted, Titled, NotLocal, FilteredTimes, Rounds, StatusOf, ByURL;
    var t := Wanted(subs[j]);
    var index, g := if ByURL(subs[j]) then url else name, if ByURL(subs[j]) then gu else gn;
    RoundIsCounted(subs, j);
    ReportsArePrefixes(Titled(offers, t), local, RoundOf(subs, j), Rounds(subs, ByURL(subs[j]), t));
    if t in index {
      assert SliceIs(index[t], g[t]);
    }
  }

  lemma SameKeys(index: map<string, Slice>, g: map<string, seq<Offer>>)
    requires Represents(index, g)
    ensures g.Keys == index.Keys
  {}

  lemma NothingResolved(subs: seq<SubscriptionEntry>, offers: seq<Offer>, local: set<string>,
                        url: map<string, Slice>, name: map<string, Slice>)
    ensures AllFit([], subs, offers, local, url, name) && Acceptances([], offers, local) == []
  {}

  /** What one round leaves for the next. */
  lemma RoundDone(gu: map<string, seq<Offer>>, gn: map<string, seq<Offer>>, subs: seq<SubscriptionEntry>, i: nat,
                  offers: seq<Offer>, local: set<string>, es: seq<StatusEntry>, e: StatusEntry,
                  url: map<string, Slice>, name: map<string, Slice>)
    requires |es| == i < |subs| && AllFit(es, subs, offers, local, url, name)
    requires After(gu, true, subs[..i], offers, local) && After(gn, false, subs[..i], offers, local)
    requires gu.Keys == url.Keys && gn.Keys == name.Keys && Reports(e, subs[i], gu, gn, local, url, name)
    ensures AllFit(es + [e], subs, offers, local, url, name)
    ensures
      var gu', gn' := NextByURL(gu, subs[i], local), NextByName(gn, subs[i], local);
      && After(gu', true, subs[..i + 1], offers, local) && After(gn', false, subs[..i + 1], offers, local)
      && gu'.Keys == url.Keys && gn'.Keys == name.Keys
    ensures Acceptances(subs[..i + 1], offers, local) ==
            Acceptances(subs[..i], offers, local)
            + if e.status == Accepted then [Acceptance(subs[i], ReportIn(gu, gn, subs[i], local)[0])] else []
  {
    NextRound(gu, gn, subs, i, offers, local);
    hide After, AllFit, ReportFrom, Step, Acceptances, StatusOf, ByURL, Wanted;
    NextFits(es, e, subs, offers, local, url, name, if ByURL(subs[i]) then gu else gn);
  }

  /** The loop over the subscriptions, with what it leaves in the two indexes. */
  method ResolveAll(subs: seq<SubscriptionEntry>, offers: seq<Offer>, local: set<string>,
                    urlIndex: map<string, Slice>, ghost gu0: map<string, seq<Offer>>,
                    nameIndex: map<string, Slice>, ghost gn0: map<string, seq<Offer>>)
    returns (acceptances: seq<Acceptance>, statuses: seq<StatusEntry>, ghost gu: map<string, seq<Offer>>,
             ghost gn: map<string, seq<Offer>>)
    requires Arrays(urlIndex) !! Arrays(nameIndex)
    requires Represents(urlIndex, gu0) && After(gu0, true, [], offers, local)
    requires Represents(nameIndex, gn0) && After(gn0, false, [], offers, local)
    modifies Arrays(urlIndex), Arrays(nameIndex)
    ensures acceptances == Acceptances(subs, offers, local)
    ensures |statuses| == |subs| && AllFit(statuses, subs, offers, local, urlIndex, nameIndex)
    ensures Represents(urlIndex, gu) && After(gu, true, subs, offers, local)
    ensures Represents(nameIndex, gn) && After(gn, false, subs, offers, local)
  {
    SameKeys(urlIndex, gu0);
    SameKeys(nameIndex, gn0);
    NothingResolved(subs, offers, local, urlIndex, nameIndex);
    hide *;
    gu, gn := gu0, gn0;
    acceptances, statuses := [], [];
    assert subs[..0] == [];
    for i := 0 to |subs|
      invariant Represents(urlIndex, gu) && After(gu, true, subs[..i], offers, local) && gu.Keys == urlIndex.Keys
      invariant Represents(nameIndex, gn) && After(gn, false, subs[..i], offers, local) && gn.Keys == nameIndex.Keys
      invariant acceptances == Acceptances(subs[..i], offers, local)
      invariant |statuses| == i && AllFit(statuses, subs, offers, local, urlIndex, nameIndex)
    {
      var sub := subs[i];
      var entry, first := ResolveNext(sub, urlIndex, gu, nameIndex, gn, local);
      RoundDone(gu, gn, subs, i, offers, local, statuses, entry, urlIndex, nameIndex);
      gu, gn := NextByURL(gu, sub, local), NextByName(gn, sub, local);
      statuses := statuses + [entry];
      if first.Some? { acceptances := acceptances + [Acceptance(sub, first.value)]; }
    }
    assert subs[..|subs|] == subs;
  }

  /** Every subscription gets the status, and every acceptance the offer, of a plain nested scan; and
      the offer lists handed out keep their content although later subscriptions filter the arrays
      they live in. */
  method Resolve(subs: seq<SubscriptionEntry>, offers: seq<Offer>, local: set<string>)
    returns (acceptances: seq<Acceptance>, statuses: seq<StatusEntry>)
    ensures acceptances == Acceptances(subs, offers, local)
    ensures |statuses| == |subs|
    ensures forall acc :: acc in acceptances ==>
              acc.subscription in subs && Eligible(acc.subscription, offers, local, acc.offer)
    ensures forall i :: 0 <= i < |subs| ==>
              && (statuses[i].status == Pending <==> forall o :: !Eligible(subs[i], offers, local, o))
              && (statuses[i].status == Ambiguous <==> Disagree(subs[i], offers, local))
              && (statuses[i].status == Accepted ==>
                    forall o :: Eligible(subs[i], offers, local, o) ==>
                      exists acc :: acc in acceptances && acc.subscription == subs[i]
                          && acc.offer.folderID == o.folderID)
    ensures forall i :: 0 <= i < |subs| ==>
              && statuses[i].subscription == subs[i]
              && statuses[i].status == StatusOf(Candidates(subs[i], offers, local))
              && SliceIs(statuses[i].offers, ReportOf(subs, offers, local, i))
  {
    hide After, Represents, Acceptances, StatusOf, Candidates, SliceIs, ReportOf, Eligible, Disagree;
    AcceptedByFields(subs, offers, local);
    var urlIndex, gu0 := BuildIndex(offers);
    var nameIndex, gn0 := BuildIndex(offers);
    StartsGrouped(gu0, true, offers, local);
    StartsGrouped(gn0, false, offers, local);
    ghost var gu, gn;
    acceptances, statuses, gu, gn := ResolveAll(subs, offers, local, urlIndex, gu0, nameIndex, gn0);
    forall j | 0 <= j < |subs|
      ensures statuses[j].subscription == subs[j] && statuses[j].status == StatusOf(Candidates(subs[j], offers, local))
      ensures SliceIs(statuses[j].offers, ReportOf(subs, offers, local, j))
    {
      EntryStands(statuses[j], subs, j, offers, local, urlIndex, nameIndex, gu, gn);
    }
    forall j | 0 <= j < |subs|
      ensures statuses[j].status == Pending <==> forall o :: !Eligible(subs[j], offers, local, o)
      ensures statuses[j].status == Ambiguous <==> Disagree(subs[j], offers, local)
    {
      StatusByFields(subs[j], offers, local);
    }
  }

  lemma StartsGrouped(g: map<string, seq<Offer>>, byURL: bool, offers: seq<Offer>, local: set<string>)
    requires Groups(g, offers)
    ensures After(g, byURL, [], offers, local)
  {}
}
