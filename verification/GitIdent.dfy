/** internal/gitident/canonical.go: one identity for every spelling of a git remote. URLs follow sections 3.1 and 3.2 of
    RFC 3986; of url.Parse only hosts, ports and paths of unreserved characters are modelled. */
module GitIdent {
  import opened Base
  import opened Ignore
  import opened Paths

  // ---------------------------------------------------------------- characters and searches

  predicate IsUpper(c: char) { 'A' <= c <= 'Z' }

  predicate IsLetter(c: char) { 'a' <= c <= 'z' || IsUpper(c) }

  predicate IsDigit(c: char) { '0' <= c <= '9' }

  /** The unreserved characters of RFC 3986, section 2.3. */
  predicate IsPlain(c: char) { IsLetter(c) || IsDigit(c) || c in "-._~" }

  function LowerChar(c: char): (l: char)
    ensures !IsUpper(l) && (!IsUpper(c) ==> l == c) && (IsUpper(c) ==> 'a' <= l <= 'z')
  {
    if IsUpper(c) then (c as int + 32) as char else c
  }

  /** strings.ToLower, on ASCII. */
  function Lower(s: string): (l: string)
    ensures |l| == |s| && forall i :: 0 <= i < |s| ==> l[i] == LowerChar(s[i])
  {
    seq(|s|, i requires 0 <= i < |s| => LowerChar(s[i]))
  }

  /** The index of the first character in `stop`, or the length. */
  function Until(s: string, stop: set<char>): (k: nat)
    ensures k <= |s| && (forall i :: 0 <= i < k ==> s[i] !in stop) && (k < |s| ==> s[k] in stop)
  {
    if s == "" || s[0] in stop then 0 else 1 + Until(s[1..], stop)
  }

  /** strings.LastIndex of one character. */
  function LastIndex(s: string, c: char): (k: int)
    ensures -1 <= k < |s| && (k >= 0 ==> s[k] == c) && forall i :: k < i < |s| ==> s[i] != c
  {
    if s == "" then -1 else if s[|s| - 1] == c then |s| - 1 else LastIndex(s[..|s| - 1], c)
  }

  predicate OccursAt(s: string, t: string, i: int) {
    0 <= i <= |s| - |t| && s[i..i + |t|] == t
  }

  predicate Contains(s: string, t: string) {
    exists i :: 0 <= i <= |s| && OccursAt(s, t, i)
  }

  function TrimLeadingSlash(s: string): string {
    if s != "" && s[0] == '/' then s[1..] else s
  }

  // ---------------------------------------------------------------- Canonical

  /** NotPlain: a URL with characters this model does not cover. */
  datatype Identity = Known(form: string) | Empty | Unparseable | NotPlain

  /** finish. */
  function Finish(s: string): string {
    TrimSuffix(TrimSuffix(s, ".git"), "/")
  }

  /** `([^:/]+):(.+)`. */
  function HostColonPath(s: string): Option<(string, string)> {
    var k := Until(s, {':', '/'});
    if 0 < k < |s| - 1 && s[k] == ':' && '\n' !in s[k + 1..] then Some((s[..k], s[k + 1..])) else None
  }

  /** scpRE: the user group is tried first, then given up. */
  function Scp(s: string): Option<(string, string)> {
    var at := Until(s, {'@', '/'});
    if 0 < at < |s| && s[at] == '@' && HostColonPath(s[at + 1..]).Some? then HostColonPath(s[at + 1..])
    else HostColonPath(s)
  }

  predicate IsScheme(s: string) {
    s != "" && IsLetter(s[0]) && forall i :: 0 <= i < |s| ==> IsLetter(s[i]) || IsDigit(s[i]) || s[i] in "+-."
  }

  function DefaultPort(scheme: string): string {
    match Lower(scheme)
    case "ssh" => "22"
    case "https" => "443"
    case "http" => "80"
    case "git" => "9418"
    case _ => ""
  }

  function StripDefaultPort(host: string, scheme: string): string {
    var colon := LastIndex(host, ':');
    if colon < 0 then host
    else if host[colon + 1..] == DefaultPort(scheme) then host[..colon] else host
  }

  predicate AllPlain(s: string, also: set<char>) {
    forall c <- s :: IsPlain(c) || c in also
  }

  predicate IsPort(s: string) {
    forall c <- s :: IsDigit(c)
  }

  /** The authority and path of a URL: user information goes, and a port that is the scheme's default. */
  function FromParts(scheme: string, authority: string, path: string): Identity {
    if !AllPlain(authority, {'@', ':'}) || !AllPlain(path, {'/'}) then NotPlain
    else
      var hostport := authority[LastIndex(authority, '@') + 1..];
      var colon := LastIndex(hostport, ':');
      if colon >= 0 && !IsPort(hostport[colon + 1..]) then Unparseable
      else
        var host := StripDefaultPort(Lower(hostport), scheme);
        if host == "" || TrimLeadingSlash(path) == "" then Unparseable
        else Known(Finish(host + "/" + TrimLeadingSlash(path)))
  }

  function FromRest(scheme: string, rest: string): Identity {
    var slash := Until(rest, {'/'});
    FromParts(scheme, rest[..slash], rest[slash..])
  }

  /** url.Parse on text with "://", and what Canonical makes of it. */
  function FromUrl(work: string): Identity {
    var k := Until(work, {':'});
    if OccursAt(work, "://", k) && IsScheme(work[..k]) then FromRest(work[..k], work[k + 3..]) else Unparseable
  }

  function OfTrimmed(s: string): Identity {
    if Contains(s, "://") then FromUrl(s)
    else
      match Scp(s)
      case Some((host, path)) => Known(Finish(Lower(host) + "/" + TrimLeadingSlash(path)))
      case None => FromUrl("https://" + s)
  }

  function Canonical(raw: string): Identity {
    var s := TrimSpace(raw);
    if s == "" then Empty else OfTrimmed(s)
  }

  // ---------------------------------------------------------------- spellings of one remote

  /** A host of unreserved characters. */
  predicate PlainHost(h: string) {
    h != "" && AllPlain(h, {})
  }

  /** A path as remotes are written: not empty, no leading slash. */
  predicate PlainPath(p: string) {
    p != "" && p[0] != '/' && AllPlain(p, {'/'})
  }

  datatype Spelling =
    | Url(scheme: string, user: Option<string>, port: Option<string>)
    | ScpForm(user: Option<string>)
    | Bare

  predicate ValidSpelling(sp: Spelling) {
    match sp
    case Url(scheme, user, port) =>
      && IsScheme(scheme) && (user.Some? ==> AllPlain(user.value, {':'}))
      && (port.Some? ==> port.value != "" && IsPort(port.value))
    case ScpForm(user) => user.Some? ==> user.value != "" && AllPlain(user.value, {})
    case Bare => true
  }

  function UserPrefix(user: Option<string>): string {
    if user.Some? then user.value + "@" else ""
  }

  function HostPath(host: string, path: string): string {
    host + (":" + path)
  }

  function Authority(user: Option<string>, host: string, port: Option<string>): string {
    UserPrefix(user) + HostPort(host, port)
  }

  function HostPort(host: string, port: Option<string>): string {
    if port.Some? then host + ":" + port.value else host
  }

  function Spell(sp: Spelling, host: string, path: string): string {
    match sp
    case Url(scheme, user, port) => scheme + ("://" + (Authority(user, host, port) + ("/" + path)))
    case ScpForm(user) => if user.Some? then user.value + ("@" + HostPath(host, path)) else HostPath(host, path)
    case Bare => host + ("/" + path)
  }

  /** The host part of the identity: lower-case, with a port only where the scheme's default is another. */
  function HostOf(sp: Spelling, host: string): string {
    if sp.Url? && sp.port.Some? && sp.port.value != DefaultPort(sp.scheme) then Lower(host) + ":" + sp.port.value
    else Lower(host)
  }

  // ---------------------------------------------------------------- small facts about strings

  predicate IsPadding(s: string) {
    forall c <- s :: IsSpace(c)
  }

  lemma {:induction false} TrimLeftPadded(l: string, s: string)
    requires IsPadding(l) && (s == "" || !IsSpace(s[0]))
    ensures TrimLeft(l + s) == s
  {
    if l == "" {
      assert l + s == s;
    } else {
      assert l[0] in l && (l + s)[1..] == l[1..] + s;
      TrimLeftPadded(l[1..], s);
    }
  }

  lemma {:induction false} TrimRightPadded(s: string, r: string)
    requires IsPadding(r) && (s == "" || !IsSpace(s[|s| - 1]))
    ensures TrimRight(s + r) == s
  {
    if r == "" {
      assert s + r == s;
    } else {
      assert r[|r| - 1] in r && (s + r)[..|s + r| - 1] == s + r[..|r| - 1];
      TrimRightPadded(s, r[..|r| - 1]);
    }
  }

  lemma Trimmed(l: string, s: string, r: string)
    requires IsPadding(l) && IsPadding(r) && s != "" && !IsSpace(s[0]) && !IsSpace(s[|s| - 1])
    ensures TrimSpace(l + s + r) == s
  {
    assert l + s + r == l + (s + r);
    TrimLeftPadded(l, s + r);
    TrimRightPadded(s, r);
  }

  lemma UntilIs(a: string, b: string, stop: set<char>)
    requires (forall c <- a :: c !in stop) && (b == "" || b[0] in stop)
    ensures Until(a + b, stop) == |a|
  {
    hide Until;
    var s := a + b;
    assert forall i :: 0 <= i < |a| ==> s[i] in a;
    assert b != "" ==> s[|a|] == b[0];
  }

  lemma LastIndexIs(a: string, c: char, b: string)
    requires c !in b
    ensures LastIndex(a + [c] + b, c) == |a|
    ensures LastIndex(b, c) == -1
  {
    hide LastIndex;
    var s := a + [c] + b;
    assert s[|a|] == c;
    assert forall i :: |a| < i < |s| ==> s[i] in b;
    assert forall i :: 0 <= i < |b| ==> b[i] in b;
  }

  lemma LowerOfPort(host: string, port: string)
    requires IsPort(port)
    ensures Lower(host + ":" + port) == Lower(host) + ":" + port
  {
    forall i | 0 <= i < |port| ensures LowerChar(port[i]) == port[i] { assert port[i] in port; }
  }

  lemma LowerHasNo(s: string, c: char)
    requires c !in s && !IsLetter(c)
    ensures c !in Lower(s)
  {
    forall i | 0 <= i < |s| ensures Lower(s)[i] != c { assert s[i] in s; }
  }

  lemma PlainHas(s: string, also: set<char>, c: char)
    requires AllPlain(s, also) && c !in also && !IsPlain(c)
    ensures c !in s
  {}

  // ---------------------------------------------------------------- the three shapes

  lemma HostPortFacts(host: string, port: Option<string>, scheme: string)
    requires PlainHost(host) && (port.Some? ==> port.value != "" && IsPort(port.value))
    ensures
      var hp := HostPort(host, port);
      && AllPlain(hp, {':'}) && '/' !in hp && '@' !in hp
      && (LastIndex(hp, ':') >= 0 ==> IsPort(hp[LastIndex(hp, ':') + 1..]))
      && StripDefaultPort(Lower(hp), scheme) == HostOf(Url(scheme, None, port), host)
      && HostOf(Url(scheme, None, port), host) != ""
  {
    hide LastIndex, DefaultPort, Lower;
    PlainHas(host, {}, ':');
    LowerHasNo(host, ':');
    if port.Some? {
      var p := port.value;
      PortHasNo(p);
      LastIndexIs(host, ':', p);
      LowerOfPort(host, p);
      LastIndexIs(Lower(host), ':', p);
      assert HostPort(host, port) == host + [':'] + p;
      assert (host + [':'] + p)[|host| + 1..] == p;
      var l := Lower(host) + [':'] + p;
      assert Lower(HostPort(host, port)) == l;
      assert l[|host| + 1..] == p && l[..|host|] == Lower(host);
    } else {
      LastIndexIs("", ':', host);
      LastIndexIs("", ':', Lower(host));
    }
  }

  lemma PortHasNo(p: string)
    requires IsPort(p)
    ensures ':' !in p && '@' !in p && '/' !in p && AllPlain(p, {})
  {}

  lemma AuthorityFacts(user: Option<string>, hp: string)
    requires (user.Some? ==> AllPlain(user.value, {':'})) && AllPlain(hp, {':'}) && '/' !in hp && '@' !in hp
    ensures
      var a := UserPrefix(user) + hp;
      AllPlain(a, {'@', ':'}) && '/' !in a && a[LastIndex(a, '@') + 1..] == hp
  {
    hide LastIndex;
    var a := UserPrefix(user) + hp;
    if user.Some? {
      assert a == user.value + ['@'] + hp;
      LastIndexIs(user.value, '@', hp);
    } else {
      assert a == hp;
      LastIndexIs("", '@', hp);
    }
  }

  lemma UrlForm(scheme: string, user: Option<string>, port: Option<string>, host: string, path: string)
    requires ValidSpelling(Url(scheme, user, port)) && PlainHost(host) && PlainPath(path)
    ensures FromUrl(Spell(Url(scheme, user, port), host, path)) ==
            Known(Finish(HostOf(Url(scheme, user, port), host) + "/" + path))
  {
    hide *;
    UrlParts(scheme, user, port, host);
    HostPortFacts(host, port, scheme);
    AuthorityFacts(user, HostPort(host, port));
    UrlText(scheme, Authority(user, host, port), path, HostPort(host, port), HostOf(Url(scheme, user, port), host));
    SpellUrl(scheme, user, port, host, path);
  }

  lemma UrlParts(scheme: string, user: Option<string>, port: Option<string>, host: string)
    requires ValidSpelling(Url(scheme, user, port))
    ensures IsScheme(scheme) && (user.Some? ==> AllPlain(user.value, {':'}))
    ensures port.Some? ==> port.value != "" && IsPort(port.value)
    ensures HostOf(Url(scheme, user, port), host) == HostOf(Url(scheme, None, port), host)
    ensures Authority(user, host, port) == UserPrefix(user) + HostPort(host, port)
  {}

  lemma SpellUrl(scheme: string, user: Option<string>, port: Option<string>, host: string, path: string)
    ensures Spell(Url(scheme, user, port), host, path) ==
            scheme + ("://" + (Authority(user, host, port) + ("/" + path)))
  {}

  lemma UrlText(scheme: string, authority: string, path: string, hp: string, host: string)
    requires IsScheme(scheme) && AllPlain(authority, {'@', ':'}) && '/' !in authority && PlainPath(path)
    requires authority[LastIndex(authority, '@') + 1..] == hp
    requires LastIndex(hp, ':') >= 0 ==> IsPort(hp[LastIndex(hp, ':') + 1..])
    requires StripDefaultPort(Lower(hp), scheme) == host && host != ""
    ensures FromUrl(scheme + ("://" + (authority + ("/" + path)))) == Known(Finish(host + "/" + path))
  {
    hide *;
    PathRooted(path);
    PartsKnown(scheme, authority, path, hp, host);
    RestParts(scheme, authority, "/" + path);
    UrlRest(scheme, authority + ("/" + path));
  }

  lemma PathRooted(path: string)
    requires PlainPath(path)
    ensures "/" + path != "" && ("/" + path)[0] == '/' && TrimLeadingSlash("/" + path) == path && path != ""
    ensures AllPlain("/" + path, {'/'})
  {}

  lemma PartsKnown(scheme: string, authority: string, path: string, hp: string, host: string)
    requires AllPlain(authority, {'@', ':'}) && PlainPath(path) && authority[LastIndex(authority, '@') + 1..] == hp
    requires LastIndex(hp, ':') >= 0 ==> IsPort(hp[LastIndex(hp, ':') + 1..])
    requires StripDefaultPort(Lower(hp), scheme) == host && host != ""
    ensures FromParts(scheme, authority, "/" + path) == Known(Finish(host + "/" + path))
  {
    hide AllPlain, IsPort, StripDefaultPort, Finish, Lower, LastIndex, PlainPath, TrimLeadingSlash;
    PathRooted(path);
  }

  lemma Cut(a: string, b: string)
    ensures (a + b)[..|a|] == a && (a + b)[|a|..] == b
  {}

  lemma RestParts(scheme: string, authority: string, path: string)
    requires '/' !in authority && path != "" && path[0] == '/'
    ensures FromRest(scheme, authority + path) == FromParts(scheme, authority, path)
  {
    hide FromParts, Until;
    UntilIs(authority, path, {'/'});
    Cut(authority, path);
  }

  lemma UrlRest(scheme: string, rest: string)
    requires IsScheme(scheme)
    ensures FromUrl(scheme + ("://" + rest)) == FromRest(scheme, rest)
  {
    hide FromRest, Until;
    SchemeHasNoColon(scheme);
    UntilIs(scheme, "://" + rest, {':'});
    Cut(scheme, "://" + rest);
    Cut("://", rest);
    var work := scheme + ("://" + rest);
    assert work[|scheme|..|scheme| + 3] == "://";
    assert work[|scheme| + 3..] == rest;
  }

  lemma SchemeHasNoColon(scheme: string)
    requires IsScheme(scheme)
    ensures ':' !in scheme
  {}

  lemma ScpShape(user: Option<string>, host: string, path: string)
    requires ValidSpelling(ScpForm(user)) && PlainHost(host) && PlainPath(path)
    ensures
      var s := Spell(ScpForm(user), host, path);
      !Contains(s, "://") && Scp(s) == Some((host, path))
  {
    HostColonPathIs(host, path);
    PlainHas(path, {'/'}, ':');
    PlainHas(host, {}, ':');
    var hp := HostPath(host, path);
    if user.Some? {
      ScpWithUser(user.value, host, path, hp);
    } else {
      PlainHas(path, {'/'}, '@');
      PlainHas(host, {}, '@');
      OneColon(host, path);
      ScpWithoutUser(hp);
    }
  }

  lemma ScpWithUser(user: string, host: string, path: string, hp: string)
    requires user != "" && AllPlain(user, {}) && ':' !in host && ':' !in path && path != "" && path[0] != '/'
    requires hp == host + (":" + path) && HostColonPath(hp).Some?
    ensures !Contains(user + ("@" + hp), "://") && Scp(user + ("@" + hp)) == HostColonPath(hp)
  {
    hide HostColonPath, Until;
    var lead := user + "@" + host;
    assert user + ("@" + hp) == lead + (":" + path);
    PlainHas(user, {}, ':');
    OneColon(lead, path);
    UntilIs(user, "@" + hp, {'@', '/'});
    Cut(user, "@" + hp);
    Cut("@", hp);
    assert (user + ("@" + hp))[|user| + 1..] == hp;
  }

  lemma ScpWithoutUser(hp: string)
    requires '@' !in hp
    ensures Scp(hp) == HostColonPath(hp)
  {}

  /** One colon, not followed by a slash, is no scheme separator. */
  lemma OneColon(lead: string, path: string)
    requires ':' !in lead && ':' !in path && path != "" && path[0] != '/'
    ensures !Contains(lead + (":" + path), "://")
  {
    var s := lead + (":" + path);
    assert forall j :: 0 <= j < |lead| ==> s[j] in lead;
    assert forall j :: |lead| < j < |s| ==> s[j] in path;
    assert s[|lead| + 1] == path[0];
    forall i | OccursAt(s, "://", i) ensures s[i] == ':' && s[i + 1] == '/' {
      Marked(s, i);
    }
  }

  lemma Marked(s: string, i: int)
    requires OccursAt(s, "://", i)
    ensures s[i] == ':' && s[i + 1] == '/' && ':' in s
  {
    assert s[i] == s[i..i + 3][0] && s[i + 1] == s[i..i + 3][1];
  }

  lemma HostColonPathIs(host: string, path: string)
    requires PlainHost(host) && PlainPath(path)
    ensures HostColonPath(HostPath(host, path)) == Some((host, path))
  {
    hide Until;
    var s := HostPath(host, path);
    UntilIs(host, ":" + path, {':', '/'});
    Cut(host, ":" + path);
    assert s[..|host|] == host && s[|host| + 1..] == path;
  }

  lemma BareShape(host: string, path: string)
    requires PlainHost(host) && PlainPath(path)
    ensures !Contains(Spell(Bare, host, path), "://") && Scp(Spell(Bare, host, path)) == None
  {
    hide Until;
    var s := host + ("/" + path);
    assert ':' !in s;
    NoMarker(s);
    UntilIs(host, "/" + path, {'@', '/'});
    UntilIs(host, "/" + path, {':', '/'});
  }

  // ---------------------------------------------------------------- one identity

  lemma SpellingIsTrimmed(sp: Spelling, host: string, path: string)
    requires ValidSpelling(sp) && PlainHost(host) && PlainPath(path)
    ensures
      var s := Spell(sp, host, path);
      s != "" && !IsSpace(s[0]) && !IsSpace(s[|s| - 1])
  {
    var s := Spell(sp, host, path);
    assert s[|s| - 1] == path[|path| - 1] && path[|path| - 1] in path;
    match sp {
      case Url(scheme, user, port) => assert s[0] == scheme[0];
      case ScpForm(user) =>
        if user.Some? {
          assert s[0] == user.value[0] && user.value[0] in user.value;
        } else {
          assert s[0] == host[0] && host[0] in host;
        }
      case Bare => assert s[0] == host[0] && host[0] in host;
    }
  }

  /** Every spelling of a plain host and path, whatever surrounds it in white space, has the identity host/path. */
  lemma EverySpellingIsKnown(sp: Spelling, host: string, path: string, l: string, r: string)
    requires ValidSpelling(sp) && PlainHost(host) && PlainPath(path) && IsPadding(l) && IsPadding(r)
    ensures Canonical(l + Spell(sp, host, path) + r) == Known(Finish(HostOf(sp, host) + "/" + path))
  {
    var s := Spell(sp, host, path);
    SpellingIsTrimmed(sp, host, path);
    Trimmed(l, s, r);
    hide TrimSpace, OfTrimmed, Finish, HostOf, Spell, PlainHost, PlainPath;
    match sp {
      case Url(scheme, user, port) => UrlIsKnown(scheme, user, port, host, path);
      case ScpForm(user) => ScpIsKnown(user, host, path);
      case Bare => BareIsKnown(host, path);
    }
  }

  lemma UrlIsKnown(scheme: string, user: Option<string>, port: Option<string>, host: string, path: string)
    requires ValidSpelling(Url(scheme, user, port)) && PlainHost(host) && PlainPath(path)
    ensures
      var sp := Url(scheme, user, port);
      OfTrimmed(Spell(sp, host, path)) == Known(Finish(HostOf(sp, host) + "/" + path))
  {
    UrlForm(scheme, user, port, host, path);
    UrlHasMarker(scheme, user, port, host, path);
    hide FromUrl, Spell, Contains, Finish, HostOf;
  }

  lemma ScpIsKnown(user: Option<string>, host: string, path: string)
    requires ValidSpelling(ScpForm(user)) && PlainHost(host) && PlainPath(path)
    ensures
      var sp := ScpForm(user);
      OfTrimmed(Spell(sp, host, path)) == Known(Finish(HostOf(sp, host) + "/" + path))
  {
    ScpShape(user, host, path);
    hide FromUrl, Spell, Scp, Contains, Finish;
  }

  lemma BareIsKnown(host: string, path: string)
    requires PlainHost(host) && PlainPath(path)
    ensures OfTrimmed(Spell(Bare, host, path)) == Known(Finish(HostOf(Bare, host) + "/" + path))
  {
    HttpsIsBare(host);
    hide *;
    BareShape(host, path);
    UrlForm("https", None, None, host, path);
    BareIsHttps(host, path);
    OfTrimmedBare(Spell(Bare, host, path));
  }

  lemma HttpsIsBare(host: string)
    ensures ValidSpelling(Url("https", None, None)) && HostOf(Url("https", None, None), host) == HostOf(Bare, host)
  {}

  lemma OfTrimmedBare(s: string)
    requires !Contains(s, "://") && Scp(s) == None
    ensures OfTrimmed(s) == FromUrl("https://" + s)
  {
    hide Contains, Scp, FromUrl;
  }

  lemma UrlHasMarker(scheme: string, user: Option<string>, port: Option<string>, host: string, path: string)
    ensures Contains(Spell(Url(scheme, user, port), host, path), "://")
  {
    var s := Spell(Url(scheme, user, port), host, path);
    assert s[|scheme|..|scheme| + 3] == "://";
    assert OccursAt(s, "://", |scheme|);
  }

  lemma BareIsHttps(host: string, path: string)
    ensures "https://" + Spell(Bare, host, path) == Spell(Url("https", None, None), host, path)
  {
    assert Authority(None, host, None) == host;
  }

  /** A path without its `.git` and trailing slash. */
  function Clean(path: string): string {
    Finish(path)
  }

  /** Cleaning the path cleans the identity; it can only take the separating slash when nothing is left of the path. */
  lemma FinishSplits(host: string, path: string)
    requires path != "" && path[0] != '/'
    ensures Finish(host + "/" + path) == if Clean(path) == "" then host else host + "/" + Clean(path)
  {
    var lead := host + "/";
    GitSuffixOf(lead, path);
    var q := TrimSuffix(path, ".git");
    assert TrimSuffix(lead + path, ".git") == lead + q;
    assert q != "" ==> q[0] == path[0];
    hide TrimSuffix;
    SlashSuffixOf(host, q);
  }

  lemma GitSuffixOf(lead: string, path: string)
    requires lead != "" && lead[|lead| - 1] == '/'
    ensures TrimSuffix(lead + path, ".git") == lead + TrimSuffix(path, ".git")
  {
    var s := lead + path;
    if |path| >= 4 {
      assert s[|s| - 4..] == path[|path| - 4..];
      if EndsWith(path, ".git") {
        assert s[..|s| - 4] == lead + path[..|path| - 4];
      }
    } else if |s| >= 4 {
      assert s[|s| - 4..][3 - |path|] == '/';
    }
  }

  lemma SlashSuffixOf(host: string, q: string)
    requires q != "" ==> q[0] != '/'
    ensures
      var c := TrimSuffix(q, "/");
      TrimSuffix(host + "/" + q, "/") == (if c == "" then host else host + "/" + c)
  {}

  /** `.git` at the end makes no difference, exactly when the path does not end in `.git` already. */
  lemma GitSuffixIsIgnored(path: string)
    ensures Clean(path + ".git") == Clean(path) <==> !EndsWith(path, ".git")
  {
    assert (path + ".git")[..|path|] == path;
  }

  lemma HostOfHasNoSlash(sp: Spelling, host: string)
    requires ValidSpelling(sp) && PlainHost(host)
    ensures '/' !in HostOf(sp, host)
  {
    PlainHas(host, {}, '/');
    LowerHasNo(host, '/');
    if sp.Url? && sp.port.Some? { PortHasNo(sp.port.value); }
  }

  function Joined(host: string, clean: string): string {
    if clean == "" then host else host + "/" + clean
  }

  lemma JoinedIsInjective(host: string, clean: string, host': string, clean': string)
    requires '/' !in host && '/' !in host' && Joined(host, clean) == Joined(host', clean')
    ensures host == host' && clean == clean'
  {
    hide Until;
    var s := Joined(host, clean);
    var tail, tail' := if clean == "" then "" else "/" + clean, if clean' == "" then "" else "/" + clean';
    assert s == host + tail == host' + tail';
    UntilIs(host, tail, {'/'});
    UntilIs(host', tail', {'/'});
    Cut(host, tail);
    Cut(host', tail');
    assert tail == tail';
    assert clean != "" ==> clean == tail[1..];
    assert clean' != "" ==> clean' == tail'[1..];
  }

  /** Two spellings are the same remote exactly when their lower-case hosts and their cleaned paths agree. */
  lemma SameIdentityExactly(sp: Spelling, host: string, path: string, sp': Spelling, host': string, path': string)
    requires ValidSpelling(sp) && PlainHost(host) && PlainPath(path)
    requires ValidSpelling(sp') && PlainHost(host') && PlainPath(path')
    ensures Canonical(Spell(sp, host, path)) == Canonical(Spell(sp', host', path')) <==>
            HostOf(sp, host) == HostOf(sp', host') && Clean(path) == Clean(path')
  {
    assert path[0] != '/' && path'[0] != '/';
    hide *;
    SpelledIdentity(sp, host, path);
    SpelledIdentity(sp', host', path');
    HostOfHasNoSlash(sp, host);
    HostOfHasNoSlash(sp', host');
    if Joined(HostOf(sp, host), Clean(path)) == Joined(HostOf(sp', host'), Clean(path')) {
      JoinedIsInjective(HostOf(sp, host), Clean(path), HostOf(sp', host'), Clean(path'));
    }
  }

  lemma SpelledIdentity(sp: Spelling, host: string, path: string)
    requires ValidSpelling(sp) && PlainHost(host) && PlainPath(path)
    ensures Canonical(Spell(sp, host, path)) == Known(Joined(HostOf(sp, host), Clean(path)))
  {
    EverySpellingIsKnown(sp, host, path, "", "");
    assert "" + Spell(sp, host, path) + "" == Spell(sp, host, path);
    FinishSplits(HostOf(sp, host), path);
    hide Canonical, Spell, HostOf, Clean, Finish;
  }

  // ---------------------------------------------------------------- identities read back

  lemma LowerTwice(s: string)
    ensures Lower(Lower(s)) == Lower(s)
  {}

  lemma LowerIsPlain(host: string)
    requires PlainHost(host)
    ensures PlainHost(Lower(host))
  {
    forall i | 0 <= i < |host| ensures IsPlain(Lower(host)[i]) { assert host[i] in host; }
  }

  lemma CleanIsPlain(path: string)
    requires PlainPath(path) && Clean(path) != ""
    ensures PlainPath(Clean(path)) && Clean(path) <= path
  {
    assert Clean(path) == path[..|Clean(path)|];
  }

  /** An identity without a port, given back as input, is itself, exactly when its path is not empty and has no `.git`
      or slash left. */
  lemma IdentityReadsBackExactly(host: string, path: string)
    requires PlainHost(host) && PlainPath(path)
    ensures
      var form := Joined(Lower(host), Clean(path));
      && Canonical(form) == Known(form) <==>
         Clean(path) != "" && !EndsWith(Clean(path), ".git") && !EndsWith(Clean(path), "/")
    ensures Clean(path) == "" ==> Canonical(Lower(host)) == Unparseable
  {
    LowerIsPlain(host);
    LowerTwice(host);
    var l, c := Lower(host), Clean(path);
    if c == "" {
      hide *;
      BareHostIsUnparseable(l);
      JoinedNothing(l);
    } else {
      CleanIsPlain(path);
      SpelledIdentity(Bare, l, c);
      assert Spell(Bare, l, c) == l + "/" + c;
      assert HostOf(Bare, l) == l;
      CleanedTwice(c);
      HostOfHasNoSlash(Bare, l);
      hide *;
      JoinedForm(l, c);
      if Joined(l, Clean(c)) == Joined(l, c) {
        JoinedIsInjective(l, Clean(c), l, c);
      }
    }
  }

  /** A path that was nothing but `.git` leaves the bare host, which is not accepted back. */
  lemma BareHostIsUnparseable(host: string)
    requires PlainHost(host)
    ensures Canonical(host) == Unparseable
  {
    PlainHas(host, {}, ':');
    PlainHas(host, {}, '/');
    PlainHas(host, {}, '@');
    HostIsTrimmed(host);
    HostAlone(host);
    NoMarker(host);
    hide *;
    CanonicalOfTrimmed(host);
  }

  lemma CanonicalOfTrimmed(s: string)
    requires TrimSpace(s) == s != "" && !Contains(s, "://") && Scp(s) == None
    ensures Canonical(s) == FromUrl("https://" + s)
  {
    OfTrimmedBare(s);
    hide TrimSpace, OfTrimmed, FromUrl;
  }

  lemma HostIsTrimmed(host: string)
    requires PlainHost(host)
    ensures TrimSpace(host) == host != ""
  {
    assert host[0] in host && host[|host| - 1] in host;
    Trimmed("", host, "");
    assert "" + host + "" == host;
  }

  lemma NoMarker(s: string)
    requires ':' !in s
    ensures !Contains(s, "://")
  {
    if i :| 0 <= i <= |s| && OccursAt(s, "://", i) { Marked(s, i); }
  }

  lemma HostAlone(host: string)
    requires PlainHost(host) && ':' !in host && '/' !in host && '@' !in host
    ensures Scp(host) == None && FromUrl("https://" + host) == Unparseable
  {
    hide Until, LastIndex, Lower, StripDefaultPort, Contains;
    assert host + "" == host;
    UntilIs(host, "", {'@', '/'});
    UntilIs(host, "", {':', '/'});
    UntilIs(host, "", {'/'});
    LastIndexIs("", '@', host);
    LastIndexIs("", ':', host);
    assert "https" + ("://" + host) == "https://" + host;
    UrlRest("https", host);
    assert host[..|host|] == host && host[|host|..] == "";
  }

  lemma JoinedNothing(host: string)
    ensures Joined(host, "") == host
  {}

  lemma JoinedForm(host: string, clean: string)
    requires clean != ""
    ensures Joined(host, clean) == host + "/" + clean
  {}

  lemma CleanedTwice(c: string)
    requires c != ""
    ensures Clean(c) == c <==> !EndsWith(c, ".git") && !EndsWith(c, "/")
  {}

  /** An identity with a port, given back as input, is taken for an SCP-style remote and becomes another identity. */
  lemma IdentityWithPortReadsBackWrong(host: string, port: string, path: string)
    requires PlainHost(host) && port != "" && IsPort(port) && PlainPath(path)
    ensures
      var form := HostPath(Lower(host), port + "/" + path);
      && Canonical(form) == Known(Joined(Lower(host), Clean(port + "/" + path)))
      && Canonical(form) != Known(form)
  {
    LowerIsPlain(host);
    LowerTwice(host);
    PortStartsPath(port, path);
    hide Canonical, Spell, PlainPath, PlainHost, Clean, Lower;
    var l, p := Lower(host), port + "/" + path;
    SpelledIdentity(ScpForm(None), l, p);
    ScpSpelling(l, p);
    NoColonLeft(l, p);
    assert HostPath(l, p)[|l|] == ':';
  }

  lemma ScpSpelling(host: string, path: string)
    ensures Spell(ScpForm(None), host, path) == HostPath(host, path) && HostOf(ScpForm(None), host) == Lower(host)
  {}

  lemma NoColonLeft(host: string, path: string)
    requires PlainHost(host) && PlainPath(path)
    ensures ':' !in Joined(host, Clean(path))
  {
    PlainHas(host, {}, ':');
    PlainHas(path, {'/'}, ':');
    assert Clean(path) == path[..|Clean(path)|];
    hide Clean, AllPlain;
  }

  lemma PortStartsPath(port: string, path: string)
    requires port != "" && IsPort(port) && PlainPath(path)
    ensures PlainPath(port + "/" + path)
  {
    PortHasNo(port);
    assert port[0] in port;
  }

  // ---------------------------------------------------------------- ports

  /** A scheme's own port says nothing: with it a URL is the same remote as the bare and the SCP-style spelling. */
  lemma DefaultPortsAreDropped(host: string, path: string)
    requires PlainHost(host) && PlainPath(path)
    ensures
      var same := Canonical(Spell(Bare, host, path));
      && Canonical(Spell(ScpForm(Some("git")), host, path)) == same
      && Canonical(Spell(Url("ssh", Some("git"), Some("22")), host, path)) == same
      && Canonical(Spell(Url("https", None, Some("443")), host, path)) == same
      && Canonical(Spell(Url("http", None, Some("80")), host, path)) == same
      && Canonical(Spell(Url("git", None, Some("9418")), host, path)) == same
      && Canonical(Spell(Url("SSH", None, None), host, path)) == same
  {
    DefaultPortsAreValid(host);
    hide *;
    SameIdentityExactly(ScpForm(Some("git")), host, path, Bare, host, path);
    SameIdentityExactly(Url("ssh", Some("git"), Some("22")), host, path, Bare, host, path);
    SameIdentityExactly(Url("https", None, Some("443")), host, path, Bare, host, path);
    SameIdentityExactly(Url("http", None, Some("80")), host, path, Bare, host, path);
    SameIdentityExactly(Url("git", None, Some("9418")), host, path, Bare, host, path);
    SameIdentityExactly(Url("SSH", None, None), host, path, Bare, host, path);
  }

  lemma SchemesAreLower()
    ensures Lower("ssh") == "ssh" && Lower("https") == "https" && Lower("http") == "http" && Lower("git") == "git"
    ensures IsScheme("ssh") && IsScheme("https") && IsScheme("http") && IsScheme("git") && IsScheme("SSH")
    ensures IsPort("22") && IsPort("443") && IsPort("80") && IsPort("9418") && AllPlain("git", {})
            && AllPlain("git", {':'})
  {}

  lemma DefaultPortsAreValid(host: string)
    ensures ValidSpelling(ScpForm(Some("git"))) && HostOf(ScpForm(Some("git")), host) == HostOf(Bare, host)
    ensures
      var sp := Url("ssh", Some("git"), Some("22"));
      ValidSpelling(sp) && HostOf(sp, host) == HostOf(Bare, host)
    ensures
      var sp := Url("https", None, Some("443"));
      ValidSpelling(sp) && HostOf(sp, host) == HostOf(Bare, host)
    ensures
      var sp := Url("http", None, Some("80"));
      ValidSpelling(sp) && HostOf(sp, host) == HostOf(Bare, host)
    ensures
      var sp := Url("git", None, Some("9418"));
      ValidSpelling(sp) && HostOf(sp, host) == HostOf(Bare, host)
    ensures ValidSpelling(Url("SSH", None, None)) && ValidSpelling(Bare)
    ensures HostOf(Url("SSH", None, None), host) == HostOf(Bare, host)
  {
    SchemesAreLower();
    hide Lower, IsScheme, IsPort, AllPlain;
  }

  /** Any other port stays: two ssh remotes on one host are the same exactly when their ports are, 22 being none. */
  lemma OtherPortsAreKept(host: string, path: string, a: string, b: string)
    requires PlainHost(host) && PlainPath(path) && a != "" && b != "" && IsPort(a) && IsPort(b)
    ensures Canonical(Spell(Url("ssh", None, Some(a)), host, path))
            == Canonical(Spell(Url("ssh", None, Some(b)), host, path))
       <==> a == b
  {
    SshHost(host, a);
    SshHost(host, b);
    hide *;
    SameIdentityExactly(Url("ssh", None, Some(a)), host, path, Url("ssh", None, Some(b)), host, path);
  }

  /** The host part carries the port exactly. */
  lemma SshHost(host: string, a: string)
    requires a != "" && IsPort(a)
    ensures
      var sp := Url("ssh", None, Some(a));
      && ValidSpelling(sp) && |HostOf(sp, host)| >= |host|
      && HostOf(sp, host)[|host|..] == if a == "22" then "" else ":" + a
    ensures forall b :: ":" + a == ":" + b ==> a == b
  {
    SchemesAreLower();
    hide Lower, IsScheme, IsPort, AllPlain;
    assert (":" + a)[1..] == a;
    forall b | ":" + a == ":" + b ensures a == b { assert (":" + b)[1..] == b; }
    assert (Lower(host) + ":" + a)[|host|..] == ":" + a;
    assert |Lower(host)| == |host|;
  }
}
