/** internal/conflict: Syncthing's conflict file names, and the variants of one file. */
module ConflictName {
  import opened Base
  import opened Paths

  // ---------------------------------------------------------------- the name

  const MARKER: string := ".sync-conflict-"

  predicate IsDigit(c: char) { '0' <= c <= '9' }

  /** The base32 alphabet of device IDs. */
  predicate IsBase32(c: char) { 'A' <= c <= 'Z' || '2' <= c <= '7' }

  predicate IsDate(s: string) { |s| == 8 && forall c <- s :: IsDigit(c) }

  predicate IsTime(s: string) { |s| == 6 && forall c <- s :: IsDigit(c) }

  predicate IsDevice(s: string) { |s| == 7 && forall c <- s :: IsBase32(c) }

  function Number(s: string): nat {
    if s == "" then 0
    else 10 * Number(s[..|s| - 1]) + if IsDigit(s[|s| - 1]) then (s[|s| - 1] as int - '0' as int) else 0
  }

  function DaysIn(month: nat, year: nat): nat {
    if month in {4, 6, 9, 11} then 30
    else if month != 2 then 31
    else if year % 4 == 0 && (year % 100 != 0 || year % 400 == 0) then 29 else 28
  }

  /** time.Parse accepts the calendar values. */
  predicate IsCalendar(date: string, time: string) {
    && IsDate(date) && IsTime(time)
    && 1 <= Number(date[4..6]) <= 12
    && 1 <= Number(date[6..8]) <= DaysIn(Number(date[4..6]), Number(date[..4]))
    && Number(time[..2]) < 24 && Number(time[2..4]) < 60 && Number(time[4..6]) < 60
  }

  /** The marker with its date, time and device: 38 characters. */
  function Block(date: string, time: string, device: string): string {
    MARKER + date + "-" + time + "-" + device
  }

  predicate IsBlock(s: string) {
    && |s| == 38 && s[..15] == MARKER && IsDate(s[15..23]) && s[23] == '-' && IsTime(s[24..30]) && s[30] == '-'
    && IsDevice(s[31..38])
  }

  /** The expression matches with the stem ending at `i`. */
  predicate MatchAt(s: string, i: nat) {
    && i + 38 <= |s| && '\n' !in s[..i] && IsBlock(s[i..i + 38])
    && (i + 38 == |s| || (s[i + 38] == '.' && '/' !in s[i + 38..]))
  }

  /** The leftmost match: the stem is matched reluctantly. */
  function FirstMatch(s: string, from: nat): (i: nat)
    ensures i <= |s| ==> MatchAt(s, i) && from <= i && i + 38 <= |s|
    ensures forall j :: from <= j <= |s| && MatchAt(s, j) ==> i <= j
    ensures i > |s| ==> i == |s| + 1
    decreases |s| + 1 - from
  {
    if from > |s| then |s| + 1 else if MatchAt(s, from) then from else FirstMatch(s, from + 1)
  }

  datatype Parsed =
    | NotConflict
    | BadTimestamp
    | Conflict(originalName: string, date: string, time: string, device: string, extension: string)

  /** Parse, of a base name. */
  function ParseName(base: string): Parsed {
    var i := FirstMatch(base, 0);
    if i > |base| then NotConflict
    else
      var date, time, device := base[i + 15..i + 23], base[i + 24..i + 30], base[i + 31..i + 38];
      if !IsCalendar(date, time) then BadTimestamp
      else Conflict(base[..i] + base[i + 38..], date, time, device, base[i + 38..])
  }

  function Parse(filename: string): Parsed {
    ParseName(BaseName(filename))
  }

  /** The name Syncthing gives the losing version of a file. */
  function Compose(stem: string, date: string, time: string, device: string, ext: string): string {
    stem + (Block(date, time, device) + ext)
  }

  predicate IsExtension(ext: string) {
    ext == "" || (ext[0] == '.' && '/' !in ext)
  }

  /** A whole marker inside the stem, at its end or before a dot. */
  predicate EarlierMarker(stem: string, j: nat) {
    j + 38 <= |stem| && IsBlock(stem[j..j + 38]) && (j + 38 == |stem| || stem[j + 38] == '.')
  }

  lemma BlockIsBlock(date: string, time: string, device: string)
    requires IsDate(date) && IsTime(time) && IsDevice(device)
    ensures
      var b := Block(date, time, device);
      IsBlock(b) && b[15..23] == date && b[24..30] == time && b[31..38] == device
  {}

  lemma NoDotInside(b: string, o: nat)
    requires IsBlock(b) && 0 < o < 38
    ensures b[0] == '.' && b[o] != '.'
  {
    if o < 15 {
      assert b[o] == MARKER[o];
    } else if 15 <= o < 23 {
      assert b[o] == b[15..23][o - 15] && b[15..23][o - 15] in b[15..23];
    } else if 24 <= o < 30 {
      assert b[o] == b[24..30][o - 24] && b[24..30][o - 24] in b[24..30];
    } else if 31 <= o {
      assert b[o] == b[31..38][o - 31] && b[31..38][o - 31] in b[31..38];
    }
    assert b[0] == MARKER[0];
  }

  /** Before the end of the stem the expression matches only at a whole marker inside the stem: a match cannot overlap
      the real marker, which starts with a dot. */
  lemma MatchInStem(stem: string, tail: string, j: nat)
    requires j < |stem| && tail != "" && tail[0] == '.' && '/' !in stem && '/' !in tail && '\n' !in stem
    ensures MatchAt(stem + tail, j) <==> EarlierMarker(stem, j)
  {
    var s := stem + tail;
    if j + 38 <= |stem| {
      assert s[j..j + 38] == stem[j..j + 38];
      assert s[..j] == stem[..j];
      assert '/' !in s;
    } else if j + 38 <= |s| {
      assert s[j..j + 38][|stem| - j] == s[|stem|] == tail[0];
      if IsBlock(s[j..j + 38]) { NoDotInside(s[j..j + 38], |stem| - j); }
    }
  }

  lemma MatchAtMarker(stem: string, date: string, time: string, device: string, ext: string)
    requires IsDate(date) && IsTime(time) && IsDevice(device) && IsExtension(ext)
    ensures
      var s := Compose(stem, date, time, device, ext);
      && (MatchAt(s, |stem|) <==> '\n' !in stem)
      && s[..|stem|] == stem && s[|stem| + 38..] == ext
      && s[|stem| + 15..|stem| + 23] == date && s[|stem| + 24..|stem| + 30] == time
      && s[|stem| + 31..|stem| + 38] == device
  {
    var s, b := Compose(stem, date, time, device, ext), Block(date, time, device);
    BlockIsBlock(date, time, device);
    hide IsBlock, Block, IsDate, IsTime, IsDevice;
    assert s[|stem|..|stem| + 38] == b && s[..|stem|] == stem && s[|stem| + 38..] == ext;
    assert s[|stem| + 15..|stem| + 23] == b[15..23] && s[|stem| + 24..|stem| + 30] == b[24..30];
    assert s[|stem| + 31..|stem| + 38] == b[31..38];
  }

  lemma BlockHasNoSlash(date: string, time: string, device: string)
    requires IsDate(date) && IsTime(time) && IsDevice(device)
    ensures '/' !in Block(date, time, device) && Block(date, time, device)[0] == '.'
            && |Block(date, time, device)| == 38
  {}

  /** Parsing a composed name gives back the name, time and device it was composed of, exactly when the stem holds no
      newline and no whole marker at its end or before a dot. */
  lemma RoundTripExactly(dir: string, stem: string, date: string, time: string, device: string, ext: string)
    requires IsCalendar(date, time) && IsDevice(device) && IsExtension(ext) && '/' !in stem
    ensures Parse(dir + "/" + Compose(stem, date, time, device, ext)) == Conflict(stem + ext, date, time, device, ext)
            <==> '\n' !in stem && !exists j: nat :: EarlierMarker(stem, j)
  {
    var s, tail := Compose(stem, date, time, device, ext), Block(date, time, device) + ext;
    BlockHasNoSlash(date, time, device);
    MatchAtMarker(stem, date, time, device, ext);
    assert '/' !in s && s != "";
    BaseOfJoined(dir, s);
    hide IsCalendar, MatchAt, EarlierMarker, BaseName, Block, FirstMatch;
    var i := FirstMatch(s, 0);
    if '\n' !in stem {
      forall j: nat | j < |stem| ensures MatchAt(s, j) <==> EarlierMarker(stem, j) {
        MatchInStem(stem, tail, j);
      }
      if j: nat :| EarlierMarker(stem, j) {
        assert i <= j;
        assert |s[i + 38..]| > |ext|;
      } else {
        assert i == |stem|;
      }
    } else {
      assert i != |stem|;
      assert i <= |s| ==> |s[i + 38..]| != |ext|;
    }
  }

  /** Only times that exist are accepted: year, month and day, hour, minute and second as decimal numbers. */
  lemma OnlyRealTimesAreAccepted(dir: string, stem: string, date: string, time: string, device: string, ext: string)
    requires IsDate(date) && IsTime(time) && IsDevice(device) && IsExtension(ext) && '/' !in stem
    requires '\n' !in stem && !exists j: nat :: EarlierMarker(stem, j)
    ensures
      var name := stem + (".sync-conflict-" + date + "-" + time + "-" + device + ext);
      var year, month, day := Number(date[..4]), Number(date[4..6]), Number(date[6..8]);
      Parse(dir + "/" + name) ==
        if 1 <= month <= 12 && 1 <= day <= DaysIn(month, year)
           && Number(time[..2]) <= 23 && Number(time[2..4]) <= 59 && Number(time[4..6]) <= 59
        then Conflict(stem + ext, date, time, device, ext) else BadTimestamp
  {
    var s := Compose(stem, date, time, device, ext);
    assert s == stem + (".sync-conflict-" + date + "-" + time + "-" + device + ext);
    MatchAtMarker(stem, date, time, device, ext);
    BaseOfComposed(dir, stem, date, time, device, ext);
    hide EarlierMarker, IsDate, IsTime, IsDevice, IsExtension;
    StemIsFirst(stem, date, time, device, ext);
    hide *;
    ParsedAt(dir + "/" + s, s, |stem|, date, time, device, ext);
    ByNumbers(date, time);
    assert stem + ext == s[..|stem|] + ext;
  }

  lemma BaseOfComposed(dir: string, stem: string, date: string, time: string, device: string, ext: string)
    requires IsDate(date) && IsTime(time) && IsDevice(device) && IsExtension(ext) && '/' !in stem
    ensures BaseName(dir + "/" + Compose(stem, date, time, device, ext)) == Compose(stem, date, time, device, ext)
  {
    var s := Compose(stem, date, time, device, ext);
    BlockHasNoSlash(date, time, device);
    hide Block;
    assert '/' !in s && s != "";
    BaseOfJoined(dir, s);
  }

  lemma StemIsFirst(stem: string, date: string, time: string, device: string, ext: string)
    requires IsDate(date) && IsTime(time) && IsDevice(device) && IsExtension(ext) && '/' !in stem && '\n' !in stem
    requires !exists j: nat :: EarlierMarker(stem, j)
    ensures FirstMatch(Compose(stem, date, time, device, ext), 0) == |stem|
  {
    var s, tail := Compose(stem, date, time, device, ext), Block(date, time, device) + ext;
    BlockHasNoSlash(date, time, device);
    MatchAtMarker(stem, date, time, device, ext);
    assert '/' !in tail;
    hide MatchAt, EarlierMarker, Block, FirstMatch, IsDate, IsTime, IsDevice, IsExtension;
    forall j: nat | j < |stem| ensures !MatchAt(s, j) {
      MatchInStem(stem, tail, j);
    }
  }

  /** What a match is parsed to. */
  lemma ParsedAt(filename: string, s: string, i: nat, date: string, time: string, device: string, ext: string)
    requires BaseName(filename) == s && FirstMatch(s, 0) == i && i + 38 <= |s|
    requires s[i + 15..i + 23] == date && s[i + 24..i + 30] == time && s[i + 31..i + 38] == device && s[i + 38..] == ext
    ensures Parse(filename) ==
            if IsCalendar(date, time) then Conflict(s[..i] + ext, date, time, device, ext) else BadTimestamp
  {
    hide IsCalendar, FirstMatch, BaseName;
  }

  lemma ByNumbers(date: string, time: string)
    requires IsDate(date) && IsTime(time)
    ensures
      var year, month, day := Number(date[..4]), Number(date[4..6]), Number(date[6..8]);
      IsCalendar(date, time) <==>
        && 1 <= month <= 12 && 1 <= day <= DaysIn(month, year)
        && Number(time[..2]) <= 23 && Number(time[2..4]) <= 59 && Number(time[4..6]) <= 59
  {
    hide Number, DaysIn;
  }

  /** Conversely a name that parses is put together from what was parsed: the original's stem, the marker, eight digits
      of date, six of time, seven base32 characters of device, and the extension. */
  lemma ParsedIsComposed(filename: string) returns (stem: string)
    requires Parse(filename).Conflict?
    ensures
      var c := Parse(filename);
      && c.originalName == stem + c.extension && '\n' !in stem
      && BaseName(filename) == stem + (".sync-conflict-" + c.date + "-" + c.time + "-" + c.device + c.extension)
      && |c.date| == 8 && |c.time| == 6 && |c.device| == 7
      && (forall x <- c.date :: x in "0123456789") && (forall x <- c.time :: x in "0123456789")
      && (forall x <- c.device :: x in "ABCDEFGHIJKLMNOPQRSTUVWXYZ234567")
      && (c.extension == "" || (c.extension[0] == '.' && '/' !in c.extension))
  {
    var i := WhereParsed(filename);
    hide *;
    MatchParts(BaseName(filename), i);
    stem := BaseName(filename)[..i];
  }

  lemma WhereParsed(filename: string) returns (i: nat)
    requires Parse(filename).Conflict?
    ensures
      var s := BaseName(filename);
      && i + 38 <= |s| && MatchAt(s, i)
      && Parse(filename) ==
         Conflict(s[..i] + s[i + 38..], s[i + 15..i + 23], s[i + 24..i + 30], s[i + 31..i + 38], s[i + 38..])
  {
    hide FirstMatch, IsCalendar, BaseName, MatchAt;
    i := FirstMatch(BaseName(filename), 0);
  }

  lemma MatchParts(s: string, i: nat)
    requires MatchAt(s, i)
    ensures
      var date, time, device, ext := s[i + 15..i + 23], s[i + 24..i + 30], s[i + 31..i + 38], s[i + 38..];
      && s == s[..i] + (".sync-conflict-" + date + "-" + time + "-" + device + ext)
      && (forall x <- date :: x in "0123456789") && (forall x <- time :: x in "0123456789")
      && (forall x <- device :: x in "ABCDEFGHIJKLMNOPQRSTUVWXYZ234567")
      && '\n' !in s[..i] && (ext == "" || (ext[0] == '.' && '/' !in ext))
  {
    var b := s[i..i + 38];
    BlockByCharacters(b);
    hide IsBlock;
    PartOfPart(s, i, 38, 15, 23);
    PartOfPart(s, i, 38, 24, 30);
    PartOfPart(s, i, 38, 31, 38);
    assert s == s[..i] + (b + s[i + 38..]);
  }

  lemma PartOfPart(s: string, i: nat, n: nat, from: nat, to: nat)
    requires i + n <= |s| && from <= to <= n
    ensures s[i..i + n][from..to] == s[i + from..i + to]
  {
    var a, b := s[i..i + n][from..to], s[i + from..i + to];
    assert |a| == |b| && forall k :: 0 <= k < |a| ==> a[k] == s[i + from + k] == b[k];
  }

  lemma BlockByCharacters(b: string)
    requires IsBlock(b)
    ensures b == ".sync-conflict-" + b[15..23] + "-" + b[24..30] + "-" + b[31..38]
    ensures (forall x <- b[15..23] :: x in "0123456789") && (forall x <- b[24..30] :: x in "0123456789")
    ensures forall x <- b[31..38] :: x in "ABCDEFGHIJKLMNOPQRSTUVWXYZ234567"
  {
    assert b == b[..15] + b[15..23] + [b[23]] + b[24..30] + [b[30]] + b[31..38];
    forall x | IsDigit(x) ensures x in "0123456789" { Digits(x); }
    forall x | IsBase32(x) ensures x in "ABCDEFGHIJKLMNOPQRSTUVWXYZ234567" { Letters(x); }
    hide IsDigit, IsBase32;
  }

  lemma Digits(x: char)
    requires IsDigit(x)
    ensures x in "0123456789"
  {
    assert x == "0123456789"[x as int - '0' as int];
  }

  lemma Letters(x: char)
    requires IsBase32(x)
    ensures x in "ABCDEFGHIJKLMNOPQRSTUVWXYZ234567"
  {
    var at := if 'A' <= x then x as int - 'A' as int else 26 + (x as int - '2' as int);
    assert x == "ABCDEFGHIJKLMNOPQRSTUVWXYZ234567"[at];
  }

  /** Decimal numbers, digit by digit. */
  lemma NumberOneMore(s: string, c: char)
    requires IsDigit(c)
    ensures Number(s + [c]) == 10 * Number(s) + (c as int - '0' as int) && Number("") == 0
  {
    assert (s + [c])[..|s|] == s;
  }

  /** A year has 365 days, or 366 when it is a leap year, and no month has fewer than 28 or more than 31. */
  lemma YearHasItsDays(y: nat)
    ensures DaysIn(1, y) + DaysIn(2, y) + DaysIn(3, y) + DaysIn(4, y) + DaysIn(5, y) + DaysIn(6, y) + DaysIn(7, y)
            + DaysIn(8, y) + DaysIn(9, y) + DaysIn(10, y) + DaysIn(11, y) + DaysIn(12, y)
            == if y % 400 == 0 || (y % 4 == 0 && y % 100 != 0) then 366 else 365
    ensures forall m :: 1 <= m <= 12 ==> 28 <= DaysIn(m, y) <= 31 && (DaysIn(m, y) < 30 <==> m == 2)
    ensures DaysIn(1, y) == DaysIn(3, y) == DaysIn(5, y) == DaysIn(7, y) == DaysIn(8, y) == DaysIn(10, y) == 31
  {}

  // ---------------------------------------------------------------- the variants of a file

  datatype DirEntry = DirEntry(name: string, regular: bool)

  /** A conflict file found on disk. */
  datatype Found = Found(path: Path, parsed: Parsed)

  predicate IsFileName(name: string) {
    name != "" && name != "." && name != ".." && '/' !in name
  }

  /** localFilePath: the original's name in the conflict's own directory. */
  function LocalFilePath(c: Found): Path
    requires c.parsed.Conflict? && c.path != []
  {
    Join(c.path[..|c.path| - 1], c.parsed.originalName)
  }

  function DirOf(p: Path): Path {
    if p == [] then [] else p[..|p| - 1]
  }

  function LastOf(p: Path): string {
    if p == [] then "/" else p[|p| - 1]
  }

  /** The entries of a directory that are conflicts of one file, in order. */
  function Variants(dir: Path, entries: seq<DirEntry>, base: string): seq<Found> {
    if entries == [] then []
    else
      var e := entries[|entries| - 1];
      var c := Parse(e.name);
      Variants(dir, entries[..|entries| - 1], base)
      + if e.regular && c.Conflict? && c.originalName == base then [Found(Join(dir, e.name), c)] else []
  }

  method FindVariants(listing: map<Path, seq<DirEntry>>, canonical: Path) returns (r: Result<seq<Found>>)
    ensures r == if DirOf(canonical) in listing
                 then Ok(Variants(DirOf(canonical), listing[DirOf(canonical)], LastOf(canonical))) else Err
  {
    hide Parse, Join;
    var dir, base := DirOf(canonical), LastOf(canonical);
    if dir !in listing {
      return Err;
    }
    var entries := listing[dir];
    var out := [];
    for i := 0 to |entries|
      invariant out == Variants(dir, entries[..i], base)
    {
      assert entries[..i + 1][..i] == entries[..i];
      if !entries[i].regular {
        continue;
      }
      var c := Parse(entries[i].name);
      if !c.Conflict? || c.originalName != base {
        continue;
      }
      out := out + [Found(Join(dir, entries[i].name), c)];
    }
    assert entries[..|entries|] == entries;
    return Ok(out);
  }

  ghost predicate IsVariant(e: DirEntry, dir: Path, base: string, f: Found) {
    e.regular && f == Found(Join(dir, e.name), Parse(e.name)) && f.parsed.Conflict? && f.parsed.originalName == base
  }

  lemma {:induction false} VariantsAre(dir: Path, entries: seq<DirEntry>, base: string, f: Found)
    ensures f in Variants(dir, entries, base) <==> exists e <- entries :: IsVariant(e, dir, base, f)
  {
    hide Parse, Join;
    if entries != [] {
      var t, last := entries[..|entries| - 1], entries[|entries| - 1];
      VariantsAre(dir, t, base, f);
      assert entries == t + [last];
      assert (exists e <- entries :: IsVariant(e, dir, base, f)) <==>
             (exists e <- t :: IsVariant(e, dir, base, f)) || IsVariant(last, dir, base, f);
    }
  }

  /** What the scanner reports for a regular file whose name parses. */
  ghost predicate IsScanned(listing: map<Path, seq<DirEntry>>, dir: Path, name: string, c: Found) {
    && dir in listing && DirEntry(name, true) in listing[dir] && IsFileName(name)
    && c == Found(dir + [name], Parse(name)) && c.parsed.Conflict?
  }

  /** os.ReadDir gives file names. */
  ghost predicate IsListing(listing: map<Path, seq<DirEntry>>) {
    forall d :: d in listing ==> forall e <- listing[d] :: IsFileName(e.name)
  }

  /** The variants found for a conflict's local file include that conflict, exactly when the local file's name is one a
      file can have: not empty, `.` or `..`. */
  lemma ScannedConflictIsFoundExactly(listing: map<Path, seq<DirEntry>>, dir: Path, name: string, c: Found)
    requires IsListing(listing) && IsScanned(listing, dir, name, c)
    ensures
      var local := LocalFilePath(c);
      (DirOf(local) in listing && c in Variants(DirOf(local), listing[DirOf(local)], LastOf(local)))
      <==> c.parsed.originalName !in {"", ".", ".."}
  {
    hide Variants, Parse, Join;
    var original, local := c.parsed.originalName, LocalFilePath(c);
    OriginalHasNoSlash(name);
    JoinOfName(dir, original);
    JoinOfName(dir, name);
    assert c.path[..|c.path| - 1] == dir;
    if original !in {"", ".", ".."} {
      assert DirOf(local) == dir && LastOf(local) == original;
      VariantsAre(dir, listing[dir], original, c);
      assert IsVariant(DirEntry(name, true), dir, original, c);
    } else if DirOf(local) in listing {
      var up := DirOf(local);
      VariantsAre(up, listing[up], LastOf(local), c);
      forall e | e in listing[up] ensures !IsVariant(e, up, LastOf(local), c) {
        JoinOfName(up, e.name);
        assert dir == [] ==> LastOf(local) == "/";
        assert dir != [] ==> |up + [e.name]| < |dir + [name]|;
      }
    }
  }

  lemma OriginalHasNoSlash(name: string)
    requires IsFileName(name) && Parse(name).Conflict?
    ensures '/' !in Parse(name).originalName
  {
    BaseOfName(name);
    hide FirstMatch;
    var i := FirstMatch(name, 0);
    forall c | c in name[..i] + name[i + 38..] ensures c in name {}
  }
}
