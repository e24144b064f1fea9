/** The changelog check of the release policy: releases are read line by line, and neighbouring
    releases are compared so that the whole list comes out newest first. */
module Changelog {
  import opened Options
  import opened Strings
  import opened Orders
  import opened SemVer

  const REPO_URL := "https://github.com/jiwonpapa/g7-installer"

  datatype Date = Date(year: nat, month: nat, day: nat)

  datatype Heading = Heading(index: nat, version: string, date: Date)

  datatype Release = Release(version: string, date: Date, line: nat, sections: seq<string>)

  datatype Failure =
    | NoTitle | NoUnreleased | NoChangelogReference | NoSemVerReference | NoReleases
    | Unlinked(line: nat) | NotSemVer(line: nat) | BadDate(line: nat)
    | BadSection(version: string, section: string) | NoSection(version: string)
    | WrongVersion(found: string, expected: string)
    | DatesOutOfOrder(previous: string, current: string)
    | VersionsOutOfOrder(previous: string, current: string)
    | WrongLink(name: string, expected: string)

  /** Either the failures, or the exception raised on the first version that does not parse. */
  datatype Verdict = Raised(version: string) | Checked(failures: seq<Failure>)

  /* ---- line patterns ---- */

  predicate IsDateText(t: string) {
    && |t| == 10 && t[4] == '-' && t[7] == '-'
    && forall i :: 0 <= i < 10 && i != 4 && i != 7 ==> IsDigit(t[i])
  }

  function DaysIn(year: nat, month: nat): nat {
    if month == 2 then (if year % 4 == 0 && (year % 100 != 0 || year % 400 == 0) then 29 else 28)
    else if month in {4, 6, 9, 11} then 30 else 31
  }

  function ParseDate(t: string): Option<Date>
    requires IsDateText(t)
  {
    var y := 1000 * Digit(t[0]) + 100 * Digit(t[1]) + 10 * Digit(t[2]) + Digit(t[3]);
    var m := 10 * Digit(t[5]) + Digit(t[6]);
    var d := 10 * Digit(t[8]) + Digit(t[9]);
    if 1 <= y && 1 <= m <= 12 && 1 <= d <= DaysIn(y, m) then Some(Date(y, m, d)) else None
  }

  /** A linked release heading: "## [version] - date". */
  function ReleaseHeading(line: string): (r: Option<(string, string)>)
    ensures r.Some? ==> IsDateText(r.value.1)
  {
    if !("## [" <= line) then None
    else
      var close := Position(line[4..], ']');
      var rest := line[4 + close..];
      if close > 0 && "] - " <= rest && IsDateText(rest[4..]) then Some((line[4..4 + close], rest[4..])) else None
  }

  function DropDigits(s: string): string {
    if s != "" && IsDigit(s[0]) then DropDigits(s[1..]) else s
  }

  /** What follows an unpadded number at the start of `s`. */
  function AfterNumber(s: string): Option<string> {
    if s == "" || !IsDigit(s[0]) then None
    else if s[0] == '0' then Some(s[1..])
    else Some(DropDigits(s))
  }

  predicate IsUnlinkedRelease(line: string) {
    && "## " <= line
    && var a := AfterNumber(line[3..]);
       && a.Some? && "." <= a.value
       && var b := AfterNumber(a.value[1..]);
          b.Some? && "." <= b.value && AfterNumber(b.value[1..]).Some?
  }

  function SectionOf(line: string): Option<string> {
    if "### " <= line && line[4..] != "" && forall c :: c in line[4..] ==> IsAsciiLetter(c)
    then Some(line[4..]) else None
  }

  function LinkOf(line: string): Option<(string, string)> {
    if !("[" <= line) then None
    else
      var close := Position(line[1..], ']');
      var rest := line[1 + close..];
      if close > 0 && "]: " <= rest && |rest| > 3 then Some((line[1..1 + close], rest[3..])) else None
  }

  predicate SectionAllowed(name: string) {
    name in ["Added", "Changed", "Deprecated", "Removed", "Fixed", "Security"]
  }

  /* ---- releases ---- */

  function HeadingIn(lines: seq<string>, i: nat): Option<Heading>
    requires i < |lines|
  {
    match ReleaseHeading(lines[i])
    case None => None
    case Some((version, date)) =>
      Some(Heading(i, version, if ParseDate(date).Some? then ParseDate(date).value else Date(1, 1, 1)))
  }

  function HeadingFailures(lines: seq<string>, i: nat): seq<Failure>
    requires i < |lines|
  {
    (if IsUnlinkedRelease(lines[i]) then [Unlinked(i + 1)] else []) +
    match ReleaseHeading(lines[i])
    case None => []
    case Some((version, date)) =>
      (if !IsSemVer(version) then [NotSemVer(i + 1)] else []) +
      (if ParseDate(date).None? then [BadDate(i + 1)] else [])
  }

  /** The headings, and the failures, of the first `n` lines. */
  function Headings(lines: seq<string>, n: nat): seq<Heading>
    requires n <= |lines|
  {
    if n == 0 then []
    else Headings(lines, n - 1) + match HeadingIn(lines, n - 1) case None => [] case Some(h) => [h]
  }

  function AllHeadingFailures(lines: seq<string>, n: nat): seq<Failure>
    requires n <= |lines|
  {
    if n == 0 then [] else AllHeadingFailures(lines, n - 1) + HeadingFailures(lines, n - 1)
  }

  /** The sections named in lines `lo..hi`. */
  function Sections(lines: seq<string>, lo: nat, hi: nat): seq<string>
    requires lo <= hi <= |lines|
  {
    if lo == hi then []
    else Sections(lines, lo, hi - 1) + match SectionOf(lines[hi - 1]) case None => [] case Some(name) => [name]
  }

  function SectionFailures(version: string, sections: seq<string>): seq<Failure> {
    if sections == [] then []
    else
      var n := |sections| - 1;
      SectionFailures(version, sections[..n]) +
      if SectionAllowed(sections[n]) then [] else [BadSection(version, sections[n])]
  }

  function BodyEnd(lines: seq<string>, headings: seq<Heading>, k: nat): nat {
    if k + 1 < |headings| then headings[k + 1].index else |lines|
  }

  ghost predicate InOrder(lines: seq<string>, headings: seq<Heading>) {
    && (forall k :: 0 <= k < |headings| ==> headings[k].index < |lines|)
    && (forall j, k :: 0 <= j < k < |headings| ==> headings[j].index < headings[k].index)
  }

  function ReleaseFor(lines: seq<string>, headings: seq<Heading>, k: nat): Release
    requires InOrder(lines, headings) && k < |headings|
  {
    var h := headings[k];
    Release(h.version, h.date, h.index + 1, Sections(lines, h.index + 1, BodyEnd(lines, headings, k)))
  }

  function Releases(lines: seq<string>, headings: seq<Heading>, n: nat): seq<Release>
    requires InOrder(lines, headings) && n <= |headings|
  {
    if n == 0 then [] else Releases(lines, headings, n - 1) + [ReleaseFor(lines, headings, n - 1)]
  }

  /** What `parse_releases` reads from a file. */
  function AllReleases(lines: seq<string>): seq<Release> {
    var hs := Headings(lines, |lines|);
    HeadingsInOrder(lines, |lines|);
    Releases(lines, hs, |hs|)
  }

  function BodyFailures(r: Release): seq<Failure> {
    SectionFailures(r.version, r.sections) + if r.sections == [] then [NoSection(r.version)] else []
  }

  function AllBodyFailures(releases: seq<Release>): seq<Failure> {
    if releases == [] then []
    else AllBodyFailures(releases[..|releases| - 1]) + BodyFailures(releases[|releases| - 1])
  }

  lemma {:induction false} HeadingsInOrder(lines: seq<string>, n: nat)
    requires n <= |lines|
    ensures InOrder(lines, Headings(lines, n))
    ensures forall h :: h in Headings(lines, n) ==> h.index < n
  {
    if n > 0 { HeadingsInOrder(lines, n - 1); }
  }

  method ReadHeading(lines: seq<string>, i: nat) returns (heading: Option<Heading>, failures: seq<Failure>)
    requires i < |lines|
    ensures heading == HeadingIn(lines, i) && failures == HeadingFailures(lines, i)
  {
    failures := [];
    if IsUnlinkedRelease(lines[i]) {
      failures := failures + [Unlinked(i + 1)];
    }
    var matched := ReleaseHeading(lines[i]);
    if matched.None? {
      return None, failures;
    }
    var (version, text) := matched.value;
    if !IsSemVer(version) {
      failures := failures + [NotSemVer(i + 1)];
    }
    var date := ParseDate(text);
    if date.None? {
      failures := failures + [BadDate(i + 1)];
      date := Some(Date(1, 1, 1));
    }
    heading := Some(Heading(i, version, date.value));
  }

  /** What one more line of a body adds. */
  lemma NextSection(lines: seq<string>, lo: nat, i: nat, version: string, sections: seq<string>)
    requires lo <= i < |lines| && sections == Sections(lines, lo, i)
    ensures var name := SectionOf(lines[i]);
            && Sections(lines, lo, i + 1) == (if name.Some? then sections + [name.value] else sections)
            && (name.Some? ==>
                  SectionFailures(version, sections + [name.value]) ==
                  SectionFailures(version, sections) +
                  if SectionAllowed(name.value) then [] else [BadSection(version, name.value)])
  {
    var name := SectionOf(lines[i]);
    if name.Some? { assert (sections + [name.value])[..|sections|] == sections; }
  }

  method ReadSections(lines: seq<string>, lo: nat, end: nat, version: string)
    returns (sections: seq<string>, failures: seq<Failure>)
    requires lo <= end <= |lines|
    ensures sections == Sections(lines, lo, end) && failures == SectionFailures(version, sections)
  {
    sections, failures := [], [];
    for i := lo to end
      invariant sections == Sections(lines, lo, i)
      invariant failures == SectionFailures(version, sections)
    {
      var section := SectionOf(lines[i]);
      NextSection(lines, lo, i, version, sections);
      if section.Some? {
        if !SectionAllowed(section.value) {
          failures := failures + [BadSection(version, section.value)];
        }
        sections := sections + [section.value];
      }
    }
  }

  method ReadBody(lines: seq<string>, headings: seq<Heading>, k: nat) returns (release: Release, failures: seq<Failure>)
    requires InOrder(lines, headings) && k < |headings|
    ensures release == ReleaseFor(lines, headings, k) && failures == BodyFailures(release)
  {
    var h, end := headings[k], if k + 1 < |headings| then headings[k + 1].index else |lines|;
    var sections, problems := ReadSections(lines, h.index + 1, end, h.version);
    failures := problems;
    if sections == [] {
      failures := failures + [NoSection(h.version)];
    }
    release := Release(h.version, h.date, h.index + 1, sections);
  }

  lemma OneMoreBody(releases: seq<Release>, r: Release)
    ensures AllBodyFailures(releases + [r]) == AllBodyFailures(releases) + BodyFailures(r)
  {
    assert (releases + [r])[..|releases|] == releases;
  }

  lemma NextLine(lines: seq<string>, i: nat, heading: Option<Heading>, problems: seq<Failure>)
    requires i < |lines| && heading == HeadingIn(lines, i) && problems == HeadingFailures(lines, i)
    ensures Headings(lines, i + 1) == Headings(lines, i) + if heading.Some? then [heading.value] else []
    ensures AllHeadingFailures(lines, i + 1) == AllHeadingFailures(lines, i) + problems
  {}

  method ReadHeadings(lines: seq<string>) returns (headings: seq<Heading>, failures: seq<Failure>)
    ensures headings == Headings(lines, |lines|) && failures == AllHeadingFailures(lines, |lines|)
  {
    headings, failures := [], [];
    for i := 0 to |lines|
      invariant headings == Headings(lines, i) && failures == AllHeadingFailures(lines, i)
    {
      var heading, problems := ReadHeading(lines, i);
      NextLine(lines, i, heading, problems);
      failures := failures + problems;
      if heading.Some? {
        headings := headings + [heading.value];
      }
    }
  }

  method ReadBodies(lines: seq<string>, headings: seq<Heading>) returns (releases: seq<Release>, failures: seq<Failure>)
    requires InOrder(lines, headings)
    ensures releases == Releases(lines, headings, |headings|)
    ensures failures == AllBodyFailures(releases)
  {
    releases, failures := [], [];
    for k := 0 to |headings|
      invariant releases == Releases(lines, headings, k)
      invariant failures == AllBodyFailures(releases)
    {
      var release, problems := ReadBody(lines, headings, k);
      OneMoreBody(releases, release);
      releases := releases + [release];
      failures := failures + problems;
    }
  }

  /** `parse_releases`: all headings first, then the body of each. */
  method ParseReleases(lines: seq<string>) returns (releases: seq<Release>, failures: seq<Failure>)
    ensures releases == AllReleases(lines)
    ensures failures == AllHeadingFailures(lines, |lines|) + AllBodyFailures(releases)
  {
    var headings, headingFailures := ReadHeadings(lines);
    HeadingsInOrder(lines, |lines|);
    var bodies, bodyFailures := ReadBodies(lines, headings);
    return bodies, headingFailures + bodyFailures;
  }

  ghost predicate HeadedAt(headings: seq<Heading>, i: nat) {
    exists k :: 0 <= k < |headings| && headings[k].index == i
  }

  lemma HeadedByMore(before: seq<Heading>, found: Option<Heading>, after: seq<Heading>, i: nat)
    requires after == before + if found.Some? then [found.value] else []
    ensures HeadedAt(after, i) <==> HeadedAt(before, i) || (found.Some? && found.value.index == i)
  {
    if k :| 0 <= k < |before| && before[k].index == i { assert after[k].index == i; }
    if found.Some? && found.value.index == i { assert after[|before|].index == i; }
  }

  function Collect(found: nat -> Option<Heading>, n: nat): seq<Heading> {
    if n == 0 then [] else Collect(found, n - 1) + match found(n - 1) case None => [] case Some(h) => [h]
  }

  lemma {:induction false} CollectedIff(found: nat -> Option<Heading>, n: nat, i: nat)
    requires forall j :: found(j).Some? ==> found(j).value.index == j
    ensures HeadedAt(Collect(found, n), i) <==> i < n && found(i).Some?
  {
    if n > 0 {
      CollectedIff(found, n - 1, i);
      HeadedByMore(Collect(found, n - 1), found(n - 1), Collect(found, n), i);
    }
  }

  lemma {:induction false} HeadingsAreCollected(lines: seq<string>, found: nat -> Option<Heading>, n: nat)
    requires n <= |lines| && forall i :: 0 <= i < |lines| ==> found(i) == HeadingIn(lines, i)
    ensures Headings(lines, n) == Collect(found, n)
  {
    if n > 0 { HeadingsAreCollected(lines, found, n - 1); }
  }

  /** Every heading line gives exactly one release, in line order. */
  lemma OneReleasePerHeading(lines: seq<string>, i: nat)
    requires i < |lines|
    ensures InOrder(lines, Headings(lines, |lines|))
    ensures HeadedAt(Headings(lines, |lines|), i) <==> ReleaseHeading(lines[i]).Some?
  {
    var found := (j: nat) => if j < |lines| then HeadingIn(lines, j) else None;
    HeadingsInOrder(lines, |lines|);
    HeadingsAreCollected(lines, found, |lines|);
    forall j | found(j).Some? ensures found(j).value.index == j { HeadingInMeans(lines, j); }
    CollectedIff(found, |lines|, i);
    HeadingInMeans(lines, i);
  }

  lemma HeadingInMeans(lines: seq<string>, i: nat)
    requires i < |lines|
    ensures HeadingIn(lines, i).Some? <==> ReleaseHeading(lines[i]).Some?
    ensures HeadingIn(lines, i).Some? ==> HeadingIn(lines, i).value.index == i
  {}

  function Flatten(releases: seq<Release>): seq<string> {
    if releases == [] then [] else Flatten(releases[..|releases| - 1]) + releases[|releases| - 1].sections
  }

  lemma {:induction false} SectionsJoin(lines: seq<string>, lo: nat, mid: nat, hi: nat)
    requires lo <= mid <= hi <= |lines|
    ensures Sections(lines, lo, hi) == Sections(lines, lo, mid) + Sections(lines, mid, hi)
    decreases hi
  {
    if mid < hi { SectionsJoin(lines, lo, mid, hi - 1); }
  }

  lemma HeadingIsNoSection(line: string)
    requires ReleaseHeading(line).Some?
    ensures SectionOf(line).None?
  {
    assert line[2] == "## ["[2] == ' ';
    assert "### "[2] == '#';
  }

  lemma {:induction false} HeadingLines(lines: seq<string>, n: nat)
    requires n <= |lines|
    ensures forall h :: h in Headings(lines, n) ==> h.index < |lines| && SectionOf(lines[h.index]).None?
  {
    if n > 0 {
      HeadingLines(lines, n - 1);
      if ReleaseHeading(lines[n - 1]).Some? { HeadingIsNoSection(lines[n - 1]); }
    }
  }

  lemma SectionsFromHeading(lines: seq<string>, i: nat, end: nat)
    requires i < end <= |lines| && SectionOf(lines[i]).None?
    ensures Sections(lines, i, end) == Sections(lines, i + 1, end)
  {
    SectionsJoin(lines, i, i + 1, end);
    var none: seq<string> := [];
    assert Sections(lines, i, i) == none;
    assert Sections(lines, i, i + 1) == none + [];
  }

  /** No section is lost or counted twice: the releases' sections, one after the other, are the
      sections of the file from the first heading on. */
  lemma {:induction false} SectionsArePartitioned(lines: seq<string>, hs: seq<Heading>, n: nat)
    requires InOrder(lines, hs) && 0 < n <= |hs|
    requires forall h :: h in hs ==> SectionOf(lines[h.index]).None?
    ensures hs[0].index <= BodyEnd(lines, hs, n - 1)
    ensures Flatten(Releases(lines, hs, n)) == Sections(lines, hs[0].index, BodyEnd(lines, hs, n - 1))
  {
    var h, end := hs[n - 1], BodyEnd(lines, hs, n - 1);
    assert h in hs;
    SectionsFromHeading(lines, h.index, end);
    var earlier := Releases(lines, hs, n - 1);
    assert (earlier + [ReleaseFor(lines, hs, n - 1)])[..|earlier|] == earlier;
    if n > 1 {
      SectionsArePartitioned(lines, hs, n - 1);
      SectionsJoin(lines, hs[0].index, h.index, end);
    }
  }

  /** The same for the file as a whole. */
  lemma AllSectionsAreKept(lines: seq<string>)
    requires Headings(lines, |lines|) != []
    ensures var hs := Headings(lines, |lines|);
            InOrder(lines, hs) && Flatten(Releases(lines, hs, |hs|)) == Sections(lines, hs[0].index, |lines|)
  {
    var hs := Headings(lines, |lines|);
    HeadingsInOrder(lines, |lines|);
    HeadingLines(lines, |lines|);
    SectionsArePartitioned(lines, hs, |hs|);
  }

  /* ---- newest first ---- */

  function CompareDates(a: Date, b: Date): int {
    Lex(CompareNumber, [a.year, a.month, a.day], [b.year, b.month, b.day])
  }

  function CompareSemVer(l: string, r: string): int
    requires IsSemVer(l) && IsSemVer(r)
  {
    CompareVersions(Parse(l).value, Parse(r).value)
  }

  /** The two comparisons of one pair of neighbours. */
  function PairVerdict(previous: Release, current: Release): Verdict {
    if !IsSemVer(previous.version) then Raised(previous.version)
    else if !IsSemVer(current.version) then Raised(current.version)
    else Checked(
      (if CompareDates(previous.date, current.date) < 0
       then [DatesOutOfOrder(previous.version, current.version)] else []) +
      (if CompareSemVer(previous.version, current.version) < 0
       then [VersionsOutOfOrder(previous.version, current.version)] else []))
  }

  /** The verdict on the first `n` neighbouring pairs; the first exception ends the check. */
  function OrderVerdict(pair: (Release, Release) -> Verdict, releases: seq<Release>, n: nat): Verdict
    requires n == 0 || n < |releases|
  {
    if n == 0 then Checked([])
    else
      match OrderVerdict(pair, releases, n - 1)
      case Raised(v) => Raised(v)
      case Checked(failures) =>
        match pair(releases[n - 1], releases[n])
        case Raised(v) => Raised(v)
        case Checked(more) => Checked(failures + more)
  }

  /** The loop over neighbouring releases. */
  method CheckNeighbours(pair: (Release, Release) -> Verdict, releases: seq<Release>) returns (v: Verdict)
    ensures v == OrderVerdict(pair, releases, if releases == [] then 0 else |releases| - 1)
  {
    v := Checked([]);
    var n := 0;
    while n + 1 < |releases|
      invariant n == 0 || n < |releases|
      invariant v.Checked? && OrderVerdict(pair, releases, n) == v
    {
      var next := pair(releases[n], releases[n + 1]);
      if next.Raised? {
        RaisedStays(pair, releases, n + 1, |releases| - 1);
        return next;
      }
      v := Checked(v.failures + next.failures);
      n := n + 1;
    }
  }

  /** The same with the script's own comparison. */
  method CheckOrder(releases: seq<Release>) returns (v: Verdict)
    ensures v == OrderVerdict(PairVerdict, releases, if releases == [] then 0 else |releases| - 1)
  {
    v := CheckNeighbours(PairVerdict, releases);
  }

  lemma {:induction false} RaisedStays(pair: (Release, Release) -> Verdict, releases: seq<Release>, m: nat, n: nat)
    requires 0 < m <= n < |releases| && OrderVerdict(pair, releases, m).Raised?
    ensures OrderVerdict(pair, releases, n) == OrderVerdict(pair, releases, m)
  {
    if m < n { RaisedStays(pair, releases, m, n - 1); }
  }

  /** `later` is no newer than `earlier`, and both versions are valid. */
  predicate NotNewer(earlier: Release, later: Release) {
    && IsSemVer(earlier.version) && IsSemVer(later.version)
    && CompareDates(earlier.date, later.date) >= 0
    && CompareSemVer(earlier.version, later.version) >= 0
  }

  lemma CleanPair(previous: Release, current: Release)
    ensures PairVerdict(previous, current) == Checked([]) <==> NotNewer(previous, current)
    ensures PairVerdict(previous, current).Raised? <==> !IsSemVer(previous.version) || !IsSemVer(current.version)
  {}

  predicate Earlier(a: Date, b: Date) {
    a.year < b.year || (a.year == b.year && (a.month < b.month || (a.month == b.month && a.day < b.day)))
  }

  lemma CompareDatesMeans(a: Date, b: Date)
    ensures CompareDates(a, b) < 0 <==> Earlier(a, b)
  {
    LexOfThree(CompareNumber, a.year, a.month, a.day, b.year, b.month, b.day);
  }

  lemma LexOfThree(cmp: (nat, nat) -> int, a: nat, b: nat, c: nat, x: nat, y: nat, z: nat)
    ensures Lex(cmp, [a, b, c], [x, y, z]) ==
            if cmp(a, x) != 0 then cmp(a, x)
            else if cmp(b, y) != 0 then cmp(b, y)
            else if cmp(c, z) != 0 then cmp(c, z) else 0
  {
    var none: seq<nat> := [];
    assert [a, b, c][1..] == [b, c] && [b, c][1..] == [c] && [c][1..] == none;
    assert [x, y, z][1..] == [y, z] && [y, z][1..] == [z] && [z][1..] == none;
    assert Lex(cmp, [c], [z]) == if cmp(c, z) != 0 then cmp(c, z) else Lex(cmp, none, none);
    assert Lex(cmp, [b, c], [y, z]) == if cmp(b, y) != 0 then cmp(b, y) else Lex(cmp, [c], [z]);
  }

  /** On accepted version strings the comparison is the precedence of section 11. */
  lemma CompareSemVerIsPrecedence(l: string, r: string)
    requires IsSemVer(l) && IsSemVer(r)
    ensures CompareSemVer(l, r) == 0 <==> Parse(l) == Parse(r)
    ensures CompareSemVer(l, r) < 0 <==> Precedes(Parse(l).value, Parse(r).value)
  {
    ParsedIsValid(l);
    ParsedIsValid(r);
    CompareIsPrecedence(Parse(l).value, Parse(r).value);
  }

  /** Said without the comparisons: the later release is not dated after the earlier one, and its
      version does not come after it. */
  lemma NotNewerMeans(earlier: Release, later: Release)
    ensures NotNewer(earlier, later) <==>
            && IsSemVer(earlier.version) && IsSemVer(later.version) && !Earlier(earlier.date, later.date)
            && !Precedes(Parse(earlier.version).value, Parse(later.version).value)
  {
    CompareDatesMeans(earlier.date, later.date);
    if IsSemVer(earlier.version) && IsSemVer(later.version) {
      CompareSemVerIsPrecedence(earlier.version, later.version);
    }
  }

  lemma DatesAreOrdered(a: Date, b: Date, c: Date)
    requires CompareDates(a, b) >= 0 && CompareDates(b, c) >= 0
    ensures CompareDates(a, c) >= 0
  {
    var x, y, z := [a.year, a.month, a.day], [b.year, b.month, b.day], [c.year, c.month, c.day];
    LexAntisymmetric(CompareNumber, x, y);
    LexAntisymmetric(CompareNumber, y, z);
    LexAntisymmetric(CompareNumber, x, z);
    LexTransitive(CompareNumber, z, y, x);
  }

  lemma NotNewerIsTransitive(a: Release, b: Release, c: Release)
    requires NotNewer(a, b) && NotNewer(b, c)
    ensures NotNewer(a, c)
  {
    DatesAreOrdered(a.date, b.date, c.date);
    var x, y, z := Parse(a.version).value, Parse(b.version).value, Parse(c.version).value;
    VersionsAntisymmetric(x, y);
    VersionsAntisymmetric(y, z);
    VersionsAntisymmetric(x, z);
    VersionsTransitive(z, y, x);
  }

  ghost predicate Pairwise(rel: (Release, Release) -> bool, releases: seq<Release>, n: nat)
    requires n <= |releases|
  {
    forall i, j :: 0 <= i < j < n ==> rel(releases[i], releases[j])
  }

  lemma {:induction false} NeighboursDecide(pair: (Release, Release) -> Verdict, rel: (Release, Release) -> bool,
                                            releases: seq<Release>, n: nat)
    requires n == 0 || n < |releases|
    requires forall a, b :: pair(a, b) == Checked([]) <==> rel(a, b)
    requires forall a, b, c :: rel(a, b) && rel(b, c) ==> rel(a, c)
    ensures OrderVerdict(pair, releases, n) == Checked([]) <==> n == 0 || Pairwise(rel, releases, n + 1)
  {
    if n > 0 {
      NeighboursDecide(pair, rel, releases, n - 1);
      if OrderVerdict(pair, releases, n) == Checked([]) {
        assert OrderVerdict(pair, releases, n - 1) == Checked([]);
        assert pair(releases[n - 1], releases[n]) == Checked([]);
      }
      if Pairwise(rel, releases, n + 1) {
        assert Pairwise(rel, releases, n);
        assert rel(releases[n - 1], releases[n]);
      }
    }
  }

  /** Comparing neighbours only decides the order of all pairs: no failure and no exception means
      that every two releases have valid versions and that neither date nor version increases
      from one to any later one. */
  lemma NeighboursDecideAll(releases: seq<Release>, n: nat)
    requires 0 < n < |releases|
    ensures OrderVerdict(PairVerdict, releases, n) == Checked([]) <==> Pairwise(NotNewer, releases, n + 1)
  {
    forall a, b ensures PairVerdict(a, b) == Checked([]) <==> NotNewer(a, b) { CleanPair(a, b); }
    forall a, b, c | NotNewer(a, b) && NotNewer(b, c) ensures NotNewer(a, c) { NotNewerIsTransitive(a, b, c); }
    NeighboursDecide(PairVerdict, NotNewer, releases, n);
  }

  lemma {:induction false} RaisesOn(pair: (Release, Release) -> Verdict, valid: Release -> bool, releases: seq<Release>,
                                    n: nat)
    requires 0 < n < |releases|
    requires forall a, b :: pair(a, b).Raised? <==> !valid(a) || !valid(b)
    ensures OrderVerdict(pair, releases, n).Raised? <==> exists i :: 0 <= i <= n && !valid(releases[i])
  {
    if n > 1 { RaisesOn(pair, valid, releases, n - 1); }
    assert OrderVerdict(pair, releases, n).Raised? <==>
           OrderVerdict(pair, releases, n - 1).Raised? || !valid(releases[n - 1]) || !valid(releases[n]);
  }

  /** With two or more releases an invalid version is never reported: the check raises instead. */
  lemma RaisesOnInvalidVersion(releases: seq<Release>, n: nat)
    requires 0 < n < |releases|
    ensures OrderVerdict(PairVerdict, releases, n).Raised? <==>
            exists i :: 0 <= i <= n && !IsSemVer(releases[i].version)
  {
    forall a, b ensures PairVerdict(a, b).Raised? <==> !IsSemVer(a.version) || !IsSemVer(b.version) { CleanPair(a, b); }
    RaisesOn(PairVerdict, (r: Release) => IsSemVer(r.version), releases, n);
  }

  ghost predicate SomeInvalid(releases: seq<Release>) {
    exists i :: 0 <= i < |releases| && !IsSemVer(releases[i].version)
  }

  lemma OrderMeans(releases: seq<Release>)
    requires releases != []
    ensures var v := OrderVerdict(PairVerdict, releases, |releases| - 1);
            && (v == Checked([]) <==> Pairwise(NotNewer, releases, |releases|))
            && (v.Raised? <==> |releases| >= 2 && SomeInvalid(releases))
  {
    if |releases| > 1 {
      RaisesOnInvalidVersion(releases, |releases| - 1);
      NeighboursDecideAll(releases, |releases| - 1);
    }
  }

  /* ---- the whole check ---- */

  function TitleFailures(lines: seq<string>): seq<Failure> {
    var intro := JoinLines(if |lines| < 8 then lines else lines[..8]);
    (if lines == [] || lines[0] != "# Changelog" then [NoTitle] else []) +
    (if "## [Unreleased]" !in lines then [NoUnreleased] else []) +
    (if !Contains(intro, "https://keepachangelog.com/ko/1.1.0/") then [NoChangelogReference] else []) +
    (if !Contains(intro, "https://semver.org/lang/ko/") then [NoSemVerReference] else [])
  }

  function JoinLines(lines: seq<string>): string {
    if lines == [] then "" else Join(lines, '\n')
  }

  /** The link references; a later line for the same label wins. */
  function Links(lines: seq<string>): map<string, string> {
    if lines == [] then map[]
    else
      var n := |lines| - 1;
      match LinkOf(lines[n])
      case None => Links(lines[..n])
      case Some((name, url)) => Links(lines[..n])[name := url]
  }

  /** An insertion-ordered dictionary, as the script's. */
  function Put(entries: seq<(string, string)>, name: string, url: string): seq<(string, string)> {
    if entries == [] then [(name, url)]
    else if entries[0].0 == name then [(name, url)] + entries[1..]
    else [entries[0]] + Put(entries[1..], name, url)
  }

  function ReleaseUrl(releases: seq<Release>, i: nat): string
    requires i < |releases|
  {
    if i + 1 < |releases|
    then REPO_URL + "/compare/v" + releases[i + 1].version + "...v" + releases[i].version
    else REPO_URL + "/releases/tag/v" + releases[i].version
  }

  function ExpectedLinks(releases: seq<Release>, n: nat): seq<(string, string)>
    requires 0 < |releases| && n <= |releases|
  {
    if n == 0 then [("Unreleased", REPO_URL + "/compare/v" + releases[0].version + "...HEAD")]
    else Put(ExpectedLinks(releases, n - 1), releases[n - 1].version, ReleaseUrl(releases, n - 1))
  }

  function LinkFailures(expected: seq<(string, string)>, links: map<string, string>): seq<Failure> {
    if expected == [] then []
    else
      var (name, url) := expected[0];
      (if name in links && links[name] == url then [] else [WrongLink(name, url)]) + LinkFailures(expected[1..], links)
  }

  function VersionFailures(releases: seq<Release>, cliVersion: Option<string>): seq<Failure>
    requires releases != []
  {
    if cliVersion.Some? && cliVersion.value != "" && releases[0].version != cliVersion.value
    then [WrongVersion(releases[0].version, cliVersion.value)] else []
  }

  /** The verdict on the lines of the file, what was read from them, and the version of the
      g7-cli package, if any. */
  function ChangelogVerdict(pair: (Release, Release) -> Verdict, lines: seq<string>, releases: seq<Release>,
                            cliVersion: Option<string>): Verdict {
    var read := TitleFailures(lines) + (AllHeadingFailures(lines, |lines|) + AllBodyFailures(releases));
    if releases == [] then Checked(read + [NoReleases])
    else
      match OrderVerdict(pair, releases, |releases| - 1)
      case Raised(version) => Raised(version)
      case Checked(order) =>
        Checked(read + VersionFailures(releases, cliVersion) + order +
                LinkFailures(ExpectedLinks(releases, |releases|), Links(lines)))
  }

  /** `check_changelog`; `pair` is the comparison of two neighbours. */
  method CheckWith(pair: (Release, Release) -> Verdict, lines: seq<string>, cliVersion: Option<string>)
    returns (v: Verdict)
    ensures v == ChangelogVerdict(pair, lines, AllReleases(lines), cliVersion)
  {
    var failures := TitleFailures(lines);
    var releases, parseFailures := ParseReleases(lines);
    failures := failures + parseFailures;
    if releases == [] {
      return Checked(failures + [NoReleases]);
    }
    failures := failures + VersionFailures(releases, cliVersion);
    var order := CheckNeighbours(pair, releases);
    if order.Raised? {
      return order;
    }
    failures := failures + order.failures;
    var links := ParseLinks(lines);
    v := Checked(failures + LinkFailures(ExpectedLinks(releases, |releases|), links));
  }

  /** `check_changelog` with the script's own comparison. */
  method CheckChangelog(lines: seq<string>, cliVersion: Option<string>) returns (v: Verdict)
    ensures v == ChangelogVerdict(PairVerdict, lines, AllReleases(lines), cliVersion)
  {
    v := CheckWith(PairVerdict, lines, cliVersion);
  }

  lemma CleanParts(pair: (Release, Release) -> Verdict, lines: seq<string>, releases: seq<Release>,
                   cliVersion: Option<string>)
    requires ChangelogVerdict(pair, lines, releases, cliVersion) == Checked([])
    ensures releases != [] && OrderVerdict(pair, releases, |releases| - 1) == Checked([])
    ensures AllHeadingFailures(lines, |lines|) == [] && VersionFailures(releases, cliVersion) == []
  {}

  /** Whatever releases a file gave, if the check passes then there are some, the headings were
      well formed, the first release is the package's version, and neither date nor version
      increases from any release to any later one. */
  lemma CleanChangelogIsNewestFirst(lines: seq<string>, releases: seq<Release>, cliVersion: Option<string>)
    requires ChangelogVerdict(PairVerdict, lines, releases, cliVersion) == Checked([])
    ensures releases != [] && Pairwise(NotNewer, releases, |releases|)
    ensures AllHeadingFailures(lines, |lines|) == []
    ensures cliVersion.Some? && cliVersion.value != "" ==> releases[0].version == cliVersion.value
  {
    CleanParts(PairVerdict, lines, releases, cliVersion);
    OrderMeans(releases);
  }

  lemma RaisedParts(pair: (Release, Release) -> Verdict, lines: seq<string>, releases: seq<Release>,
                    cliVersion: Option<string>)
    ensures ChangelogVerdict(pair, lines, releases, cliVersion).Raised? <==>
            releases != [] && OrderVerdict(pair, releases, |releases| - 1).Raised?
  {}

  /** With two or more releases, one invalid version makes the check raise instead of reporting. */
  lemma InvalidVersionRaises(lines: seq<string>, releases: seq<Release>, cliVersion: Option<string>)
    ensures ChangelogVerdict(PairVerdict, lines, releases, cliVersion).Raised? <==>
            |releases| >= 2 && SomeInvalid(releases)
  {
    RaisedParts(PairVerdict, lines, releases, cliVersion);
    if releases != [] { OrderMeans(releases); }
  }

  method ParseLinks(lines: seq<string>) returns (links: map<string, string>)
    ensures links == Links(lines)
  {
    links := map[];
    for i := 0 to |lines|
      invariant links == Links(lines[..i])
    {
      assert lines[..i + 1][..i] == lines[..i];
      var link := LinkOf(lines[i]);
      if link.Some? {
        links := links[link.value.0 := link.value.1];
      }
    }
    assert lines[..|lines|] == lines;
  }

  /** A file without heading failures has only valid versions. */
  lemma {:induction false} CleanHeadingsAreValid(lines: seq<string>, n: nat)
    requires n <= |lines| && AllHeadingFailures(lines, n) == []
    ensures forall h :: h in Headings(lines, n) ==> IsSemVer(h.version)
  {
    if n > 0 { CleanHeadingsAreValid(lines, n - 1); }
  }

  lemma CleanReleasesAreValid(lines: seq<string>)
    requires AllHeadingFailures(lines, |lines|) == []
    ensures forall r :: r in AllReleases(lines) ==> IsSemVer(r.version)
  {
    CleanHeadingsAreValid(lines, |lines|);
    HeadingsInOrder(lines, |lines|);
    var hs := Headings(lines, |lines|);
    ReleaseVersions(lines, hs, |hs|);
  }

  lemma {:induction false} ReleaseVersions(lines: seq<string>, headings: seq<Heading>, n: nat)
    requires InOrder(lines, headings) && n <= |headings|
    ensures forall r :: r in Releases(lines, headings, n) ==> exists h :: h in headings && h.version == r.version
  {
    if n > 0 {
      ReleaseVersions(lines, headings, n - 1);
      assert headings[n - 1] in headings;
    }
  }
}
