/** Trees on which a reset meets the limits of what it promises. */
module ResetWitness {
  import opened DiskTree
  import opened DryRun
  import opened Options
  import opened Paths
  import opened ResetAllowlist
  import opened ResetFiles
  import opened ResetNames
  import opened ResetRetry
  import opened ResetRun
  import opened Strings

  /* ---- a list of four ---- */

  lemma AddTwo(files: seq<string>, a: string, b: string)
    requires a !in files && b !in files && a != b
    ensures AddAbsent(files, [a, b]) == files + [a, b]
  {
    var none: seq<string> := [];
    assert [a, b][1..] == [b] && [b][1..] == none;
    assert AddAbsent(files + [a] + [b], none) == files + [a] + [b] == files + [a, b];
  }

  lemma AddLegacy(a: string, b: string)
    requires a !in LEGACY_PATHS && b !in LEGACY_PATHS
    ensures AddAbsent([a, b], LEGACY_PATHS) == [a, b] + LEGACY_PATHS
  {
    AddTwo([a, b], LEGACY_PATHS[0], LEGACY_PATHS[1]);
    assert [LEGACY_PATHS[0], LEGACY_PATHS[1]] == LEGACY_PATHS;
  }

  lemma PlainFiles(d: Disk, k: Readers, a: string, b: string)
    requires SWAP_UNIT !in d && SWAP_SYSCTL !in d && a !in LEGACY_PATHS && b !in LEGACY_PATHS
    requires PathOf(SWAP_UNIT) != a && PathOf(SWAP_UNIT) != b
    requires OWNED_FILES in d && d[OWNED_FILES].File? && k.owned(d[OWNED_FILES].content) == Some([a, b])
    ensures FileList(d, NO_METADATA, k) == Some([a, b] + LEGACY_PATHS)
    ensures PathOf(SWAP_UNIT) !in [a, b] + LEGACY_PATHS
  {
    AddLegacy(a, b);
    SwapNamesDiffer();
  }

  /** Without swap files and metadata the list is the owned paths and the legacy ones. */
  lemma PlainList(d: Disk, k: Readers, a: string, b: string)
    requires REPORT !in d && CONFIG !in d && SWAP_UNIT !in d && SWAP_SYSCTL !in d && Proper(k)
    requires OWNED_FILES in d && d[OWNED_FILES].File? && k.owned(d[OWNED_FILES].content) == Some([a, b])
    requires a !in LEGACY_PATHS && b !in LEGACY_PATHS && PathOf(SWAP_UNIT) != a && PathOf(SWAP_UNIT) != b
    ensures MetadataOf(d, k) == Some(NO_METADATA) && FileList(d, NO_METADATA, k).Some?
    ensures PlannedFiles(d, k) == [a, b] + LEGACY_PATHS
    ensures GuardOf(d, PlannedFiles(d, k)) == ResetGuard(false)
  {
    FreshMetadata(d, k);
    PlainFiles(d, k, a, b);
  }

  /** Nothing is found at the legacy paths. */
  ghost predicate LegacyAbsent(d: Disk) {
    FIRST_LEGACY !in d && !ThroughFile(d, FIRST_LEGACY) && SECOND_LEGACY !in d && !ThroughFile(d, SECOND_LEGACY)
  }

  /** A tree whose ownership list names two paths, and in which a reset has nothing else to read or
      to remove. */
  ghost predicate Hosts(d: Disk, k: Readers, a: string, b: string) {
    && WellFormed(d) && Proper(k)
    && REPORT !in d && CONFIG !in d && SWAP_UNIT !in d && SWAP_SYSCTL !in d
    && OWNED_FILES in d && d[OWNED_FILES].File? && k.owned(d[OWNED_FILES].content) == Some([a, b])
    && a !in LEGACY_PATHS && b !in LEGACY_PATHS && a != PathOf(SWAP_UNIT) && b != PathOf(SWAP_UNIT)
    && LegacyAbsent(d)
  }

  /** Every path on its list is accepted. */
  ghost predicate Accepts(allowed: Guard, a: string, b: string) {
    allowed(a) && allowed(b) && allowed(LEGACY_PATHS[0]) && allowed(LEGACY_PATHS[1])
  }

  /** The path names a node that can be looked at, and no way to it follows a link. */
  ghost predicate Shown(d: Disk, f: string) {
    !Astray(d, f) && LookAt(d, f) == At(Segments(f))
  }

  ghost predicate Hidden(d: Disk, f: string) {
    !Astray(d, f) && LookAt(d, f) == Nothing
  }

  lemma IsShown(d: Disk, f: string)
    requires WellFormed(d) && NoLinks(d) && Segments(f) in d && (OpenEnd(f) ==> d[Segments(f)] == Directory)
    ensures Shown(d, f)
  {
    NoLinksIsStraight(d, f);
    StraightLook(d, f);
    PresentIsReachable(d, Segments(f));
  }

  lemma IsHidden(d: Disk, f: string, p: Path)
    requires NoLinks(d) && Segments(f) == p && p !in d && !ThroughFile(d, p)
    ensures Hidden(d, f)
  {
    NoLinksIsStraight(d, f);
    StraightLook(d, f);
  }

  lemma LegacyIsHidden(d: Disk)
    requires LegacyAbsent(d) && NoLinks(d)
    ensures Hidden(d, LEGACY_PATHS[0]) && Hidden(d, LEGACY_PATHS[1])
  {
    LegacySegments();
    IsHidden(d, LEGACY_PATHS[0], FIRST_LEGACY);
    IsHidden(d, LEGACY_PATHS[1], SECOND_LEGACY);
  }

  lemma AllStraight(d: Disk, files: seq<string>)
    requires NoLinks(d)
    ensures NoneAstray(d, files)
  {
    forall i | 0 <= i < |files| ensures !Astray(d, files[i]) { NoLinksIsStraight(d, files[i]); }
  }

  lemma SortFour(a: string, b: string, c: string, d: string)
    requires PathDepth(a) >= PathDepth(c) > PathDepth(b) >= PathDepth(d)
    ensures DeepestFirst([a, b, c, d]) == [a, c, b, d]
  {
    var none: seq<string> := [];
    assert [a, b, c, d][1..] == [b, c, d] && [b, c, d][1..] == [c, d] && [c, d][1..] == [d] && [d][1..] == none;
    assert DeepestFirst([d]) == [d];
    assert DeepestFirst([c, d]) == [c, d];
    assert InsertDeepestFirst(b, [c, d]) == [c] + InsertDeepestFirst(b, [d]);
    assert DeepestFirst([b, c, d]) == [c, b, d];
  }

  lemma ListOfFour(a: string, b: string)
    ensures [a, b] + LEGACY_PATHS == [a, b, LEGACY_PATHS[0], LEGACY_PATHS[1]]
  {}

  lemma HostedOrder(a: string, b: string)
    requires PathDepth(a) == 4 && 2 <= PathDepth(b) <= 3
    ensures DeepestFirst([a, b] + LEGACY_PATHS) == [a, LEGACY_PATHS[0], b, LEGACY_PATHS[1]]
  {
    ListOfFour(a, b);
    LegacyDepths();
    SortFour(a, b, LEGACY_PATHS[0], LEGACY_PATHS[1]);
  }

  /* ---- a reset that forgets ---- */

  /** A tree without links whose ownership list names itself and one other directory. */
  ghost predicate IsForgetful(d: Disk, k: Readers, owner: string, other: string, allowed: Guard) {
    && Hosts(d, k, owner, other) && Accepts(allowed, owner, other) && NoLinks(d)
    && Segments(owner) == OWNED_FILES && PathDepth(owner) == 4 && !OpenEnd(owner)
    && Segments(other) in d && d[Segments(other)] == Directory && Segments(other) !in WATCHED
    && 2 <= PathDepth(other) <= 3
  }

  /** The third entry cannot be removed. */
  function ThirdFails(left: Path): nat -> Fault { (n: nat) => if n == 2 then RemoveFails({left}) else Smooth }

  /** The first entry goes, the second is not there, the third cannot be removed. */
  lemma ThirdStays(d: Disk, files: seq<string>, allowed: Guard, faults: seq<Fault>, r: Path)
    requires |faults| == |files| > 2 && faults[0] == faults[1] == Smooth && faults[2] == RemoveFails({r})
    requires allowed(files[0]) && allowed(files[1]) && allowed(files[2])
    requires LookAt(d, files[0]).At? && !Sticks(d, files[0])
    requires var d' := After(d, files[0], false); LookAt(d', files[1]) == Nothing && LookAt(d', files[2]) == At(r)
    ensures var e := RemoveEach(d, files, allowed, false, faults);
            e.outcome == Unremovable(files[2]) && Dealt(e) == 2 && r in e.disk
  {
    assert files[0..] == files && faults[0..] == faults;
    var d' := After(d, files[0], false);
    OneEntry(d, files, allowed, false, faults, 0);
    OneEntry(d', files, allowed, false, faults, 1);
    OneEntry(d', files, allowed, false, faults, 2);
  }

  lemma FileGoes(d: Disk, path: string)
    requires Shown(d, path) && d[Segments(path)].File?
    ensures After(d, path, false) == d - {Segments(path)} && !Sticks(d, path)
  {}

  lemma OtherStays(d: Disk, d': Disk, other: string)
    requires Smaller(d', d) && Shown(d, other) && Segments(other) in d'
    ensures LookAt(d', other) == At(Segments(other))
  {
    StraightTrail(d, other);
    LookStays(d, d', other);
  }

  lemma OthersStay(d: Disk, owner: string, first: string, other: string)
    requires WellFormed(d) && Shown(d, owner) && d[Segments(owner)].File? && Hidden(d, first) && Shown(d, other)
    requires Segments(other) != Segments(owner)
    ensures var d' := After(d, owner, false); LookAt(d', first) == Nothing && LookAt(d', other) == At(Segments(other))
    ensures !Sticks(d, owner)
  {
    FileGoes(d, owner);
    AfterStaysWellFormed(d, owner, false);
    LookIsLost(d, After(d, owner, false), first);
    OtherStays(d, After(d, owner, false), other);
  }

  lemma ForgetfulStop(d: Disk, files: seq<string>, owner: string, first: string, other: string, second: string,
                      allowed: Guard, r: Removal)
    requires WellFormed(d) && DeepestFirst(files) == [owner, first, other, second]
    requires RemovalOf(d, files, allowed, false, ThirdFails(Segments(other)), r)
    requires Shown(d, owner) && d[Segments(owner)].File? && Hidden(d, first) && Shown(d, other)
    requires Segments(other) != Segments(owner) && allowed(owner) && allowed(first) && allowed(other)
    ensures r.outcome == Unremovable(other) && Dealt(r) == 2 && Segments(other) in r.disk
  {
    OthersStay(d, owner, first, other);
    ThirdStays(d, DeepestFirst(files), allowed, FaultsOf(4, ThirdFails(Segments(other))), Segments(other));
  }

  lemma OtherIsNotRegained(start: Disk, k: Readers, other: string, kept: iset<Path>)
    requires REPORT !in start && CONFIG !in start && MetadataOf(start, k).Some?
    requires Segments(other) !in WATCHED && other !in LEGACY_PATHS
    ensures !Rederived(start, k, kept, other)
  {
    NotASwapName(other);
    assert MetadataLeft(start, k, kept).phpSource == None;
  }

  lemma ForgetfulKeepsNoOwner(files: seq<string>, each: nat -> Fault, r: Removal)
    requires files != [] && Segments(DeepestFirst(files)[0]) == OWNED_FILES && Dealt(r) > 0
    ensures OWNED_FILES !in KeptPlaces(files, each, r)
  {
    OwnedIsKeptMeans(files, each, r);
  }

  /** On every such tree the reset that fails at the other place leaves it there, and the next reset
      does not know of it. */
  lemma StoppedResetForgets(d: Disk, k: Readers, owner: string, other: string, allowed: Guard, r: Removal)
    requires IsForgetful(d, k, owner, other, allowed) && allowed == ResetGuard(false)
    requires Planned(d, d, k, false, ThirdFails(Segments(other)), r)
    ensures Stopped((iset q | q in WATCHED), d, d, k, ThirdFails(Segments(other)), r)
    ensures other in PlannedFiles(d, k) && Segments(other) in r.disk
    ensures MetadataOf(r.disk, k).Some? && FileList(r.disk, MetadataOf(r.disk, k).value, k).Some?
    ensures other !in PlannedFiles(r.disk, k)
  {
    var each, places := ThirdFails(Segments(other)), iset q | q in WATCHED;
    PlainList(d, k, owner, other);
    HostedOrder(owner, other);
    assert OWNED_FILES in WATCHED;
    IsShown(d, owner);
    IsShown(d, other);
    LegacyIsHidden(d);
    ForgetfulStop(d, PlannedFiles(d, k), owner, LEGACY_PATHS[0], other, LEGACY_PATHS[1], allowed, r);
    AllStraight(d, PlannedFiles(d, k));
    RetryKnowsIff(places, d, d, k, each, r, other);
    ForgetfulKeepsNoOwner(PlannedFiles(d, k), each, r);
    OtherIsNotRegained(d, k, other, KeptPlaces(PlannedFiles(d, k), each, r));
  }

  /* ---- such a tree ---- */

  const ROOT: Disk := map[[] := Directory]
  function Tree(owned: Path, stray: Path): Disk {
    WithDirectories(WithDirectories(ROOT, Parent(owned)), stray)[owned := File("")]
  }

  lemma {:induction false} WithDirectoriesMeans(d: Disk, p: Path, q: Path)
    requires [] in d
    ensures var d' := WithDirectories(d, p);
            (q in d' <==> q in d || q <= p) && (q in d' ==> d'[q] == if q in d then d[q] else Directory)
    decreases |p|
  {
    if p != [] {
      WithDirectoriesMeans(d, p[..|p| - 1], q);
      WithDirectoriesMeans(d, p[..|p| - 1], p);
      assert q <= p <==> q <= p[..|p| - 1] || q == p;
    }
  }

  lemma TreeMeans(owned: Path, stray: Path, q: Path)
    requires owned != []
    ensures q in Tree(owned, stray) <==> q <= owned || q <= stray
    ensures q in Tree(owned, stray) ==> Tree(owned, stray)[q] == if q == owned then File("") else Directory
  {
    var d := WithDirectories(ROOT, Parent(owned));
    WithDirectoriesMeans(ROOT, Parent(owned), q);
    WithDirectoriesMeans(ROOT, Parent(owned), []);
    WithDirectoriesMeans(d, stray, q);
    assert q <= owned <==> q <= Parent(owned) || q == owned;
  }

  lemma TreeHasShape(owned: Path, stray: Path)
    requires owned != [] && !(owned <= stray)
    ensures WellFormed(Tree(owned, stray))
  {
    forall q | q in Tree(owned, stray) && q != []
      ensures HangsIn(Tree(owned, stray), q)
    {
      TreeMeans(owned, stray, q);
      TreeMeans(owned, stray, q[..|q| - 1]);
      if q <= stray { assert !(owned <= q); }
    }
  }

  lemma NothingAt(owned: Path, stray: Path, p: Path)
    requires owned != [] && stray != [] && p != [] && p[0] != owned[0] && p[0] != stray[0]
    ensures p !in Tree(owned, stray) && !ThroughFile(Tree(owned, stray), p)
  {
    TreeMeans(owned, stray, p);
    forall n | 0 <= n < |p| && p[..n] in Tree(owned, stray) ensures !Tree(owned, stray)[p[..n]].File? {
      TreeMeans(owned, stray, p[..n]);
    }
  }

  lemma TreeHasNoLinks(owned: Path, stray: Path)
    requires owned != []
    ensures NoLinks(Tree(owned, stray))
  {
    forall q | q in Tree(owned, stray) ensures !Tree(owned, stray)[q].Link? { TreeMeans(owned, stray, q); }
  }

  /** Below the software directory, the web directory and the certificates nothing is watched. */
  predicate Unwatched(stray: Path) {
    && |stray| > 1
    && (|| stray[0] == "opt"
        || (stray[0] == "var" && stray[1] == "www")
        || (stray[0] == "etc" && stray[1] == "letsencrypt"))
  }

  lemma WatchedMissTree(q: Path, stray: Path)
    requires q in WATCHED && q != OWNED_FILES && Unwatched(stray)
    ensures !(q <= OWNED_FILES) && !(q <= stray)
  {
    assert q != [] && OWNED_FILES[0] == "var" && OWNED_FILES[1] == "lib" && q[0] != "opt";
    assert q[0] == "var" ==> q == REPORT && q[1] != "www";
    assert q[0] == "etc" ==> |q| > 1 && q[1] != "letsencrypt";
  }

  lemma StrayIsUnwatched(stray: Path)
    requires Unwatched(stray)
    ensures stray !in WATCHED && !(OWNED_FILES <= stray) && stray[0] != "usr" && stray[0] != "tmp"
  {
    if stray in WATCHED && stray != OWNED_FILES { WatchedMissTree(stray, stray); }
    assert OWNED_FILES[0] == "var" && OWNED_FILES[1] == "lib";
  }

  /** What the trees of this module have in common. */
  ghost predicate IsBare(d: Disk) {
    && WellFormed(d) && OWNED_FILES in d && d[OWNED_FILES] == File("")
    && LegacyAbsent(d)
    && REPORT !in d && CONFIG !in d && SWAP_UNIT !in d && SWAP_SYSCTL !in d
  }

  lemma TreeIsBare(stray: Path)
    requires Unwatched(stray)
    ensures IsBare(Tree(OWNED_FILES, stray)) && stray in Tree(OWNED_FILES, stray)
    ensures Tree(OWNED_FILES, stray)[stray] == Directory
  {
    assert OWNED_FILES[0] == "var" && FIRST_LEGACY[0] == "usr" && SECOND_LEGACY[0] == "tmp";
    StrayIsUnwatched(stray);
    TreeHasShape(OWNED_FILES, stray);
    forall q | q in WATCHED && q != OWNED_FILES ensures q !in Tree(OWNED_FILES, stray) {
      TreeMeans(OWNED_FILES, stray, q);
      WatchedMissTree(q, stray);
    }
    assert {REPORT, CONFIG, SWAP_UNIT, SWAP_SYSCTL} <= WATCHED && REPORT != OWNED_FILES && CONFIG != OWNED_FILES;
    TreeMeans(OWNED_FILES, stray, OWNED_FILES);
    TreeMeans(OWNED_FILES, stray, stray);
    NothingAt(OWNED_FILES, stray, FIRST_LEGACY);
    NothingAt(OWNED_FILES, stray, SECOND_LEGACY);
  }

  function OwnerReaders(a: string, b: string): Readers {
    Readers(_ => Some([a, b]), _ => None, (_, _) => None, names => names, _ => false)
  }

  lemma OwnerReadersAreProper(a: string, b: string)
    ensures Proper(OwnerReaders(a, b)) && OwnerReaders(a, b).owned("") == Some([a, b])
  {}

  /** Path strings that are neither a legacy one nor the swap unit's. */
  ghost predicate Pair(a: string, b: string) {
    a !in LEGACY_PATHS && b !in LEGACY_PATHS && a != PathOf(SWAP_UNIT) && b != PathOf(SWAP_UNIT)
  }

  lemma HostsFrom(d: Disk, k: Readers, a: string, b: string)
    requires IsBare(d) && Pair(a, b) && Proper(k) && k.owned("") == Some([a, b])
    ensures Hosts(d, k, a, b)
  {}

  lemma NotASwapPlace(p: Path)
    requires p == OWNED_FILES || Unwatched(p)
    ensures p != [] && p != SWAP_FILE && p != SWAP_UNIT && p[0] != "usr" && p[0] != "tmp"
  {
    assert OWNED_FILES[0] == "var" && SWAP_FILE[0] == "swapfile" && SWAP_UNIT[0] == "etc" && SWAP_UNIT[1] == "systemd";
  }

  lemma LegacyGuards()
    ensures ResetGuard(false)(LEGACY_PATHS[0]) && ResetGuard(false)(LEGACY_PATHS[1])
  {
    assert SWAP_FILE[0] == "swapfile" && FIRST_LEGACY[0] == "usr" && SECOND_LEGACY[0] == "tmp";
    FirstLegacyPlace();
    SecondLegacyPlace();
    GuardAdmits(LEGACY_PATHS[0]);
    GuardAdmits(LEGACY_PATHS[1]);
  }

  lemma PairFrom(a: string, b: string, p: Path, q: Path)
    requires Admits(a) && Admits(b) && Segments(a) == p && Segments(b) == q
    requires (p == OWNED_FILES || Unwatched(p)) && (q == OWNED_FILES || Unwatched(q))
    ensures Pair(a, b) && Accepts(ResetGuard(false), a, b)
  {
    NotASwapPlace(p);
    NotASwapPlace(q);
    LegacyGuards();
    GuardAdmits(a);
    GuardAdmits(b);
    NotLegacy(a, p);
    NotLegacy(b, q);
    NotTheSwapUnit(a);
    NotTheSwapUnit(b);
  }

  lemma ForgetfulNames() returns (owner: string, other: string)
    ensures NameOf(owner, OWNED_FILES) && NameOf(other, STRAY) && Pair(owner, other)
    ensures Unwatched(STRAY) && Accepts(ResetGuard(false), owner, other)
  {
    owner := OwnerName();
    other := StrayName();
    assert STRAY[0] == "opt";
    PairFrom(owner, other, OWNED_FILES, STRAY);
  }

  lemma ForgetfulFrom(d: Disk, k: Readers, owner: string, other: string, p: Path, allowed: Guard)
    requires Hosts(d, k, owner, other) && Accepts(allowed, owner, other) && NoLinks(d)
    requires p in d && d[p] == Directory && p !in WATCHED
    requires NameOf(owner, OWNED_FILES) && NameOf(other, p) && |p| == 2 && |OWNED_FILES| == 4
    ensures IsForgetful(d, k, owner, other, allowed)
  {
    CanonicalEnd(owner);
  }

  /** There are such trees. */
  lemma SomeTreeIsForgetful() returns (d: Disk, k: Readers, owner: string, other: string)
    ensures IsForgetful(d, k, owner, other, ResetGuard(false))
  {
    owner, other := ForgetfulNames();
    d, k := Tree(OWNED_FILES, STRAY), OwnerReaders(owner, other);
    TreeIsBare(STRAY);
    TreeHasNoLinks(OWNED_FILES, STRAY);
    StrayIsUnwatched(STRAY);
    OwnerReadersAreProper(owner, other);
    HostsFrom(d, k, owner, other);
    ForgetfulFrom(d, k, owner, other, STRAY, ResetGuard(false));
  }

  /* ---- a dry run that promises too much ---- */

  function Calm(): nat -> Fault { (n: nat) => Smooth }

  lemma CalmRemoval(d: Disk, files: seq<string>, allowed: Guard, dry: bool, r: Removal)
    requires RemovalOf(d, files, allowed, dry, Calm(), r)
    ensures r == if dry then Dry(d, DeepestFirst(files), allowed) else Real(d, DeepestFirst(files), allowed)
  {
    var n := |DeepestFirst(files)|;
    assert FaultsOf(n, Calm()) == seq(n, _ => Smooth);
  }

  /** A tree without links in which both owned paths name something. */
  ghost predicate ShowsBoth(d: Disk, k: Readers, a: string, b: string, allowed: Guard) {
    Hosts(d, k, a, b) && Accepts(allowed, a, b) && NoLinks(d) && Shown(d, a) && Shown(d, b)
  }

  lemma FourPass(d: Disk, files: seq<string>, a: string, b: string, first: string, second: string, allowed: Guard)
    requires files == [a, b, first, second] && allowed(a) && allowed(b) && allowed(first) && allowed(second)
    requires Shown(d, a) && Shown(d, b) && Hidden(d, first) && Hidden(d, second)
    ensures Dry(d, DeepestFirst(files), allowed).outcome == Ok
  {
    var good := (f: string) => allowed(f) && !LookAt(d, f).Trouble?;
    assert good(a) && good(b) && good(first) && good(second);
    SortedStillPasses(d, files, allowed);
    DrySucceedsIffPasses(d, DeepestFirst(files), allowed);
  }

  /** Then the dry run succeeds. */
  lemma DryRunPasses(d: Disk, files: seq<string>, a: string, b: string, allowed: Guard, dry: Removal)
    requires NoLinks(d) && LegacyAbsent(d) && Shown(d, a) && Shown(d, b) && Accepts(allowed, a, b)
    requires files == [a, b] + LEGACY_PATHS && RemovalOf(d, files, allowed, true, Calm(), dry)
    ensures dry == Dry(d, DeepestFirst(files), allowed) && dry.outcome == Ok
  {
    CalmRemoval(d, files, allowed, true, dry);
    LegacyIsHidden(d);
    ListOfFour(a, b);
    FourPass(d, files, a, b, LEGACY_PATHS[0], LEGACY_PATHS[1], allowed);
  }

  /** On every such tree where one path is a directory written with two "." components, and the other
      is inside it, the dry run succeeds and foretells something else than the reset does. */
  lemma DottedForecastFails(d: Disk, k: Readers, top: string, dir: string, name: string, allowed: Guard,
                            dry: Removal, wet: Removal)
    requires Plain(dir) && Plain(name) && allowed == ResetGuard(false)
    requires ShowsBoth(d, k, Inside(Inside(top, dir), name), Dotted(top, dir), allowed)
    requires Planned(d, d, k, true, Calm(), dry) && Planned(d, d, k, false, Calm(), wet)
    ensures dry.outcome == Ok && !SameReport(wet, dry)
  {
    var a, b := Inside(Inside(top, dir), name), Dotted(top, dir);
    PlainList(d, k, a, b);
    DryRunPasses(d, PlannedFiles(d, k), a, b, allowed, dry);
    CalmRemoval(d, PlannedFiles(d, k), allowed, false, wet);
    InsidePlace(top, dir);
    InsidePlace(Inside(top, dir), name);
    DotComponentsBreakTheForecast(d, top, dir, name, PlannedFiles(d, k), allowed);
  }

  /** On every such tree where one path is a directory written with "." at its end, the dry run succeeds
      and the reset fails or reports something else. */
  lemma StuckForecastFails(d: Disk, k: Readers, a: string, b: string, allowed: Guard, dry: Removal, wet: Removal)
    requires ShowsBoth(d, k, a, b, allowed) && allowed == ResetGuard(false) && DotEnd(b)
    requires Planned(d, d, k, true, Calm(), dry) && Planned(d, d, k, false, Calm(), wet)
    ensures dry.outcome == Ok && !SameReport(wet, dry)
  {
    PlainList(d, k, a, b);
    DryRunPasses(d, PlannedFiles(d, k), a, b, allowed, dry);
    CalmRemoval(d, PlannedFiles(d, k), allowed, false, wet);
    DotEndBreaksTheForecast(d, b, PlannedFiles(d, k), allowed);
  }

  lemma WebName() returns (top: string)
    ensures top == PathOf(WEB) && Segments(top) == WEB && "/" <= top && !Contains(top, "..")
  {
    top := PathOf(WEB);
    PlainDirectories();
    SegmentsOfPath(WEB);
    forall part | part in WEB ensures !Contains(part, "..") { NoDots(part); }
    NoDoubleDots(WEB);
  }

  lemma SiteParts() returns (dir: string, name: string)
    ensures Plain(dir) && Plain(name) && WEB + [dir] == SITE && SITE + [name] == SITE_DATA && '.' !in dir
  {
    dir, name := "g7", "data";
  }

  lemma SiteNames() returns (top: string, dir: string, name: string)
    ensures Plain(dir) && Plain(name) && Segments(top) == WEB && WEB + [dir] == SITE && '.' !in dir
    ensures "/" <= top && !Contains(top, "..")
    ensures NameOf(Inside(top, dir), SITE) && NameOf(Inside(Inside(top, dir), name), SITE_DATA)
  {
    top := WebName();
    dir, name := SiteParts();
    PathOfAppend(WEB, dir);
    PathOfAppend(SITE, name);
    var site := SitePlaces(SITE);
    var data := SitePlaces(SITE_DATA);
  }

  lemma AddsNoDoubleDots(path: string, rest: string)
    requires !Contains(path, "..") && !Contains(rest, "..")
    ensures !Contains(path + "/" + rest, "..")
  {
    ContainsAcross(path, '/', rest, "..");
  }

  lemma OneDotIsNoTwo()
    ensures !Contains(".", "..")
  {
    NoDots("");
  }

  lemma DottedIsAdmitted(top: string, dir: string)
    requires "/" <= top && !Contains(top, "..") && Segments(top) == WEB
    requires WEB + [dir] == SITE && Plain(dir) && '.' !in dir
    ensures Admits(Dotted(top, dir)) && Segments(Dotted(top, dir)) == SITE
  {
    OneDotIsNoTwo();
    NoDots(dir);
    AddsNoDoubleDots(top, ".");
    AddsNoDoubleDots(top + "/" + ".", ".");
    AddsNoDoubleDots(top + "/" + "." + "/" + ".", dir);
    DottedPlace(top, dir);
    SiteSpelled(Dotted(top, dir));
  }

  /** There are trees of the first kind. */
  lemma SomeDottedTree() returns (d: Disk, k: Readers, top: string, dir: string, name: string)
    ensures Plain(dir) && Plain(name)
    ensures ShowsBoth(d, k, Inside(Inside(top, dir), name), Dotted(top, dir), ResetGuard(false))
  {
    top, dir, name := SiteNames();
    var a, b := Inside(Inside(top, dir), name), Dotted(top, dir);
    DottedIsAdmitted(top, dir);
    DottedPlace(top, dir);
    d, k := SiteTree(a, b);
  }

  /** The tree of a site with some data, and readers that find both paths owned. */
  lemma SiteTree(a: string, b: string) returns (d: Disk, k: Readers)
    requires Admits(a) && Admits(b) && Segments(a) == SITE_DATA && Segments(b) == SITE
    ensures ShowsBoth(d, k, a, b, ResetGuard(false)) && Segments(b) in d && d[Segments(b)] == Directory
  {
    d, k := Tree(OWNED_FILES, SITE_DATA), OwnerReaders(a, b);
    assert SITE[0] == SITE_DATA[0] == "var" && SITE[1] == SITE_DATA[1] == "www";
    TreeIsBare(SITE_DATA);
    TreeHasNoLinks(OWNED_FILES, SITE_DATA);
    TreeMeans(OWNED_FILES, SITE_DATA, SITE);
    OwnerReadersAreProper(a, b);
    PairFrom(a, b, SITE_DATA, SITE);
    HostsFrom(d, k, a, b);
    IsShown(d, a);
    IsShown(d, b);
  }

  /** And of the second. */
  lemma SomeStuckTree() returns (d: Disk, k: Readers, a: string, b: string)
    ensures ShowsBoth(d, k, a, b, ResetGuard(false)) && DotEnd(b)
  {
    var top, dir, name := SiteNames();
    a, b := Inside(Inside(top, dir), name), Inside(top, dir) + "/" + ".";
    StuckName(Inside(top, dir));
    d, k := SiteTree(a, b);
  }

  lemma StuckName(site: string)
    requires NameOf(site, SITE)
    ensures Admits(site + "/" + ".") && Segments(site + "/" + ".") == SITE && DotEnd(site + "/" + ".")
  {
    OneDotIsNoTwo();
    AddsNoDoubleDots(site, ".");
    SegmentsConcat(site, ".");
    SegmentsOfName(".");
    EndOfConcat(site, ".");
    SiteSpelled(site + "/" + ".");
  }

  /* ---- a site that is a link ---- */

  const LIVE: Path := ["etc", "letsencrypt", "live"]

  /** A tree whose only link stands for the site and leads to the certificates. */
  ghost predicate LinksToCertificates(d: Disk) {
    && SITE in d && d[SITE] == Link(CERTIFICATES) && LIVE in d && d[LIVE] == Directory
    && forall q :: q in d && d[q].Link? ==> q == SITE
  }

  lemma LeadsToCertificates(d: Disk, path: string, name: string)
    requires WellFormed(d) && LinksToCertificates(d) && Segments(path) == SITE + [name] && !OpenEnd(path)
    requires CERTIFICATES + [name] == LIVE
    ensures LookAt(d, path) == At(LIVE) && !Sticks(d, path)
  {
    var p := Segments(path);
    assert p[..3] == SITE && LinkAt(d, p, 3) && p[3..] == [name];
    FirstLinkIs(d, p, 3);
    forall j | 0 <= j <= |LIVE| ensures !LinkAt(d, LIVE, j) { assert LIVE[0] == "etc" && SITE[0] == "var"; }
    FirstLinkIs(d, LIVE, |LIVE|);
    LeadStep(d, p, false, MAX_LINKS, 3);
    assert Lead(d, LIVE, false, MAX_LINKS - 1) == Some(LIVE);
    PresentIsReachable(d, LIVE);
    DotEndIsOpen(path);
  }

  /** On every such tree a reset that knows of something below the site removes certificates. */
  lemma LinkedSiteLosesCertificates(d: Disk, k: Readers, a: string, b: string, name: string, allowed: Guard, r: Removal)
    requires Hosts(d, k, a, b) && allowed(a) && allowed == ResetGuard(false) && LinksToCertificates(d)
    requires Segments(a) == SITE + [name] && CERTIFICATES + [name] == LIVE && !OpenEnd(a)
    requires PathDepth(a) == 4 && 2 <= PathDepth(b) <= 3
    requires Planned(d, d, k, false, Calm(), r)
    ensures LIVE in d && LIVE !in r.disk
  {
    PlainList(d, k, a, b);
    HostedOrder(a, b);
    LeadsToCertificates(d, a, name);
    FirstIsLost(d, DeepestFirst(PlannedFiles(d, k)), allowed, LIVE, r);
  }

  lemma FirstIsLost(d: Disk, sorted: seq<string>, allowed: Guard, q: Path, r: Removal)
    requires WellFormed(d) && sorted != [] && allowed(sorted[0])
    requires LookAt(d, sorted[0]) == At(q) && !Sticks(d, sorted[0])
    requires r == RemoveEach(d, sorted, allowed, false, FaultsOf(|sorted|, Calm()))
    ensures q in d && q !in r.disk
  {
    assert NoFaults(FaultsOf(|sorted|, Calm()));
    LostIsLost(d, sorted, allowed, FaultsOf(|sorted|, Calm()), q);
  }

  /** The same tree as before, but with a link for the site. */
  function LinkedTree(): Disk {
    WithDirectories(Tree(OWNED_FILES, LIVE), WEB)[SITE := Link(CERTIFICATES)]
  }

  lemma LinkedTreeMeans(q: Path)
    ensures q in LinkedTree() <==> q <= OWNED_FILES || q <= LIVE || q <= SITE
    ensures q in LinkedTree() ==>
              LinkedTree()[q] == if q == SITE then Link(CERTIFICATES)
                                 else if q == OWNED_FILES then File("") else Directory
  {
    var d := Tree(OWNED_FILES, LIVE);
    TreeMeans(OWNED_FILES, LIVE, q);
    TreeMeans(OWNED_FILES, LIVE, []);
    WithDirectoriesMeans(d, WEB, q);
    assert q <= SITE <==> q <= WEB || q == SITE;
  }

  lemma LinkedTreeHasShape()
    ensures WellFormed(LinkedTree())
  {
    assert OWNED_FILES[1] == "lib" && SITE[1] == "www" && LIVE[0] == "etc";
    forall q | q in LinkedTree() && q != []
      ensures HangsIn(LinkedTree(), q)
    {
      LinkedTreeMeans(q);
      LinkedTreeMeans(q[..|q| - 1]);
      if q <= LIVE { assert !(OWNED_FILES <= q) && !(SITE <= q); }
    }
  }

  lemma LinkedTreeMisses(p: Path)
    requires p != [] && p[0] != "var" && p[0] != "etc"
    ensures p !in LinkedTree() && !ThroughFile(LinkedTree(), p)
  {
    assert OWNED_FILES[0] == "var" && SITE[0] == "var" && LIVE[0] == "etc";
    LinkedTreeMeans(p);
    forall n | 0 <= n < |p| && p[..n] in LinkedTree() ensures !LinkedTree()[p[..n]].File? { LinkedTreeMeans(p[..n]); }
  }

  lemma LinkedTreeIsBare()
    ensures IsBare(LinkedTree()) && LinksToCertificates(LinkedTree())
  {
    assert FIRST_LEGACY[0] == "usr" && SECOND_LEGACY[0] == "tmp";
    assert SITE[0] == "var" && SITE[1] == "www" && LIVE[0] == "etc";
    LinkedTreeHasShape();
    forall q | q in WATCHED && q != OWNED_FILES ensures q !in LinkedTree() {
      LinkedTreeMeans(q);
      WatchedMissTree(q, LIVE);
      WatchedMissTree(q, SITE);
    }
    assert {REPORT, CONFIG, SWAP_UNIT, SWAP_SYSCTL} <= WATCHED && REPORT != OWNED_FILES && CONFIG != OWNED_FILES;
    LinkedTreeMisses(FIRST_LEGACY);
    LinkedTreeMisses(SECOND_LEGACY);
    LinkedTreeMeans(OWNED_FILES);
    LinkedTreeMeans(SITE);
    LinkedTreeMeans(LIVE);
    forall q | q in LinkedTree() && LinkedTree()[q].Link? ensures q == SITE { LinkedTreeMeans(q); }
  }

  lemma LiveParts() returns (name: string)
    ensures CERTIFICATES + [name] == LIVE && Unwatched(SITE + [name])
    ensures forall part :: part in SITE + [name] ==> Plain(part) && '.' !in part
  {
    name := "live";
    assert (SITE + [name])[0] == "var" && (SITE + [name])[1] == "www";
    forall part | part in SITE + [name] ensures Plain(part) && '.' !in part {
      assert part == "var" || part == "www" || part == "g7" || part == "live";
    }
  }

  lemma LiveNames() returns (a: string, b: string, name: string)
    ensures NameOf(a, SITE + [name]) && CERTIFICATES + [name] == LIVE && NameOf(b, STRAY)
    ensures Pair(a, b) && Accepts(ResetGuard(false), a, b)
  {
    name := LiveParts();
    a := SitePlaces(SITE + [name]);
    b := StrayName();
    assert STRAY[0] == "opt";
    PairFrom(a, b, SITE + [name], STRAY);
  }

  /** There is such a tree: the site is a link, the ownership list names a directory below it, and the
      reset, which gets to it, takes the certificates' directory away. */
  lemma SomeCertificatesAreLost() returns (d: Disk, k: Readers, a: string, b: string, r: Removal)
    ensures Hosts(d, k, a, b) && Accepts(ResetGuard(false), a, b) && Planned(d, d, k, false, Calm(), r)
    ensures CERTIFICATES <= LIVE && LIVE in d && LIVE !in r.disk
  {
    var name;
    a, b, name := LiveNames();
    d, k := LinkedTree(), OwnerReaders(a, b);
    LinkedTreeIsBare();
    OwnerReadersAreProper(a, b);
    HostsFrom(d, k, a, b);
    r := SomeRemoval(d, k, a, b);
    CanonicalEnd(a);
    LinkedSiteLosesCertificates(d, k, a, b, name, ResetGuard(false), r);
  }

  lemma SomeRemoval(d: Disk, k: Readers, a: string, b: string) returns (r: Removal)
    requires Hosts(d, k, a, b)
    ensures Planned(d, d, k, false, Calm(), r)
  {
    PlainList(d, k, a, b);
    var files := PlannedFiles(d, k);
    var sorted := DeepestFirst(files);
    r := RemoveEach(d, sorted, GuardOf(d, files), false, FaultsOf(|sorted|, Calm()));
  }
}
