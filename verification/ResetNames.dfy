/** Path strings of places that a reset manages. */
module ResetNames {
  import opened DiskTree
  import opened Paths
  import opened ResetAllowlist
  import opened ResetFiles
  import opened ResetRetry
  import opened ResetRun
  import opened Strings

  const FIRST_LEGACY: Path := ["usr", "local", "bin", "g7"]
  const SECOND_LEGACY: Path := ["tmp", "g7"]
  const STRAY: Path := ["opt", "g7-frankenphp"]
  const WEB: Path := ["var", "www"]
  const SITE: Path := ["var", "www", "g7"]
  const SITE_DATA: Path := ["var", "www", "g7", "data"]

  /** A path string of an admitted place. */
  ghost predicate NameOf(name: string, p: Path) {
    Admits(name) && Canonical(name) && Segments(name) == p && PathDepth(name) == |p|
  }

  lemma PathOfTwo(a: string, b: string)
    ensures PathOf([a, b]) == "/" + a + "/" + b
  {
    PathOfCons(b, []);
    PathOfCons(a, [b]);
    assert [b] + [] == [b] && [a] + [b] == [a, b];
    assert PathOf([]) == "";
  }

  lemma PathOfFour(a: string, b: string, c: string, e: string)
    ensures PathOf([a, b, c, e]) == "/" + a + "/" + b + "/" + c + "/" + e
  {
    PathOfTwo(c, e);
    PathOfCons(b, [c, e]);
    PathOfCons(a, [b, c, e]);
    assert [b] + [c, e] == [b, c, e] && [a] + [b, c, e] == [a, b, c, e];
  }

  lemma LegacyPlaces()
    ensures PathOf(FIRST_LEGACY) == "/usr/local/bin/g7" && PathOf(SECOND_LEGACY) == "/tmp/g7"
  {
    PathOfFour("usr", "local", "bin", "g7");
    PathOfTwo("tmp", "g7");
  }

  lemma PlaceMeans(r: Path, p: Path)
    requires r in ALLOWED_ROOTS && r <= p && AllPlain(p) && forall name :: name in p ==> !Contains(name, "..")
    ensures NameOf(PathOf(p), p)
  {
    NoDoubleDots(p);
    CanonicalPathOf(p);
    DepthOfCanonical(PathOf(p));
    AdmitsDecidesManaged(p);
  }

  lemma ServiceRoot(i: nat)
    requires i < |SERVICE_ROOTS|
    ensures SERVICE_ROOTS[i] in ALLOWED_ROOTS
  {
    assert SERVICE_ROOTS[i] in SERVICE_ROOTS;
  }

  lemma InstallerRoot(i: nat)
    requires i < |INSTALLER_ROOTS|
    ensures INSTALLER_ROOTS[i] in ALLOWED_ROOTS
  {
    assert INSTALLER_ROOTS[i] in INSTALLER_ROOTS;
  }

  lemma NameUnder(r: Path, init: Path, stem: string, ext: string) returns (name: string)
    requires var p := init + [stem + "." + ext]; r in ALLOWED_ROOTS && r <= p && AllPlain(p)
    requires (forall part :: part in init ==> '.' !in part) && '.' !in stem && '.' !in ext
    ensures NameOf(name, init + [stem + "." + ext])
  {
    var p := init + [stem + "." + ext];
    OneDot(stem, ext);
    forall part | part in p ensures !Contains(part, "..") {
      if part in init { NoDots(part); }
    }
    PlaceMeans(r, p);
    name := PathOf(p);
  }

  lemma OwnerParts() returns (r: Path, stem: string, ext: string)
    ensures r in ALLOWED_ROOTS && OWNED_FILES == r + [stem + "." + ext] && AllPlain(OWNED_FILES)
    ensures (forall part :: part in r ==> '.' !in part) && '.' !in stem && '.' !in ext
  {
    r, stem, ext := INSTALLER_ROOTS[1], "owned-files", "json";
    PlainDirectories();
    PlainInstallerNames();
    InstallerRoot(1);
    assert stem + "." + ext == "owned-files.json";
  }

  lemma OwnerName() returns (name: string)
    ensures NameOf(name, OWNED_FILES)
  {
    var r, stem, ext := OwnerParts();
    name := NameUnder(r, r, stem, ext);
  }

  lemma RootName(i: nat) returns (name: string)
    requires i < |SERVICE_ROOTS| && forall part :: part in SERVICE_ROOTS[i] ==> '.' !in part
    ensures NameOf(name, SERVICE_ROOTS[i]) && name == PathOf(SERVICE_ROOTS[i])
  {
    var p := SERVICE_ROOTS[i];
    ServiceRoot(i);
    RootsArePlain(p);
    forall part | part in p ensures !Contains(part, "..") { NoDots(part); }
    PlaceMeans(p, p);
    name := PathOf(p);
  }

  lemma StrayName() returns (name: string)
    ensures NameOf(name, STRAY)
  {
    assert SERVICE_ROOTS[4] == STRAY;
    name := RootName(4);
  }

  lemma FirstLegacyPlace()
    ensures NameOf(LEGACY_PATHS[0], FIRST_LEGACY)
  {
    LegacyPlaces();
    assert SERVICE_ROOTS[12] == FIRST_LEGACY;
    var name := RootName(12);
  }

  lemma SecondLegacyPlace()
    ensures NameOf(LEGACY_PATHS[1], SECOND_LEGACY)
  {
    LegacyPlaces();
    assert SERVICE_ROOTS[13] == SECOND_LEGACY;
    var name := RootName(13);
  }

  lemma SitePlaces(p: Path) returns (name: string)
    requires SITE <= p && forall part :: part in p ==> Plain(part) && '.' !in part
    ensures NameOf(name, p) && name == PathOf(p)
  {
    assert SITE == INSTALLER_ROOTS[4];
    InstallerRoot(4);
    forall part | part in p ensures !Contains(part, "..") { NoDots(part); }
    PlaceMeans(SITE, p);
    name := PathOf(p);
  }

  /** A path below an admitted one, with "." components added, is admitted too. */
  lemma SiteSpelled(path: string)
    requires "/" <= path && !Contains(path, "..") && Segments(path) == SITE
    ensures Admits(path)
  {
    assert SITE[2] == "g7" && ValidSegment("g7") && IsSiteRoot(Segments(path));
    assert path != "/" by {
      if path == "/" { SegmentsConcat("", ""); SegmentsOfName(""); }
    }
  }

  lemma LegacySegments()
    ensures Segments(LEGACY_PATHS[0]) == FIRST_LEGACY && Segments(LEGACY_PATHS[1]) == SECOND_LEGACY
  {
    FirstLegacyPlace();
    SecondLegacyPlace();
  }

  lemma LegacyDepths()
    ensures PathDepth(LEGACY_PATHS[0]) == 4 && PathDepth(LEGACY_PATHS[1]) == 2
  {
    FirstLegacyPlace();
    SecondLegacyPlace();
  }

  lemma NotLegacy(name: string, p: Path)
    requires Segments(name) == p && p != [] && p[0] != "usr" && p[0] != "tmp"
    ensures name !in LEGACY_PATHS
  {
    LegacySegments();
    assert LEGACY_PATHS == [LEGACY_PATHS[0], LEGACY_PATHS[1]];
  }

  lemma NotTheSwapUnit(name: string)
    requires Segments(name) != SWAP_UNIT
    ensures name != PathOf(SWAP_UNIT)
  {
    SwapPlaces();
  }

  lemma GuardAdmits(name: string)
    requires Admits(name) && Segments(name) != SWAP_FILE
    ensures ResetGuard(false)(name)
  {
    SwapFilePlace();
  }

  lemma NotASwapName(name: string)
    requires Segments(name) !in WATCHED
    ensures name != PathOf(SWAP_UNIT) && name != PathOf(SWAP_SYSCTL) && name != PathOf(SWAP_FILE)
  {
    SwapPlaces();
    SwapFilePlace();
  }
}
