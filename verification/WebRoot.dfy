/** The web roots an installation accepts, and what a reset makes of the files registered below them. */
module WebRoot {
  import opened DiskTree
  import opened Finalize
  import opened Options
  import opened Paths
  import opened ResetAllowlist
  import opened ResetFiles
  import opened ResetRun
  import opened Strings

  /** `reset_safe_web_root`, said of the components after the root. */
  predicate SafeWebRoot(p: Path) {
    |p| == 3 &&
    if p[0] == "home" && (p[2] == "public_html" || p[2] == "www") then ValidSegment(p[1])
    else p[0] == "var" && p[1] == "www" && ValidSegment(p[2])
  }

  /** What `ensure_supported_web_root` accepts. */
  predicate Supported(webRoot: string) {
    "/" <= webRoot && SafeWebRoot(Segments(webRoot))
  }

  /** What a custom web root may look like once it is trimmed. */
  predicate CustomWebRoot(webRoot: string) {
    && "/" <= webRoot && webRoot != "/" && '\n' !in webRoot && '\r' !in webRoot && '"' !in webRoot
    && ".." !in Split(webRoot, '/') && webRoot[|webRoot| - 1] !in {'/', ' ', '\t'}
  }

  lemma BelowRoot(webRoot: string, rest: string)
    requires Supported(webRoot) && !Contains(rest, "..")
    ensures Admits(webRoot + "/" + rest) <==> !Contains(webRoot, "..")
  {
    var f := webRoot + "/" + rest;
    ContainsAcross(webRoot, '/', rest, "..");
    SegmentsConcat(webRoot, rest);
    assert Segments(f)[..3] == Segments(webRoot);
    assert IsSiteRoot(Segments(f));
    assert "/" <= f && |f| > 1;
  }

  /** A name below the web root that ends in one extension. */
  lemma SettingName(webRoot: string, stem: string, ext: string, full: string) returns (rest: string)
    requires full == "/" + stem + "." + ext && '.' !in stem && '.' !in ext
    ensures webRoot + full == webRoot + "/" + rest && !Contains(rest, "..")
  {
    rest := stem + "." + ext;
    OneDot(stem, ext);
  }

  lemma DriversName(webRoot: string) returns (rest: string)
    ensures webRoot + "/storage/app/settings/drivers.json" == webRoot + "/" + rest && !Contains(rest, "..")
  {
    rest := SettingName(webRoot, "storage/app/settings/drivers", "json", "/storage/app/settings/drivers.json");
  }

  lemma MailName(webRoot: string) returns (rest: string)
    ensures webRoot + "/storage/app/settings/mail.json" == webRoot + "/" + rest && !Contains(rest, "..")
  {
    rest := SettingName(webRoot, "storage/app/settings/mail", "json", "/storage/app/settings/mail.json");
  }

  lemma UndottedName(webRoot: string, rest: string, full: string)
    requires full == "/" + rest && '.' !in rest
    ensures webRoot + full == webRoot + "/" + rest && !Contains(rest, "..")
  {
    NoDots(rest);
  }

  lemma StorageName(webRoot: string) returns (rest: string)
    ensures webRoot + "/public/storage" == webRoot + "/" + rest && !Contains(rest, "..")
  {
    var full := "/public/storage";
    rest := full[1..];
    UndottedName(webRoot, rest, full);
  }

  lemma SettingParts(webRoot: string, f: string) returns (rest: string)
    requires f in SiteSettings(webRoot)
    ensures f == webRoot + "/" + rest && !Contains(rest, "..")
  {
    var drivers := DriversName(webRoot);
    var mail := MailName(webRoot);
    var storage := StorageName(webRoot);
    assert f == SiteSettings(webRoot)[0] || f == SiteSettings(webRoot)[1] || f == SiteSettings(webRoot)[2];
    rest := if f == SiteSettings(webRoot)[0] then drivers else if f == SiteSettings(webRoot)[1] then mail else storage;
  }

  /** Below a web root that the installation accepts, a registered site path is one that a reset may
      remove exactly when the web root's name holds no two dots in a row. */
  lemma SettingIsAdmittedIff(webRoot: string, f: string)
    requires Supported(webRoot) && f in SiteSettings(webRoot)
    ensures Admits(f) <==> !Contains(webRoot, "..")
  {
    var rest := SettingParts(webRoot, f);
    BelowRoot(webRoot, rest);
  }

  lemma SettingsAreListed(start: Disk, k: Readers, encoded: string, files: seq<string>, webRoot: string, redis: bool,
                          f: string)
    requires OWNED_FILES in start && start[OWNED_FILES] == File(encoded) &&
             k.owned(encoded) == Some(Register(files, webRoot, redis))
    requires MetadataOf(start, k).Some? && FileList(start, MetadataOf(start, k).value, k).Some?
    requires f in SiteSettings(webRoot)
    ensures f in PlannedFiles(start, k)
  {
    RegistrationGrows(files, webRoot, redis);
    OwnedIsOnList(start, MetadataOf(start, k).value, k, encoded, f);
  }

  lemma SettingIsNoSwapFile(webRoot: string, f: string, swapAllowed: bool)
    requires Supported(webRoot) && f in SiteSettings(webRoot)
    ensures ResetGuard(swapAllowed)(f) <==> !Contains(webRoot, "..")
  {
    SettingIsAdmittedIff(webRoot, f);
    PlainInstallerNames();
    SegmentsOfPath(SWAP_FILE);
    var rest := SettingParts(webRoot, f);
    SegmentsConcat(webRoot, rest);
    assert Segments(f)[0] == Segments(webRoot)[0] != SWAP_FILE[0];
  }

  lemma DisallowedStops(d: Disk, files: seq<string>, allowed: Guard, dry: bool, each: nat -> Fault, removal: Removal,
                        f: string)
    requires RemovalOf(d, files, allowed, dry, each, removal) && f in files && !allowed(f)
    ensures removal.outcome != Ok
  {
    var sorted := DeepestFirst(files);
    DeepestFirstSorts(files, 0);
    SameMembers(files, sorted);
    if removal.outcome == Ok {
      OkMeansAllowed(d, sorted, allowed, dry, FaultsOf(|sorted|, each), f);
    }
  }

  lemma AllowedSucceeds(d: Disk, files: seq<string>, allowed: Guard, dry: bool, each: nat -> Fault, removal: Removal)
    requires RemovalOf(d, files, allowed, dry, each, removal) && forall n :: each(n) == Smooth
    requires AllClear(d, DeepestFirst(files), dry) && forall f :: f in files ==> allowed(f)
    ensures removal.outcome == Ok
  {
    var sorted := DeepestFirst(files);
    SortedAll(files, allowed);
    assert NoFaults(FaultsOf(|sorted|, each));
    SucceedsIff(d, sorted, allowed, dry, FaultsOf(|sorted|, each));
  }

  /** Two dots in the name of an accepted web root stop every later reset, dry or real. */
  lemma DoubleDotsStopReset(start: Disk, before: Disk, k: Readers, dry: bool, each: nat -> Fault, removal: Removal,
                            encoded: string, files: seq<string>, webRoot: string, redis: bool)
    requires OWNED_FILES in start && start[OWNED_FILES] == File(encoded) &&
             k.owned(encoded) == Some(Register(files, webRoot, redis))
    requires Planned(start, before, k, dry, each, removal) && Supported(webRoot) && Contains(webRoot, "..")
    ensures removal.outcome != Ok
  {
    var f := SiteSettings(webRoot)[0];
    var list := PlannedFiles(start, k);
    SettingsAreListed(start, k, encoded, files, webRoot, redis, f);
    SettingIsNoSwapFile(webRoot, f, PathOf(SWAP_UNIT) in list || MarkedUnit(start));
    DisallowedStops(before, list, GuardOf(start, list), dry, each, removal, f);
  }

  /** When nothing else stands in the way, the reset of an accepted web root succeeds exactly when
      its name holds no two dots in a row. */
  lemma ResetSucceedsIffNoDoubleDots(start: Disk, before: Disk, k: Readers, dry: bool, each: nat -> Fault,
                                     removal: Removal, encoded: string, files: seq<string>, webRoot: string,
                                     redis: bool)
    requires OWNED_FILES in start && start[OWNED_FILES] == File(encoded) &&
             k.owned(encoded) == Some(Register(files, webRoot, redis))
    requires Planned(start, before, k, dry, each, removal) && Supported(webRoot)
    requires (forall n :: each(n) == Smooth) && AllClear(before, DeepestFirst(PlannedFiles(start, k)), dry)
    requires var list := PlannedFiles(start, k);
             forall f :: f in list && f !in SiteSettings(webRoot) ==> GuardOf(start, list)(f)
    ensures removal.outcome == Ok <==> !Contains(webRoot, "..")
  {
    var list := PlannedFiles(start, k);
    if Contains(webRoot, "..") {
      DoubleDotsStopReset(start, before, k, dry, each, removal, encoded, files, webRoot, redis);
    } else {
      forall f | f in list ensures GuardOf(start, list)(f) {
        if f in SiteSettings(webRoot) {
          SettingIsNoSwapFile(webRoot, f, PathOf(SWAP_UNIT) in list || MarkedUnit(start));
        }
      }
      AllowedSucceeds(before, list, GuardOf(start, list), dry, each, removal);
    }
  }

  /* ---- an accepted web root that no reset removes ---- */

  lemma NamedPath(name: string)
    ensures PathOf(["var", "www", name]) == "/var/www/" + name
  {
    PathOfCons(name, []);
    PathOfCons("www", [name]);
    PathOfCons("var", ["www", name]);
    assert [name] + [] == [name] && ["www"] + [name] == ["www", name] &&
           ["var"] + ["www", name] == ["var", "www", name];
  }

  lemma WebDirectoryIsPlain(name: string)
    requires Plain(name)
    ensures AllPlain(["var", "www", name]) && !Contains("var", "..") && !Contains("www", "..")
  {
    PlainDirectories();
    NoDots("var");
    NoDots("www");
  }

  lemma NamedPlace(webRoot: string, dir: Path, name: string)
    requires webRoot == PathOf(dir + [name]) && AllPlain(dir + [name])
    requires forall part :: part in dir ==> !Contains(part, "..")
    ensures Segments(webRoot) == dir + [name] && Split(webRoot, '/') == [""] + dir + [name]
    ensures webRoot == PathOf(dir) + "/" + name && (Contains(webRoot, "..") <==> Contains(name, ".."))
  {
    SegmentsOfPath(dir + [name]);
    SplitOfPath(dir + [name]);
    PathOfAppend(dir, name);
    NoDoubleDots(dir);
    ContainsAcross(PathOf(dir), '/', name, "..");
  }

  lemma CustomFrom(webRoot: string, base: string, name: string)
    requires webRoot == base + "/" + name && "/" <= webRoot && ValidSegment(name) && ".." !in Split(webRoot, '/')
    requires forall c :: c in base ==> c != '\n' && c != '\r' && c != '"'
    ensures CustomWebRoot(webRoot)
  {
    assert webRoot[|webRoot| - 1] == name[|name| - 1] && name[|name| - 1] in name;
  }

  /** Every valid name below the web directory makes an accepted web root, a custom one too. */
  lemma NamedRootIsAccepted(webRoot: string, name: string)
    requires webRoot == PathOf(["var", "www", name]) && ValidSegment(name)
    ensures Supported(webRoot) && CustomWebRoot(webRoot) && (Contains(webRoot, "..") <==> Contains(name, ".."))
  {
    var dir: Path := ["var", "www"];
    assert dir + [name] == ["var", "www", name];
    WebDirectoryIsPlain(name);
    NamedPlace(webRoot, dir, name);
    NamedBase();
    CustomFrom(webRoot, PathOf(dir), name);
  }

  lemma NamedBase()
    ensures forall c :: c in PathOf(["var", "www"]) ==> c != '\n' && c != '\r' && c != '"'
  {
    PathOfCons("www", []);
    PathOfCons("var", ["www"]);
    assert ["www"] + [] == ["www"] && ["var"] + ["www"] == ["var", "www"];
  }

  lemma SomeDottedName() returns (name: string)
    ensures name == "foo..bar" && ValidSegment(name) && Contains(name, "..")
  {
    name := "foo..bar";
    assert name[3..][..2] == "..";
    ContainsAt(name, 3, "..");
  }

  /** There is an accepted web root none of whose settings a reset may remove. */
  lemma AcceptedButNotReset() returns (webRoot: string)
    ensures webRoot == "/var/www/" + "foo..bar" && CustomWebRoot(webRoot) && Supported(webRoot)
    ensures forall f :: f in SiteSettings(webRoot) ==> !Admits(f)
  {
    var name := SomeDottedName();
    webRoot := PathOf(["var", "www", name]);
    NamedPath(name);
    NamedRootIsAccepted(webRoot, name);
    forall f | f in SiteSettings(webRoot) ensures !Admits(f) { SettingIsAdmittedIff(webRoot, f); }
  }
}
