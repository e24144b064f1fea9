/** Which paths a reset may remove, and that certificates are never among them. */
module ResetAllowlist {
  import opened Strings
  import opened Paths

  const CERTIFICATES: Path := ["etc", "letsencrypt"]

  const INSTALLER_ROOTS: seq<Path> := [
    ["etc", "g7-installer"],
    ["var", "lib", "g7-installer"],
    ["var", "log", "g7-installer"],
    ["var", "backups", "g7-installer"],
    ["var", "www", "g7"]]

  const WEB_ROOTS: seq<Path> := [
    ["etc", "nginx", "sites-available", "g7.conf"],
    ["etc", "nginx", "sites-enabled", "g7.conf"],
    ["etc", "nginx", "sites-available", "g7-default-deny.conf"],
    ["etc", "nginx", "sites-enabled", "g7-default-deny.conf"],
    ["etc", "apache2", "sites-available", "g7.conf"],
    ["etc", "apache2", "sites-enabled", "g7.conf"],
    ["etc", "apt", "sources.list.d", "ondrej-ubuntu-php-noble.sources"],
    ["etc", "apt", "sources.list.d", "ondrej-ubuntu-php-noble.list"],
    ["etc", "apt", "sources.list.d", "ondrej-php.list"]]

  const SERVICE_ROOTS: seq<Path> := [
    ["swapfile"],
    ["etc", "systemd", "system", "swapfile.swap"],
    ["etc", "sysctl.d", "99-g7-installer-swap.conf"],
    ["etc", "systemd", "system", "g7-frankenphp.service"],
    ["opt", "g7-frankenphp"],
    ["etc", "systemd", "system", "g7-queue.service"],
    ["etc", "systemd", "system", "g7-scheduler.service"],
    ["etc", "systemd", "system", "g7-scheduler.timer"],
    ["etc", "systemd", "system", "g7-reverb.service"],
    ["etc", "systemd", "system", "laravel-queue.service"],
    ["etc", "systemd", "system", "laravel-scheduler.service"],
    ["etc", "systemd", "system", "laravel-scheduler.timer"],
    ["usr", "local", "bin", "g7"],
    ["tmp", "g7"]]

  /** The literal allowlist: each entry admits itself and everything below it. */
  const ALLOWED_ROOTS: seq<Path> := INSTALLER_ROOTS + WEB_ROOTS + SERVICE_ROOTS

  /** The runtime configuration files admitted literally. */
  const RUNTIME_FILES: seq<Path> := [
    ["etc", "nginx", "conf.d", "g7-runtime-tuning.conf"],
    ["etc", "mysql", "conf.d", "g7-installer.cnf"],
    ["etc", "mysql", "g7-installer-candidate.cnf"],
    ["etc", "mysql", "mariadb.conf.d", "z-g7-installer.cnf"],
    ["etc", "apache2", "conf-available", "g7-runtime.conf"],
    ["etc", "apache2", "conf-enabled", "g7-runtime.conf"]]

  predicate ValidSegment(name: string) {
    && name != "" && name != "." && name != ".."
    && forall c :: c in name ==> IsAsciiLetter(c) || IsDigit(c) || c == '-' || c == '_' || c == '.'
  }

  predicate IsSiteRoot(p: Path) {
    || (|p| >= 3 && p[0] == "home" && (p[2] == "public_html" || p[2] == "www") && ValidSegment(p[1]))
    || (|p| >= 3 && p[0] == "var" && p[1] == "www" && ValidSegment(p[2]))
  }

  predicate IsSessionDir(p: Path) {
    |p| == 5 && p[0] == "var" && p[1] == "lib" && p[2] == "php" && p[3] == "sessions" &&
    "g7-" <= p[4] && ValidSegment(p[4])
  }

  predicate IsPhpConfig(p: Path) {
    && |p| == 6 && p[0] == "etc" && p[1] == "php" && ValidSegment(p[2])
    && (|| (p[3] == "fpm" && p[4] == "pool.d" && "g7-" <= p[5] && EndsWith(p[5], ".conf"))
        || ((p[3] == "fpm" || p[3] == "cli") && p[4] == "conf.d" && p[5] == "99-g7-installer.ini"))
  }

  predicate IsRuntimeConfig(path: string) {
    || (exists f :: f in RUNTIME_FILES && path == PathOf(f))
    || IsSessionDir(Segments(path))
    || IsPhpConfig(Segments(path))
  }

  predicate OnOrBelow(path: string, root: string) {
    path == root || root + "/" <= path
  }

  /** `validate_reset_path`: whether a reset may touch the path. */
  predicate Admits(path: string) {
    && "/" <= path && path != "/" && !Contains(path, "..")
    && (|| (exists r :: r in ALLOWED_ROOTS && OnOrBelow(path, PathOf(r)))
        || IsSiteRoot(Segments(path))
        || IsRuntimeConfig(path))
  }

  /** The part of the tree a reset manages, said in tree positions. */
  predicate Managed(p: Path) {
    || (exists r :: r in ALLOWED_ROOTS && r <= p)
    || p in RUNTIME_FILES
    || IsSiteRoot(p) || IsSessionDir(p) || IsPhpConfig(p)
  }

  /** No admitted path can name `q` or anything above it. */
  ghost predicate OutOfReach(q: Path) {
    forall p :: Managed(p) ==> !(p <= q)
  }

  lemma PlainDirectories()
    ensures Plain("etc") && Plain("var") && Plain("lib")
    ensures Plain("log") && Plain("backups") && Plain("www")
    ensures Plain("nginx") && Plain("apache2") && Plain("apt")
    ensures Plain("systemd") && Plain("system") && Plain("opt")
    ensures Plain("usr") && Plain("local") && Plain("bin")
    ensures Plain("tmp") && Plain("mysql")
  {}

  lemma PlainConfigDirectories()
    ensures Plain("conf.d") && Plain("sysctl.d") && Plain("sources.list.d")
    ensures Plain("mariadb.conf.d") && Plain("sites-available") && Plain("sites-enabled")
    ensures Plain("conf-available") && Plain("conf-enabled")
  {}

  lemma PlainInstallerNames()
    ensures Plain("g7") && Plain("g7-installer") && Plain("swapfile")
    ensures Plain("g7-frankenphp") && Plain("g7.conf") && Plain("g7-default-deny.conf")
    ensures Plain("ondrej-ubuntu-php-noble.sources") && Plain("ondrej-ubuntu-php-noble.list") &&
            Plain("ondrej-php.list")
  {}

  lemma PlainUnitNames()
    ensures Plain("swapfile.swap") && Plain("99-g7-installer-swap.conf") && Plain("g7-frankenphp.service")
    ensures Plain("g7-queue.service") && Plain("g7-scheduler.service") && Plain("g7-scheduler.timer")
  {}

  lemma PlainOtherUnitNames()
    ensures Plain("g7-reverb.service") && Plain("laravel-queue.service")
    ensures Plain("laravel-scheduler.service") && Plain("laravel-scheduler.timer")
  {}

  lemma PlainRuntimeNames()
    ensures Plain("g7-runtime-tuning.conf") && Plain("g7-installer.cnf") && Plain("g7-installer-candidate.cnf")
    ensures Plain("z-g7-installer.cnf") && Plain("g7-runtime.conf")
  {}

  lemma InstallerAndWebRootsArePlain(r: Path)
    requires r in INSTALLER_ROOTS || r in WEB_ROOTS
    ensures AllPlain(r) && r != []
  {
    PlainDirectories();
    PlainConfigDirectories();
    PlainInstallerNames();
  }

  lemma ServiceRootsArePlain(r: Path)
    requires r in SERVICE_ROOTS
    ensures AllPlain(r) && r != []
  {
    PlainDirectories();
    PlainConfigDirectories();
    PlainInstallerNames();
    PlainUnitNames();
    PlainOtherUnitNames();
  }

  lemma RuntimeFilesArePlain(r: Path)
    requires r in RUNTIME_FILES
    ensures AllPlain(r) && r != []
  {
    PlainDirectories();
    PlainConfigDirectories();
    PlainRuntimeNames();
  }

  lemma RootsArePlain(r: Path)
    requires r in ALLOWED_ROOTS || r in RUNTIME_FILES
    ensures AllPlain(r) && r != []
  {
    if r in RUNTIME_FILES {
      RuntimeFilesArePlain(r);
    } else if r in SERVICE_ROOTS {
      ServiceRootsArePlain(r);
    } else {
      InstallerAndWebRootsArePlain(r);
    }
  }

  lemma RootsDiverge(r: Path)
    requires r in ALLOWED_ROOTS || r in RUNTIME_FILES
    ensures r != [] && (r[0] != "etc" || (|r| > 1 && r[1] != "letsencrypt"))
  {}

  lemma ApartAt(p: Path, q: Path, i: nat)
    requires i < |p| && i < |q| && p[i] != q[i]
    ensures Apart(p, q)
  {}

  lemma RootsAreSound(r: Path)
    requires r in ALLOWED_ROOTS || r in RUNTIME_FILES
    ensures AllPlain(r) && r != [] && Apart(r, CERTIFICATES)
  {
    RootsArePlain(r);
    RootsDiverge(r);
    ApartAt(r, CERTIFICATES, if r[0] != "etc" then 0 else 1);
  }

  lemma BelowIsExtension(path: string, root: Path)
    requires AllPlain(root) && OnOrBelow(path, PathOf(root))
    ensures root <= Segments(path)
  {
    SegmentsOfPath(root);
    if path != PathOf(root) {
      var rest := path[|PathOf(root)| + 1..];
      assert path == PathOf(root) + "/" + rest;
      SegmentsConcat(PathOf(root), rest);
    }
  }

  lemma {:induction false} PathOfExtension(p: Path, q: Path)
    requires p <= q
    ensures OnOrBelow(PathOf(q), PathOf(p))
    decreases |q|
  {
    if p != q {
      var init := q[..|q| - 1];
      assert q == init + [q[|q| - 1]];
      PathOfAppend(init, q[|q| - 1]);
      PathOfExtension(p, init);
    }
  }

  lemma ExtensionStaysApart(p: Path, q: Path, r: Path)
    requires p <= q && Apart(p, r)
    ensures Apart(q, r)
  {
    var i :| 0 <= i < |p| && i < |r| && p[i] != r[i];
    ApartAt(q, r, i);
  }

  /** Whatever string is admitted, the place it names is managed. */
  lemma AdmittedIsManaged(path: string)
    requires Admits(path)
    ensures Managed(Segments(path))
  {
    if r :| r in ALLOWED_ROOTS && OnOrBelow(path, PathOf(r)) {
      RootsAreSound(r);
      BelowIsExtension(path, r);
    } else if f :| f in RUNTIME_FILES && path == PathOf(f) {
      RootsAreSound(f);
      SegmentsOfPath(f);
    }
  }

  /** On canonical paths the string tests decide exactly the managed part of the tree. */
  lemma AdmitsDecidesManaged(p: Path)
    requires AllPlain(p) && !Contains(PathOf(p), "..")
    ensures Admits(PathOf(p)) <==> Managed(p)
  {
    SegmentsOfPath(p);
    if Admits(PathOf(p)) {
      AdmittedIsManaged(PathOf(p));
    }
    if Managed(p) {
      if r :| r in ALLOWED_ROOTS && r <= p {
        RootsAreSound(r);
        PathOfExtension(r, p);
      } else if p in RUNTIME_FILES {
        RootsAreSound(p);
      }
      assert p != [];
      assert PathOf(p) == "/" + p[0] + PathOf(p[1..]);
      assert Plain(p[0]) by { assert p[0] in p; }
      assert |PathOf(p)| > 1;
    }
  }

  /** Nothing managed lies on, below or above the certificates. */
  lemma ManagedIsApartFromCertificates(p: Path)
    requires Managed(p)
    ensures Apart(p, CERTIFICATES)
  {
    if r :| r in ALLOWED_ROOTS && r <= p {
      RootsAreSound(r);
      ExtensionStaysApart(r, p, CERTIFICATES);
    } else if p in RUNTIME_FILES {
      RootsAreSound(p);
    } else {
      assert |p| >= 3;
      assert p[0] != "etc" || p[1] != "letsencrypt";
    }
  }
}
