/** A whole reset: metadata, commands, package purge and file removal, in order, with every command
    and every file operation free to fail. */
module ResetRun {
  import opened Options
  import opened Strings
  import opened Paths
  import opened DiskTree
  import opened ResetAllowlist
  import opened ResetFiles
  import ResetPackages
  import Quoting

  const REPORT: Path := ["var", "log", "g7-installer", "report.json"]
  const CONFIG: Path := ["etc", "g7-installer", "config.toml"]
  const OWNED_FILES: Path := ["var", "lib", "g7-installer", "owned-files.json"]
  const SWAP_SYSCTL: Path := ["etc", "sysctl.d", "99-g7-installer-swap.conf"]
  const MYSQL_DATA: Path := ["var", "lib", "mysql"]
  const NGINX_CONFIG: Path := ["etc", "nginx", "nginx.conf"]
  const NGINX_BACKUP: Path := ["var", "backups", "g7-installer", "nginx.conf.before-g7"]
  const LOCK: Path := ["run", "lock", "g7-installer.lock"]
  const UNIT_DIR: Path := ["etc", "systemd", "system"]

  /** Everything the metadata and the path list are computed from. */
  const WATCHED: set<Path> := {REPORT, CONFIG, OWNED_FILES, SWAP_UNIT, SWAP_SYSCTL, SWAP_FILE}

  const LEGACY_PATHS := ["/usr/local/bin/g7", "/tmp/g7"]
  const ONDREJ_PATHS := [
    "/etc/apt/sources.list.d/ondrej-ubuntu-php-noble.sources",
    "/etc/apt/sources.list.d/ondrej-ubuntu-php-noble.list",
    "/etc/apt/sources.list.d/ondrej-php.list"]
  const APP_UNITS := [
    "g7-frankenphp.service", "g7-queue.service", "g7-scheduler.service", "g7-scheduler.timer",
    "g7-reverb.service", "laravel-queue.service", "laravel-scheduler.timer"]

  /* ---- what the reset reads ---- */

  datatype Check = Check(name: string, status: string)

  datatype Report = Report(siteUser: Option<string>, database: Option<string>, databaseEngine: Option<string>,
                           databaseName: Option<string>, databaseUser: Option<string>, phpSource: Option<string>,
                           preinstall: seq<Check>, services: seq<Check>)

  /** The decoders of the three metadata files, the deduplication of names, and the recognition of
      the swap settings an old installer wrote without a marker. */
  datatype Readers = Readers(owned: string -> Option<seq<string>>, report: string -> Option<Report>,
                             config: (string, string) -> Option<string>, unique: seq<string> -> seq<string>,
                             legacySysctl: string -> bool)

  datatype Metadata = Metadata(siteUser: Option<string>, engine: Option<string>, databaseName: Option<string>,
                               databaseUser: Option<string>, phpSource: Option<string>,
                               packages: seq<string>, services: seq<string>, serverInstalled: bool)

  datatype Text = NoFile | NoText | Content(text: string)

  function ReadText(d: Disk, p: Path): Text {
    if p !in d then NoFile else if d[p].File? then Content(d[p].content) else NoText
  }

  function OrElse(a: Option<string>, b: Option<string>): Option<string> { if a.Some? then a else b }

  function NamesWith(checks: seq<Check>, status: string): seq<string> {
    if checks == [] then []
    else (if checks[0].status == status then [checks[0].name] else []) + NamesWith(checks[1..], status)
  }

  const NO_REPORT := Report(None, None, None, None, None, None, [], [])

  /** The report's answer wins over the configuration's. */
  function Merge(report: Report, config: Option<string>, k: Readers): Metadata {
    var lookUp := (key: string) => if config.None? then None else k.config(config.value, key);
    var missing := NamesWith(report.preinstall, "not-installed");
    Metadata(OrElse(report.siteUser, lookUp("site_user")),
             OrElse(OrElse(report.database, report.databaseEngine), lookUp("database")),
             OrElse(report.databaseName, lookUp("database_name")),
             OrElse(report.databaseUser, lookUp("database_user")),
             OrElse(report.phpSource, lookUp("php_source")),
             k.unique(missing), k.unique(NamesWith(report.services, "pass")),
             "mysql-server" in missing)
  }

  lemma NamesOfRest(checks: seq<Check>, status: string, i: nat)
    requires i < |checks|
    ensures NamesWith(checks[i..], status) ==
            (if checks[i].status == status then [checks[i].name] else []) + NamesWith(checks[i + 1..], status)
  {
    assert checks[i..][1..] == checks[i + 1..];
  }

  method NamesOf(checks: seq<Check>, status: string) returns (names: seq<string>)
    ensures names == NamesWith(checks, status)
  {
    names := [];
    assert checks[0..] == checks;
    for i := 0 to |checks|
      invariant names + NamesWith(checks[i..], status) == NamesWith(checks, status)
    {
      NamesOfRest(checks, status, i);
      if checks[i].status == status {
        names := names + [checks[i].name];
      }
    }
  }

  /** `fill_metadata_from_report` and then `fill_metadata_from_config`, which keeps what is filled. */
  method FillMetadata(report: Option<Report>, config: Option<string>, k: Readers) returns (m: Metadata)
    ensures m == Merge(if report.Some? then report.value else NO_REPORT, config, k)
  {
    var missing: seq<string>, services: seq<string> := [], [];
    m := Metadata(None, None, None, None, None, [], [], false);
    if report.Some? {
      var r := report.value;
      missing := NamesOf(r.preinstall, "not-installed");
      services := NamesOf(r.services, "pass");
      m := Metadata(r.siteUser, OrElse(r.database, r.databaseEngine), r.databaseName, r.databaseUser, r.phpSource,
                    [], [], "mysql-server" in missing);
    }
    if config.Some? {
      var text := config.value;
      if m.siteUser.None? { m := m.(siteUser := k.config(text, "site_user")); }
      if m.engine.None? { m := m.(engine := k.config(text, "database")); }
      if m.databaseName.None? { m := m.(databaseName := k.config(text, "database_name")); }
      if m.databaseUser.None? { m := m.(databaseUser := k.config(text, "database_user")); }
      if m.phpSource.None? { m := m.(phpSource := k.config(text, "php_source")); }
    }
    m := m.(packages := k.unique(missing), services := k.unique(services));
  }

  /** `reset_metadata`: an absent file is no error, an unreadable one is. */
  function MetadataOf(d: Disk, k: Readers): Option<Metadata> {
    var report, config := ReadText(d, REPORT), ReadText(d, CONFIG);
    if report.NoText? || config.NoText? || (report.Content? && k.report(report.text).None?) then None
    else
      Some(Merge(if report.NoFile? then NO_REPORT else k.report(report.text).value,
                 if config.NoFile? then None else Some(config.text), k))
  }

  function AddAbsent(files: seq<string>, more: seq<string>): seq<string>
    decreases more
  {
    if more == [] then files
    else AddAbsent(if more[0] in files then files else files + [more[0]], more[1..])
  }

  predicate HasMarker(d: Disk, p: Path, marker: string) {
    ReadText(d, p).Content? && Contains(ReadText(d, p).text, marker)
  }

  predicate MarkedUnit(d: Disk) { HasMarker(d, SWAP_UNIT, "G7 Installer managed swapfile") }

  predicate MarkedSysctl(d: Disk, k: Readers) {
    HasMarker(d, SWAP_SYSCTL, "Managed by g7inst.") ||
    (ReadText(d, SWAP_SYSCTL).Content? && k.legacySysctl(ReadText(d, SWAP_SYSCTL).text))
  }

  /** The list, the swap file aside. */
  function ListWithoutSwapFile(d: Disk, meta: Metadata, k: Readers, owned: seq<string>): seq<string> {
    var files1 := AddAbsent(owned, LEGACY_PATHS);
    var files2 := if meta.phpSource == Some("ondrej") then AddAbsent(files1, ONDREJ_PATHS) else files1;
    var files3 := if MarkedUnit(d) then AddAbsent(files2, [PathOf(SWAP_UNIT)]) else files2;
    if MarkedSysctl(d, k) then AddAbsent(files3, [PathOf(SWAP_SYSCTL)]) else files3
  }

  /** `reset_file_list`. */
  function FileList(d: Disk, meta: Metadata, k: Readers): Option<seq<string>> {
    var owned := ReadText(d, OWNED_FILES);
    if owned.NoText? || (owned.Content? && k.owned(owned.text).None?) then None
    else
      var files := ListWithoutSwapFile(d, meta, k, if owned.NoFile? then [] else k.owned(owned.text).value);
      Some(if PathOf(SWAP_UNIT) in files && SWAP_FILE in d then AddAbsent(files, [PathOf(SWAP_FILE)]) else files)
  }

  function GuardOf(d: Disk, files: seq<string>): Guard { ResetGuard(PathOf(SWAP_UNIT) in files || MarkedUnit(d)) }

  function PresentUnits(d: Disk, units: seq<string>): seq<string> {
    if units == [] then [] else (if UNIT_DIR + [units[0]] in d then [units[0]] else []) + PresentUnits(d, units[1..])
  }

  function NotPreserved(services: seq<string>): seq<string> {
    if services == [] then []
    else (if ResetPackages.PreserveService(services[0]) then [] else [services[0]]) + NotPreserved(services[1..])
  }

  /** The services a reset disables. */
  function ServicesOf(d: Disk, meta: Metadata, k: Readers): seq<string> {
    var swap := if SWAP_UNIT in d then ["swapfile.swap"] else [];
    k.unique(NotPreserved(meta.services) + swap + PresentUnits(d, APP_UNITS))
  }

  /** Deduplication invents no names. */
  ghost predicate Proper(k: Readers) {
    forall s :: |k.unique(s)| <= |s| && forall name :: name in k.unique(s) ==> name in s
  }

  /* ---- commands ---- */

  datatype Command =
    | QueryPrivilege
    | ApplySql(sql: string)
    | QueryDatabaseService(name: string)
    | StartService(name: string)
    | QueryService(name: string)
    | DisableService(name: string)
    | QueryUser(user: string)
    | Signal(signal: string, user: string)
    | DeleteUser(user: string)
    | PackageCommands(packages: seq<string>)
    | DaemonReload
    | ResetFailed(services: seq<string>)

  /** The phase of a reset that issues the command. */
  function Rank(c: Command): nat {
    match c
    case QueryPrivilege => 0
    case ApplySql(_) => 1
    case QueryDatabaseService(_) => 1
    case StartService(_) => 1
    case QueryService(_) => 2
    case DisableService(_) => 2
    case QueryUser(_) => 3
    case Signal(_, _) => 3
    case DeleteUser(_) => 3
    case PackageCommands(_) => 4
    case DaemonReload => 5
    case ResetFailed(_) => 6
  }

  /** What a command's output reports. */
  datatype Told = Absent | Idle | Other

  datatype Reply = Exit(status: int, told: Told) | NotExecutable | Broken

  /** How the machine answers the last command of a trace, and what the command does to the tree. */
  type World = (Disk, seq<Command>) -> (Reply, Disk)

  predicate OnlyAsks(c: Command) {
    c.QueryPrivilege? || c.QueryDatabaseService? || c.QueryService? || c.QueryUser? || c.DaemonReload? || c.ResetFailed?
  }

  /** The two trees agree on the given places. */
  ghost predicate Same(places: iset<Path>, d: Disk, d': Disk) {
    forall q :: q in places ==> SameAt(d, d', q)
  }

  /** Commands leave the spared places alone, and queries change nothing. */
  ghost predicate Lawful(world: World, spared: iset<Path>) {
    forall d, t :: Same(spared, d, world(d, t).1) && (t != [] && OnlyAsks(t[|t| - 1]) ==> world(d, t).1 == d)
  }

  /** The phases come in order, the privilege query first, none after phase `last`, and one command
      never. */
  ghost predicate Bounded(t: seq<Command>, last: nat, never: Command) {
    && (forall i, j :: 0 <= i < j < |t| ==> Rank(t[i]) <= Rank(t[j]))
    && (forall c :: c in t ==> Rank(c) <= last && c != never)
    && (t != [] ==> t[0] == QueryPrivilege)
  }

  lemma BoundedNext(t: seq<Command>, last: nat, never: Command, c: Command)
    requires Bounded(t, last, never) && last <= Rank(c) && c != never
    requires t != [] || c == QueryPrivilege
    ensures Bounded(t + [c], Rank(c), never)
  {
    forall i | 0 <= i < |t| ensures Rank(t[i]) <= Rank(c) { assert t[i] in t; }
  }

  lemma BoundedLater(t: seq<Command>, last: nat, later: nat, never: Command)
    requires Bounded(t, last, never) && last <= later
    ensures Bounded(t, later, never)
  {}

  /** A reply after which the reset goes on to anything else. */
  predicate Fine(c: Command, r: Reply) {
    match c
    case ApplySql(_) => r.NotExecutable? || (r.Exit? && r.status == 0)
    case QueryDatabaseService(_) => false
    case StartService(_) => false
    case QueryService(_) => r.Exit?
    case DisableService(_) => r.Exit? && (r.status == 0 || r.told == Absent)
    case QueryUser(_) => r.Exit?
    case Signal(_, _) => r.Exit? && (r.status == 0 || r.status == 1)
    case ResetFailed(_) => r.Exit? && (r.status == 0 || r.told == Absent)
    case _ => r.Exit? && r.status == 0
  }

  /** Whether a command may come next: after a fine reply any, else only the database's retry and
      the second attempt at an account that a process still held. */
  predicate MayFollow(c: Command, r: Reply, next: Command) {
    || Fine(c, r)
    || (c.ApplySql? && r.Exit? && next.QueryDatabaseService?)
    || (c.QueryDatabaseService? && r.Exit? && r.told == Idle && next.StartService?)
    || (c.StartService? && r.Exit? && r.status == 0 && next.ApplySql?)
    || (c.DeleteUser? && r.Exit? && r.status == 8 && next.Signal?)
  }

  /** No reply is ignored. */
  ghost predicate Heeded(t: seq<Command>, replies: seq<Reply>) {
    |replies| == |t| && forall i :: 0 < i < |t| ==> MayFollow(t[i - 1], replies[i - 1], t[i])
  }

  lemma HeededNext(t: seq<Command>, replies: seq<Reply>, c: Command, reply: Reply)
    requires Heeded(t, replies)
    requires t != [] ==> MayFollow(t[|t| - 1], replies[|t| - 1], c)
    ensures Heeded(t + [c], replies + [reply])
  {}

  ghost predicate EndsWell(t: seq<Command>, replies: seq<Reply>) {
    |replies| == |t| > 0 && Fine(t[|t| - 1], replies[|t| - 1])
  }

  /** The service was asked about, and disabled at once unless it was absent. */
  ghost predicate Handled(t: seq<Command>, replies: seq<Reply>, service: string)
    requires |replies| == |t|
  {
    exists i :: 0 <= i < |t| && t[i] == QueryService(service) &&
                ((replies[i].Exit? && replies[i].told == Absent) ||
                 (i + 1 < |t| && t[i + 1] == DisableService(service)))
  }

  lemma HandledStays(t: seq<Command>, replies: seq<Reply>, t': seq<Command>, replies': seq<Reply>, service: string)
    requires |replies| == |t| && |replies'| == |t'| && t <= t' && replies <= replies' && Handled(t, replies, service)
    ensures Handled(t', replies', service)
  {
    var i :| 0 <= i < |t| && t[i] == QueryService(service) &&
             ((replies[i].Exit? && replies[i].told == Absent) || (i + 1 < |t| && t[i + 1] == DisableService(service)));
    assert t'[i] == t[i] && replies'[i] == replies[i];
  }

  /** Each of the services was dealt with. */
  ghost predicate AllHandled(services: seq<string>, t: seq<Command>, replies: seq<Reply>)
    requires |replies| == |t|
  {
    forall service :: service in services ==> Handled(t, replies, service)
  }

  lemma StaysIn(c: Command, t: seq<Command>, t': seq<Command>)
    requires t <= t'
    ensures c in t ==> c in t'
  {}

  lemma AllHandledStay(services: seq<string>, t: seq<Command>, replies: seq<Reply>, t': seq<Command>,
                       replies': seq<Reply>)
    requires |replies| == |t| && |replies'| == |t'| && t <= t' && replies <= replies' &&
             AllHandled(services, t, replies)
    ensures AllHandled(services, t', replies')
  {
    forall service | service in services ensures Handled(t', replies', service) {
      HandledStays(t, replies, t', replies', service);
    }
  }

  function SqlOf(meta: Metadata): string { Quoting.DatabaseResetSql(meta.databaseName, meta.databaseUser) }

  /** The database's whole dialogue: a missing client is no failure, and only after a refused drop and
      only if the server is stopped it is started, once, and asked again. */
  ghost predicate DatabaseDialogue(sql: string, service: string, t: seq<Command>, r: seq<Reply>, ok: bool) {
    var full := [ApplySql(sql), QueryDatabaseService(service), StartService(service), ApplySql(sql)];
    && |r| == |t| > 0 && t <= full
    && (|t| > 1 ==> r[0].Exit? && r[0].status != 0)
    && (|t| > 2 ==> r[1].Exit? && r[1].told == Idle)
    && (|t| > 3 ==> r[2].Exit? && r[2].status == 0)
    && (ok <==> (|t| == 1 && r[0].NotExecutable?) ||
                ((|t| == 1 || |t| == 4) && r[|t| - 1].Exit? && r[|t| - 1].status == 0))
    && (!ok ==> (|t| == 1 ==> r[0].Broken?) && (|t| == 2 ==> !(r[1].Exit? && r[1].told == Idle)) &&
                (|t| == 3 ==> !(r[2].Exit? && r[2].status == 0)))
  }

  /** The part of it after a refused drop. */
  ghost predicate RetryDialogue(sql: string, service: string, t: seq<Command>, r: seq<Reply>, ok: bool) {
    && |r| == |t| > 0 && t <= [QueryDatabaseService(service), StartService(service), ApplySql(sql)]
    && (|t| > 1 ==> r[0].Exit? && r[0].told == Idle) && (|t| > 2 ==> r[1].Exit? && r[1].status == 0)
    && (ok <==> |t| == 3 && r[2].Exit? && r[2].status == 0)
    && (|t| == 1 ==> !(r[0].Exit? && r[0].told == Idle)) && (|t| == 2 ==> !(r[1].Exit? && r[1].status == 0))
  }

  lemma NotIdleSince(sql: string, service: string, t: seq<Command>, r: seq<Reply>, asked: Reply, t': seq<Command>,
                     r': seq<Reply>)
    requires t' == t + [QueryDatabaseService(service)] && r' == r + [asked] && !(asked.Exit? && asked.told == Idle)
    ensures RetryDialogue(sql, service, t'[|t|..], r'[|r|..], false)
  {
    assert t'[|t|..] == [QueryDatabaseService(service)] && r'[|r|..] == [asked];
  }

  lemma NotStartedSince(sql: string, service: string, t: seq<Command>, r: seq<Reply>, asked: Reply, started: Reply,
                        t': seq<Command>, r': seq<Reply>)
    requires t' == t + [QueryDatabaseService(service)] + [StartService(service)] && r' == r + [asked] + [started]
    requires asked.Exit? && asked.told == Idle && !(started.Exit? && started.status == 0)
    ensures RetryDialogue(sql, service, t'[|t|..], r'[|r|..], false)
  {
    assert t'[|t|..] == [QueryDatabaseService(service), StartService(service)] && r'[|r|..] == [asked, started];
  }

  lemma AskedAgainSince(sql: string, service: string, t: seq<Command>, r: seq<Reply>, asked: Reply, started: Reply,
                        reply: Reply, t': seq<Command>, r': seq<Reply>)
    requires t' == t + [QueryDatabaseService(service)] + [StartService(service)] + [ApplySql(sql)]
    requires r' == r + [asked] + [started] + [reply]
    requires asked.Exit? && asked.told == Idle && started.Exit? && started.status == 0
    ensures RetryDialogue(sql, service, t'[|t|..], r'[|r|..], reply.Exit? && reply.status == 0)
  {
    assert t'[|t|..] == [QueryDatabaseService(service), StartService(service), ApplySql(sql)];
    assert r'[|r|..] == [asked, started, reply];
  }

  lemma RefusedDrop(sql: string, service: string, first: Reply, t: seq<Command>, r: seq<Reply>, ok: bool)
    requires first.Exit? && first.status != 0 && RetryDialogue(sql, service, t, r, ok)
    ensures DatabaseDialogue(sql, service, [ApplySql(sql)] + t, [first] + r, ok)
  {
    var full := [ApplySql(sql), QueryDatabaseService(service), StartService(service), ApplySql(sql)];
    assert full[1..] == [QueryDatabaseService(service), StartService(service), ApplySql(sql)];
    assert forall i :: 0 < i < |[ApplySql(sql)] + t| ==> ([ApplySql(sql)] + t)[i] == full[1..][i - 1];
  }

  lemma PlainDrop(sql: string, service: string, first: Reply)
    requires !first.Exit? || first.status == 0
    ensures DatabaseDialogue(sql, service, [ApplySql(sql)], [first], first.NotExecutable? || first.Exit?)
  {}

  /** Stopping a user's processes and deleting the account. */
  function DeletionOf(user: string): seq<Command> { [Signal("TERM", user), Signal("KILL", user), DeleteUser(user)] }

  /** The account's whole dialogue: no account, no deletion; a deletion is tried a second time exactly
      if the first was refused for a running process; only a failing signal cuts it short. */
  ghost predicate AccountDialogue(user: string, t: seq<Command>, r: seq<Reply>, ok: bool) {
    && |r| == |t| > 0 && t <= [QueryUser(user)] + DeletionOf(user) + DeletionOf(user)
    && (|t| > 1 <==> Good(r[0]))
    && (|t| >= 4 ==> (|t| > 4 <==> Refused(r[3])))
    && (|t| in {2, 3, 5, 6} ==> !Signalled(r[|t| - 1]))
    && (ok <==> (|t| == 1 && r[0].Exit? && r[0].status != 0) ||
                ((|t| == 4 || |t| == 7) && r[|t| - 1].Exit? && r[|t| - 1].status == 0))
  }

  /** What follows `a` in `b` when `x` follows it. */
  lemma Since<T>(a: seq<T>, x: T, b: seq<T>)
    requires a + [x] <= b
    ensures b[|a|..] == [x] + b[|a| + 1..]
  {
    assert b[|a|] == (a + [x])[|a|];
  }

  lemma PlainDropSince(sql: string, service: string, t: seq<Command>, r: seq<Reply>, first: Reply, t': seq<Command>,
                       r': seq<Reply>)
    requires (!first.Exit? || first.status == 0) && t' == t + [ApplySql(sql)] && r' == r + [first]
    ensures DatabaseDialogue(sql, service, t'[|t|..], r'[|r|..], first.NotExecutable? || first.Exit?)
  {
    PlainDrop(sql, service, first);
    assert t'[|t|..] == [ApplySql(sql)] && r'[|r|..] == [first];
  }

  lemma RefusedDropSince(sql: string, service: string, t: seq<Command>, r: seq<Reply>, first: Reply, t': seq<Command>,
                         r': seq<Reply>, ok: bool)
    requires first.Exit? && first.status != 0 && t + [ApplySql(sql)] <= t' && r + [first] <= r'
    requires RetryDialogue(sql, service, t'[|t| + 1..], r'[|r| + 1..], ok)
    ensures DatabaseDialogue(sql, service, t'[|t|..], r'[|r|..], ok)
  {
    Since(t, ApplySql(sql), t');
    Since(r, first, r');
    RefusedDrop(sql, service, first, t'[|t| + 1..], r'[|r| + 1..], ok);
  }

  lemma SinceTwo<T>(a: seq<T>, b: seq<T>, c: seq<T>)
    requires a <= b <= c
    ensures c[|a|..] == b[|a|..] + c[|b|..]
  {}

  /** One attempt, as far as it got; `reached` says that it got to the deletion. */
  ghost predicate Attempt(user: string, t: seq<Command>, r: seq<Reply>, reached: bool) {
    && |r| == |t| > 0 && t <= DeletionOf(user) && (reached <==> |t| == 3)
    && (|t| < 3 ==> !Signalled(r[|t| - 1]))
  }

  predicate Refused(r: Reply) { r.Exit? && r.status == 8 }

  predicate Signalled(r: Reply) { r.Exit? && (r.status == 0 || r.status == 1) }

  predicate Good(r: Reply) { r.Exit? && r.status == 0 }

  lemma NoAttempt(user: string, query: Reply)
    requires !Good(query)
    ensures AccountDialogue(user, [QueryUser(user)], [query], query.Exit?)
  {}

  /** One or two attempts; the second only if the first was refused for a running process. */
  ghost predicate Attempts(user: string, t: seq<Command>, r: seq<Reply>, ok: bool) {
    && |r| == |t| > 0 && t <= DeletionOf(user) + DeletionOf(user)
    && (|t| >= 3 ==> (|t| > 3 <==> Refused(r[2])))
    && (|t| in {1, 2, 4, 5} ==> !Signalled(r[|t| - 1]))
    && (ok <==> (|t| == 3 || |t| == 6) && Good(r[|t| - 1]))
  }

  lemma OneAttempt(user: string, t: seq<Command>, r: seq<Reply>, reached: bool)
    requires Attempt(user, t, r, reached) && !(reached && Refused(r[2]))
    ensures Attempts(user, t, r, reached && Good(r[2]))
  {}

  lemma TwoAttempts(user: string, r1: seq<Reply>, t: seq<Command>, r: seq<Reply>, reached: bool)
    requires |r1| == 3 && Refused(r1[2]) && Attempt(user, t, r, reached)
    ensures Attempts(user, DeletionOf(user) + t, r1 + r, reached && Good(r[2]))
  {
    var all, full := DeletionOf(user) + t, DeletionOf(user) + DeletionOf(user);
    assert forall i :: 3 <= i < |all| ==> all[i] == DeletionOf(user)[i - 3] == full[i];
  }

  lemma ExistingAccount(user: string, query: Reply, t: seq<Command>, r: seq<Reply>, ok: bool)
    requires Good(query) && Attempts(user, t, r, ok)
    ensures AccountDialogue(user, [QueryUser(user)] + t, [query] + r, ok)
  {
    var all, full := [QueryUser(user)] + t, [QueryUser(user)] + DeletionOf(user) + DeletionOf(user);
    assert full == [QueryUser(user)] + (DeletionOf(user) + DeletionOf(user));
    assert forall i :: 0 < i < |all| ==> all[i] == t[i - 1] == full[i];
  }

  lemma NoAccountSince(user: string, t: seq<Command>, r: seq<Reply>, query: Reply, t': seq<Command>, r': seq<Reply>)
    requires !Good(query) && t' == t + [QueryUser(user)] && r' == r + [query]
    ensures AccountDialogue(user, t'[|t|..], r'[|r|..], query.Exit?)
  {
    NoAttempt(user, query);
    assert t'[|t|..] == [QueryUser(user)] && r'[|r|..] == [query];
  }

  lemma AccountSince(user: string, t: seq<Command>, r: seq<Reply>, query: Reply, t': seq<Command>, r': seq<Reply>,
                     ok: bool)
    requires Good(query) && t + [QueryUser(user)] <= t' && r + [query] <= r'
    requires Attempts(user, t'[|t| + 1..], r'[|r| + 1..], ok)
    ensures AccountDialogue(user, t'[|t|..], r'[|r|..], ok)
  {
    Since(t, QueryUser(user), t');
    Since(r, query, r');
    ExistingAccount(user, query, t'[|t| + 1..], r'[|r| + 1..], ok);
  }

  function DatabaseService(meta: Metadata): string { if meta.engine == Some("mariadb") then "mariadb" else "mysql" }

  predicate DropsDatabase(meta: Metadata) {
    !meta.serverInstalled && (meta.databaseName.Some? || meta.databaseUser.Some?)
  }

  predicate DeletesAccount(meta: Metadata) { meta.siteUser.Some? && ValidSegment(meta.siteUser.value) }

  /** Every phase the metadata call for has issued its command. */
  predicate AllAsked(meta: Metadata, t: seq<Command>) {
    && (DropsDatabase(meta) ==> ApplySql(SqlOf(meta)) in t)
    && (DeletesAccount(meta) ==> QueryUser(meta.siteUser.value) in t)
    && (meta.packages != [] ==> PackageCommands(meta.packages) in t)
  }

  ghost predicate AllDone(meta: Metadata, services: seq<string>, t: seq<Command>, replies: seq<Reply>) {
    |replies| == |t| && AllAsked(meta, t) && AllHandled(services, t, replies)
  }

  /* ---- reading the same things gives the same plan ---- */

  ghost predicate Covers(places: iset<Path>) { forall q :: q in WATCHED ==> q in places }

  lemma SameText(places: iset<Path>, d: Disk, d': Disk, p: Path)
    requires Same(places, d, d') && p in places
    ensures ReadText(d', p) == ReadText(d, p)
  {
    assert SameAt(d, d', p);
  }

  lemma SameMetadata(places: iset<Path>, d: Disk, d': Disk, k: Readers)
    requires Covers(places) && Same(places, d, d')
    ensures MetadataOf(d', k) == MetadataOf(d, k)
  {
    SameText(places, d, d', REPORT);
    SameText(places, d, d', CONFIG);
  }

  lemma SameMarks(places: iset<Path>, d: Disk, d': Disk, k: Readers)
    requires Covers(places) && Same(places, d, d')
    ensures MarkedUnit(d') == MarkedUnit(d) && MarkedSysctl(d', k) == MarkedSysctl(d, k)
    ensures SWAP_FILE in d' <==> SWAP_FILE in d
  {
    SameText(places, d, d', SWAP_UNIT);
    SameText(places, d, d', SWAP_SYSCTL);
    assert SWAP_FILE in WATCHED && SameAt(d, d', SWAP_FILE);
  }

  /** Whatever else happens to the tree, the same metadata files give the same metadata, the same
      path list and the same guard: what an unfinished reset has spared, the next one finds. */
  lemma SamePlan(places: iset<Path>, d: Disk, d': Disk, meta: Metadata, files: seq<string>, k: Readers)
    requires Covers(places) && Same(places, d, d')
    ensures MetadataOf(d', k) == MetadataOf(d, k)
    ensures FileList(d', meta, k) == FileList(d, meta, k)
    ensures GuardOf(d', files) == GuardOf(d, files)
  {
    SameMetadata(places, d, d', k);
    SameText(places, d, d', OWNED_FILES);
    SameMarks(places, d, d', k);
  }

  /* ---- the code ---- */

  /** How the file operations outside the owned list fare. */
  datatype FileFaults = FileFaults(lists: bool, copies: bool, torn: string, clears: bool, left: set<Path>,
                                   each: nat -> Fault)

  /** How a run ends: before it got to the listed files, at one of them, after them, or well. */
  datatype End = StoppedBefore(why: Reason) | StoppedAt(removal: Removal) | StoppedAfter(removal: Removal)
    | Finished(removal: Removal)

  datatype Reason = NotConfirmed | Locked | NotRoot | NoMetadata | NoCertificateList | CommandFailed | NoOwnedList

  /** The places a run itself may change before it gets to the listed files; the database files
      only if the installer brought the server in. */
  predicate Preliminary(meta: Option<Metadata>, q: Path) {
    q <= LOCK || q <= NGINX_CONFIG || (meta.Some? && meta.value.serverInstalled && MYSQL_DATA <= q)
  }

  const RENEWAL := DisableService("certbot.timer")

  lemma {:induction false} PresentAreListed(d: Disk, units: seq<string>, u: string)
    requires u in PresentUnits(d, units)
    ensures u in units
  {
    if u !in PresentUnits(d, units[1..]) { assert u == units[0]; } else { PresentAreListed(d, units[1..], u); }
  }

  lemma {:induction false} PreservedAreLeftOut(services: seq<string>, s: string)
    requires s in NotPreserved(services)
    ensures !ResetPackages.PreserveService(s)
  {
    if s in NotPreserved(services[1..]) { PreservedAreLeftOut(services[1..], s); }
  }

  /** The renewal timer is never among the services to disable. */
  lemma ServicesSpareTimer(d: Disk, meta: Metadata, k: Readers)
    requires Proper(k)
    ensures forall s :: s in ServicesOf(d, meta, k) ==> DisableService(s) != RENEWAL
  {
    var some := NotPreserved(meta.services) + (if SWAP_UNIT in d then ["swapfile.swap"] else []) +
      PresentUnits(d, APP_UNITS);
    var timer := "certbot.timer";
    if timer in ServicesOf(d, meta, k) {
      assert timer in some;
      ResetPackages.PolicyMeans(timer);
      if timer in NotPreserved(meta.services) { PreservedAreLeftOut(meta.services, timer); }
      if timer in PresentUnits(d, APP_UNITS) { PresentAreListed(d, APP_UNITS, timer); }
    }
  }

  /** `create_dir_all`. */
  function WithDirectories(d: Disk, p: Path): Disk
    decreases |p|
  {
    if p == [] then d
    else
      var d' := WithDirectories(d, p[..|p| - 1]);
      if p in d' then d' else d'[p := Directory]
  }

  lemma {:induction false} WithDirectoriesTouches(d: Disk, p: Path, q: Path)
    requires !(q <= p)
    ensures SameAt(d, WithDirectories(d, p), q)
    decreases |p|
  {
    if p != [] {
      assert q <= p[..|p| - 1] ==> q <= p;
      WithDirectoriesTouches(d, p[..|p| - 1], q);
    }
  }

  /** A removal carried on after earlier ones. */
  function Continue(removed: seq<string>, missing: seq<string>, rest: Removal): Removal {
    rest.(removed := removed + rest.removed, missing := missing + rest.missing)
  }

  lemma ContinueTwice(removed: seq<string>, missing: seq<string>, more: seq<string>, others: seq<string>, rest: Removal)
    ensures Continue(removed, missing, Continue(more, others, rest)) == Continue(removed + more, missing + others, rest)
  {
    assert removed + (more + rest.removed) == removed + more + rest.removed;
    assert missing + (others + rest.missing) == missing + others + rest.missing;
  }

  /** What is left to do from entry `i` on. */
  function RestOf(d: Disk, files: seq<string>, allowed: Guard, dry: bool, faults: seq<Fault>, i: nat): Removal
    requires |faults| == |files| && i <= |files|
  {
    RemoveEach(d, files[i..], allowed, dry, faults[i..])
  }

  /** How entry `i` is dealt with. */
  lemma OneEntry(d: Disk, files: seq<string>, allowed: Guard, dry: bool, faults: seq<Fault>, i: nat)
    requires |faults| == |files| && i < |files|
    ensures var path, look := files[i], LookFor(d, files[i], faults[i]);
            RestOf(d, files, allowed, dry, faults, i) ==
            if !allowed(path) then Removal(d, [], [], Unsafe(path))
            else if look.Trouble? then Removal(d, [], [], Unreadable(path))
            else if look.Nothing? then Continue([], [path], RestOf(d, files, allowed, dry, faults, i + 1))
            else if dry then Continue([path], [], RestOf(d, files, allowed, dry, faults, i + 1))
            else if faults[i].RemoveFails? || Sticks(d, path) then
              Removal(RemovePartly(d, look.place, LeftBy(Sticks(d, path), look.place, faults[i])), [], [],
                      Unremovable(path))
            else Continue([path], [], RestOf(RemoveNode(d, look.place), files, allowed, dry, faults, i + 1))
  {
    assert files[i..][1..] == files[i + 1..] && faults[i..][1..] == faults[i + 1..];
    assert forall r: Removal :: [] + r.removed == r.removed && [] + r.missing == r.missing;
  }

  /** The faults of the first `n` entries. */
  function FaultsOf(n: nat, each: nat -> Fault): seq<Fault> { seq(n, (i: nat) => each(i)) }

  /** The removal of a path list, deepest first. */
  ghost predicate RemovalOf(d: Disk, files: seq<string>, allowed: Guard, dry: bool, each: nat -> Fault,
                            removal: Removal) {
    var sorted := DeepestFirst(files);
    removal == RemoveEach(d, sorted, allowed, dry, FaultsOf(|sorted|, each))
  }

  /** The certificates, the directories above them, and the database files. */
  predicate Untouchable(q: Path) { CERTIFICATES <= q || q <= CERTIFICATES || MYSQL_DATA <= q }

  /** The removal of the list, however it ends, changes only what an entry takes away. */
  lemma RemovalSpares(d: Disk, files: seq<string>, allowed: Guard, dry: bool, each: nat -> Fault, removal: Removal)
    requires RemovalOf(d, files, allowed, dry, each, removal)
    ensures forall q :: !Lost(d, DeepestFirst(files), allowed, q) ==> SameAt(d, removal.disk, q)
  {
    var sorted := DeepestFirst(files);
    forall q | !Lost(d, sorted, allowed, q) ensures SameAt(d, removal.disk, q) {
      OnlyLostPlacesChange(d, sorted, allowed, dry, FaultsOf(|sorted|, each), q);
    }
  }

  lemma OutOfReachIsKept(d: Disk, files: seq<string>, allowed: Guard, q: Path)
    requires NoneAstray(d, files) && OutOfReach(q) && forall f :: allowed(f) ==> Admits(f)
    ensures !Lost(d, DeepestFirst(files), allowed, q)
  {
    var sorted := DeepestFirst(files);
    SortedIsStraight(d, files);
    forall f | f in sorted && allowed(f) ensures !Astray(d, f) && !(Segments(f) <= q) {
      AdmittedIsManaged(f);
      var i :| 0 <= i < |sorted| && sorted[i] == f;
    }
    NotLost(d, sorted, allowed, q);
  }

  /** If no listed path runs through a link, it changes nothing out of reach. */
  lemma RemovalOutOfReach(d: Disk, files: seq<string>, allowed: Guard, dry: bool, each: nat -> Fault, removal: Removal)
    requires RemovalOf(d, files, allowed, dry, each, removal) && forall f :: allowed(f) ==> Admits(f)
    requires NoneAstray(d, files)
    ensures forall q :: OutOfReach(q) ==> SameAt(d, removal.disk, q)
  {
    RemovalSpares(d, files, allowed, dry, each, removal);
    forall q | OutOfReach(q) ensures SameAt(d, removal.disk, q) { OutOfReachIsKept(d, files, allowed, q); }
  }

  lemma DryRemoval(d: Disk, files: seq<string>, allowed: Guard, each: nat -> Fault, removal: Removal)
    requires RemovalOf(d, files, allowed, true, each, removal)
    ensures removal.disk == d
  {
    var sorted := DeepestFirst(files);
    DryRunChangesNothing(d, sorted, allowed, FaultsOf(|sorted|, each));
  }

  /** The removal is the one the metadata at the start call for, done to the tree at its turn. */
  ghost predicate Planned(start: Disk, before: Disk, k: Readers, dry: bool, each: nat -> Fault, removal: Removal) {
    var meta := MetadataOf(start, k);
    meta.Some? &&
    var files := FileList(start, meta.value, k);
    files.Some? && RemovalOf(before, files.value, GuardOf(start, files.value), dry, each, removal)
  }

  function PlannedFiles(start: Disk, k: Readers): seq<string>
    requires MetadataOf(start, k).Some? && FileList(start, MetadataOf(start, k).value, k).Some?
  {
    FileList(start, MetadataOf(start, k).value, k).value
  }

  /** An entry of the planned list takes the place away, if the tree at its turn is `before`. */
  ghost predicate Doomed(start: Disk, before: Disk, k: Readers, q: Path)
    requires MetadataOf(start, k).Some? && FileList(start, MetadataOf(start, k).value, k).Some?
  {
    Lost(before, DeepestFirst(PlannedFiles(start, k)), GuardOf(start, PlannedFiles(start, k)), q)
  }

  lemma PlanSpares(start: Disk, before: Disk, k: Readers, dry: bool, each: nat -> Fault, removal: Removal)
    requires Planned(start, before, k, dry, each, removal)
    ensures forall q :: !Doomed(start, before, k, q) ==> SameAt(before, removal.disk, q)
    ensures NoneAstray(before, PlannedFiles(start, k)) ==>
              forall q :: Untouchable(q) ==> SameAt(before, removal.disk, q)
  {
    var files := PlannedFiles(start, k);
    RemovalSpares(before, files, GuardOf(start, files), dry, each, removal);
    if NoneAstray(before, files) {
      RemovalOutOfReach(before, files, GuardOf(start, files), dry, each, removal);
      forall q | Untouchable(q) ensures OutOfReach(q) { SparedPlacesAreOutOfReach(q); }
    }
  }

  lemma PlanKept(places: iset<Path>, d: Disk, d': Disk, meta: Metadata, k: Readers)
    requires Covers(places) && Same(places, d, d')
    ensures FileList(d', meta, k) == FileList(d, meta, k)
    ensures forall files :: GuardOf(d', files) == GuardOf(d, files)
  {
    forall files { SamePlan(places, d, d', meta, files, k); }
    SamePlan(places, d, d', meta, [], k);
  }

  class Resetter {
    var disk: Disk
    var trace: seq<Command>
    ghost var replies: seq<Reply>
    const world: World
    const k: Readers
    /** Any places the commands leave alone. */
    ghost const spared: iset<Path>
    ghost const never: Command

    constructor (disk: Disk, world: World, k: Readers, ghost spared: iset<Path>, ghost never: Command)
      ensures this.disk == disk && trace == [] && replies == [] && this.world == world && this.k == k
      ensures this.spared == spared && this.never == never
    {
      this.disk, trace, this.world, this.k := disk, [], world, k;
      this.spared, this.never, replies := spared, never, [];
    }

    /** Phases up to `last` may have run. */
    ghost predicate Valid(last: nat)
      reads this
    {
      Lawful(world, spared) && never.DisableService? && Bounded(trace, last, never) && (last > 0 ==> trace != []) &&
        Heeded(trace, replies)
    }

    /** Nothing on record is taken back. */
    ghost predicate Extends(t: seq<Command>, r: seq<Reply>)
      reads this
    {
      t <= trace && r <= replies && |replies| - |r| == |trace| - |t|
    }

    ghost predicate Settled()
      reads this
    {
      EndsWell(trace, replies)
    }

    /** The command may come next. */
    ghost predicate Due(c: Command)
      reads this
    {
      if trace == [] then c == QueryPrivilege
      else |replies| == |trace| && MayFollow(trace[|trace| - 1], replies[|trace| - 1], c)
    }

    method Execute(c: Command, ghost last: nat) returns (reply: Reply)
      requires Valid(last) && last <= Rank(c) && c != never
      requires Due(c)
      modifies this
      ensures Valid(Rank(c)) && trace == old(trace) + [c] && replies == old(replies) + [reply]
      ensures Same(spared, old(disk), disk) && (OnlyAsks(c) ==> disk == old(disk))
    {
      BoundedNext(trace, last, never, c);
      HeededNext(trace, replies, c, world(disk, trace + [c]).0);
      trace := trace + [c];
      var (answer, after) := world(disk, trace);
      assert trace[|trace| - 1] == c;
      reply, disk := answer, after;
      replies := replies + [reply];
    }

    method AskIdle(service: string) returns (asked: Reply)
      requires Valid(1) && Due(QueryDatabaseService(service))
      modifies this
      ensures Valid(1) && Same(spared, old(disk), disk)
      ensures trace == old(trace) + [QueryDatabaseService(service)] && replies == old(replies) + [asked]
      ensures asked.Exit? && asked.told == Idle ==> Due(StartService(service))
    {
      asked := Execute(QueryDatabaseService(service), 1);
    }

    method StartIdle(sql: string, service: string) returns (started: Reply)
      requires Valid(1) && Due(StartService(service))
      modifies this
      ensures Valid(1) && Same(spared, old(disk), disk)
      ensures trace == old(trace) + [StartService(service)] && replies == old(replies) + [started]
      ensures started.Exit? && started.status == 0 ==> Due(ApplySql(sql))
    {
      started := Execute(StartService(service), 1);
    }

    /** `retry_database_reset_after_start`. */
    method RetryAfterStart(sql: string, service: string) returns (ok: bool)
      requires Valid(1) && Due(QueryDatabaseService(service))
      modifies this
      ensures Valid(1) && Same(spared, old(disk), disk) && Extends(old(trace), old(replies))
      ensures RetryDialogue(sql, service, trace[|old(trace)|..], replies[|old(replies)|..], ok)
      ensures ok ==> Settled()
    {
      ghost var t, r := trace, replies;
      var asked := AskIdle(service);
      if !asked.Exit? || asked.told != Idle {
        NotIdleSince(sql, service, t, r, asked, trace, replies);
        return false;
      }
      var started := StartIdle(sql, service);
      if !started.Exit? || started.status != 0 {
        NotStartedSince(sql, service, t, r, asked, started, trace, replies);
        return false;
      }
      var reply := Execute(ApplySql(sql), 1);
      ok := reply.Exit? && reply.status == 0;
      AskedAgainSince(sql, service, t, r, asked, started, reply, trace, replies);
    }

    method AskDrop(sql: string, service: string) returns (reply: Reply)
      requires Valid(1) && Settled()
      modifies this
      ensures Valid(1) && Same(spared, old(disk), disk)
      ensures trace == old(trace) + [ApplySql(sql)] && replies == old(replies) + [reply]
      ensures if reply.Exit? && reply.status != 0 then Due(QueryDatabaseService(service)) else !reply.Broken? ==>
              Settled()
    {
      reply := Execute(ApplySql(sql), 1);
    }

    /** `reset_database`. */
    method ResetDatabase(sql: string, service: string) returns (ok: bool)
      requires Valid(1) && Settled()
      modifies this
      ensures Valid(1) && Same(spared, old(disk), disk) && Extends(old(trace), old(replies))
      ensures DatabaseDialogue(sql, service, trace[|old(trace)|..], replies[|old(replies)|..], ok)
      ensures ok ==> Settled()
    {
      ghost var t, r := trace, replies;
      var reply := AskDrop(sql, service);
      if !reply.Exit? || reply.status == 0 {
        PlainDropSince(sql, service, t, r, reply, trace, replies);
        return reply.NotExecutable? || reply.Exit?;
      }
      ok := RetryAfterStart(sql, service);
      RefusedDropSince(sql, service, t, r, reply, trace, replies, ok);
    }

    method DropDatabase(meta: Metadata) returns (ok: bool)
      requires Valid(0) && Settled()
      modifies this
      ensures Valid(1) && Same(spared, old(disk), disk) && Extends(old(trace), old(replies))
      ensures ok ==> Settled() && (DropsDatabase(meta) ==> ApplySql(SqlOf(meta)) in trace)
    {
      BoundedLater(trace, 0, 1, never);
      if !DropsDatabase(meta) { return true; }
      ghost var n := |trace|;
      ok := ResetDatabase(SqlOf(meta), DatabaseService(meta));
      assert trace[n..][0] == ApplySql(SqlOf(meta)) && trace[n] == trace[n..][0];
    }

    method DisableService(service: string) returns (ok: bool)
      requires Valid(2) && Settled() && Command.DisableService(service) != never
      modifies this
      ensures Valid(2) && Same(spared, old(disk), disk) && Extends(old(trace), old(replies))
      ensures ok ==> Settled() && Handled(trace, replies, service)
    {
      ghost var n := |trace|;
      var reply := Execute(QueryService(service), 2);
      assert trace[n] == QueryService(service) && replies[n] == reply;
      if !reply.Exit? { return false; }
      if reply.told == Absent { return true; }
      reply := Execute(Command.DisableService(service), 2);
      assert trace[n] == QueryService(service) && trace[n + 1] == Command.DisableService(service);
      return reply.Exit? && (reply.status == 0 || reply.told == Absent);
    }

    /** `disable_services`. */
    method DisableServices(services: seq<string>) returns (ok: bool)
      requires Valid(1) && Settled() && forall s :: s in services ==> Command.DisableService(s) != never
      modifies this
      ensures Valid(2) && Same(spared, old(disk), disk) && Extends(old(trace), old(replies))
      ensures ok ==> Settled() && AllHandled(services, trace, replies)
    {
      BoundedLater(trace, 1, 2, never);
      for i := 0 to |services|
        invariant Valid(2) && Settled() && Same(spared, old(disk), disk) && Extends(old(trace), old(replies))
        invariant AllHandled(services[..i], trace, replies)
      {
        assert services[i] in services;
        ghost var t, r := trace, replies;
        ok := DisableService(services[i]);
        if !ok { return; }
        AllHandledStay(services[..i], t, r, trace, replies);
        assert services[..i + 1] == services[..i] + [services[i]];
      }
      assert services[..|services|] == services;
      return true;
    }

    method TerminateProcesses(user: string) returns (ok: bool)
      requires Valid(3) && Due(Signal("TERM", user))
      modifies this
      ensures Valid(3) && Same(spared, old(disk), disk) && Extends(old(trace), old(replies))
      ensures 0 < |trace[|old(trace)|..]| && trace[|old(trace)|..] <= DeletionOf(user)[..2]
      ensures ok ==> Settled() && trace[|old(trace)|..] == DeletionOf(user)[..2]
      ensures !ok ==> !Signalled(replies[|replies| - 1])
    {
      var reply := Execute(Signal("TERM", user), 3);
      if !reply.Exit? || (reply.status != 0 && reply.status != 1) { return false; }
      reply := Execute(Signal("KILL", user), 3);
      return reply.Exit? && (reply.status == 0 || reply.status == 1);
    }

    method DeleteOnce(user: string) returns (ok: bool, reply: Reply)
      requires Valid(3) && Due(Signal("TERM", user))
      modifies this
      ensures Valid(3) && Same(spared, old(disk), disk) && Extends(old(trace), old(replies))
      ensures Attempt(user, trace[|old(trace)|..], replies[|old(replies)|..], ok)
      ensures ok ==> reply == replies[|replies| - 1] && trace[|trace| - 1] == DeleteUser(user)
    {
      reply := Broken;
      ok := TerminateProcesses(user);
      if ok {
        ghost var t := trace;
        reply := Execute(DeleteUser(user), 3);
        assert trace[|old(trace)|..] == t[|old(trace)|..] + [DeleteUser(user)] == DeletionOf(user);
      }
    }

    /** `delete_site_user_account`: again once if a process still held the account. */
    method DeleteExisting(user: string) returns (ok: bool)
      requires Valid(3) && Due(Signal("TERM", user))
      modifies this
      ensures Valid(3) && Same(spared, old(disk), disk) && Extends(old(trace), old(replies))
      ensures Attempts(user, trace[|old(trace)|..], replies[|old(replies)|..], ok)
      ensures ok ==> Settled()
    {
      ghost var t, r := trace, replies;
      var reached, reply := DeleteOnce(user);
      ghost var t1, r1 := trace, replies;
      if reached && Refused(reply) {
        reached, reply := DeleteOnce(user);
        SinceTwo(t, t1, trace);
        SinceTwo(r, r1, replies);
        TwoAttempts(user, r1[|r|..], trace[|t1|..], replies[|r1|..], reached);
      } else {
        OneAttempt(user, t1[|t|..], r1[|r|..], reached);
      }
      return reached && Good(reply);
    }

    method AskAccount(user: string) returns (query: Reply)
      requires Valid(2) && Settled()
      modifies this
      ensures Valid(3) && Same(spared, old(disk), disk)
      ensures trace == old(trace) + [QueryUser(user)] && replies == old(replies) + [query]
      ensures if Good(query) then Due(Signal("TERM", user)) else query.Exit? ==> Settled()
    {
      query := Execute(QueryUser(user), 2);
    }

    /** The site account, if there is one. */
    method DeleteAccount(user: string) returns (ok: bool)
      requires Valid(2) && Settled()
      modifies this
      ensures Valid(3) && Same(spared, old(disk), disk) && Extends(old(trace), old(replies))
      ensures AccountDialogue(user, trace[|old(trace)|..], replies[|old(replies)|..], ok)
      ensures ok ==> Settled()
    {
      ghost var t, r := trace, replies;
      var query := AskAccount(user);
      if !Good(query) {
        NoAccountSince(user, t, r, query, trace, replies);
        return query.Exit?;
      }
      ok := DeleteExisting(user);
      AccountSince(user, t, r, query, trace, replies, ok);
    }

    /** `InstallerLock::acquire` as far as the tree sees it. */
    method TakeLock(free: bool, line: string) returns (ok: bool)
      modifies this`disk
      ensures forall q :: !(q <= LOCK) ==> SameAt(old(disk), disk, q)
    {
      if LOCK in disk && !disk[LOCK].File? { return false; }
      var made := WithDirectories(disk, LOCK[..2]);
      if free {
        disk := made[LOCK := File(line)];
      } else {
        disk := if LOCK in made then made else made[LOCK := File("")];
      }
      forall q | !(q <= LOCK) ensures SameAt(old(disk), disk, q) {
        assert q <= LOCK[..2] ==> q <= LOCK;
        WithDirectoriesTouches(old(disk), LOCK[..2], q);
        assert SameAt(old(disk), made, q) && q != LOCK;
      }
      return free;
    }

    /** The backup of the main nginx configuration is put back; a failed copy may leave a part. */
    method RestoreNginx(copies: bool, torn: string) returns (ok: bool)
      requires forall q :: q in spared ==> !(q <= NGINX_CONFIG)
      modifies this`disk
      ensures Same(spared, old(disk), disk)
      ensures ok && NGINX_BACKUP in old(disk) ==> NGINX_CONFIG in disk && disk[NGINX_CONFIG] == old(disk)[NGINX_BACKUP]
    {
      if NGINX_BACKUP !in disk { return true; }
      var backup := disk[NGINX_BACKUP];
      forall q | q in spared ensures SameAt(disk, WithDirectories(disk, NGINX_CONFIG[..2])[NGINX_CONFIG := backup], q) {
        WithDirectoriesTouches(disk, NGINX_CONFIG[..2], q);
      }
      if !backup.File? || (NGINX_CONFIG in disk && !disk[NGINX_CONFIG].File?) { return false; }
      disk := WithDirectories(disk, NGINX_CONFIG[..2])[NGINX_CONFIG := if copies then backup else File(torn)];
      return copies;
    }

    method PurgePackages(packages: seq<string>) returns (ok: bool)
      requires Valid(3) && Settled()
      modifies this
      ensures Valid(4) && Same(spared, old(disk), disk)
      ensures trace == (if packages == [] then old(trace) else old(trace) + [PackageCommands(packages)]) &&
              Extends(old(trace), old(replies))
      ensures ok ==> Settled()
    {
      BoundedLater(trace, 3, 4, never);
      if packages == [] { return true; }
      var reply := Execute(PackageCommands(packages), 3);
      return reply.Exit? && reply.status == 0;
    }

    /** The data directory of a database server the installer brought in. */
    method ClearDatabaseFiles(meta: Metadata, clears: bool, left: set<Path>) returns (ok: bool)
      requires meta.serverInstalled ==> forall q :: q in spared ==> !(MYSQL_DATA <= q)
      modifies this`disk
      ensures Same(spared, old(disk), disk)
      ensures !meta.serverInstalled || MYSQL_DATA !in old(disk) ==> ok && disk == old(disk)
      ensures ok && meta.serverInstalled && MYSQL_DATA in old(disk) ==> disk == Without(old(disk), MYSQL_DATA)
    {
      if !meta.serverInstalled || MYSQL_DATA !in disk { return true; }
      if !clears {
        disk := RemovePartly(disk, MYSQL_DATA, left);
        return false;
      }
      disk := Without(disk, MYSQL_DATA);
      return true;
    }

    /** The loop of `remove_reset_files` over the sorted list. */
    method RemoveFiles(files: seq<string>, allowed: Guard, dry: bool, faults: seq<Fault>) returns (r: Removal)
      requires |faults| == |files|
      modifies this`disk
      ensures r == RemoveEach(old(disk), files, allowed, dry, faults) && disk == r.disk
    {
      var removed: seq<string>, missing: seq<string> := [], [];
      ghost var whole := RemoveEach(disk, files, allowed, dry, faults);
      assert files[0..] == files && faults[0..] == faults;
      for i := 0 to |files|
        invariant whole == Continue(removed, missing, RestOf(disk, files, allowed, dry, faults, i))
      {
        var path, look := files[i], LookFor(disk, files[i], faults[i]);
        OneEntry(disk, files, allowed, dry, faults, i);
        if !allowed(path) { return Removal(disk, removed, missing, Unsafe(path)); }
        if look.Trouble? { return Removal(disk, removed, missing, Unreadable(path)); }
        if look.Nothing? {
          ContinueTwice(removed, missing, [], [path], RestOf(disk, files, allowed, dry, faults, i + 1));
          missing := missing + [path];
        } else if dry {
          ContinueTwice(removed, missing, [path], [], RestOf(disk, files, allowed, dry, faults, i + 1));
          removed := removed + [path];
        } else if faults[i].RemoveFails? || Sticks(disk, path) {
          disk := RemovePartly(disk, look.place, LeftBy(Sticks(disk, path), look.place, faults[i]));
          return Removal(disk, removed, missing, Unremovable(path));
        } else {
          disk := RemoveNode(disk, look.place);
          ContinueTwice(removed, missing, [path], [], RestOf(disk, files, allowed, dry, faults, i + 1));
          removed := removed + [path];
        }
      }
      return Removal(disk, removed, missing, Ok);
    }

    method ReloadUnits(removed: seq<string>, services: seq<string>) returns (ok: bool)
      requires Valid(4) && Settled()
      modifies this
      ensures Valid(6) && disk == old(disk) && Extends(old(trace), old(replies))
      ensures ok ==> Settled()
      ensures ok && (exists path :: path in removed && PathOf(UNIT_DIR) + "/" <= path) ==> DaemonReload in trace
    {
      var units := exists path :: path in removed && PathOf(UNIT_DIR) + "/" <= path;
      if units {
        ok := Reload(services);
      } else {
        BoundedLater(trace, 4, 6, never);
        ok := true;
      }
    }

    method Reload(services: seq<string>) returns (ok: bool)
      requires Valid(4) && Settled()
      modifies this
      ensures Valid(6) && disk == old(disk) && Extends(old(trace), old(replies))
      ensures ok ==> Settled()
      ensures DaemonReload in trace
    {
      var reply := Execute(DaemonReload, 4);
      assert trace[|trace| - 1] == DaemonReload;
      BoundedLater(trace, 5, 6, never);
      if !reply.Exit? || reply.status != 0 { return false; }
      if services == [] { return true; }
      ok := ClearFailed(services);
    }

    method ClearFailed(services: seq<string>) returns (ok: bool)
      requires Valid(6) && Settled()
      modifies this
      ensures Valid(6) && disk == old(disk) && Extends(old(trace), old(replies))
      ensures ok ==> Settled()
    {
      var reply := Execute(ResetFailed(services), 6);
      ok := reply.Exit? && (reply.status == 0 || reply.told == Absent);
    }

    method CloseAccount(meta: Metadata) returns (ok: bool)
      requires Valid(2) && Settled()
      modifies this
      ensures Valid(3) && Same(spared, old(disk), disk) && Extends(old(trace), old(replies))
      ensures ok ==> Settled() && (DeletesAccount(meta) ==> QueryUser(meta.siteUser.value) in trace)
    {
      BoundedLater(trace, 2, 3, never);
      if !DeletesAccount(meta) { return true; }
      ghost var n := |trace|;
      ok := DeleteAccount(meta.siteUser.value);
      assert trace[n..][0] == QueryUser(meta.siteUser.value) && trace[n] == trace[n..][0];
    }

    /** The database, the services and the account. */
    method Disconnect(meta: Metadata) returns (ok: bool, services: seq<string>, ghost seen: Disk)
      requires Valid(0) && Settled() && Proper(k) && never == RENEWAL
      modifies this
      ensures Valid(3) && Same(spared, old(disk), disk) && Extends(old(trace), old(replies))
      ensures ok ==> Settled() && (DropsDatabase(meta) ==> ApplySql(SqlOf(meta)) in trace)
      ensures ok ==> (DeletesAccount(meta) ==> QueryUser(meta.siteUser.value) in trace)
      ensures Same(spared, old(disk), seen)
      ensures ok ==> services == ServicesOf(seen, meta, k) && AllHandled(services, trace, replies)
    {
      services, seen := [], disk;
      ok := DropDatabase(meta);
      if !ok { BoundedLater(trace, 1, 3, never); return; }
      seen := disk;
      ghost var dropped := trace;
      ServicesSpareTimer(disk, meta, k);
      services := ServicesOf(disk, meta, k);
      ok := DisableServices(services);
      if !ok { BoundedLater(trace, 2, 3, never); return; }
      ghost var t, r := trace, replies;
      ok := CloseAccount(meta);
      StaysIn(ApplySql(SqlOf(meta)), dropped, trace);
      AllHandledStay(services, t, r, trace, replies);
    }

    /** Everything a real run does before it gets to the listed files; `seen` is the tree the services
        were looked up in. */
    method Prepare(meta: Metadata, faults: FileFaults) returns (ok: bool, services: seq<string>, ghost seen: Disk)
      requires Valid(0) && Settled() && Proper(k) && never == RENEWAL
      requires forall q :: q in spared ==> !Preliminary(Some(meta), q)
      modifies this
      ensures Valid(4) && Same(spared, old(disk), disk) && Extends(old(trace), old(replies))
      ensures Same(spared, old(disk), seen)
      ensures ok ==> Settled() && AllAsked(meta, trace)
      ensures ok ==> services == ServicesOf(seen, meta, k) && AllHandled(services, trace, replies)
    {
      ok, services, seen := Disconnect(meta);
      if ok { ok := RestoreNginx(faults.copies, faults.torn); }
      if !ok { BoundedLater(trace, 3, 4, never); return; }
      ghost var t, r := trace, replies;
      ok := PurgePackages(meta.packages);
      AllHandledStay(services, t, r, trace, replies);
      if ok { ok := ClearDatabaseFiles(meta, faults.clears, faults.left); }
    }

    method ReadMetadata() returns (meta: Option<Metadata>)
      ensures meta == MetadataOf(disk, k)
    {
      var report, config := ReadText(disk, REPORT), ReadText(disk, CONFIG);
      if report.NoText? || config.NoText? { return None; }
      var parsed: Option<Report> := None;
      if report.Content? {
        parsed := k.report(report.text);
        if parsed.None? { return None; }
      }
      var m := FillMetadata(parsed, if config.Content? then Some(config.text) else None, k);
      return Some(m);
    }

    /** The confirmation, the lock, the privilege and the metadata. */
    method Begin(yes: bool, dry: bool, free: bool, line: string, lists: bool)
      returns (meta: Option<Metadata>, why: Reason)
      requires trace == [] && replies == [] && Lawful(world, spared) && never.DisableService?
      modifies this
      ensures Bounded(trace, 0, never) && trace <= [QueryPrivilege] && Heeded(trace, replies)
      ensures !dry && !yes ==> meta == None && why == NotConfirmed && trace == [] && disk == old(disk)
      ensures forall q :: !(q <= LOCK) ==> SameAt(old(disk), disk, q)
      ensures meta.Some? ==> Settled() && trace == [QueryPrivilege] && meta == MetadataOf(disk, k)
    {
      meta := None;
      if !yes && !dry { return None, NotConfirmed; }
      var locked := TakeLock(free, line);
      if !locked { return None, Locked; }
      var reply := Execute(QueryPrivilege, 0);
      if !reply.Exit? || reply.status != 0 { return None, NotRoot; }
      meta := ReadMetadata();
      why := NoMetadata;
      if meta.Some? && !lists { meta, why := None, NoCertificateList; }
    }

    /** `remove_reset_files`. */
    method RemoveListed(meta: Metadata, dry: bool, each: nat -> Fault) returns (removal: Option<Removal>)
      modifies this`disk
      ensures var files := FileList(old(disk), meta, k);
              && (removal.None? <==> files.None?)
              && (removal.None? ==> disk == old(disk))
              && (removal.Some? ==>
                  disk == removal.value.disk &&
                    RemovalOf(old(disk), files.value, GuardOf(old(disk), files.value), dry, each, removal.value))
    {
      var files := FileList(disk, meta, k);
      if files.None? { return None; }
      var sorted := DeepestFirst(files.value);
      var removed := RemoveFiles(sorted, GuardOf(disk, files.value), dry, FaultsOf(|sorted|, each));
      return Some(removed);
    }

    /** The listed files and what follows them. */
    method RunListed(meta: Metadata, dry: bool, services: seq<string>, each: nat -> Fault)
      returns (end: End, ghost before: Disk)
      requires Valid(4) && Settled()
      modifies this
      ensures Valid(6) && Extends(old(trace), old(replies)) && before == old(disk) && (end.Finished? ==> Settled())
      ensures dry ==> disk == old(disk) && trace == old(trace)
      ensures end.StoppedBefore? <==> FileList(before, meta, k).None?
      ensures end.StoppedBefore? ==> disk == before
      ensures !end.StoppedBefore? ==>
                disk == end.removal.disk &&
                var files := FileList(before, meta, k).value;
                RemovalOf(before, files, GuardOf(before, files), dry, each, end.removal)
      ensures end.StoppedAt? <==> !end.StoppedBefore? && end.removal.outcome != Ok
    {
      before := disk;
      BoundedLater(trace, 4, 6, never);
      var removal := RemoveListed(meta, dry, each);
      if removal.None? { return StoppedBefore(NoOwnedList), disk; }
      ghost var files := FileList(before, meta, k).value;
      if dry { DryRemoval(before, files, GuardOf(before, files), each, removal.value); }
      if removal.value.outcome != Ok { return StoppedAt(removal.value), before; }
      if dry { return Finished(removal.value), before; }
      var reloaded := ReloadUnits(removal.value.removed, services);
      end := if reloaded then Finished(removal.value) else StoppedAfter(removal.value);
    }

    /** `run_with_probe_and_paths`. `before` is the tree when the listed files had their turn, `seen`
        the one in which the services were looked up. */
    method Run(yes: bool, dry: bool, free: bool, line: string, faults: FileFaults)
      returns (end: End, ghost before: Disk, ghost services: seq<string>, ghost seen: Disk)
      requires trace == [] && replies == [] && Lawful(world, spared) && Proper(k) && never == RENEWAL
      requires Covers(spared) && forall q :: q in spared ==> !Preliminary(MetadataOf(disk, k), q)
      modifies this
      // order of the commands, none of which stops the renewal timer
      ensures Bounded(trace, 6, RENEWAL)
      // no failure is passed over, and the listed files are reached only after every phase
      ensures Heeded(trace, replies) && (end.Finished? ==> Settled())
      ensures !end.StoppedBefore? && !dry ==>
                MetadataOf(old(disk), k).Some? && AllDone(MetadataOf(old(disk), k).value, services, trace, replies)
      ensures !end.StoppedBefore? && !dry ==>
                Same(spared, old(disk), seen) && services == ServicesOf(seen, MetadataOf(old(disk), k).value, k)
      // a dry run asks for its privilege and changes nothing but the lock file
      ensures dry ==> trace <= [QueryPrivilege] && forall q :: !(q <= LOCK) ==> SameAt(old(disk), disk, q)
      ensures !dry && !yes ==> end == StoppedBefore(NotConfirmed) && trace == [] && disk == old(disk)
      // a run that stops before the listed files has spared the metadata
      ensures end.StoppedBefore? ==> Same(spared, old(disk), disk)
      // otherwise it removes what the metadata found at the start call for
      ensures !end.StoppedBefore? ==> Same(spared, old(disk), before) && disk == end.removal.disk
      ensures !end.StoppedBefore? ==> Planned(old(disk), before, k, dry, faults.each, end.removal)
      ensures end.StoppedAt? <==> !end.StoppedBefore? && end.removal.outcome != Ok
      // however it ends, what the commands spare and no listed path takes away is as it was
      ensures !end.StoppedBefore? ==>
                forall q :: q in spared && !Doomed(old(disk), before, k, q) ==> SameAt(old(disk), disk, q)
      // so the certificates, and the database of an operator's own server, outlive it if its commands spare them
      // and no listed path runs through a link
      ensures end.StoppedBefore? || NoneAstray(before, PlannedFiles(old(disk), k)) ==>
                forall q :: q in spared && Untouchable(q) ==> SameAt(old(disk), disk, q)
    {
      before, services, seen := disk, [], disk;
      var meta, why := Begin(yes, dry, free, line, faults.lists);
      BoundedLater(trace, 0, 6, never);
      assert Same(spared, before, disk);
      if meta.None? { end := StoppedBefore(why); return; }
      SamePlan(spared, before, disk, meta.value, [], k);
      var found: seq<string> := [];
      if !dry {
        var ready: bool;
        ready, found, seen := Prepare(meta.value, faults);
        BoundedLater(trace, 4, 6, never);
        if !ready { end := StoppedBefore(CommandFailed); return; }
      } else {
        BoundedLater(trace, 0, 4, never);
      }
      services := found;
      PlanKept(spared, old(disk), disk, meta.value, k);
      ghost var t, r := trace, replies;
      end, before := RunListed(meta.value, dry, found, faults.each);
      if !dry { AllHandledStay(services, t, r, trace, replies); }
      if !end.StoppedBefore? {
        PlanSpares(old(disk), before, k, dry, faults.each, end.removal);
      }
    }
  }

  /* ---- what a run leaves ---- */

  lemma WatchedHeads(q: Path)
    requires q in WATCHED
    ensures q != [] && q[0] != "run"
    ensures q[0] == "etc" ==> |q| > 1 && q[1] != "nginx"
    ensures |q| > 2 ==> q[2] != "mysql"
  {}

  /** The metadata files and the certificates can be spared by everything before the removal, and the
      database files by everything if the operator's own server keeps them. */
  lemma SparedPlacesAreClear(meta: Option<Metadata>, q: Path)
    requires q in WATCHED || CERTIFICATES <= q || (MYSQL_DATA <= q && meta.Some? && !meta.value.serverInstalled)
    ensures !Preliminary(meta, q)
  {
    if CERTIFICATES <= q {
      assert q[0] == "etc" && q[1] == "letsencrypt";
    } else if MYSQL_DATA <= q {
      assert q[0] == "var";
    } else {
      WatchedHeads(q);
    }
    assert LOCK[0] == "run" && NGINX_CONFIG[0] == "etc" && NGINX_CONFIG[1] == "nginx" && MYSQL_DATA[0] == "var" &&
           MYSQL_DATA[2] == "mysql";
  }

  /** No listed path can reach the certificates, the directories above them, or the database files. */
  lemma SparedPlacesAreOutOfReach(q: Path)
    requires Untouchable(q)
    ensures OutOfReach(q)
  {
    forall p | Managed(p) ensures !(p <= q) {
      if MYSQL_DATA <= q {
        ManagedIsApartFromDatabase(p);
        ApartReachesAlong(p, MYSQL_DATA, q);
      } else {
        ManagedIsApartFromCertificates(p);
        ApartReachesAlong(p, CERTIFICATES, q);
      }
    }
  }

  lemma RootsMissDatabase(r: Path)
    requires r in ALLOWED_ROOTS || r in RUNTIME_FILES
    ensures r != [] && (r[0] != "var" || (|r| > 1 && r[1] != "lib") || (|r| > 2 && r[2] != "mysql"))
  {}

  lemma ManagedIsApartFromDatabase(p: Path)
    requires Managed(p)
    ensures Apart(p, MYSQL_DATA)
  {
    if r :| r in ALLOWED_ROOTS && r <= p {
      RootsMissDatabase(r);
      ApartAt(r, MYSQL_DATA, if r[0] != "var" then 0 else if r[1] != "lib" then 1 else 2);
      ExtensionStaysApart(r, p, MYSQL_DATA);
    } else if p in RUNTIME_FILES {
      RootsMissDatabase(p);
      ApartAt(p, MYSQL_DATA, if p[0] != "var" then 0 else if p[1] != "lib" then 1 else 2);
    } else if IsSiteRoot(p) {
      ApartAt(p, MYSQL_DATA, if p[0] != "var" then 0 else 1);
    } else {
      ApartAt(p, MYSQL_DATA, if p[0] != "var" then 0 else 2);
    }
  }

  /** A reset that got through its list has removed every listed place and nothing else. */
  lemma ResetRemovesExactlyTheList(before: Disk, files: seq<string>, allowed: Guard, each: nat -> Fault,
                                   removal: Removal)
    requires RemovalOf(before, files, allowed, false, each, removal) && removal.outcome == Ok && WellFormed(before)
    requires NoneAstray(before, files)
    ensures removal.disk == map q | q in before && !Listed(files, q) :: before[q]
  {
    ResetClearsTheListed(before, files, allowed, FaultsOf(|DeepestFirst(files)|, each));
  }

  /** A reset that got through its list has removed what a listed path names, whatever links there are. */
  lemma ResetRemovesTheNamed(before: Disk, files: seq<string>, allowed: Guard, each: nat -> Fault, removal: Removal,
                             f: string, q: Path)
    requires RemovalOf(before, files, allowed, false, each, removal) && removal.outcome == Ok && WellFormed(before)
    requires f in files && Segments(f) <= q && (q in before && before[q].Link? && OpenEnd(f) ==> Segments(f) != q)
    ensures q !in removal.disk
  {
    var sorted := DeepestFirst(files);
    DeepestFirstSorts(files, 0);
    SameMembers(files, sorted);
    ListedIsGone(before, sorted, allowed, FaultsOf(|sorted|, each), f, q);
  }

  lemma RemovalIsSmaller(before: Disk, files: seq<string>, allowed: Guard, each: nat -> Fault, removal: Removal)
    requires RemovalOf(before, files, allowed, false, each, removal)
    ensures Smaller(removal.disk, before)
  {
    var sorted := DeepestFirst(files);
    forall q | q in removal.disk ensures q in before && removal.disk[q] == before[q] {
      NothingAppears(before, sorted, allowed, FaultsOf(|sorted|, each), q);
    }
  }

  lemma {:induction false} MembersAreListed(files: seq<string>, f: string)
    requires f in files
    ensures Listed(files, Segments(f))
  {
    if f != files[0] {
      assert f in files[1..];
      MembersAreListed(files[1..], f);
    }
  }

  lemma {:induction false} AddedMeans(files: seq<string>, more: seq<string>, f: string)
    ensures f in AddAbsent(files, more) <==> f in files || f in more
    decreases more
  {
    if more != [] {
      AddedMeans(if more[0] in files then files else files + [more[0]], more[1..], f);
      assert more == [more[0]] + more[1..];
    }
  }

  /** What the ownership list says. */
  function OwnedList(d: Disk, k: Readers): seq<string> {
    var owned := ReadText(d, OWNED_FILES);
    if owned.Content? && k.owned(owned.text).Some? then k.owned(owned.text).value else []
  }

  /** The swap file comes along with its unit. */
  predicate UnitIsListed(d: Disk, k: Readers) {
    PathOf(SWAP_UNIT) in OwnedList(d, k) || MarkedUnit(d)
  }

  lemma SwapNamesDiffer()
    ensures PathOf(SWAP_UNIT) !in LEGACY_PATHS && PathOf(SWAP_UNIT) !in ONDREJ_PATHS &&
            PathOf(SWAP_UNIT) != PathOf(SWAP_SYSCTL)
  {
    var p, r := PathOf(SWAP_UNIT), PathOf(SWAP_SYSCTL);
    assert p == "/" + "etc" + PathOf(SWAP_UNIT[1..]) && r == "/" + "etc" + PathOf(SWAP_SYSCTL[1..]);
    assert SWAP_UNIT[1..][1..] == SWAP_UNIT[2..] && SWAP_SYSCTL[1..][1..] == SWAP_SYSCTL[2..];
    assert PathOf(SWAP_UNIT[1..]) == "/" + "systemd" + PathOf(SWAP_UNIT[2..]);
    assert PathOf(SWAP_SYSCTL[1..]) == "/" + "sysctl.d" + PathOf(SWAP_SYSCTL[2..]);
    assert p[1] == 'e' && p[5] == 's' && p[6] == 'y' && p[8] == 't' && r[8] == 'c';
    assert "/usr/local/bin/g7"[1] == 'u' && "/tmp/g7"[1] == 't';
    assert forall f :: f in ONDREJ_PATHS ==> f[5] == 'a';
  }

  lemma ListWithoutSwapFileMeans(d: Disk, meta: Metadata, k: Readers, owned: seq<string>, f: string)
    ensures f in ListWithoutSwapFile(d, meta, k, owned) <==>
            || f in owned || f in LEGACY_PATHS
            || (f in ONDREJ_PATHS && meta.phpSource == Some("ondrej"))
            || (f == PathOf(SWAP_UNIT) && MarkedUnit(d))
            || (f == PathOf(SWAP_SYSCTL) && MarkedSysctl(d, k))
  {
    forall files, more { AddedMeans(files, more, f); }
  }

  /** The path list, member by member. */
  lemma FileListMeans(d: Disk, meta: Metadata, k: Readers, f: string)
    requires FileList(d, meta, k).Some?
    ensures f in FileList(d, meta, k).value <==>
            || f in OwnedList(d, k) || f in LEGACY_PATHS
            || (f in ONDREJ_PATHS && meta.phpSource == Some("ondrej"))
            || (f == PathOf(SWAP_UNIT) && MarkedUnit(d))
            || (f == PathOf(SWAP_SYSCTL) && MarkedSysctl(d, k))
            || (f == PathOf(SWAP_FILE) && SWAP_FILE in d && UnitIsListed(d, k))
  {
    var owned := OwnedList(d, k);
    SwapNamesDiffer();
    ListWithoutSwapFileMeans(d, meta, k, owned, f);
    ListWithoutSwapFileMeans(d, meta, k, owned, PathOf(SWAP_UNIT));
    AddedMeans(ListWithoutSwapFile(d, meta, k, owned), [PathOf(SWAP_FILE)], f);
  }

  lemma SwapPlaces()
    ensures Segments(PathOf(SWAP_UNIT)) == SWAP_UNIT && Segments(PathOf(SWAP_SYSCTL)) == SWAP_SYSCTL
  {
    PlainDirectories();
    PlainConfigDirectories();
    PlainUnitNames();
    SegmentsOfPath(SWAP_UNIT);
    SegmentsOfPath(SWAP_SYSCTL);
  }

  lemma MarkedAreListed(d: Disk, meta: Metadata, k: Readers)
    requires FileList(d, meta, k).Some?
    ensures var files := FileList(d, meta, k).value;
            && (MarkedUnit(d) ==> Listed(files, SWAP_UNIT)) && (MarkedSysctl(d, k) ==> Listed(files, SWAP_SYSCTL))
            && (forall f :: f in LEGACY_PATHS ==> f in files)
  {
    var files := FileList(d, meta, k).value;
    SwapPlaces();
    forall f | f in files ensures Listed(files, Segments(f)) { MembersAreListed(files, f); }
    forall f | f in LEGACY_PATHS ensures f in files { FileListMeans(d, meta, k, f); }
    FileListMeans(d, meta, k, PathOf(SWAP_UNIT));
    FileListMeans(d, meta, k, PathOf(SWAP_SYSCTL));
  }

  lemma LegacyParts(f: string) returns (dir: string, name: string)
    requires f in LEGACY_PATHS
    ensures f == dir + "/" + name && '/' !in name && name != "" && name != "."
  {
    name := "g7";
    dir := if f == LEGACY_PATHS[0] then "/usr/local/bin" else "/tmp";
  }

  lemma NothingMarked(places: iset<Path>, start: Disk, before: Disk, d: Disk, k: Readers)
    requires Covers(places) && Same(places, start, before)
    requires SWAP_UNIT in d ==> !MarkedUnit(start) && SameAt(before, d, SWAP_UNIT)
    requires SWAP_SYSCTL in d ==> !MarkedSysctl(start, k) && SameAt(before, d, SWAP_SYSCTL)
    ensures !MarkedUnit(d) && !MarkedSysctl(d, k)
  {
    SameText(places, start, before, SWAP_UNIT);
    SameText(places, start, before, SWAP_SYSCTL);
  }

  /** A watched file that is listed, or below a listed directory, and is no link, is gone after a reset
      that got through its list. */
  lemma WatchedIsGone(places: iset<Path>, start: Disk, before: Disk, k: Readers, each: nat -> Fault, removal: Removal,
                      q: Path)
    requires Planned(start, before, k, false, each, removal) && removal.outcome == Ok && WellFormed(before)
    requires Covers(places) && Same(places, start, before) && q in WATCHED && (q in start ==> !start[q].Link?)
    requires Listed(PlannedFiles(start, k), q)
    ensures q !in removal.disk
  {
    var files := PlannedFiles(start, k);
    ListedMeans(files, q);
    var f :| f in files && Segments(f) <= q;
    assert SameAt(start, before, q);
    ResetRemovesTheNamed(before, files, GuardOf(start, files), each, removal, f, q);
  }

  lemma ReadIsNoLink(start: Disk, k: Readers, q: Path)
    requires MetadataOf(start, k).Some? && FileList(start, MetadataOf(start, k).value, k).Some?
    requires q == REPORT || q == CONFIG || q == OWNED_FILES
    ensures q in start ==> !start[q].Link?
  {}

  lemma ReadIsGone(places: iset<Path>, start: Disk, before: Disk, k: Readers, each: nat -> Fault, removal: Removal,
                   q: Path)
    requires Planned(start, before, k, false, each, removal) && removal.outcome == Ok && WellFormed(before)
    requires Covers(places) && Same(places, start, before) && Listed(PlannedFiles(start, k), q)
    requires q == REPORT || q == CONFIG || q == OWNED_FILES
    ensures q !in removal.disk
  {
    ReadIsNoLink(start, k, q);
    WatchedIsGone(places, start, before, k, each, removal, q);
  }

  lemma MarkedIsNoLink(start: Disk, k: Readers)
    ensures MarkedUnit(start) ==> SWAP_UNIT in start && !start[SWAP_UNIT].Link?
    ensures MarkedSysctl(start, k) ==> SWAP_SYSCTL in start && !start[SWAP_SYSCTL].Link?
  {}

  lemma GoneIfMarked(places: iset<Path>, start: Disk, before: Disk, k: Readers, each: nat -> Fault, removal: Removal,
                     q: Path, marked: bool)
    requires Planned(start, before, k, false, each, removal) && removal.outcome == Ok && WellFormed(before)
    requires Covers(places) && Same(places, start, before) && q in WATCHED
    requires marked ==> Listed(PlannedFiles(start, k), q) && q in start && !start[q].Link?
    ensures marked ==> q !in removal.disk
  {
    if marked { WatchedIsGone(places, start, before, k, each, removal, q); }
  }

  lemma MarkedAreGone(places: iset<Path>, start: Disk, before: Disk, k: Readers, each: nat -> Fault, removal: Removal)
    requires Planned(start, before, k, false, each, removal) && removal.outcome == Ok && WellFormed(before)
    requires Covers(places) && Same(places, start, before)
    ensures MarkedUnit(start) ==> SWAP_UNIT !in removal.disk
    ensures MarkedSysctl(start, k) ==> SWAP_SYSCTL !in removal.disk
  {
    MarkedAreListed(start, MetadataOf(start, k).value, k);
    MarkedIsNoLink(start, k);
    GoneIfMarked(places, start, before, k, each, removal, SWAP_UNIT, MarkedUnit(start));
    GoneIfMarked(places, start, before, k, each, removal, SWAP_SYSCTL, MarkedSysctl(start, k));
  }

  lemma LegacyAreGone(start: Disk, before: Disk, k: Readers, each: nat -> Fault, removal: Removal, f: string)
    requires Planned(start, before, k, false, each, removal) && removal.outcome == Ok && WellFormed(before)
    requires f in LEGACY_PATHS
    ensures Segments(f) !in removal.disk
  {
    var files := PlannedFiles(start, k);
    MarkedAreListed(start, MetadataOf(start, k).value, k);
    var dir, name := LegacyParts(f);
    EndOfConcat(dir, name);
    ResetRemovesTheNamed(before, files, GuardOf(start, files), each, removal, f, Segments(f));
  }

  lemma NextIsFresh(places: iset<Path>, start: Disk, before: Disk, d: Disk, k: Readers)
    requires Covers(places) && Same(places, start, before) && Proper(k) && Smaller(d, before)
    requires REPORT !in d && CONFIG !in d && OWNED_FILES !in d
    requires (MarkedUnit(start) ==> SWAP_UNIT !in d) && (MarkedSysctl(start, k) ==> SWAP_SYSCTL !in d)
    ensures MetadataOf(d, k) == Some(NO_METADATA)
    ensures FileList(d, NO_METADATA, k) == Some(LEGACY_PATHS)
  {
    NothingMarked(places, start, before, d, k);
    FreshMetadata(d, k);
    FreshList(d, k);
  }

  /** After a reset whose list covered the metadata files, the next one starts from nothing: no
      metadata, and a list of the two legacy paths, neither of which is there. */
  lemma SecondResetFindsNothing(places: iset<Path>, start: Disk, before: Disk, k: Readers, each: nat -> Fault,
                                removal: Removal)
    requires Planned(start, before, k, false, each, removal) && removal.outcome == Ok && WellFormed(before)
    requires Covers(places) && Same(places, start, before) && Proper(k)
    requires var files := PlannedFiles(start, k);
             Listed(files, REPORT) && Listed(files, CONFIG) && Listed(files, OWNED_FILES)
    ensures MetadataOf(removal.disk, k) == Some(NO_METADATA)
    ensures FileList(removal.disk, NO_METADATA, k) == Some(LEGACY_PATHS)
    ensures forall f :: f in LEGACY_PATHS ==> Segments(f) !in removal.disk
  {
    var files := PlannedFiles(start, k);
    ReadIsGone(places, start, before, k, each, removal, REPORT);
    ReadIsGone(places, start, before, k, each, removal, CONFIG);
    ReadIsGone(places, start, before, k, each, removal, OWNED_FILES);
    MarkedAreGone(places, start, before, k, each, removal);
    RemovalIsSmaller(before, files, GuardOf(start, files), each, removal);
    NextIsFresh(places, start, before, removal.disk, k);
    forall f | f in LEGACY_PATHS ensures Segments(f) !in removal.disk {
      LegacyAreGone(start, before, k, each, removal, f);
    }
  }

  lemma FreshMetadata(d: Disk, k: Readers)
    requires REPORT !in d && CONFIG !in d && Proper(k)
    ensures MetadataOf(d, k) == Some(NO_METADATA)
  {
    var none: seq<string> := [];
    assert |k.unique(none)| <= |none|;
  }

  const NO_METADATA := Metadata(None, None, None, None, None, [], [], false)

  lemma FreshList(d: Disk, k: Readers)
    requires OWNED_FILES !in d && !MarkedUnit(d) && !MarkedSysctl(d, k)
    ensures FileList(d, NO_METADATA, k) == Some(LEGACY_PATHS)
  {
    assert LEGACY_PATHS[1..] == ["/tmp/g7"] && ["/tmp/g7"][1..] == [];
    assert AddAbsent(["/usr/local/bin/g7"], ["/tmp/g7"]) == LEGACY_PATHS;
    assert AddAbsent([], LEGACY_PATHS) == LEGACY_PATHS;
    SwapNamesDiffer();
  }

  lemma ManagedIsSomewhere(p: Path)
    requires Managed(p)
    ensures p != []
  {
    if r :| r in ALLOWED_ROOTS && r <= p { RootsAreSound(r); }
  }

  lemma AdmittedIsSomewhere(f: string)
    requires Admits(f)
    ensures Segments(f) != []
  {
    AdmittedIsManaged(f);
    ManagedIsSomewhere(Segments(f));
  }

  /** Of the admitted paths, the only one that names the swap file and does not end open is its own. */
  lemma SwapFileSpelled(f: string)
    requires Admits(f) && Segments(f) <= SWAP_FILE
    ensures Segments(f) == SWAP_FILE && (f == PathOf(SWAP_FILE) || OpenEnd(f))
  {
    AdmittedIsSomewhere(f);
    WholeOfOne(Segments(f), SWAP_FILE[0]);
    var r := ShortIsBelowARoot(f);
    WholeOfOne(r, SWAP_FILE[0]);
    SpelledAt(f, SWAP_FILE);
  }

  lemma SpelledAt(f: string, r: Path)
    requires AllPlain(r) && OnOrBelow(f, PathOf(r)) && Segments(f) == r
    ensures f == PathOf(r) || OpenEnd(f)
  {
    if f != PathOf(r) {
      var rest := f[|PathOf(r)| + 1..];
      assert f == PathOf(r) + "/" + rest;
      SegmentsConcat(PathOf(r), rest);
      SegmentsOfPath(r);
      NoNamesIsOpen(PathOf(r), rest);
    }
  }

  lemma RuntimeFilesAreDeep(g: Path)
    requires g in RUNTIME_FILES
    ensures |g| > 1
  {}

  lemma ShortIsBelowARoot(f: string) returns (r: Path)
    requires Admits(f) && |Segments(f)| == 1
    ensures r in ALLOWED_ROOTS && OnOrBelow(f, PathOf(r)) && r <= Segments(f) && r != [] && AllPlain(r)
  {
    if g :| g in RUNTIME_FILES && f == PathOf(g) {
      RootsAreSound(g);
      SegmentsOfPath(g);
      RuntimeFilesAreDeep(g);
    }
    r :| r in ALLOWED_ROOTS && OnOrBelow(f, PathOf(r));
    RootsAreSound(r);
    BelowIsExtension(f, r);
  }

  lemma OnlyItselfCoversSwapFile(f: string)
    requires Admits(f) && Canonical(f) && Segments(f) <= SWAP_FILE
    ensures f == PathOf(SWAP_FILE)
  {
    AdmittedIsSomewhere(f);
    WholeOfOne(Segments(f), SWAP_FILE[0]);
  }

  lemma WholeOfOne(p: Path, name: string)
    requires p <= [name] && p != []
    ensures p == [name]
  {}

  /** Unless the installer manages it, the swap file stays, however it is listed: it is named by its own
      path, which is refused, or by one with an open end, at which a file cannot be looked at. Only if
      it is no file do the listed paths have to be canonical. */
  lemma UnmanagedSwapFileStays(before: Disk, files: seq<string>, dry: bool, each: nat -> Fault, removal: Removal)
    requires RemovalOf(before, files, ResetGuard(false), dry, each, removal) && NoneAstray(before, files)
    requires SWAP_FILE in before && !before[SWAP_FILE].File? ==> forall f :: f in files ==> Canonical(f)
    ensures SameAt(before, removal.disk, SWAP_FILE)
  {
    var sorted, allowed := DeepestFirst(files), ResetGuard(false);
    DeepestFirstSorts(files, 0);
    SameMembers(files, sorted);
    SortedIsStraight(before, files);
    forall f | f in sorted && allowed(f)
      ensures !Astray(before, f)
      ensures Segments(f) <= SWAP_FILE ==> Segments(f) == SWAP_FILE && OpenEnd(f) && !Canonical(f)
    {
      var i :| 0 <= i < |sorted| && sorted[i] == f;
      if Segments(f) <= SWAP_FILE {
        SwapFileSpelled(f);
        if Canonical(f) { OnlyItselfCoversSwapFile(f); }
      }
    }
    if SWAP_FILE in before && !before[SWAP_FILE].File? {
      NotLost(before, sorted, allowed, SWAP_FILE);
    } else {
      FileStays(before, sorted, allowed, SWAP_FILE);
    }
    OnlyLostPlacesChange(before, sorted, allowed, dry, FaultsOf(|sorted|, each), SWAP_FILE);
  }
}
