/** Finalizing an installation: ownership is recorded before any runtime unit appears, so that a
    reset finds whatever an interrupted finalize left; and how a finalize ends. */
module Finalize {
  import AtomicWrite
  import opened DiskTree
  import opened Numbers
  import opened Options
  import opened Paths
  import opened ResetAllowlist
  import opened ResetFiles
  import opened ResetRun

  const SCHEDULER_SERVICE: Path := ["etc", "systemd", "system", "g7-scheduler.service"]
  const SCHEDULER_TIMER: Path := ["etc", "systemd", "system", "g7-scheduler.timer"]
  const QUEUE_SERVICE: Path := ["etc", "systemd", "system", "g7-queue.service"]
  const REVERB_SERVICE: Path := ["etc", "systemd", "system", "g7-reverb.service"]

  /** The units of `runtime_units`, in the order they are written. */
  function Units(redis: bool): seq<Path> {
    [SCHEDULER_SERVICE, SCHEDULER_TIMER] + if redis then [QUEUE_SERVICE, REVERB_SERVICE] else []
  }

  function SiteSettings(webRoot: string): seq<string> {
    [webRoot + "/storage/app/settings/drivers.json", webRoot + "/storage/app/settings/mail.json",
     webRoot + "/public/storage"]
  }

  function PathsOf(places: seq<Path>): seq<string> {
    if places == [] then [] else [PathOf(places[0])] + PathsOf(places[1..])
  }

  /** The ownership list after registration. */
  function Register(owned: seq<string>, webRoot: string, redis: bool): seq<string> {
    AddAbsent(AddAbsent(owned, SiteSettings(webRoot)), PathsOf(Units(redis)))
  }

  /* ---- the ownership list ---- */

  lemma {:induction false} AddAbsentGrows(files: seq<string>, more: seq<string>)
    ensures files <= AddAbsent(files, more)
    ensures NoDuplicates(files) ==> NoDuplicates(AddAbsent(files, more))
    ensures forall f :: f in AddAbsent(files, more) <==> f in files || f in more
    decreases more
  {
    if more != [] {
      var next := if more[0] in files then files else files + [more[0]];
      AddAbsentGrows(next, more[1..]);
      assert more == [more[0]] + more[1..];
    }
  }

  lemma {:induction false} AddAbsentKnown(files: seq<string>, more: seq<string>)
    requires forall f :: f in more ==> f in files
    ensures AddAbsent(files, more) == files
    decreases more
  {
    if more != [] {
      assert more == [more[0]] + more[1..];
      AddAbsentKnown(files, more[1..]);
    }
  }

  lemma {:induction false} PathsOfMembers(places: seq<Path>, p: Path)
    requires p in places
    ensures PathOf(p) in PathsOf(places)
  {
    if p != places[0] {
      assert p in places[1..];
      PathsOfMembers(places[1..], p);
    }
  }

  /** The list only grows, gains no duplicates, holds every unit, and registering again with the
      same report adds nothing. */
  lemma RegistrationGrows(owned: seq<string>, webRoot: string, redis: bool)
    ensures var r := Register(owned, webRoot, redis);
            && owned <= r
            && (NoDuplicates(owned) ==> NoDuplicates(r))
            && (forall f :: f in SiteSettings(webRoot) ==> f in r)
            && (forall u :: u in Units(redis) ==> PathOf(u) in r)
            && Register(r, webRoot, redis) == r
  {
    var some := AddAbsent(owned, SiteSettings(webRoot));
    AddAbsentGrows(owned, SiteSettings(webRoot));
    AddAbsentGrows(some, PathsOf(Units(redis)));
    forall u | u in Units(redis) ensures PathOf(u) in PathsOf(Units(redis)) { PathsOfMembers(Units(redis), u); }
    var r := Register(owned, webRoot, redis);
    AddAbsentKnown(r, SiteSettings(webRoot));
    AddAbsentKnown(r, PathsOf(Units(redis)));
  }

  class OwnedList {
    var files: seq<string>

    constructor (files: seq<string>)
      ensures this.files == files
    {
      this.files := files;
    }

    /** `register_owned` for each path. */
    method Add(paths: seq<string>)
      modifies this
      ensures files == AddAbsent(old(files), paths)
    {
      ghost var all := AddAbsent(files, paths);
      assert paths[0..] == paths;
      for i := 0 to |paths|
        invariant AddAbsent(files, paths[i..]) == all
      {
        assert paths[i..][1..] == paths[i + 1..];
        if paths[i] !in files {
          files := files + [paths[i]];
        }
      }
    }

    method RegisterRuntime(webRoot: string, redis: bool)
      modifies this
      ensures files == Register(old(files), webRoot, redis)
    {
      Add(SiteSettings(webRoot));
      Add(PathsOf(Units(redis)));
    }
  }

  datatype Finalizing = Finalizing(webRoot: string, redis: bool)

  function RegisterAll(owned: seq<string>, runs: seq<Finalizing>): seq<string> {
    if runs == [] then owned
    else
      var last := runs[|runs| - 1];
      Register(RegisterAll(owned, runs[..|runs| - 1]), last.webRoot, last.redis)
  }

  /** Over any number of finalizes, whatever their settings, nothing is ever forgotten or doubled. */
  lemma {:induction false} OwnershipOnlyGrows(owned: seq<string>, runs: seq<Finalizing>)
    ensures owned <= RegisterAll(owned, runs)
    ensures NoDuplicates(owned) ==> NoDuplicates(RegisterAll(owned, runs))
  {
    if runs != [] {
      var n := |runs| - 1;
      OwnershipOnlyGrows(owned, runs[..n]);
      RegistrationGrows(RegisterAll(owned, runs[..n]), runs[n].webRoot, runs[n].redis);
    }
  }

  /* ---- writing, one system call at a time ---- */

  /** One atomic replacement: through `temp` to `target`. */
  datatype Write = Write(temp: Path, target: Path, content: string)

  datatype Syscall = MakeDirectories(dir: Path) | Put(path: Path, content: string) | Move(source: Path, target: Path)

  function Perform(d: Disk, c: Syscall): Disk {
    match c
    case MakeDirectories(dir) => WithDirectories(d, dir)
    case Put(path, content) => d[path := File(content)]
    case Move(source, target) => if source in d then (d - {source})[target := d[source]] else d
  }

  /** `write_runtime_file` and `write_owned_files`. */
  function CallsOf(w: Write): seq<Syscall> {
    [MakeDirectories(Parent(w.target)), Put(w.temp, ""), Put(w.temp, w.content), Move(w.temp, w.target)]
  }

  function AllCalls(ws: seq<Write>): seq<Syscall> {
    if ws == [] then [] else CallsOf(ws[0]) + AllCalls(ws[1..])
  }

  function Replay(d: Disk, calls: seq<Syscall>): Disk
    decreases calls
  {
    if calls == [] then d else Replay(Perform(d, calls[0]), calls[1..])
  }

  predicate Touches(c: Syscall, q: Path) {
    match c
    case MakeDirectories(dir) => q <= dir
    case Put(path, _) => q == path
    case Move(source, target) => q == source || q == target
  }

  lemma PerformTouches(d: Disk, c: Syscall, q: Path)
    requires !Touches(c, q)
    ensures SameAt(d, Perform(d, c), q)
  {
    if c.MakeDirectories? { WithDirectoriesTouches(d, c.dir, q); }
  }

  lemma {:induction false} UntouchedStays(d: Disk, calls: seq<Syscall>, q: Path)
    requires forall c :: c in calls ==> !Touches(c, q)
    ensures SameAt(d, Replay(d, calls), q)
    decreases calls
  {
    if calls != [] {
      PerformTouches(d, calls[0], q);
      UntouchedStays(Perform(d, calls[0]), calls[1..], q);
    }
  }

  lemma {:induction false} ReplayConcat(d: Disk, a: seq<Syscall>, b: seq<Syscall>)
    ensures Replay(d, a + b) == Replay(Replay(d, a), b)
    decreases a
  {
    if a == [] {
      assert a + b == b;
    } else {
      assert (a + b)[1..] == a[1..] + b;
      ReplayConcat(Perform(d, a[0]), a[1..], b);
    }
  }

  lemma {:induction false} CallsComeFromWrites(ws: seq<Write>, c: Syscall)
    requires c in AllCalls(ws)
    ensures exists w :: w in ws && c in CallsOf(w)
  {
    if c in CallsOf(ws[0]) {
      assert ws[0] in ws;
    } else {
      CallsComeFromWrites(ws[1..], c);
      var w :| w in ws[1..] && c in CallsOf(w);
      assert w in ws;
    }
  }

  /** Temporary files are the hidden ones. */
  predicate Hidden(p: Path) {
    p != [] && p[|p| - 1] != "" && p[|p| - 1][0] == '.'
  }

  /** The temporary file is a hidden one beside the target, and nothing else here is hidden. */
  ghost predicate Proper(w: Write) {
    && |w.target| == 4 && Hidden(w.temp) && Parent(w.temp) == Parent(w.target) && !Hidden(w.target)
    && (forall q :: q <= Parent(w.target) ==> !Hidden(q))
  }

  lemma ReplayFour(d: Disk, a: Syscall, b: Syscall, c: Syscall, e: Syscall)
    ensures Replay(d, [a, b, c, e]) == Perform(Perform(Perform(Perform(d, a), b), c), e)
  {
    var none: seq<Syscall> := [];
    assert [a, b, c, e][1..] == [b, c, e] && [b, c, e][1..] == [c, e] && [c, e][1..] == [e] && [e][1..] == none;
    var d2 := Perform(Perform(d, a), b);
    assert Replay(Perform(d2, c), [e]) == Replay(Perform(Perform(d2, c), e), none);
    assert Replay(d2, [c, e]) == Replay(Perform(d2, c), [e]);
    assert Replay(Perform(d, a), [b, c, e]) == Replay(d2, [c, e]);
  }

  /** A completed replacement puts the whole content in place and leaves no temporary file. */
  lemma WholeWrite(d: Disk, w: Write)
    requires Proper(w)
    ensures var d' := Replay(d, CallsOf(w)); w.target in d' && d'[w.target] == File(w.content) && w.temp !in d'
  {
    var c := CallsOf(w);
    ReplayFour(d, c[0], c[1], c[2], c[3]);
  }

  /** A replacement touches no visible place of its depth but its own target, and that one last. */
  lemma WriteTouches(w: Write, c: Syscall, q: Path)
    requires Proper(w) && |q| == 4 && !Hidden(q)
    requires c in CallsOf(w) && (q != w.target || !c.Move?)
    ensures !Touches(c, q)
  {}

  lemma WritesTouch(ws: seq<Write>, n: nat, q: Path)
    requires n <= |AllCalls(ws)| && |q| == 4 && !Hidden(q)
    requires forall w :: w in ws ==> Proper(w) && w.target != q
    ensures forall c :: c in AllCalls(ws)[..n] ==> !Touches(c, q)
  {
    forall c | c in AllCalls(ws)[..n] ensures !Touches(c, q) {
      CallsComeFromWrites(ws, c);
      var w :| w in ws && c in CallsOf(w);
      WriteTouches(w, c, q);
    }
  }

  lemma SplitCalls(w: Write, ws: seq<Write>, n: nat)
    requires n <= |AllCalls([w] + ws)|
    ensures AllCalls([w] + ws) == CallsOf(w) + AllCalls(ws)
    ensures n >= 4 ==> n - 4 <= |AllCalls(ws)| && AllCalls([w] + ws)[..n] == CallsOf(w) + AllCalls(ws)[..n - 4]
    ensures n < 4 ==> AllCalls([w] + ws)[..n] == CallsOf(w)[..n]
  {
    assert ([w] + ws)[1..] == ws;
  }

  /** Wherever the writing is cut off, the first file written is the old one or the whole new one,
      and as long as it is the old one no other target has been touched. */
  lemma FirstComesFirst(d: Disk, first: Write, rest: seq<Write>, n: nat, u: Path)
    requires Proper(first) && forall w :: w in rest ==> Proper(w) && w.target != first.target
    requires n <= |AllCalls([first] + rest)| && |u| == 4 && !Hidden(u) && u != first.target
    ensures var d' := Replay(d, AllCalls([first] + rest)[..n]);
            || (SameAt(d, d', first.target) && SameAt(d, d', u))
            || (first.target in d' && d'[first.target] == File(first.content))
  {
    SplitCalls(first, rest, n);
    var calls := CallsOf(first);
    if n < 4 {
      forall c | c in calls[..n] ensures !Touches(c, first.target) && !Touches(c, u) {
        assert c in [calls[0], calls[1], calls[2]];
        WriteTouches(first, c, first.target);
        WriteTouches(first, c, u);
      }
      UntouchedStays(d, calls[..n], first.target);
      UntouchedStays(d, calls[..n], u);
    } else {
      ReplayConcat(d, calls, AllCalls(rest)[..n - 4]);
      WholeWrite(d, first);
      WritesTouch(rest, n - 4, first.target);
      UntouchedStays(Replay(d, calls), AllCalls(rest)[..n - 4], first.target);
    }
  }

  /* ---- a crash, and the reset after it ---- */

  /** The file replacements of one finalize. */
  function Writes(owned: string, redis: bool, temps: seq<Path>, texts: seq<string>): seq<Write>
    requires |temps| == |texts| + 1 == |Units(redis)| + 1
  {
    [Write(temps[0], OWNED_FILES, owned)] +
    seq(|texts|, i requires 0 <= i < |texts| => Write(temps[i + 1], Units(redis)[i], texts[i]))
  }

  ghost predicate AllProper(ws: seq<Write>) {
    && (forall i :: 0 <= i < |ws| ==> Proper(ws[i]))
    && (forall i, j :: 0 <= i < j < |ws| ==> ws[i].temp != ws[j].temp)
  }

  lemma UnitsAreVisible(redis: bool, u: Path)
    requires u in Units(redis)
    ensures |u| == 4 && !Hidden(u) && u != OWNED_FILES && u[..3] == UNIT_DIR
  {}

  /** At every crash point each unit is as it was, or the ownership list on the disk is the new one. */
  lemma CrashKeepsOwnership(d: Disk, owned: string, redis: bool, temps: seq<Path>, texts: seq<string>, n: nat, u: Path)
    requires |temps| == |texts| + 1 == |Units(redis)| + 1 && AllProper(Writes(owned, redis, temps, texts))
    requires n <= |AllCalls(Writes(owned, redis, temps, texts))| && u in Units(redis)
    ensures var d' := Replay(d, AllCalls(Writes(owned, redis, temps, texts))[..n]);
            || (SameAt(d, d', OWNED_FILES) && SameAt(d, d', u))
            || (OWNED_FILES in d' && d'[OWNED_FILES] == File(owned))
  {
    var ws := Writes(owned, redis, temps, texts);
    assert ws == [ws[0]] + ws[1..];
    forall w | w in ws[1..] ensures Proper(w) && w.target != OWNED_FILES {
      var i :| 0 < i < |ws| && ws[i] == w;
      UnitsAreVisible(redis, ws[i].target);
    }
    UnitsAreVisible(redis, u);
    FirstComesFirst(d, ws[0], ws[1..], n, u);
  }

  /** A reset that succeeds on what a crashed finalize left removes every unit file that finalize
      had put there or changed. */
  lemma CrashThenResetLeavesNoUnit(d: Disk, files: seq<string>, encoded: string, webRoot: string, redis: bool,
                                   temps: seq<Path>, texts: seq<string>, n: nat, u: Path,
                                   before: Disk, k: Readers, each: nat -> Fault, removal: Removal)
    requires |temps| == |texts| + 1 == |Units(redis)| + 1 && AllProper(Writes(encoded, redis, temps, texts))
    requires n <= |AllCalls(Writes(encoded, redis, temps, texts))| && u in Units(redis)
    requires k.owned(encoded) == Some(Register(files, webRoot, redis))
    requires var crashed := Replay(d, AllCalls(Writes(encoded, redis, temps, texts))[..n]);
             !SameAt(d, crashed, u) && Planned(crashed, before, k, false, each, removal)
    requires removal.outcome == Ok && WellFormed(before)
    ensures u !in removal.disk
  {
    var crashed := Replay(d, AllCalls(Writes(encoded, redis, temps, texts))[..n]);
    CrashKeepsOwnership(d, encoded, redis, temps, texts, n, u);
    RegistrationGrows(files, webRoot, redis);
    OwnedIsOnList(crashed, MetadataOf(crashed, k).value, k, encoded, PathOf(u));
    UnitPlaces(redis, u);
    var list := PlannedFiles(crashed, k);
    ResetRemovesTheNamed(before, list, GuardOf(crashed, list), each, removal, PathOf(u), u);
  }

  lemma OwnedIsOnList(d: Disk, meta: Metadata, k: Readers, encoded: string, f: string)
    requires OWNED_FILES in d && d[OWNED_FILES] == File(encoded) && FileList(d, meta, k).Some?
    requires k.owned(encoded).Some? && f in k.owned(encoded).value
    ensures f in FileList(d, meta, k).value
  {
    forall files, more { AddedMeans(files, more, f); }
  }

  lemma UnitsArePlain(redis: bool, u: Path)
    requires u in Units(redis)
    ensures AllPlain(u) && u != []
  {
    PlainDirectories();
    PlainUnitNames();
    PlainOtherUnitNames();
  }

  lemma UnitPlaces(redis: bool, u: Path)
    requires u in Units(redis)
    ensures Segments(PathOf(u)) == u && !OpenEnd(PathOf(u))
  {
    UnitsArePlain(redis, u);
    CanonicalPathOf(u);
    CanonicalEnd(PathOf(u));
  }

  /** A finalize writing its files until `limit` system calls have been made, when the machine stops. */
  class UnitWriter {
    var disk: Disk
    var made: nat
    const limit: nat
    ghost const first: Disk
    ghost var issued: seq<Syscall>

    constructor (disk: Disk, limit: nat)
      ensures Valid() && issued == [] && first == this.disk == disk && this.limit == limit
    {
      this.disk, made, this.limit, first, issued := disk, 0, limit, disk, [];
    }

    ghost predicate Valid()
      reads this
    {
      made == Min(limit, |issued|) && disk == Replay(first, issued[..made])
    }

    method Call(c: Syscall)
      requires Valid()
      modifies this
      ensures Valid() && issued == old(issued) + [c]
    {
      if made < limit {
        assert issued[..made] == issued && (issued + [c])[..made + 1] == issued + [c];
        ReplayConcat(first, issued, [c]);
        ReplayOne(disk, c);
        disk := Perform(disk, c);
        made := made + 1;
      } else {
        assert (issued + [c])[..made] == issued[..made];
      }
      issued := issued + [c];
    }

    method Replace(w: Write)
      requires Valid()
      modifies this
      ensures Valid() && issued == old(issued) + CallsOf(w)
    {
      Call(MakeDirectories(Parent(w.target)));
      Call(Put(w.temp, ""));
      Call(Put(w.temp, w.content));
      Call(Move(w.temp, w.target));
    }

    /** The ownership list first, then one unit after the other. */
    method RegisterAndWrite(owned: string, redis: bool, temps: seq<Path>, texts: seq<string>)
      requires |temps| == |texts| + 1 == |Units(redis)| + 1
      requires Valid() && issued == []
      modifies this
      ensures var calls := AllCalls(Writes(owned, redis, temps, texts));
              disk == Replay(old(disk), calls[..Min(limit, |calls|)])
    {
      ghost var ws := Writes(owned, redis, temps, texts);
      assert issued[..0] == issued;
      Replace(Write(temps[0], OWNED_FILES, owned));
      AllCallsNext(ws, 0);
      for i := 0 to |texts|
        invariant Valid() && issued == AllCalls(ws[..i + 1])
      {
        Replace(Write(temps[i + 1], Units(redis)[i], texts[i]));
        AllCallsNext(ws, i + 1);
      }
      assert ws[..|texts| + 1] == ws;
    }
  }

  lemma ReplayOne(d: Disk, c: Syscall)
    ensures Replay(d, [c]) == Perform(d, c)
  {
    var none: seq<Syscall> := [];
    assert [c][1..] == none && Replay(Perform(d, c), none) == Perform(d, c);
  }

  lemma {:induction false} AllCallsNext(ws: seq<Write>, n: nat)
    requires n < |ws|
    ensures AllCalls(ws[..n + 1]) == AllCalls(ws[..n]) + CallsOf(ws[n])
    decreases n
  {
    if n == 0 {
      var none: seq<Write> := [];
      assert ws[..1][1..] == none && ws[..0] == none;
      assert AllCalls(none) == [];
    } else {
      assert ws[..n + 1][1..] == ws[1..][..n] && ws[..n][1..] == ws[1..][..n - 1];
      AllCallsNext(ws[1..], n - 1);
    }
  }

  /* ---- what a crash leaves, and a reset after it ---- */

  /** The first replacement done, none of the temporary files is there. */
  lemma AfterFirstWrite(d: Disk, ws: seq<Write>, n: nat)
    requires AllProper(ws) && ws != [] && 4 <= n <= |AllCalls(ws)| && forall j :: 0 <= j < |ws| ==> ws[j].temp !in d
    ensures var d1 := Replay(d, CallsOf(ws[0]));
            && n - 4 <= |AllCalls(ws[1..])| && Replay(d, AllCalls(ws)[..n]) == Replay(d1, AllCalls(ws[1..])[..n - 4])
            && forall j :: 0 <= j < |ws| ==> ws[j].temp !in d1
  {
    var first, rest := ws[0], ws[1..];
    assert ws == [first] + rest;
    SplitCalls(first, rest, n);
    ReplayConcat(d, CallsOf(first), AllCalls(rest)[..n - 4]);
    WholeWrite(d, first);
    assert CallsOf(first)[..4] == CallsOf(first);
    forall j | 0 < j < |ws| ensures ws[j].temp !in Replay(d, CallsOf(first)) {
      OtherTempsUntouched(d, first, 4, ws[j]);
    }
  }

  lemma DuringFirstWrite(d: Disk, ws: seq<Write>, n: nat, i: nat)
    requires AllProper(ws) && n < 4 && n <= |AllCalls(ws)| && i < |ws| && forall j :: 0 <= j < |ws| ==> ws[j].temp !in d
    ensures ws[i].temp in Replay(d, AllCalls(ws)[..n]) <==> i == 0 && (n == 2 || n == 3)
  {
    assert ws == [ws[0]] + ws[1..];
    SplitCalls(ws[0], ws[1..], n);
    if i == 0 { FirstLeftover(d, ws[0], n); } else { OtherTempsUntouched(d, ws[0], n, ws[i]); }
  }

  /** A temporary file is left exactly if the crash comes between its creation and its rename. */
  lemma {:induction false} LeftoverIff(d: Disk, ws: seq<Write>, n: nat, i: nat)
    requires AllProper(ws) && n <= |AllCalls(ws)| && i < |ws| && forall j :: 0 <= j < |ws| ==> ws[j].temp !in d
    ensures ws[i].temp in Replay(d, AllCalls(ws)[..n]) <==> n == 4 * i + 2 || n == 4 * i + 3
    decreases |ws|
  {
    if n < 4 {
      DuringFirstWrite(d, ws, n, i);
    } else {
      AfterFirstWrite(d, ws, n);
      if i == 0 {
        FirstTempStaysAway(Replay(d, CallsOf(ws[0])), ws[1..], n - 4, ws[0]);
      } else {
        LeftoverIff(Replay(d, CallsOf(ws[0])), ws[1..], n - 4, i - 1);
      }
    }
  }

  lemma FirstLeftover(d: Disk, w: Write, n: nat)
    requires Proper(w) && w.temp !in d && n < 4
    ensures w.temp in Replay(d, CallsOf(w)[..n]) <==> n == 2 || n == 3
  {
    var c := CallsOf(w);
    if n < 2 {
      forall call | call in c[..n] ensures !Touches(call, w.temp) { assert call == c[0]; }
      UntouchedStays(d, c[..n], w.temp);
    } else {
      assert c[..n] == c[..n - 1] + [c[n - 1]];
      ReplayConcat(d, c[..n - 1], [c[n - 1]]);
      ReplayOne(Replay(d, c[..n - 1]), c[n - 1]);
    }
  }

  /** At every crash point at most one temporary file is left. */
  lemma AtMostOneLeftover(d: Disk, ws: seq<Write>, n: nat, i: nat, j: nat)
    requires AllProper(ws) && n <= |AllCalls(ws)| && forall k :: 0 <= k < |ws| ==> ws[k].temp !in d
    requires i < j < |ws|
    ensures var d' := Replay(d, AllCalls(ws)[..n]); !(ws[i].temp in d' && ws[j].temp in d')
  {
    LeftoverIff(d, ws, n, i);
    LeftoverIff(d, ws, n, j);
  }

  lemma TempUntouched(w: Write, c: Syscall, other: Write)
    requires Proper(w) && Proper(other) && w.temp != other.temp && c in CallsOf(w)
    ensures !Touches(c, other.temp)
  {}

  lemma OtherTempsUntouched(d: Disk, w: Write, n: nat, other: Write)
    requires n <= 4 && Proper(w) && Proper(other) && w.temp != other.temp && other.temp !in d
    ensures other.temp !in Replay(d, CallsOf(w)[..n])
  {
    forall c | c in CallsOf(w)[..n] ensures !Touches(c, other.temp) { TempUntouched(w, c, other); }
    UntouchedStays(d, CallsOf(w)[..n], other.temp);
  }

  lemma FirstTempStaysAway(d: Disk, ws: seq<Write>, n: nat, first: Write)
    requires n <= |AllCalls(ws)| && Proper(first) && first.temp !in d
    requires forall i :: 0 <= i < |ws| ==> Proper(ws[i]) && ws[i].temp != first.temp
    ensures first.temp !in Replay(d, AllCalls(ws)[..n])
  {
    forall c | c in AllCalls(ws)[..n] ensures !Touches(c, first.temp) {
      CallsComeFromWrites(ws, c);
      var w :| w in ws && c in CallsOf(w);
      TempUntouched(w, c, first);
    }
    UntouchedStays(d, AllCalls(ws)[..n], first.temp);
  }

  lemma RootsInUnitDir(r: Path)
    requires r in ALLOWED_ROOTS || r in RUNTIME_FILES
    ensures r != []
    ensures r[0] != "etc" || (|r| > 1 && r[1] != "systemd") || (|r| == 4 && r[3] != "" && r[3][0] != '.')
  {}

  lemma HiddenIsNotManaged(p: Path, name: string)
    requires p <= UNIT_DIR + [name] && name != "" && name[0] == '.'
    ensures !Managed(p)
  {
    var temp := UNIT_DIR + [name];
    assert temp[0] == "etc" && temp[1] == "systemd" && temp[3] == name;
    forall r | r in ALLOWED_ROOTS || r in RUNTIME_FILES ensures !(r <= p) {
      RootsInUnitDir(r);
    }
    assert p != [] ==> p[0] == "etc";
    assert |p| > 1 ==> p[1] == "systemd";
  }

  lemma HiddenIsOutOfReach(name: string)
    requires name != "" && name[0] == '.'
    ensures OutOfReach(UNIT_DIR + [name])
  {
    forall p | Managed(p) ensures !(p <= UNIT_DIR + [name]) {
      if p <= UNIT_DIR + [name] { HiddenIsNotManaged(p, name); }
    }
  }

  /** A temporary file left beside the units survives every reset, however it ends, on whose list no path
      runs through a link. */
  lemma LeftoverSurvivesReset(before: Disk, files: seq<string>, swapAllowed: bool, dry: bool, each: nat -> Fault,
                              removal: Removal, name: string)
    requires RemovalOf(before, files, ResetGuard(swapAllowed), dry, each, removal) && name != "" && name[0] == '.'
    requires NoneAstray(before, files)
    ensures SameAt(before, removal.disk, UNIT_DIR + [name])
  {
    HiddenIsOutOfReach(name);
    RemovalOutOfReach(before, files, ResetGuard(swapAllowed), dry, each, removal);
  }

  /** After a reset that got through such a list, a leftover is there exactly if it was and no listed path
      names it or a directory above it. */
  lemma LeftoverAfterReset(before: Disk, files: seq<string>, allowed: Guard, each: nat -> Fault, removal: Removal,
                           temp: Path)
    requires RemovalOf(before, files, allowed, false, each, removal) && removal.outcome == Ok && WellFormed(before)
    requires NoneAstray(before, files)
    ensures temp in removal.disk <==> temp in before && forall f :: f in files ==> !(Segments(f) <= temp)
  {
    ResetRemovesExactlyTheList(before, files, allowed, each, removal);
    ListedMeans(files, temp);
  }

  const LIB_DIR: Path := ["var", "lib", "g7-installer"]

  /** The ownership list's own leftover goes with the installer's directory, which every installation owns. */
  lemma OwnedLeftoverIsRemoved(before: Disk, files: seq<string>, allowed: Guard, each: nat -> Fault, removal: Removal,
                               f: string, pid: nat, n: nat)
    requires RemovalOf(before, files, allowed, false, each, removal) && removal.outcome == Ok && WellFormed(before)
    requires f in files && Segments(f) == LIB_DIR
    ensures TempBeside(OWNED_FILES, pid, n) !in removal.disk
  {
    assert OWNED_FILES[..3] == LIB_DIR && |OWNED_FILES| == 4;
    ResetRemovesTheNamed(before, files, allowed, each, removal, f, TempBeside(OWNED_FILES, pid, n));
  }

  /** The temporary file of the atomic replacement, beside its target. */
  function TempBeside(target: Path, pid: nat, n: nat): Path
    requires target != []
  {
    Parent(target) + [AtomicWrite.TempLeaf(target[|target| - 1], pid, n)]
  }

  lemma TempsAreProper(redis: bool, target: Path, pid: nat, n: nat, content: string)
    requires target in Units(redis) || target == OWNED_FILES
    ensures Proper(Write(TempBeside(target, pid, n), target, content))
  {
    var parent := Parent(target);
    forall q | q <= parent ensures !Hidden(q) {
      assert q != [] ==> q[|q| - 1] == parent[|q| - 1];
    }
  }

  lemma TempsDiffer(a: Path, b: Path, pid: nat, m: nat, n: nat)
    requires a != [] && b != [] && m != n
    ensures TempBeside(a, pid, m) != TempBeside(b, pid, n)
  {
    AtomicWrite.TempLeavesDiffer(a[|a| - 1], b[|b| - 1], pid, m, n);
    var s, t := TempBeside(a, pid, m), TempBeside(b, pid, n);
    assert s[|s| - 1] != t[|t| - 1];
  }

  /** The temporary files of one finalize, in a process whose counter stands at `counter`. */
  function Temps(redis: bool, pid: nat, counter: nat): (temps: seq<Path>)
    ensures |temps| == |Units(redis)| + 1
  {
    [TempBeside(OWNED_FILES, pid, counter)] +
    seq(|Units(redis)|, i requires 0 <= i < |Units(redis)| => TempBeside(Units(redis)[i], pid, counter + 1 + i))
  }

  /** The files of one finalize, in the order they are replaced. */
  function Targets(redis: bool): (targets: seq<Path>)
    ensures |targets| == |Units(redis)| + 1
  {
    [OWNED_FILES] + Units(redis)
  }

  lemma TargetsAreNamed(redis: bool, i: nat)
    requires i < |Targets(redis)|
    ensures var target := Targets(redis)[i]; target != [] && (target in Units(redis) || target == OWNED_FILES)
  {}

  lemma WriteAt(owned: string, redis: bool, pid: nat, counter: nat, texts: seq<string>, i: nat)
    requires |texts| == |Units(redis)| && i < |Targets(redis)| && Targets(redis)[i] != []
    ensures var w := Writes(owned, redis, Temps(redis, pid, counter), texts)[i];
            w.target == Targets(redis)[i] && w.temp == TempBeside(Targets(redis)[i], pid, counter + i)
  {}

  lemma CountedTempsAreProper(ws: seq<Write>, pid: nat, counter: nat)
    requires forall i :: 0 <= i < |ws| ==> Proper(ws[i]) && Numbered(ws[i], pid, counter + i)
    ensures AllProper(ws)
  {
    forall i, j | 0 <= i < j < |ws| ensures ws[i].temp != ws[j].temp {
      NumberedDiffer(ws[i], ws[j], pid, counter + i, counter + j);
    }
  }

  /** The replacement goes through the temporary file of that counter value. */
  ghost predicate Numbered(w: Write, pid: nat, n: nat) {
    w.target != [] && w.temp == TempBeside(w.target, pid, n)
  }

  lemma NumberedDiffer(a: Write, b: Write, pid: nat, m: nat, n: nat)
    requires Numbered(a, pid, m) && Numbered(b, pid, n) && m != n
    ensures a.temp != b.temp
  {
    TempsDiffer(a.target, b.target, pid, m, n);
  }

  /** Every file replacement of a finalize goes through a hidden file of its own beside its target. */
  lemma FinalizeWritesAreProper(owned: string, redis: bool, pid: nat, counter: nat, texts: seq<string>)
    requires |texts| == |Units(redis)|
    ensures AllProper(Writes(owned, redis, Temps(redis, pid, counter), texts))
  {
    var ws := Writes(owned, redis, Temps(redis, pid, counter), texts);
    assert |ws| == |Targets(redis)|;
    forall i | 0 <= i < |ws|
      ensures Proper(ws[i]) && Numbered(ws[i], pid, counter + i)
    {
      TargetsAreNamed(redis, i);
      WriteAt(owned, redis, pid, counter, texts, i);
      TempsAreProper(redis, Targets(redis)[i], pid, counter + i, ws[i].content);
    }
    CountedTempsAreProper(ws, pid, counter);
  }
}
