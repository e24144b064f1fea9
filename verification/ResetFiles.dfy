/** Removing the listed paths: what a reset does to the tree. */
module ResetFiles {
  import opened DiskTree
  import opened Options
  import opened Paths
  import opened ResetAllowlist

  /* ---- the loop ---- */

  /** What the operating system may do to one entry: refuse to look at it, or fail while removing
      it, leaving some of its subtree behind. */
  datatype Fault = Smooth | StatFails | RemoveFails(left: set<Path>)

  datatype Outcome = Ok | Unsafe(path: string) | Unreadable(path: string) | Unremovable(path: string)

  datatype Removal = Removal(disk: Disk, removed: seq<string>, missing: seq<string>, outcome: Outcome)

  const SWAP_FILE: Path := ["swapfile"]
  const SWAP_UNIT: Path := ["etc", "systemd", "system", "swapfile.swap"]

  /** The two checks before a path is touched. */
  type Guard = string -> bool

  function ResetGuard(swapAllowed: bool): Guard {
    (path: string) => Admits(path) && (path == PathOf(SWAP_FILE) ==> swapAllowed)
  }

  function LookFor(d: Disk, path: string, fault: Fault): (look: Look)
    ensures look.At? ==> look.place in d
  {
    if fault == StatFails then Trouble else LookAt(d, path)
  }

  /** What is left at the place when its removal fails. */
  function LeftBy(sticks: bool, p: Path, fault: Fault): set<Path> {
    (if fault.RemoveFails? then fault.left else {}) + (if sticks then {p} else {})
  }

  /** The loop of `remove_reset_files` over an already sorted list. */
  function RemoveEach(d: Disk, files: seq<string>, allowed: Guard, dry: bool, faults: seq<Fault>): Removal
    requires |faults| == |files|
  {
    if files == [] then Removal(d, [], [], Ok)
    else if !allowed(files[0]) then Removal(d, [], [], Unsafe(files[0]))
    else
      match LookFor(d, files[0], faults[0])
      case Trouble => Removal(d, [], [], Unreadable(files[0]))
      case Nothing =>
        var rest := RemoveEach(d, files[1..], allowed, dry, faults[1..]);
        rest.(missing := [files[0]] + rest.missing)
      case At(p) =>
        if dry then
          var rest := RemoveEach(d, files[1..], allowed, dry, faults[1..]);
          rest.(removed := [files[0]] + rest.removed)
        else if faults[0].RemoveFails? || Sticks(d, files[0]) then
          Removal(RemovePartly(d, p, LeftBy(Sticks(d, files[0]), p, faults[0])), [], [], Unremovable(files[0]))
        else
          var rest := RemoveEach(RemoveNode(d, p), files[1..], allowed, dry, faults[1..]);
          rest.(removed := [files[0]] + rest.removed)
  }

  ghost predicate NoFaults(faults: seq<Fault>) {
    forall i :: 0 <= i < |faults| ==> faults[i] == Smooth
  }

  ghost predicate AllAllowed(files: seq<string>, allowed: Guard) {
    forall i :: 0 <= i < |files| ==> allowed(files[i])
  }

  /* ---- confinement ---- */

  /** The path leads on or above `q`, and its removal takes `q` away. */
  predicate Takes(d: Disk, path: string, q: Path) {
    var look := LookAt(d, path);
    look.At? && look.place <= q && !(Sticks(d, path) && q == look.place)
  }

  /** Nothing but a fault can stop the entry. */
  predicate Clear(d: Disk, path: string, dry: bool) {
    !LookAt(d, path).Trouble? && (dry || !Sticks(d, path))
  }

  /** The tree after an entry that went through. */
  function After(d: Disk, path: string, dry: bool): Disk {
    var look := LookAt(d, path);
    if look.At? && !dry then RemoveNode(d, look.place) else d
  }

  /** A real run over the list comes to an entry that takes `q` away. */
  predicate Lost(d: Disk, files: seq<string>, allowed: Guard, q: Path) {
    && files != [] && allowed(files[0])
    && (|| Takes(d, files[0], q)
        || (Clear(d, files[0], false) && Lost(After(d, files[0], false), files[1..], allowed, q)))
  }

  lemma {:induction false} DryRunChangesNothing(d: Disk, files: seq<string>, allowed: Guard, faults: seq<Fault>)
    requires |faults| == |files|
    ensures RemoveEach(d, files, allowed, true, faults).disk == d
  {
    if files != [] {
      DryRunChangesNothing(d, files[1..], allowed, faults[1..]);
    }
  }

  lemma StepChanges(d: Disk, path: string, fault: Fault, q: Path)
    requires !Takes(d, path, q) && LookAt(d, path).At?
    ensures !Sticks(d, path) ==> SameAt(d, After(d, path, false), q)
    ensures fault.RemoveFails? || Sticks(d, path) ==>
              var p := LookAt(d, path).place; SameAt(d, RemovePartly(d, p, LeftBy(Sticks(d, path), p, fault)), q)
  {}

  /** Whatever fails, only places that an entry takes away can change, and nothing ever appears. */
  lemma {:induction false} OnlyLostPlacesChange(d: Disk, files: seq<string>, allowed: Guard, dry: bool,
                                                faults: seq<Fault>, q: Path)
    requires |faults| == |files| && !Lost(d, files, allowed, q)
    ensures SameAt(d, RemoveEach(d, files, allowed, dry, faults).disk, q)
  {
    if dry {
      DryRunChangesNothing(d, files, allowed, faults);
    } else if files != [] && allowed(files[0]) {
      var look := LookFor(d, files[0], faults[0]);
      if look.At? { StepChanges(d, files[0], faults[0], q); }
      if look.Nothing? || (look.At? && !faults[0].RemoveFails? && !Sticks(d, files[0])) {
        OnlyLostPlacesChange(After(d, files[0], false), files[1..], allowed, dry, faults[1..], q);
      }
    }
  }

  lemma {:induction false} NothingAppears(d: Disk, files: seq<string>, allowed: Guard, faults: seq<Fault>, q: Path)
    requires |faults| == |files|
    ensures var d' := RemoveEach(d, files, allowed, false, faults).disk; q in d' ==> q in d && d'[q] == d[q]
  {
    if files != [] {
      NothingAppears(After(d, files[0], false), files[1..], allowed, faults[1..], q);
    }
  }

  lemma TakenIsGone(d: Disk, path: string, q: Path)
    requires WellFormed(d) && Takes(d, path, q)
    ensures q !in After(d, path, false)
    ensures Sticks(d, path) ==>
              var p := LookAt(d, path).place; q !in RemovePartly(d, p, LeftBy(true, p, Smooth))
  {
    RemoveNodeIsWithout(d, LookAt(d, path).place);
  }

  /** A run without faults, or one that gets through all the same, does take it away. */
  lemma {:induction false} LostIsLost(d: Disk, files: seq<string>, allowed: Guard, faults: seq<Fault>, q: Path)
    requires WellFormed(d) && |faults| == |files| && Lost(d, files, allowed, q)
    requires NoFaults(faults) || RemoveEach(d, files, allowed, false, faults).outcome == Ok
    ensures q !in RemoveEach(d, files, allowed, false, faults).disk
  {
    var d' := After(d, files[0], false);
    assert NoFaults(faults) ==> faults[0] == Smooth;
    if Takes(d, files[0], q) { TakenIsGone(d, files[0], q); }
    if Clear(d, files[0], false) {
      if Takes(d, files[0], q) {
        NothingAppears(d', files[1..], allowed, faults[1..], q);
      } else {
        AfterStaysWellFormed(d, files[0], false);
        LostIsLost(d', files[1..], allowed, faults[1..], q);
      }
    }
  }

  ghost predicate AlwaysKept(d: Disk, files: seq<string>, allowed: Guard, q: Path) {
    forall faults: seq<Fault> | |faults| == |files| :: SameAt(d, RemoveEach(d, files, allowed, false, faults).disk, q)
  }

  /** Every real run over the list, however it fails, keeps an existing place exactly if no entry
      takes it away. */
  lemma SurvivesIff(d: Disk, files: seq<string>, allowed: Guard, q: Path)
    requires WellFormed(d) && q in d
    ensures AlwaysKept(d, files, allowed, q) <==> !Lost(d, files, allowed, q)
  {
    if Lost(d, files, allowed, q) {
      var faults := seq(|files|, _ => Smooth);
      LostIsLost(d, files, allowed, faults, q);
      assert !SameAt(d, RemoveEach(d, files, allowed, false, faults).disk, q);
    } else {
      forall faults: seq<Fault> | |faults| == |files|
        ensures SameAt(d, RemoveEach(d, files, allowed, false, faults).disk, q)
      {
        OnlyLostPlacesChange(d, files, allowed, false, faults, q);
      }
    }
  }

  /* ---- paths that run through no link ---- */

  lemma {:induction false} NotLost(d: Disk, files: seq<string>, allowed: Guard, q: Path)
    requires forall f :: f in files && allowed(f) ==> !Astray(d, f) && !(Segments(f) <= q)
    ensures !Lost(d, files, allowed, q)
  {
    if files != [] && allowed(files[0]) {
      assert files[0] in files;
      StraightLook(d, files[0]);
      var d' := After(d, files[0], false);
      forall f | f in files[1..] && allowed(f) ensures !Astray(d', f) && !(Segments(f) <= q) {
        assert f in files;
        StaysStraight(d, d', f);
      }
      NotLost(d', files[1..], allowed, q);
    }
  }

  /** A file stays if no admitted path names a place above it, or itself other than open-ended. */
  lemma {:induction false} FileStays(d: Disk, files: seq<string>, allowed: Guard, q: Path)
    requires q in d ==> d[q].File?
    requires forall f :: f in files && allowed(f) ==>
                           !Astray(d, f) && (Segments(f) <= q ==> Segments(f) == q && OpenEnd(f))
    ensures !Lost(d, files, allowed, q)
  {
    if files != [] && allowed(files[0]) {
      assert files[0] in files;
      StraightLook(d, files[0]);
      var d' := After(d, files[0], false);
      forall f | f in files[1..] && allowed(f)
        ensures !Astray(d', f) && (Segments(f) <= q ==> Segments(f) == q && OpenEnd(f))
      {
        assert f in files;
        StaysStraight(d, d', f);
      }
      FileStays(d', files[1..], allowed, q);
    }
  }

  /** Whatever is listed and whatever fails, if the admitted paths run through no link, only places
      on or below one of them can change. */
  lemma OnlyListedPlacesChange(d: Disk, files: seq<string>, allowed: Guard, dry: bool, faults: seq<Fault>, q: Path)
    requires |faults| == |files|
    requires forall f :: f in files && allowed(f) ==> !Astray(d, f) && !(Segments(f) <= q)
    ensures SameAt(d, RemoveEach(d, files, allowed, dry, faults).disk, q)
  {
    NotLost(d, files, allowed, q);
    OnlyLostPlacesChange(d, files, allowed, dry, faults, q);
  }

  /** If the admitted paths run through no link, certificates survive every reset, whatever the
      ownership list contains and even if it stops midway: the directory, everything below it and
      everything above it stay as they were. */
  lemma CertificatesSurvive(d: Disk, files: seq<string>, allowed: Guard, dry: bool, faults: seq<Fault>, q: Path)
    requires |faults| == |files|
    requires forall f :: allowed(f) ==> Admits(f)
    requires forall f :: f in files && allowed(f) ==> !Astray(d, f)
    requires CERTIFICATES <= q || q <= CERTIFICATES
    ensures SameAt(d, RemoveEach(d, files, allowed, dry, faults).disk, q)
  {
    forall f | f in files && allowed(f) ensures !(Segments(f) <= q) {
      AdmittedIsManaged(f);
      ManagedIsApartFromCertificates(Segments(f));
      ApartReachesAlong(Segments(f), CERTIFICATES, q);
    }
    OnlyListedPlacesChange(d, files, allowed, dry, faults, q);
  }

  /* ---- exact effect ---- */

  lemma AfterStaysWellFormed(d: Disk, path: string, dry: bool)
    requires WellFormed(d)
    ensures WellFormed(After(d, path, dry)) && Smaller(After(d, path, dry), d)
  {
    var look := LookAt(d, path);
    if look.At? && !dry {
      RemoveNodeIsWithout(d, look.place);
      WithoutStaysWellFormed(d, look.place);
    }
  }

  /** An entry that runs through no link clears the place it names, there or not. */
  lemma AfterStraight(d: Disk, path: string)
    requires WellFormed(d) && !Astray(d, path) && !LookAt(d, path).Trouble?
    ensures After(d, path, false) == Without(d, Segments(path))
  {
    StraightLook(d, path);
    if Segments(path) in d { RemoveNodeIsWithout(d, Segments(path)); } else { WithoutAbsent(d, Segments(path)); }
  }

  /** Nothing stops any entry when it has its turn. */
  predicate AllClear(d: Disk, files: seq<string>, dry: bool) {
    files == [] || (Clear(d, files[0], dry) && AllClear(After(d, files[0], dry), files[1..], dry))
  }

  /** Without faults the run succeeds, dry or real, iff every listed path is allowed and clear at
      its turn. */
  lemma {:induction false} SucceedsIff(d: Disk, files: seq<string>, allowed: Guard, dry: bool, faults: seq<Fault>)
    requires |faults| == |files| && NoFaults(faults)
    ensures RemoveEach(d, files, allowed, dry, faults).outcome == Ok <==>
            AllAllowed(files, allowed) && AllClear(d, files, dry)
  {
    if files != [] {
      assert faults[0] == Smooth;
      SplitFirst(files, allowed);
      SucceedsIff(After(d, files[0], dry), files[1..], allowed, dry, faults[1..]);
    }
  }

  lemma SplitFirst(files: seq<string>, allowed: Guard)
    requires files != []
    ensures AllAllowed(files, allowed) <==> allowed(files[0]) && AllAllowed(files[1..], allowed)
  {
    assert forall i :: 1 <= i < |files| ==> files[i] == files[1..][i - 1];
  }

  /** Whatever else happens, a run that gets through its list had only allowed paths on it. */
  lemma {:induction false} OkMeansAllowed(d: Disk, files: seq<string>, allowed: Guard, dry: bool, faults: seq<Fault>,
                                          f: string)
    requires |faults| == |files| && f in files
    requires RemoveEach(d, files, allowed, dry, faults).outcome == Ok
    ensures allowed(f)
  {
    if f != files[0] {
      assert f in files[1..];
      OkMeansAllowed(After(d, files[0], dry), files[1..], allowed, dry, faults[1..], f);
    }
  }

  /* ---- the same, read off the first tree ---- */

  /** The first `n` names of the path lead to a node that stops it. */
  predicate Blocks(d: Disk, path: string, dry: bool, n: nat)
    requires n <= |Segments(path)|
  {
    var q := Segments(path)[..n];
    q in d &&
    if n < |Segments(path)| then d[q].File?
    else (OpenEnd(path) && d[q].File?) || (!dry && DotEnd(path) && d[q] == Directory)
  }

  lemma ClearMeans(d: Disk, path: string, dry: bool)
    requires !Astray(d, path) && WellFormed(d)
    ensures Clear(d, path, dry) <==> forall n :: 0 <= n <= |Segments(path)| ==> !Blocks(d, path, dry, n)
  {
    StraightLook(d, path);
    var p := Segments(path);
    assert p[..|p|] == p;
    if ThroughFile(d, p) {
      var n :| 0 <= n < |p| && p[..n] in d && d[p[..n]].File?;
      assert Blocks(d, path, dry, n);
    } else {
      assert forall n :: 0 <= n < |p| ==> !Blocks(d, path, dry, n);
      assert Clear(d, path, dry) <==> !Blocks(d, path, dry, |p|);
    }
  }

  /** When entry `i` has its turn nothing stops it: nothing did, or it has been removed. */
  ghost predicate WayIsClear(d: Disk, files: seq<string>, dry: bool, i: nat)
    requires i < |files|
  {
    var p := Segments(files[i]);
    forall n :: 0 <= n <= |p| && Blocks(d, files[i], dry, n) ==>
                  !dry && exists h :: 0 <= h < i && Segments(files[h]) <= p[..n]
  }

  lemma ClearOfRest(d: Disk, files: seq<string>, i: nat)
    requires 0 < i < |files|
    ensures WayIsClear(d, files, true, i) <==> WayIsClear(d, files[1..], true, i - 1)
    ensures WayIsClear(d, files, false, i) <==> WayIsClear(Without(d, Segments(files[0])), files[1..], false, i - 1)
  {
    var rest := files[1..];
    assert rest[i - 1] == files[i];
    var p := Segments(files[i]);
    forall n | 0 <= n <= |p|
      ensures (exists h :: 0 <= h < i && Segments(files[h]) <= p[..n]) <==>
              Segments(files[0]) <= p[..n] || exists h :: 0 <= h < i - 1 && Segments(rest[h]) <= p[..n]
    {
      if h :| 0 <= h < i && Segments(files[h]) <= p[..n] {
        if h > 0 { assert rest[h - 1] == files[h]; }
      }
      if h :| 0 <= h < i - 1 && Segments(rest[h]) <= p[..n] { assert files[h + 1] == rest[h]; }
    }
    forall n | 0 <= n <= |p|
      ensures Blocks(Without(d, Segments(files[0])), files[i], false, n) <==>
              Blocks(d, files[i], false, n) && !(Segments(files[0]) <= p[..n])
    {}
  }

  ghost predicate EveryWayIsClear(d: Disk, files: seq<string>, dry: bool) {
    forall i :: 0 <= i < |files| ==> WayIsClear(d, files, dry, i)
  }

  lemma EveryWayOfRest(d: Disk, d': Disk, files: seq<string>, dry: bool)
    requires files != [] && d' == if dry then d else Without(d, Segments(files[0]))
    ensures EveryWayIsClear(d, files, dry) <==> WayIsClear(d, files, dry, 0) && EveryWayIsClear(d', files[1..], dry)
  {
    var rest := files[1..];
    forall i | 0 < i < |files| ensures WayIsClear(d, files, dry, i) <==> WayIsClear(d', rest, dry, i - 1) {
      ClearOfRest(d, files, i);
    }
    if EveryWayIsClear(d', rest, dry) && WayIsClear(d, files, dry, 0) {
      forall i | 0 <= i < |files| ensures WayIsClear(d, files, dry, i) {
        if i > 0 { assert WayIsClear(d', rest, dry, i - 1); }
      }
    }
    if EveryWayIsClear(d, files, dry) {
      forall i | 0 <= i < |rest| ensures WayIsClear(d', rest, dry, i) { assert WayIsClear(d, files, dry, i + 1); }
    }
  }

  lemma RestIsStraight(d: Disk, d': Disk, files: seq<string>)
    requires NoneAstray(d, files) && Smaller(d', d) && files != []
    ensures NoneAstray(d', files[1..])
  {
    forall i | 0 <= i < |files[1..]| ensures !Astray(d', files[1..][i]) { StaysStraight(d, d', files[i + 1]); }
  }

  /** When no listed path runs through a link, whether all are clear can be told beforehand. */
  lemma {:induction false} ClearIff(d: Disk, files: seq<string>, dry: bool)
    requires WellFormed(d) && NoneAstray(d, files)
    ensures AllClear(d, files, dry) <==> EveryWayIsClear(d, files, dry)
  {
    if files != [] {
      ClearMeans(d, files[0], dry);
      assert WayIsClear(d, files, dry, 0) <==> Clear(d, files[0], dry);
      if Clear(d, files[0], dry) {
        var d' := After(d, files[0], dry);
        AfterStaysWellFormed(d, files[0], dry);
        if !dry { AfterStraight(d, files[0]); }
        EveryWayOfRest(d, d', files, dry);
        RestIsStraight(d, d', files);
        ClearIff(d', files[1..], dry);
      } else {
        assert !WayIsClear(d, files, dry, 0);
      }
    }
  }

  /** The place lies on or below a listed path. */
  predicate Listed(files: seq<string>, q: Path) {
    files != [] && (Segments(files[0]) <= q || Listed(files[1..], q))
  }

  lemma {:induction false} ListedMeans(files: seq<string>, q: Path)
    ensures Listed(files, q) <==> exists f :: f in files && Segments(f) <= q
  {
    if files != [] {
      ListedMeans(files[1..], q);
      assert files == [files[0]] + files[1..];
    }
  }

  /** A real run that succeeds leaves exactly the places that no entry takes away. */
  lemma RemovesExactlyTheLost(d: Disk, files: seq<string>, allowed: Guard, faults: seq<Fault>)
    requires WellFormed(d) && |faults| == |files|
    requires RemoveEach(d, files, allowed, false, faults).outcome == Ok
    ensures RemoveEach(d, files, allowed, false, faults).disk == map q | q in d && !Lost(d, files, allowed, q) :: d[q]
  {
    var d' := RemoveEach(d, files, allowed, false, faults).disk;
    forall q ensures (q in d' <==> q in d && !Lost(d, files, allowed, q)) && (q in d' ==> d'[q] == d[q]) {
      if Lost(d, files, allowed, q) {
        LostIsLost(d, files, allowed, faults, q);
      } else {
        OnlyLostPlacesChange(d, files, allowed, false, faults, q);
      }
    }
  }

  lemma {:induction false} RemovesListedAt(d: Disk, files: seq<string>, allowed: Guard, faults: seq<Fault>, q: Path)
    requires |faults| == |files| && WellFormed(d) && NoneAstray(d, files)
    requires RemoveEach(d, files, allowed, false, faults).outcome == Ok
    ensures var d' := RemoveEach(d, files, allowed, false, faults).disk;
            (q in d' <==> q in d && !Listed(files, q)) && (q in d' ==> d'[q] == d[q])
  {
    if files != [] {
      var d' := After(d, files[0], false);
      AfterStraight(d, files[0]);
      AfterStaysWellFormed(d, files[0], false);
      RestIsStraight(d, d', files);
      RemovesListedAt(d', files[1..], allowed, faults[1..], q);
    }
  }

  /** If no listed path runs through a link, a real run that succeeds leaves exactly the places not
      on or below a listed path. */
  lemma RemovesExactlyTheListed(d: Disk, files: seq<string>, allowed: Guard, faults: seq<Fault>)
    requires |faults| == |files| && WellFormed(d) && NoneAstray(d, files)
    requires RemoveEach(d, files, allowed, false, faults).outcome == Ok
    ensures RemoveEach(d, files, allowed, false, faults).disk == map q | q in d && !Listed(files, q) :: d[q]
  {
    forall q { RemovesListedAt(d, files, allowed, faults, q); }
  }

  lemma StraightTo(d: Disk, f: string, q: Path)
    requires WellFormed(d) && q in d && Segments(f) <= q
    requires d[q].Link? && OpenEnd(f) ==> Segments(f) != q
    ensures !Astray(d, f)
  {
    var p := Segments(f);
    assert p[..|p|] == p;
    forall n | 0 <= n <= |p| && LinkAt(d, p, n) ensures n == |p| && p == q {
      assert p[..n] == q[..n];
      if n < |q| { NoLinkAbove(d, q, n); }
    }
  }

  lemma NoLinkAbove(d: Disk, q: Path, n: nat)
    requires WellFormed(d) && q in d && n < |q|
    ensures !LinkAt(d, q, n)
  {
    if LinkAt(d, q, n) { NothingBelowALeaf(d, q[..n], q); }
  }

  /** Whatever links there are, a real run that succeeds leaves nothing on or below a listed path, a link
      itself excepted that the path names with an open end. */
  lemma {:induction false} ListedIsGone(d: Disk, files: seq<string>, allowed: Guard, faults: seq<Fault>, f: string,
                                        q: Path)
    requires WellFormed(d) && |faults| == |files| && RemoveEach(d, files, allowed, false, faults).outcome == Ok
    requires f in files && Segments(f) <= q && (q in d && d[q].Link? && OpenEnd(f) ==> Segments(f) != q)
    ensures q !in RemoveEach(d, files, allowed, false, faults).disk
  {
    var d' := After(d, files[0], false);
    if q !in d {
      NothingAppears(d, files, allowed, faults, q);
    } else if f == files[0] {
      StraightTo(d, f, q);
      AfterStraight(d, f);
      NothingAppears(d', files[1..], allowed, faults[1..], q);
    } else {
      assert f in files[1..];
      AfterStaysWellFormed(d, files[0], false);
      ListedIsGone(d', files[1..], allowed, faults[1..], f, q);
    }
  }

  /* ---- what an interrupted run leaves ---- */

  /** How many entries were dealt with before the end, or before the failing one. */
  function Dealt(r: Removal): nat { |r.removed| + |r.missing| }

  /** The first entry on or above `q`; the length of the list if there is none. */
  function FirstOver(files: seq<string>, q: Path): nat {
    if files == [] || Segments(files[0]) <= q then 0 else 1 + FirstOver(files[1..], q)
  }

  /** The failing entry comes no later than the first one on or above `q`, and if it is that one
      and its removal failed midway, `q` is among what that left. */
  ghost predicate Kept(files: seq<string>, faults: seq<Fault>, r: Removal, q: Path)
    requires |faults| == |files|
  {
    var at := Dealt(r);
    && at <= FirstOver(files, q)
    && (r.outcome.Unremovable? && at < |files| && at == FirstOver(files, q) ==>
          q in LeftBy(DotEnd(files[at]), Segments(files[at]), faults[at]))
  }

  lemma {:induction false} FirstOverMeans(files: seq<string>, q: Path)
    ensures FirstOver(files, q) <= |files|
    ensures FirstOver(files, q) == |files| <==> !Listed(files, q)
    ensures FirstOver(files, q) < |files| ==> Segments(files[FirstOver(files, q)]) <= q
    ensures forall i :: 0 <= i < FirstOver(files, q) ==> !(Segments(files[i]) <= q)
  {
    if files != [] && !(Segments(files[0]) <= q) {
      FirstOverMeans(files[1..], q);
      assert forall i :: 1 <= i < |files| ==> files[i] == files[1..][i - 1];
    }
  }

  /** The first entry is dealt with and the run goes on. */
  predicate GoesOn(d: Disk, files: seq<string>, allowed: Guard, faults: seq<Fault>)
    requires |faults| == |files| && files != []
  {
    allowed(files[0]) && !LookFor(d, files[0], faults[0]).Trouble? &&
      (LookAt(d, files[0]).At? ==> !faults[0].RemoveFails? && !Sticks(d, files[0]))
  }

  lemma DealsWithFirst(d: Disk, files: seq<string>, allowed: Guard, faults: seq<Fault>)
    requires |faults| == |files| && WellFormed(d) && files != [] && GoesOn(d, files, allowed, faults)
    requires !Astray(d, files[0])
    ensures var r := RemoveEach(d, files, allowed, false, faults);
            var rest := RemoveEach(Without(d, Segments(files[0])), files[1..], allowed, false, faults[1..]);
            r.disk == rest.disk && r.outcome == rest.outcome && Dealt(r) == Dealt(rest) + 1
  {
    AfterStraight(d, files[0]);
  }

  lemma StopsAtFirst(d: Disk, files: seq<string>, allowed: Guard, faults: seq<Fault>, q: Path)
    requires |faults| == |files| && files != [] && !GoesOn(d, files, allowed, faults) && !Astray(d, files[0])
    ensures var r := RemoveEach(d, files, allowed, false, faults);
            && Dealt(r) == 0 && r.outcome != Ok
            && (q in r.disk <==> q in d && Kept(files, faults, r, q)) && (q in r.disk ==> r.disk[q] == d[q])
  {
    FirstOverMeans(files, q);
    StraightLook(d, files[0]);
    DotEndIsOpen(files[0]);
    var p := Segments(files[0]);
    assert p[..|p|] == p;
    assert LookAt(d, files[0]).At? && OpenEnd(files[0]) ==> !LinkAt(d, p, |p|);
  }

  lemma KeptShifts(files: seq<string>, faults: seq<Fault>, r: Removal, rest: Removal, q: Path)
    requires |faults| == |files| && files != []
    requires r.outcome == rest.outcome && Dealt(r) == Dealt(rest) + 1
    ensures Kept(files, faults, r, q) <==> !(Segments(files[0]) <= q) && Kept(files[1..], faults[1..], rest, q)
  {}

  /** If no listed path runs through a link, a real run leaves exactly the places kept, wherever it
      stops. */
  lemma {:induction false} InterruptedRunLeaves(d: Disk, files: seq<string>, allowed: Guard, faults: seq<Fault>,
                                                q: Path)
    requires |faults| == |files| && WellFormed(d) && NoneAstray(d, files)
    ensures var r := RemoveEach(d, files, allowed, false, faults);
            && Dealt(r) <= |files| && (r.outcome == Ok <==> Dealt(r) == |files|)
            && (q in r.disk <==> q in d && Kept(files, faults, r, q)) && (q in r.disk ==> r.disk[q] == d[q])
  {
    if files != [] {
      if GoesOn(d, files, allowed, faults) {
        var p := Segments(files[0]);
        DealsWithFirst(d, files, allowed, faults);
        WithoutStaysWellFormed(d, p);
        RestIsStraight(d, Without(d, p), files);
        InterruptedRunLeaves(Without(d, p), files[1..], allowed, faults[1..], q);
        KeptShifts(files, faults, RemoveEach(d, files, allowed, false, faults),
                   RemoveEach(Without(d, p), files[1..], allowed, false, faults[1..]), q);
      } else {
        StopsAtFirst(d, files, allowed, faults, q);
      }
    }
  }

  /* ---- deepest first ---- */

  function InsertDeepestFirst(path: string, sorted: seq<string>): seq<string> {
    if sorted == [] || PathDepth(path) >= PathDepth(sorted[0]) then [path] + sorted
    else [sorted[0]] + InsertDeepestFirst(path, sorted[1..])
  }

  /** A stable sort by descending depth. */
  function DeepestFirst(files: seq<string>): seq<string> {
    if files == [] then [] else InsertDeepestFirst(files[0], DeepestFirst(files[1..]))
  }

  ghost predicate Descending(files: seq<string>) {
    forall i, j :: 0 <= i < j < |files| ==> PathDepth(files[i]) >= PathDepth(files[j])
  }

  function OfDepth(files: seq<string>, depth: nat): seq<string> {
    if files == [] then []
    else (if PathDepth(files[0]) == depth then [files[0]] else []) + OfDepth(files[1..], depth)
  }

  lemma {:induction false} InsertPermutes(path: string, sorted: seq<string>)
    ensures multiset(InsertDeepestFirst(path, sorted)) == multiset{path} + multiset(sorted)
  {
    if sorted != [] && PathDepth(path) < PathDepth(sorted[0]) {
      assert sorted == [sorted[0]] + sorted[1..];
      InsertPermutes(path, sorted[1..]);
    }
  }

  lemma FirstIsDeepest(path: string, sorted: seq<string>)
    requires sorted != [] && Descending(sorted) && PathDepth(path) < PathDepth(sorted[0])
    ensures forall q :: q in InsertDeepestFirst(path, sorted[1..]) ==> PathDepth(sorted[0]) >= PathDepth(q)
  {
    InsertPermutes(path, sorted[1..]);
    forall q | q in InsertDeepestFirst(path, sorted[1..]) ensures PathDepth(sorted[0]) >= PathDepth(q) {
      assert q in multiset(InsertDeepestFirst(path, sorted[1..]));
      assert q == path || q in sorted[1..];
    }
  }

  lemma {:induction false} InsertKeepsOrder(path: string, sorted: seq<string>)
    requires Descending(sorted)
    ensures Descending(InsertDeepestFirst(path, sorted))
  {
    if sorted != [] && PathDepth(path) < PathDepth(sorted[0]) {
      InsertKeepsOrder(path, sorted[1..]);
      FirstIsDeepest(path, sorted);
    }
  }

  lemma {:induction false} InsertIsStable(path: string, sorted: seq<string>, depth: nat)
    ensures OfDepth(InsertDeepestFirst(path, sorted), depth) ==
            (if PathDepth(path) == depth then [path] else []) + OfDepth(sorted, depth)
  {
    if sorted == [] || PathDepth(path) >= PathDepth(sorted[0]) {
      assert ([path] + sorted)[1..] == sorted;
    } else {
      var inserted := InsertDeepestFirst(path, sorted[1..]);
      assert ([sorted[0]] + inserted)[1..] == inserted;
      InsertIsStable(path, sorted[1..], depth);
    }
  }

  /** The list is permuted, deepest first, and paths of one depth keep their order. */
  lemma DeepestFirstSorts(files: seq<string>, depth: nat)
    ensures Descending(DeepestFirst(files))
    ensures multiset(DeepestFirst(files)) == multiset(files)
    ensures OfDepth(DeepestFirst(files), depth) == OfDepth(files, depth)
  {
    Descends(files);
    IsStable(files, depth);
  }

  lemma {:induction false} Descends(files: seq<string>)
    ensures Descending(DeepestFirst(files))
    ensures multiset(DeepestFirst(files)) == multiset(files)
  {
    if files != [] {
      Descends(files[1..]);
      InsertKeepsOrder(files[0], DeepestFirst(files[1..]));
      InsertPermutes(files[0], DeepestFirst(files[1..]));
      assert files == [files[0]] + files[1..];
    }
  }

  lemma {:induction false} IsStable(files: seq<string>, depth: nat)
    ensures OfDepth(DeepestFirst(files), depth) == OfDepth(files, depth)
  {
    if files != [] {
      IsStable(files[1..], depth);
      InsertIsStable(files[0], DeepestFirst(files[1..]), depth);
    }
  }

  ghost predicate NoDuplicates(files: seq<string>) {
    forall i, j :: 0 <= i < j < |files| ==> files[i] != files[j]
  }

  lemma SingleOccurrences(s: seq<string>, t: seq<string>)
    requires multiset(s) == multiset(t) && NoDuplicates(s)
    ensures NoDuplicates(t)
  {
    forall i, j | 0 <= i < j < |t| ensures t[i] != t[j] {
      if t[i] == t[j] {
        CountsTwice(t, i, j);
        assert t[i] in multiset(s);
        var k :| 0 <= k < |s| && s[k] == t[i];
        CountsOnce(s, k);
      }
    }
  }

  lemma CountsTwice(t: seq<string>, i: nat, j: nat)
    requires i < j < |t| && t[i] == t[j]
    ensures multiset(t)[t[i]] >= 2
  {
    assert t == t[..j] + [t[j]] + t[j + 1..];
    assert t[i] in t[..j];
  }

  lemma CountsOnce(s: seq<string>, k: nat)
    requires k < |s| && NoDuplicates(s)
    ensures multiset(s)[s[k]] == 1
  {
    assert s == s[..k] + [s[k]] + s[k + 1..];
    assert s[k] !in s[..k] && s[k] !in s[k + 1..];
  }

  lemma DeeperIsNoAncestor(a: string, b: string)
    requires Canonical(a) && Canonical(b) && a != b && PathDepth(a) >= PathDepth(b)
    ensures !(Segments(a) <= Segments(b))
  {
    DepthOfCanonical(a);
    DepthOfCanonical(b);
    assert Segments(a) != Segments(b);
    if |Segments(a)| == |Segments(b)| {
      var i :| 0 <= i < |Segments(a)| && Segments(a)[i] != Segments(b)[i];
    }
  }

  lemma SameMembers(s: seq<string>, t: seq<string>)
    requires multiset(s) == multiset(t)
    ensures forall f :: f in s <==> f in t
  {
    forall f ensures f in s <==> f in t {
      assert f in s <==> f in multiset(s);
      assert f in t <==> f in multiset(t);
    }
  }

  lemma SortedListsTheSame(files: seq<string>, q: Path)
    ensures Listed(files, q) <==> Listed(DeepestFirst(files), q)
  {
    DeepestFirstSorts(files, 0);
    SameMembers(files, DeepestFirst(files));
    ListedMeans(files, q);
    ListedMeans(DeepestFirst(files), q);
  }

  /** Sorting changes nothing about what holds of every path. */
  lemma SortedAll(files: seq<string>, good: string -> bool)
    requires AllAllowed(files, good)
    ensures AllAllowed(DeepestFirst(files), good)
  {
    var sorted := DeepestFirst(files);
    DeepestFirstSorts(files, 0);
    SameMembers(files, sorted);
    forall i | 0 <= i < |sorted| ensures good(sorted[i]) { assert sorted[i] in sorted; }
  }

  lemma SortedIsStraight(d: Disk, files: seq<string>)
    requires NoneAstray(d, files)
    ensures NoneAstray(d, DeepestFirst(files))
  {
    SortedAll(files, (f: string) => !Astray(d, f));
  }

  /** Whatever the list, if none of its paths runs through a link, a real run that succeeds leaves
      nothing on or below a listed path and touches nothing else. */
  lemma ResetClearsTheListed(d: Disk, files: seq<string>, allowed: Guard, faults: seq<Fault>)
    requires WellFormed(d) && NoneAstray(d, files) && |faults| == |DeepestFirst(files)|
    requires RemoveEach(d, DeepestFirst(files), allowed, false, faults).outcome == Ok
    ensures RemoveEach(d, DeepestFirst(files), allowed, false, faults).disk ==
            map q | q in d && !Listed(files, q) :: d[q]
  {
    SortedIsStraight(d, files);
    RemovesExactlyTheListed(d, DeepestFirst(files), allowed, faults);
    forall q ensures Listed(files, q) <==> Listed(DeepestFirst(files), q) { SortedListsTheSame(files, q); }
  }
}
