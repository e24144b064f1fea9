/** The reset after a reset that stopped while removing files: what it still knows. */
module ResetRetry {
  import opened DiskTree
  import opened Options
  import opened Paths
  import opened ResetAllowlist
  import opened ResetFiles
  import opened ResetRun

  /** The places an interrupted removal of the list has kept. */
  ghost function KeptPlaces(files: seq<string>, each: nat -> Fault, removal: Removal): iset<Path> {
    var sorted := DeepestFirst(files);
    iset q | Kept(sorted, FaultsOf(|sorted|, each), removal, q)
  }

  /** However a real removal ends, if no listed path runs through a link, the kept places that existed
      are what is left. */
  lemma WhatIsLeft(before: Disk, files: seq<string>, allowed: Guard, each: nat -> Fault, removal: Removal, q: Path)
    requires RemovalOf(before, files, allowed, false, each, removal) && WellFormed(before) && NoneAstray(before, files)
    ensures q in removal.disk <==> q in before && q in KeptPlaces(files, each, removal)
    ensures q in removal.disk ==> removal.disk[q] == before[q]
  {
    var sorted := DeepestFirst(files);
    SortedIsStraight(before, files);
    InterruptedRunLeaves(before, sorted, allowed, FaultsOf(|sorted|, each), q);
  }

  /* ---- the next list ---- */

  /** Of the metadata and swap files exactly the kept ones are left, unchanged. */
  ghost predicate Trimmed(start: Disk, d: Disk, kept: iset<Path>) {
    forall q :: q in WATCHED ==> (q in d <==> q in start && q in kept) && (q in d ==> d[q] == start[q])
  }

  lemma TrimmedText(start: Disk, d: Disk, kept: iset<Path>, q: Path)
    requires Trimmed(start, d, kept) && q in WATCHED
    ensures ReadText(d, q) == if q in kept then ReadText(start, q) else NoFile
  {}

  /** The metadata that the kept files give. */
  ghost function MetadataLeft(start: Disk, k: Readers, kept: iset<Path>): Metadata
    requires MetadataOf(start, k).Some?
  {
    var report, config := ReadText(start, REPORT), ReadText(start, CONFIG);
    Merge(if REPORT in kept && report.Content? then k.report(report.text).value else NO_REPORT,
          if CONFIG in kept && config.Content? then Some(config.text) else None, k)
  }

  lemma TrimmedMetadata(start: Disk, d: Disk, k: Readers, kept: iset<Path>)
    requires Trimmed(start, d, kept) && MetadataOf(start, k).Some?
    ensures MetadataOf(d, k) == Some(MetadataLeft(start, k, kept))
  {
    TrimmedText(start, d, kept, REPORT);
    TrimmedText(start, d, kept, CONFIG);
  }

  /** What gets back onto the list without being read from the ownership list. */
  ghost predicate Rederived(start: Disk, k: Readers, kept: iset<Path>, f: string)
    requires MetadataOf(start, k).Some?
  {
    || f in LEGACY_PATHS
    || (f in ONDREJ_PATHS && MetadataLeft(start, k, kept).phpSource == Some("ondrej"))
    || (f == PathOf(SWAP_UNIT) && MarkedUnit(start))
    || (f == PathOf(SWAP_SYSCTL) && MarkedSysctl(start, k))
    || (f == PathOf(SWAP_FILE) &&
        ((OWNED_FILES in kept && PathOf(SWAP_UNIT) in OwnedList(start, k)) || (SWAP_UNIT in kept && MarkedUnit(start))))
  }

  lemma TrimmedMarks(start: Disk, d: Disk, k: Readers, kept: iset<Path>)
    requires Trimmed(start, d, kept)
    ensures MarkedUnit(d) <==> SWAP_UNIT in kept && MarkedUnit(start)
    ensures MarkedSysctl(d, k) <==> SWAP_SYSCTL in kept && MarkedSysctl(start, k)
    ensures OwnedList(d, k) == if OWNED_FILES in kept then OwnedList(start, k) else []
    ensures SWAP_UNIT in d ==> SWAP_UNIT in kept
    ensures SWAP_SYSCTL in d ==> SWAP_SYSCTL in kept
  {
    TrimmedText(start, d, kept, SWAP_UNIT);
    TrimmedText(start, d, kept, SWAP_SYSCTL);
    TrimmedText(start, d, kept, OWNED_FILES);
  }

  lemma SwapFilePlace()
    ensures Segments(PathOf(SWAP_FILE)) == SWAP_FILE
  {
    PlainInstallerNames();
    SegmentsOfPath(SWAP_FILE);
  }

  lemma NextListKnows(start: Disk, d: Disk, k: Readers, kept: iset<Path>, f: string)
    requires Trimmed(start, d, kept) && Segments(f) in d
    requires MetadataOf(start, k).Some? && FileList(start, MetadataOf(start, k).value, k).Some?
    ensures MetadataOf(d, k).Some? && FileList(d, MetadataOf(d, k).value, k).Some?
    ensures f in PlannedFiles(d, k) <==>
            (OWNED_FILES in kept && f in OwnedList(start, k)) || Rederived(start, k, kept, f)
  {
    TrimmedMetadata(start, d, k, kept);
    TrimmedText(start, d, kept, OWNED_FILES);
    TrimmedMarks(start, d, k, kept);
    SwapPlaces();
    SwapFilePlace();
    FileListMeans(d, MetadataLeft(start, k, kept), k, f);
  }

  /* ---- what a retry knows ---- */

  /** A real reset whose removal stopped: what it read, and the tree it worked on, in which no listed path
      runs through a link. */
  ghost predicate Stopped(places: iset<Path>, start: Disk, before: Disk, k: Readers, each: nat -> Fault,
                          removal: Removal) {
    && Planned(start, before, k, false, each, removal) && removal.outcome != Ok
    && WellFormed(before) && Covers(places) && Same(places, start, before)
    && NoneAstray(before, PlannedFiles(start, k))
  }

  lemma StoppedIsTrimmed(places: iset<Path>, start: Disk, before: Disk, k: Readers, each: nat -> Fault,
                         removal: Removal)
    requires Stopped(places, start, before, k, each, removal)
    ensures Trimmed(start, removal.disk, KeptPlaces(PlannedFiles(start, k), each, removal))
  {
    var files := PlannedFiles(start, k);
    forall q | q in WATCHED
      ensures (q in removal.disk <==> q in start && q in KeptPlaces(files, each, removal)) &&
              (q in removal.disk ==> removal.disk[q] == start[q])
    {
      WhatIsLeft(before, files, GuardOf(start, files), each, removal, q);
      assert SameAt(start, before, q);
    }
  }

  /** After a removal that stopped anywhere, a path that is still there is on the next reset's list
      exactly when the ownership list named it and was kept, or it is found again otherwise. */
  lemma RetryKnowsIff(places: iset<Path>, start: Disk, before: Disk, k: Readers, each: nat -> Fault, removal: Removal,
                      f: string)
    requires Stopped(places, start, before, k, each, removal) && Segments(f) in removal.disk
    ensures MetadataOf(removal.disk, k).Some? && FileList(removal.disk, MetadataOf(removal.disk, k).value, k).Some?
    ensures var kept := KeptPlaces(PlannedFiles(start, k), each, removal);
            f in PlannedFiles(removal.disk, k) <==>
            (OWNED_FILES in kept && f in OwnedList(start, k)) || Rederived(start, k, kept, f)
  {
    StoppedIsTrimmed(places, start, before, k, each, removal);
    NextListKnows(start, removal.disk, k, KeptPlaces(PlannedFiles(start, k), each, removal), f);
  }

  lemma NextListIsThere(start: Disk, d: Disk, k: Readers, kept: iset<Path>)
    requires Trimmed(start, d, kept)
    requires MetadataOf(start, k).Some? && FileList(start, MetadataOf(start, k).value, k).Some?
    ensures MetadataOf(d, k).Some? && FileList(d, MetadataOf(d, k).value, k).Some?
  {
    TrimmedMetadata(start, d, k, kept);
    TrimmedText(start, d, kept, OWNED_FILES);
  }

  /** The removal stopped no later than at the first entry on or above the ownership list, and if it
      failed at that very entry, the list is among what the failure left. */
  ghost predicate OwnedIsKept(files: seq<string>, each: nat -> Fault, removal: Removal) {
    var sorted, at := DeepestFirst(files), Dealt(removal);
    && at <= FirstOver(sorted, OWNED_FILES)
    && (removal.outcome.Unremovable? && at == FirstOver(sorted, OWNED_FILES) < |sorted| ==>
          OWNED_FILES in LeftBy(DotEnd(sorted[at]), Segments(sorted[at]), each(at)))
  }

  lemma OwnedIsKeptMeans(files: seq<string>, each: nat -> Fault, removal: Removal)
    ensures OwnedIsKept(files, each, removal) <==> OWNED_FILES in KeptPlaces(files, each, removal)
  {
    var sorted, at := DeepestFirst(files), Dealt(removal);
    FirstOverMeans(sorted, OWNED_FILES);
    assert at < |sorted| ==> FaultsOf(|sorted|, each)[at] == each(at);
  }

  /** The paths of a list that are still there. */
  ghost function Remaining(files: seq<string>, removal: Removal): iset<string> {
    iset f | f in files && Segments(f) in removal.disk
  }

  ghost function Regained(start: Disk, k: Readers, kept: iset<Path>): iset<string>
    requires MetadataOf(start, k).Some?
  {
    iset f | Rederived(start, k, kept, f)
  }

  lemma CompleteIff(remaining: iset<string>, next: seq<string>, owned: seq<string>, regained: iset<string>, kept: bool)
    requires forall f :: f in remaining ==> (f in next <==> (kept && f in owned) || f in regained)
    ensures (forall f :: f in remaining ==> f in next) <==>
            remaining <= regained || (kept && forall f :: f in remaining - regained ==> f in owned)
  {}

  /** A stopped reset can be taken up again in full, every path still there being on the next list,
      exactly when each of them is found again anyway, or the ownership list was kept and names all
      the others. */
  lemma RetryIsCompleteIff(places: iset<Path>, start: Disk, before: Disk, k: Readers, each: nat -> Fault,
                           removal: Removal)
    requires Stopped(places, start, before, k, each, removal)
    ensures MetadataOf(removal.disk, k).Some? && FileList(removal.disk, MetadataOf(removal.disk, k).value, k).Some?
    ensures var files := PlannedFiles(start, k);
            var remaining, regained := Remaining(files, removal), Regained(start, k, KeptPlaces(files, each, removal));
            (forall f :: f in remaining ==> f in PlannedFiles(removal.disk, k)) <==>
            || remaining <= regained
            || (OwnedIsKept(files, each, removal) && forall f :: f in remaining - regained ==> f in OwnedList(start, k))
  {
    var files := PlannedFiles(start, k);
    var kept := KeptPlaces(files, each, removal);
    StoppedIsTrimmed(places, start, before, k, each, removal);
    NextListIsThere(start, removal.disk, k, kept);
    OwnedIsKeptMeans(files, each, removal);
    var next, remaining, regained := PlannedFiles(removal.disk, k), Remaining(files, removal), Regained(start, k, kept);
    forall f | f in remaining
      ensures f in next <==> (OwnedIsKept(files, each, removal) && f in OwnedList(start, k)) || f in regained
    {
      RetryKnowsIff(places, start, before, k, each, removal, f);
    }
    CompleteIff(remaining, next, OwnedList(start, k), regained, OwnedIsKept(files, each, removal));
  }

  lemma AllKeptIsSame(start: Disk, d: Disk, kept: iset<Path>)
    requires Trimmed(start, d, kept) && forall q :: q in WATCHED ==> q in kept
    ensures Same((iset q | q in WATCHED), start, d) && Covers(iset q | q in WATCHED)
  {}

  /** A removal that stopped before it touched any metadata or swap file is retried with the very same plan. */
  lemma EarlyStopKeepsThePlan(places: iset<Path>, start: Disk, before: Disk, k: Readers, each: nat -> Fault,
                              removal: Removal, meta: Metadata)
    requires Stopped(places, start, before, k, each, removal)
    requires forall q :: q in WATCHED ==> q in KeptPlaces(PlannedFiles(start, k), each, removal)
    ensures MetadataOf(removal.disk, k) == MetadataOf(start, k)
    ensures FileList(removal.disk, meta, k) == FileList(start, meta, k)
  {
    StoppedIsTrimmed(places, start, before, k, each, removal);
    AllKeptIsSame(start, removal.disk, KeptPlaces(PlannedFiles(start, k), each, removal));
    SamePlan((iset q | q in WATCHED), start, removal.disk, meta, [], k);
  }
}
