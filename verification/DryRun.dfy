/** What a reset's dry run foretells. */
module DryRun {
  import opened DiskTree
  import opened Options
  import opened Paths
  import opened ResetAllowlist
  import opened ResetFiles

  /* ---- dry-run fidelity ---- */

  function Real(d: Disk, files: seq<string>, allowed: Guard): Removal {
    RemoveEach(d, files, allowed, false, seq(|files|, _ => Smooth))
  }

  function Dry(d: Disk, files: seq<string>, allowed: Guard): Removal {
    RemoveEach(d, files, allowed, true, seq(|files|, _ => Smooth))
  }

  /** Every listed path is allowed and can be looked at. */
  ghost predicate Passes(d: Disk, files: seq<string>, allowed: Guard) {
    forall i :: 0 <= i < |files| ==> allowed(files[i]) && !LookAt(d, files[i]).Trouble?
  }

  lemma TailOfSmooth(files: seq<string>)
    requires files != []
    ensures seq(|files|, _ => Smooth)[1..] == seq(|files[1..]|, _ => Smooth)
  {}

  lemma PassesRest(d: Disk, files: seq<string>, allowed: Guard)
    requires files != []
    ensures Passes(d, files, allowed) <==>
            allowed(files[0]) && !LookAt(d, files[0]).Trouble? && Passes(d, files[1..], allowed)
  {
    assert forall i :: 1 <= i < |files| ==> files[i] == files[1..][i - 1];
  }

  /** The dry run succeeds exactly on such lists. */
  lemma {:induction false} DrySucceedsIffPasses(d: Disk, files: seq<string>, allowed: Guard)
    ensures Dry(d, files, allowed).outcome == Ok <==> Passes(d, files, allowed)
  {
    if files != [] {
      TailOfSmooth(files);
      PassesRest(d, files, allowed);
      DrySucceedsIffPasses(d, files[1..], allowed);
    }
  }

  /** In a smaller tree an entry finds what it found, or nothing. */
  lemma LookOfLess(d: Disk, d': Disk, path: string)
    requires WellFormed(d) && WellFormed(d') && Smaller(d', d) && !LookAt(d, path).Trouble?
    ensures LookAt(d', path) == if LookAt(d, path).At? && AllIn(TrailOf(d, path), d') then LookAt(d, path) else Nothing
    ensures LookAt(d', path).At? ==> (Sticks(d', path) <==> Sticks(d, path))
  {
    if LookAt(d, path).At? && AllIn(TrailOf(d, path), d') {
      LookStays(d, d', path);
    } else {
      LookIsLost(d, d', path);
    }
  }

  lemma SmallerStill(d: Disk, d': Disk, path: string)
    requires WellFormed(d') && Smaller(d', d)
    ensures WellFormed(After(d', path, false)) && Smaller(After(d', path, false), d)
  {
    AfterStaysWellFormed(d', path, false);
  }

  /** In a smaller tree, real removals are never more than a dry run promised. */
  lemma {:induction false} RemovesNoMore(d: Disk, d': Disk, files: seq<string>, allowed: Guard)
    requires WellFormed(d) && WellFormed(d') && Smaller(d', d) && Passes(d, files, allowed)
    ensures |Real(d', files, allowed).removed| <= |Dry(d, files, allowed).removed|
  {
    if files != [] {
      TailOfSmooth(files);
      PassesRest(d, files, allowed);
      LookOfLess(d, d', files[0]);
      SmallerStill(d, d', files[0]);
      RemovesNoMore(d, After(d', files[0], false), files[1..], allowed);
    }
  }

  /** Both paths are there, and the first leads on or above a place on the trail of the second. */
  ghost predicate Shadows(d: Disk, a: string, b: string) {
    && LookAt(d, a).At? && LookAt(d, b).At?
    && exists w :: w in TrailOf(d, b) && LookAt(d, a).place <= w
  }

  /** Entry `j`, if it is there, still is when a tree of which `d'` is left has seen the entries before
      it, and can be removed. */
  ghost predicate Undisturbed(d: Disk, d': Disk, files: seq<string>, j: nat)
    requires j < |files|
  {
    LookAt(d, files[j]).At? ==>
      && AllIn(TrailOf(d, files[j]), d') && !Sticks(d, files[j])
      && forall i :: 0 <= i < j ==> !Shadows(d, files[i], files[j])
  }

  ghost predicate AllUndisturbed(d: Disk, d': Disk, files: seq<string>) {
    forall j :: 0 <= j < |files| ==> Undisturbed(d, d', files, j)
  }

  lemma UndisturbedRest(d: Disk, d': Disk, d'': Disk, files: seq<string>, j: nat)
    requires 0 < j < |files|
    requires d'' == if LookAt(d, files[0]).At? then Without(d', LookAt(d, files[0]).place) else d'
    ensures Undisturbed(d, d', files, j) <==> Undisturbed(d, d'', files[1..], j - 1)
  {
    var rest := files[1..];
    assert rest[j - 1] == files[j];
    assert forall i :: 0 < i < j ==> files[i] == rest[i - 1];
    assert forall i :: 0 <= i < j - 1 ==> rest[i] == files[i + 1];
  }

  lemma AllUndisturbedRest(d: Disk, d': Disk, d'': Disk, files: seq<string>)
    requires files != []
    requires d'' == if LookAt(d, files[0]).At? then Without(d', LookAt(d, files[0]).place) else d'
    ensures AllUndisturbed(d, d', files) <==> Undisturbed(d, d', files, 0) && AllUndisturbed(d, d'', files[1..])
  {
    forall j | 0 < j < |files| ensures Undisturbed(d, d', files, j) <==> Undisturbed(d, d'', files[1..], j - 1) {
      UndisturbedRest(d, d', d'', files, j);
    }
    if Undisturbed(d, d', files, 0) && AllUndisturbed(d, d'', files[1..]) {
      forall j | 0 <= j < |files| ensures Undisturbed(d, d', files, j) {
        if j > 0 { assert Undisturbed(d, d'', files[1..], j - 1); }
      }
    }
    if AllUndisturbed(d, d', files) {
      forall j | 0 <= j < |files[1..]| ensures Undisturbed(d, d'', files[1..], j) {
        assert Undisturbed(d, d', files, j + 1);
      }
    }
  }

  ghost predicate SameReport(wet: Removal, dry: Removal) {
    wet.outcome == dry.outcome == Ok && wet.removed == dry.removed && wet.missing == dry.missing
  }

  lemma RealStep(d: Disk, files: seq<string>, allowed: Guard)
    requires files != [] && allowed(files[0]) && !LookAt(d, files[0]).Trouble?
    ensures var r, rest := Real(d, files, allowed), Real(After(d, files[0], false), files[1..], allowed);
            if LookAt(d, files[0]).Nothing? then r == rest.(missing := [files[0]] + rest.missing)
            else if Sticks(d, files[0]) then r.outcome != Ok
            else r == rest.(removed := [files[0]] + rest.removed)
  {
    TailOfSmooth(files);
  }

  lemma DryStep(d: Disk, files: seq<string>, allowed: Guard)
    requires files != [] && allowed(files[0]) && !LookAt(d, files[0]).Trouble?
    ensures var r, rest := Dry(d, files, allowed), Dry(d, files[1..], allowed);
            r == if LookAt(d, files[0]).Nothing? then rest.(missing := [files[0]] + rest.missing)
                 else rest.(removed := [files[0]] + rest.removed)
  {
    TailOfSmooth(files);
  }

  lemma SameReportOfRest(wet: Removal, dry: Removal, f: string, there: bool)
    ensures var wet' := if there then wet.(removed := [f] + wet.removed) else wet.(missing := [f] + wet.missing);
            var dry' := if there then dry.(removed := [f] + dry.removed) else dry.(missing := [f] + dry.missing);
            SameReport(wet', dry') <==> SameReport(wet, dry)
  {
    assert ([f] + wet.removed)[1..] == wet.removed && ([f] + dry.removed)[1..] == dry.removed;
    assert ([f] + wet.missing)[1..] == wet.missing && ([f] + dry.missing)[1..] == dry.missing;
  }

  /** One entry: it decides alone, or leaves it to the rest. */
  lemma FirstForetells(d: Disk, d': Disk, files: seq<string>, allowed: Guard)
    requires WellFormed(d) && WellFormed(d') && Smaller(d', d) && files != [] && Passes(d, files, allowed)
    ensures var wet, dry := Real(d', files, allowed), Dry(d, files, allowed);
            var wet', dry' := Real(After(d', files[0], false), files[1..], allowed), Dry(d, files[1..], allowed);
            if LookAt(d', files[0]) == LookAt(d, files[0]) && !Sticks(d, files[0])
            then SameReport(wet, dry) <==> SameReport(wet', dry')
            else !SameReport(wet, dry)
  {
    PassesRest(d, files, allowed);
    LookOfLess(d, d', files[0]);
    RealStep(d', files, allowed);
    DryStep(d, files, allowed);
    var wet', dry' := Real(After(d', files[0], false), files[1..], allowed), Dry(d, files[1..], allowed);
    if LookAt(d', files[0]) == LookAt(d, files[0]) {
      SameReportOfRest(wet', dry', files[0], LookAt(d, files[0]).At?);
    } else {
      SmallerStill(d, d', files[0]);
      RemovesNoMore(d, After(d', files[0], false), files[1..], allowed);
    }
  }

  lemma FirstUndisturbed(d: Disk, d': Disk, files: seq<string>)
    requires WellFormed(d) && WellFormed(d') && Smaller(d', d) && files != [] && !LookAt(d, files[0]).Trouble?
    ensures Undisturbed(d, d', files, 0) <==> LookAt(d', files[0]) == LookAt(d, files[0]) && !Sticks(d, files[0])
    ensures LookAt(d', files[0]) == LookAt(d, files[0]) ==>
              After(d', files[0], false) ==
              if LookAt(d, files[0]).At? then Without(d', LookAt(d, files[0]).place) else d'
  {
    LookOfLess(d, d', files[0]);
    if LookAt(d', files[0]).At? { RemoveNodeIsWithout(d', LookAt(d', files[0]).place); }
  }

  /** A real run in what is left of a tree reports what the dry run in the whole tree did, exactly if
      no entry is disturbed. */
  lemma {:induction false} ForetellsIff(d: Disk, d': Disk, files: seq<string>, allowed: Guard)
    requires WellFormed(d) && WellFormed(d') && Smaller(d', d) && Passes(d, files, allowed)
    ensures SameReport(Real(d', files, allowed), Dry(d, files, allowed)) <==> AllUndisturbed(d, d', files)
  {
    if files != [] {
      PassesRest(d, files, allowed);
      FirstForetells(d, d', files, allowed);
      FirstUndisturbed(d, d', files);
      if Undisturbed(d, d', files, 0) {
        var d'' := After(d', files[0], false);
        SmallerStill(d, d', files[0]);
        AllUndisturbedRest(d, d', d'', files);
        ForetellsIff(d, d'', files[1..], allowed);
      }
    }
  }

  /** No entry that is there is listed after one that shadows it. */
  ghost predicate NoShadow(d: Disk, files: seq<string>) {
    forall i, j :: 0 <= i < j < |files| ==> !Shadows(d, files[i], files[j])
  }

  /** No listed path names a directory that cannot be removed by it. */
  ghost predicate NoneSticks(d: Disk, files: seq<string>) {
    forall i :: 0 <= i < |files| ==> !Sticks(d, files[i])
  }

  /** A dry run that succeeds foretells the real run exactly when no existing entry is listed after
      one that leads on or above a place on its trail, and none names a directory that its path
      cannot remove. */
  lemma DryRunIsFaithful(d: Disk, files: seq<string>, allowed: Guard)
    requires WellFormed(d) && Dry(d, files, allowed).outcome == Ok
    ensures SameReport(Real(d, files, allowed), Dry(d, files, allowed)) <==> NoShadow(d, files) && NoneSticks(d, files)
  {
    DrySucceedsIffPasses(d, files, allowed);
    ForetellsIff(d, d, files, allowed);
    forall j | 0 <= j < |files| && LookAt(d, files[j]).At? ensures AllIn(TrailOf(d, files[j]), d) {
      TrailIsThere(d, files[j]);
    }
    if AllUndisturbed(d, d, files) {
      forall i, j | 0 <= i < j < |files| ensures !Shadows(d, files[i], files[j]) {
        assert Undisturbed(d, d, files, j);
      }
      forall j | 0 <= j < |files| ensures !Sticks(d, files[j]) { assert Undisturbed(d, d, files, j); }
    }
  }

  /** What an entry that runs through no link looks at, relies on, and cannot remove. */
  lemma StraightEntry(d: Disk, path: string)
    requires !Astray(d, path) && !LookAt(d, path).Trouble?
    ensures LookAt(d, path) == if Segments(path) in d then At(Segments(path)) else Nothing
    ensures LookAt(d, path).At? ==> TrailOf(d, path) == [Segments(path)]
    ensures Sticks(d, path) <==> Segments(path) in d && DotEnd(path)
  {
    var p := Segments(path);
    StraightLook(d, path);
    DotEndIsOpen(path);
    assert p[..|p|] == p;
    if p in d {
      StraightTrail(d, path);
      assert OpenEnd(path) ==> !LinkAt(d, p, |p|);
    }
  }

  lemma StraightShadow(d: Disk, a: string, b: string)
    requires WellFormed(d) && !Astray(d, a) && !LookAt(d, a).Trouble? && !Astray(d, b) && !LookAt(d, b).Trouble?
    ensures Shadows(d, a, b) <==> Segments(b) in d && Segments(a) <= Segments(b)
  {
    StraightEntry(d, a);
    StraightEntry(d, b);
    if Segments(b) in d && Segments(a) <= Segments(b) {
      AncestorsPresent(d, Segments(a), Segments(b));
      assert Segments(b) in TrailOf(d, b);
    }
  }

  /** No path that exists is listed after one of its ancestors or after itself. */
  ghost predicate AncestorsLast(d: Disk, files: seq<string>) {
    forall i, j :: 0 <= i < j < |files| && Segments(files[j]) in d ==> !(Segments(files[i]) <= Segments(files[j]))
  }

  /** When no listed path runs through a link, shadowing and sticking can be read off the names. */
  lemma ShadowMeans(d: Disk, files: seq<string>, allowed: Guard)
    requires WellFormed(d) && NoneAstray(d, files) && Passes(d, files, allowed)
    ensures NoShadow(d, files) <==> AncestorsLast(d, files)
    ensures NoneSticks(d, files) <==> forall i :: 0 <= i < |files| && DotEnd(files[i]) ==> Segments(files[i]) !in d
  {
    forall i, j | 0 <= i < j < |files|
      ensures Shadows(d, files[i], files[j]) <==>
              Segments(files[j]) in d && Segments(files[i]) <= Segments(files[j])
    {
      StraightShadow(d, files[i], files[j]);
    }
    forall i | 0 <= i < |files| ensures Sticks(d, files[i]) <==> Segments(files[i]) in d && DotEnd(files[i]) {
      StraightEntry(d, files[i]);
    }
  }

  /* ---- sorted lists ---- */

  /** On canonical duplicate-free lists, sorting deepest first puts no path after an ancestor or after
      itself, whatever the tree. */
  lemma CanonicalListsHaveNoShadow(d: Disk, files: seq<string>)
    requires NoDuplicates(files) && forall f :: f in files ==> Canonical(f)
    ensures AncestorsLast(d, DeepestFirst(files))
  {
    var sorted := DeepestFirst(files);
    DeepestFirstSorts(files, 0);
    SingleOccurrences(files, sorted);
    SameMembers(files, sorted);
    forall i, j | 0 <= i < j < |sorted| ensures !(Segments(sorted[i]) <= Segments(sorted[j])) {
      assert sorted[i] in sorted && sorted[j] in sorted;
      DeeperIsNoAncestor(sorted[i], sorted[j]);
    }
  }

  /** A directory in `top`, written with two "." components on the way. */
  function Dotted(top: string, name: string): string { top + "/" + "." + "/" + "." + "/" + name }

  function Inside(top: string, name: string): string { top + "/" + name }

  lemma InsidePlace(top: string, name: string)
    requires Plain(name)
    ensures Segments(Inside(top, name)) == Segments(top) + [name] && PathDepth(Inside(top, name)) == PathDepth(top) + 1
    ensures !OpenEnd(Inside(top, name))
  {
    SegmentsConcat(top, name);
    SegmentsOfName(name);
    DepthConcat(top, name);
    DepthOfName(name);
    EndOfConcat(top, name);
  }

  lemma DottedPlace(top: string, name: string)
    requires Plain(name)
    ensures Segments(Dotted(top, name)) == Segments(top) + [name]
    ensures PathDepth(Dotted(top, name)) == PathDepth(top) + 3 && !OpenEnd(Dotted(top, name))
  {
    SegmentsConcat(top, ".");
    SegmentsConcat(top + "/" + ".", ".");
    SegmentsOfName(".");
    DepthConcat(top, ".");
    DepthConcat(top + "/" + ".", ".");
    DepthOfName(".");
    InsidePlace(top + "/" + "." + "/" + ".", name);
  }

  lemma DeeperComesFirst(files: seq<string>, a: string, b: string) returns (i: nat, j: nat)
    requires a in files && b in files && PathDepth(a) > PathDepth(b)
    ensures var sorted := DeepestFirst(files); i < j < |sorted| && sorted[i] == a && sorted[j] == b
  {
    var sorted := DeepestFirst(files);
    DeepestFirstSorts(files, 0);
    SameMembers(files, sorted);
    i :| 0 <= i < |sorted| && sorted[i] == a;
    j :| 0 <= j < |sorted| && sorted[j] == b;
  }

  lemma MemberPasses(d: Disk, files: seq<string>, allowed: Guard, f: string)
    requires Dry(d, DeepestFirst(files), allowed).outcome == Ok && f in files
    ensures !LookAt(d, f).Trouble? && exists i :: 0 <= i < |DeepestFirst(files)| && DeepestFirst(files)[i] == f
  {
    DrySucceedsIffPasses(d, DeepestFirst(files), allowed);
    DeepestFirstSorts(files, 0);
    SameMembers(files, DeepestFirst(files));
    assert f in DeepestFirst(files);
  }

  /** "." components count towards the depth, so a directory written with enough of them on the way is
      removed before its own listed child, whatever else is listed: the dry run lists the child as
      removed, the real run does not. */
  lemma DotComponentsBreakTheForecast(d: Disk, top: string, dir: string, name: string, files: seq<string>,
                                      allowed: Guard)
    requires WellFormed(d) && Plain(dir) && Plain(name) && Segments(top) + [dir] + [name] in d
    requires var a, b := Dotted(top, dir), Inside(Inside(top, dir), name);
             a in files && b in files && !Astray(d, a) && !Astray(d, b)
    requires Dry(d, DeepestFirst(files), allowed).outcome == Ok
    ensures !SameReport(Real(d, DeepestFirst(files), allowed), Dry(d, DeepestFirst(files), allowed))
  {
    var a, b := Dotted(top, dir), Inside(Inside(top, dir), name);
    DottedPlace(top, dir);
    InsidePlace(top, dir);
    InsidePlace(Inside(top, dir), name);
    MemberPasses(d, files, allowed, a);
    MemberPasses(d, files, allowed, b);
    StraightShadow(d, a, b);
    var i, j := DeeperComesFirst(files, a, b);
    assert Shadows(d, DeepestFirst(files)[i], DeepestFirst(files)[j]);
    DryRunIsFaithful(d, DeepestFirst(files), allowed);
  }

  /** A directory written with "." as its last component cannot be removed: the dry run promises it,
      the real run fails. */
  lemma DotEndBreaksTheForecast(d: Disk, f: string, files: seq<string>, allowed: Guard)
    requires WellFormed(d) && f in files && !Astray(d, f) && DotEnd(f) && Segments(f) in d
    requires Dry(d, DeepestFirst(files), allowed).outcome == Ok
    ensures !SameReport(Real(d, DeepestFirst(files), allowed), Dry(d, DeepestFirst(files), allowed))
  {
    MemberPasses(d, files, allowed, f);
    StraightEntry(d, f);
    var i :| 0 <= i < |DeepestFirst(files)| && DeepestFirst(files)[i] == f;
    assert Sticks(d, DeepestFirst(files)[i]);
    DryRunIsFaithful(d, DeepestFirst(files), allowed);
  }

  lemma SortedStillPasses(d: Disk, files: seq<string>, allowed: Guard)
    requires Passes(d, files, allowed)
    ensures Passes(d, DeepestFirst(files), allowed)
  {
    SortedAll(files, (f: string) => allowed(f) && !LookAt(d, f).Trouble?);
  }

  lemma SortedStillCanonical(files: seq<string>)
    requires forall f :: f in files ==> Canonical(f)
    ensures forall i :: 0 <= i < |DeepestFirst(files)| ==> !DotEnd(DeepestFirst(files)[i])
  {
    SortedAll(files, (f: string) => Canonical(f));
    forall i | 0 <= i < |DeepestFirst(files)| ensures !DotEnd(DeepestFirst(files)[i]) {
      CanonicalEnd(DeepestFirst(files)[i]);
    }
  }

  /** `remove_reset_files` on a canonical duplicate-free list of allowed paths, none of which runs
      through a file or a link, succeeds dry and real, and both report the same lists. */
  lemma DryRunForetellsReset(d: Disk, files: seq<string>, allowed: Guard)
    requires WellFormed(d) && Passes(d, files, allowed) && NoneAstray(d, files)
    requires NoDuplicates(files) && forall f :: f in files ==> Canonical(f)
    ensures SameReport(Real(d, DeepestFirst(files), allowed), Dry(d, DeepestFirst(files), allowed))
  {
    var sorted := DeepestFirst(files);
    SortedStillPasses(d, files, allowed);
    SortedIsStraight(d, files);
    SortedStillCanonical(files);
    CanonicalListsHaveNoShadow(d, files);
    ShadowMeans(d, sorted, allowed);
    DrySucceedsIffPasses(d, sorted, allowed);
    DryRunIsFaithful(d, sorted, allowed);
  }
}
