/** The directory tree of a machine, and where a path string leads in it. */
module DiskTree {
  import opened Options
  import opened Paths

  /** A symbolic link holds the place its text names. */
  datatype Node = Directory | File(content: string) | Link(to: Path)

  type Disk = map<Path, Node>

  predicate HangsIn(d: Disk, q: Path) { Parent(q) in d && d[Parent(q)] == Directory }

  /** Every node but the root hangs in a directory. */
  ghost predicate WellFormed(d: Disk) {
    forall q {:trigger HangsIn(d, q)} :: q in d && q != [] ==> HangsIn(d, q)
  }

  /* ---- where a path leads ---- */

  /** How many symbolic links the operating system follows on one path. */
  const MAX_LINKS: nat := 40

  predicate LinkAt(d: Disk, p: Path, n: nat)
    requires n <= |p|
  {
    p[..n] in d && d[p[..n]].Link?
  }

  /** The first link on the way to `p` from `n` names on, if there is one before `p` itself. */
  function FirstLink(d: Disk, p: Path, n: nat): (k: nat)
    requires n <= |p|
    ensures n <= k <= |p| && (k < |p| ==> LinkAt(d, p, k))
    ensures forall j :: n <= j < k ==> !LinkAt(d, p, j)
    decreases |p| - n
  {
    if n == |p| || LinkAt(d, p, n) then n else FirstLink(d, p, n + 1)
  }

  /** Where the way to `p` leads, links on it being followed; a link at its end only if `through`. */
  function Lead(d: Disk, p: Path, through: bool, hops: nat): Option<Path>
    decreases hops
  {
    var n := FirstLink(d, p, 0);
    if n == |p| && !(through && LinkAt(d, p, n)) then Some(p)
    else if hops == 0 then None
    else Lead(d, d[p[..n]].to + p[n..], through, hops - 1)
  }

  /** What the way to `p` names in the end is itself a link. */
  predicate EndsInLink(d: Disk, p: Path, hops: nat)
    decreases hops
  {
    var n := FirstLink(d, p, 0);
    if n == |p| then LinkAt(d, p, n)
    else hops > 0 && EndsInLink(d, d[p[..n]].to + p[n..], hops - 1)
  }

  /** Some directory on the way to `p` is a file. */
  predicate ThroughFile(d: Disk, p: Path) {
    exists n :: 0 <= n < |p| && p[..n] in d && d[p[..n]].File?
  }

  datatype Look = Nothing | Trouble | At(place: Path)

  /** `symlink_metadata`: an absence, an error, or the node at some place. */
  function LookAt(d: Disk, path: string): (look: Look)
    ensures look.At? ==> look.place in d
  {
    match Lead(d, Segments(path), OpenEnd(path), MAX_LINKS)
    case None => Trouble
    case Some(p) =>
      if ThroughFile(d, p) || (OpenEnd(path) && p in d && d[p].File?) then Trouble
      else if p in d then At(p) else Nothing
  }

  /** A directory of which the path lets only the content be removed: the path ends in ".", or
      enters the directory through a link at its end. */
  predicate Sticks(d: Disk, path: string) {
    var look := LookAt(d, path);
    && look.At? && d[look.place] == Directory
    && (DotEnd(path) || (OpenEnd(path) && EndsInLink(d, Segments(path), MAX_LINKS)))
  }

  /** The tree without `p` and everything below it. */
  function Without(d: Disk, p: Path): Disk {
    map q | q in d && !(p <= q) :: d[q]
  }

  /** `remove_dir_all` on a directory, `remove_file` on anything else. */
  function RemoveNode(d: Disk, p: Path): Disk
    requires p in d
  {
    if d[p] == Directory then Without(d, p) else d - {p}
  }

  /** A removal that failed midway. */
  function RemovePartly(d: Disk, p: Path, left: set<Path>): Disk {
    map q | q in d && (p <= q ==> q in left) :: d[q]
  }

  /** The node at `q` is the same in both trees. */
  ghost predicate SameAt(d: Disk, d': Disk, q: Path) {
    (q in d <==> q in d') && (q in d ==> d[q] == d'[q])
  }

  /* ---- well-formed trees ---- */

  lemma RemoveNodeIsWithout(d: Disk, p: Path)
    requires WellFormed(d) && p in d
    ensures RemoveNode(d, p) == Without(d, p)
  {
    if d[p] != Directory {
      forall q | q in d && p <= q ensures q == p { NothingBelowALeaf(d, p, q); }
    }
  }

  lemma {:induction false} NothingBelowALeaf(d: Disk, p: Path, q: Path)
    requires WellFormed(d) && p in d && q in d && p <= q && d[p] != Directory
    ensures q == p
    decreases |q|
  {
    if q != p {
      assert HangsIn(d, q);
      NothingBelowALeaf(d, p, q[..|q| - 1]);
    }
  }

  lemma {:induction false} AncestorsPresent(d: Disk, p: Path, q: Path)
    requires WellFormed(d) && q in d && p <= q
    ensures p in d
    decreases |q|
  {
    if q != p {
      assert HangsIn(d, q);
      AncestorsPresent(d, p, q[..|q| - 1]);
    }
  }

  lemma WithoutStaysWellFormed(d: Disk, p: Path)
    requires WellFormed(d)
    ensures WellFormed(Without(d, p)) && Smaller(Without(d, p), d)
  {
    forall q | q in Without(d, p) && q != [] ensures HangsIn(Without(d, p), q) { assert HangsIn(d, q); }
  }

  lemma WithoutAbsent(d: Disk, p: Path)
    requires WellFormed(d) && p !in d
    ensures Without(d, p) == d
  {
    forall q | q in d ensures !(p <= q) {
      if p <= q { AncestorsPresent(d, p, q); }
    }
  }

  lemma PresentIsReachable(d: Disk, p: Path)
    requires WellFormed(d) && p in d
    ensures !ThroughFile(d, p)
  {
    forall n | 0 <= n < |p| && p[..n] in d ensures !d[p[..n]].File? {
      if d[p[..n]].File? { NothingBelowALeaf(d, p[..n], p); }
    }
  }

  /* ---- paths that run through no link ---- */

  /** The path runs through a link, or ends open on one: where it leads is not the place it names. */
  predicate Astray(d: Disk, path: string) {
    var p := Segments(path);
    exists n :: 0 <= n <= |p| && LinkAt(d, p, n) && (n < |p| || OpenEnd(path))
  }

  ghost predicate NoneAstray(d: Disk, files: seq<string>) {
    forall i :: 0 <= i < |files| ==> !Astray(d, files[i])
  }

  ghost predicate Smaller(d': Disk, d: Disk) {
    forall q :: q in d' ==> q in d && d'[q] == d[q]
  }

  /** What a path that runs through no link looks at is what it names. */
  lemma StraightLook(d: Disk, path: string)
    requires !Astray(d, path)
    ensures var p := Segments(path);
            && LookAt(d, path) == (if ThroughFile(d, p) || (OpenEnd(path) && p in d && d[p].File?) then Trouble
                                   else if p in d then At(p) else Nothing)
            && (Sticks(d, path) <==> LookAt(d, path).At? && d[p] == Directory && DotEnd(path))
  {
    var p := Segments(path);
    var n := FirstLink(d, p, 0);
    assert n == |p|;
    assert p[..n] == p;
    assert Lead(d, p, OpenEnd(path), MAX_LINKS) == Some(p);
  }

  ghost predicate NoLinks(d: Disk) {
    forall q :: q in d ==> !d[q].Link?
  }

  lemma NoLinksIsStraight(d: Disk, path: string)
    requires NoLinks(d)
    ensures !Astray(d, path)
  {}

  lemma StaysStraight(d: Disk, d': Disk, path: string)
    requires Smaller(d', d) && !Astray(d, path)
    ensures !Astray(d', path)
  {
    var p := Segments(path);
    forall n | 0 <= n <= |p| && LinkAt(d', p, n) ensures LinkAt(d, p, n) {}
  }

  /* ---- a smaller tree ---- */

  /** The links that the way to `p` follows. */
  function Links(d: Disk, p: Path, through: bool, hops: nat): seq<Path>
    decreases hops
  {
    var n := FirstLink(d, p, 0);
    if (n == |p| && !(through && LinkAt(d, p, n))) || hops == 0 then []
    else [p[..n]] + Links(d, d[p[..n]].to + p[n..], through, hops - 1)
  }

  /** Those links, and the place at the end. */
  function TrailOf(d: Disk, path: string): seq<Path> {
    Links(d, Segments(path), OpenEnd(path), MAX_LINKS) + if LookAt(d, path).At? then [LookAt(d, path).place] else []
  }

  ghost predicate AllIn(s: seq<Path>, d: Disk) { forall w :: w in s ==> w in d }

  lemma FirstLinkIs(d: Disk, p: Path, n: nat)
    requires n <= |p| && (n < |p| ==> LinkAt(d, p, n)) && forall j :: 0 <= j < n ==> !LinkAt(d, p, j)
    ensures FirstLink(d, p, 0) == n
  {}

  lemma FewerLinks(d: Disk, d': Disk, p: Path, n: nat)
    requires Smaller(d', d) && n == FirstLink(d, p, 0) && (n < |p| ==> p[..n] in d')
    ensures FirstLink(d', p, 0) == n
  {
    forall j | 0 <= j < n ensures !LinkAt(d', p, j) { assert !LinkAt(d, p, j); }
    FirstLinkIs(d', p, n);
  }

  /** With all its links still there a way leads where it led. */
  lemma {:induction false} LeadStays(d: Disk, d': Disk, p: Path, through: bool, hops: nat)
    requires Smaller(d', d) && AllIn(Links(d, p, through, hops), d') && Lead(d, p, through, hops).Some?
    ensures Lead(d', p, through, hops) == Lead(d, p, through, hops)
    ensures through ==> (EndsInLink(d', p, hops) <==> EndsInLink(d, p, hops))
    decreases hops
  {
    var n := FirstLink(d, p, 0);
    if n == |p| && !(through && LinkAt(d, p, n)) {
      FewerLinks(d, d', p, n);
    } else {
      var link, next := p[..n], d[p[..n]].to + p[n..];
      assert link in Links(d, p, through, hops);
      FewerLinks(d, d', p, n);
      LeadStays(d, d', next, through, hops - 1);
    }
  }

  /** Where a link has gone, so has everything beyond it. */
  lemma LostWay(d: Disk, d': Disk, p: Path, n: nat)
    requires WellFormed(d) && WellFormed(d') && Smaller(d', d)
    requires n == FirstLink(d, p, 0) && LinkAt(d, p, n) && p[..n] !in d'
    ensures FirstLink(d', p, 0) == |p| && !LinkAt(d', p, |p|) && p !in d' && !ThroughFile(d', p)
  {
    forall m | n <= m <= |p| ensures p[..m] !in d' {
      if p[..m] in d' {
        assert p[..n] <= p[..m];
        AncestorsPresent(d', p[..n], p[..m]);
      }
    }
    assert p[..|p|] == p;
    forall j | 0 <= j < |p| ensures !LinkAt(d', p, j) {
      if j < n { assert !LinkAt(d, p, j); }
    }
    FirstLinkIs(d', p, |p|);
    forall k | 0 <= k < |p| && p[..k] in d' ensures !d'[p[..k]].File? {
      if d'[p[..k]].File? {
        assert k < n && p[..k] <= p[..n];
        NothingBelowALeaf(d, p[..k], p[..n]);
      }
    }
  }

  lemma LeadStep(d: Disk, p: Path, through: bool, hops: nat, n: nat)
    requires n == FirstLink(d, p, 0) && LinkAt(d, p, n) && (n < |p| || through) && hops > 0
    ensures var next := d[p[..n]].to + p[n..];
            && Lead(d, p, through, hops) == Lead(d, next, through, hops - 1)
            && Links(d, p, through, hops) == [p[..n]] + Links(d, next, through, hops - 1)
  {}

  lemma LeadStepOfLess(d: Disk, d': Disk, p: Path, through: bool, hops: nat, n: nat, next: Path)
    requires Smaller(d', d) && n == FirstLink(d, p, 0) && LinkAt(d, p, n) && (n < |p| || through) && hops > 0
    requires p[..n] in d' && next == d[p[..n]].to + p[n..]
    ensures Lead(d', p, through, hops) == Lead(d', next, through, hops - 1)
  {
    FewerLinks(d, d', p, n);
    LeadStep(d', p, through, hops, n);
  }

  lemma AllInCons(w: Path, rest: seq<Path>, d: Disk)
    ensures AllIn([w] + rest, d) <==> w in d && AllIn(rest, d)
  {
    forall v ensures v in [w] + rest <==> v == w || v in rest {}
  }

  /** The first lost link on a way: up to it the way leads as before. */
  lemma {:induction false} LostLink(d: Disk, d': Disk, p: Path, through: bool, hops: nat)
    returns (x: Path, n: nat, h: nat)
    requires Smaller(d', d) && !AllIn(Links(d, p, through, hops), d')
    ensures n <= |x| && n == FirstLink(d, x, 0) && LinkAt(d, x, n) && x[..n] !in d'
    ensures Lead(d', p, through, hops) == Lead(d', x, through, h)
    decreases hops
  {
    n := FirstLink(d, p, 0);
    var next := d[p[..n]].to + p[n..];
    LeadStep(d, p, through, hops, n);
    AllInCons(p[..n], Links(d, next, through, hops - 1), d');
    if p[..n] in d' {
      LeadStepOfLess(d, d', p, through, hops, n, next);
      x, n, h := LostLink(d, d', next, through, hops - 1);
    } else {
      x, h := p, hops;
    }
  }

  /** With one of its links gone a way leads to nothing. */
  lemma LeadIsLost(d: Disk, d': Disk, p: Path, through: bool, hops: nat)
    requires WellFormed(d) && WellFormed(d') && Smaller(d', d)
    requires !AllIn(Links(d, p, through, hops), d')
    ensures var r := Lead(d', p, through, hops); r.Some? && r.value !in d' && !ThroughFile(d', r.value)
  {
    var x, n, h := LostLink(d, d', p, through, hops);
    LostWay(d, d', x, n);
  }

  lemma {:induction false} LinksAreThere(d: Disk, p: Path, through: bool, hops: nat)
    ensures AllIn(Links(d, p, through, hops), d)
    decreases hops
  {
    var n := FirstLink(d, p, 0);
    if !((n == |p| && !(through && LinkAt(d, p, n))) || hops == 0) {
      LinksAreThere(d, d[p[..n]].to + p[n..], through, hops - 1);
    }
  }

  lemma SmallerThroughFile(d: Disk, d': Disk, p: Path)
    requires Smaller(d', d) && ThroughFile(d', p)
    ensures ThroughFile(d, p)
  {
    var n :| 0 <= n < |p| && p[..n] in d' && d'[p[..n]].File?;
    assert p[..n] in d && d[p[..n]].File?;
  }

  /** What could be looked at is looked at alike in a smaller tree, if its trail is still there. */
  lemma LookStays(d: Disk, d': Disk, path: string)
    requires Smaller(d', d) && LookAt(d, path).At? && AllIn(TrailOf(d, path), d')
    ensures LookAt(d', path) == LookAt(d, path) && (Sticks(d', path) <==> Sticks(d, path))
  {
    var p, links := Segments(path), Links(d, Segments(path), OpenEnd(path), MAX_LINKS);
    assert forall w :: w in links ==> w in TrailOf(d, path);
    LeadStays(d, d', p, OpenEnd(path), MAX_LINKS);
    var place := LookAt(d, path).place;
    assert place in TrailOf(d, path);
    if ThroughFile(d', place) { SmallerThroughFile(d, d', place); }
    DotEndIsOpen(path);
  }

  /** And else there is nothing to look at. */
  lemma LookIsLost(d: Disk, d': Disk, path: string)
    requires WellFormed(d) && WellFormed(d') && Smaller(d', d) && !LookAt(d, path).Trouble?
    requires LookAt(d, path).Nothing? || !AllIn(TrailOf(d, path), d')
    ensures LookAt(d', path) == Nothing
  {
    var p, links := Segments(path), Links(d, Segments(path), OpenEnd(path), MAX_LINKS);
    if AllIn(links, d') {
      LeadStays(d, d', p, OpenEnd(path), MAX_LINKS);
      var r := Lead(d, p, OpenEnd(path), MAX_LINKS).value;
      assert r !in d';
      if ThroughFile(d', r) { SmallerThroughFile(d, d', r); }
    } else {
      LeadIsLost(d, d', p, OpenEnd(path), MAX_LINKS);
    }
  }

  lemma TrailIsThere(d: Disk, path: string)
    requires LookAt(d, path).At?
    ensures AllIn(TrailOf(d, path), d) && LookAt(d, path).place in TrailOf(d, path)
  {
    LinksAreThere(d, Segments(path), OpenEnd(path), MAX_LINKS);
  }

  lemma StraightTrail(d: Disk, path: string)
    requires !Astray(d, path) && LookAt(d, path).At?
    ensures TrailOf(d, path) == [Segments(path)]
  {
    var p := Segments(path);
    StraightLook(d, path);
    FirstLinkIs(d, p, |p|);
    assert p[..|p|] == p;
  }
}
