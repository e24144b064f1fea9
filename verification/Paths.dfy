/** Absolute path strings and the directory tree positions they name. */
module Paths {
  import opened Strings

  /** A position in the tree: the names from the root down. */
  type Path = seq<string>

  /** The directory a place lies in. */
  function Parent(p: Path): Path { if p == [] then [] else p[..|p| - 1] }

  predicate Plain(name: string) {
    name != "" && name != "." && '/' !in name
  }

  predicate AllPlain(p: Path) {
    forall name :: name in p ==> Plain(name)
  }

  /** The path string with exactly one slash before each name. */
  function PathOf(p: Path): string {
    if p == [] then "" else "/" + p[0] + PathOf(p[1..])
  }

  function KeepNames(parts: seq<string>): seq<string> {
    if parts == [] then []
    else (if parts[0] == "" || parts[0] == "." then [] else [parts[0]]) + KeepNames(parts[1..])
  }

  /** Where an absolute path string without ".." leads: empty and "." components are skipped, as
      the operating system and `Path::components` do. */
  function Segments(path: string): Path {
    KeepNames(Split(path, '/'))
  }

  predicate Canonical(path: string) {
    path == PathOf(Segments(path))
  }

  function CountNonEmpty(parts: seq<string>): nat {
    if parts == [] then 0 else (if parts[0] == "" then 0 else 1) + CountNonEmpty(parts[1..])
  }

  /** The source's depth: unlike `Segments` it also counts "." components. */
  function PathDepth(path: string): nat {
    CountNonEmpty(Split(path, '/'))
  }

  /** The path ends in "/" or "/.": then the operating system takes what it names for a directory. */
  predicate OpenEnd(path: string) {
    var parts := Split(path, '/');
    parts[|parts| - 1] == "" || parts[|parts| - 1] == "."
  }

  function LastName(parts: seq<string>): string {
    if parts == [] then ""
    else if parts[|parts| - 1] != "" then parts[|parts| - 1]
    else LastName(parts[..|parts| - 1])
  }

  /** The last component is ".", apart from slashes after it: such a directory cannot be removed. */
  predicate DotEnd(path: string) {
    LastName(Split(path, '/')) == "."
  }

  /** Neither position lies on or below the other. */
  predicate Apart(p: Path, q: Path) {
    !(p <= q) && !(q <= p)
  }

  lemma ApartReachesAlong(p: Path, r: Path, q: Path)
    requires Apart(p, r) && (r <= q || q <= r)
    ensures !(p <= q)
  {
    var i :| 0 <= i < |p| && i < |r| && p[i] != r[i];
    if i < |q| { assert q[i] == r[i]; }
  }

  lemma {:induction false} KeepNamesConcat(a: seq<string>, b: seq<string>)
    ensures KeepNames(a + b) == KeepNames(a) + KeepNames(b)
  {
    if a == [] {
      assert a + b == b;
    } else {
      assert (a + b)[1..] == a[1..] + b;
      KeepNamesConcat(a[1..], b);
    }
  }

  lemma SegmentsConcat(a: string, b: string)
    ensures Segments(a + "/" + b) == Segments(a) + Segments(b)
  {
    SplitConcat(a, b, '/');
    KeepNamesConcat(Split(a, '/'), Split(b, '/'));
  }

  lemma SegmentsOfName(name: string)
    requires '/' !in name
    ensures Segments(name) == if name == "" || name == "." then [] else [name]
  {
    SplitOfPart(name, '/');
    var none: seq<string> := [];
    assert [name][1..] == none && KeepNames(none) == none;
    assert KeepNames([name]) == (if name == "" || name == "." then [] else [name]) + none;
  }

  lemma {:induction false} SegmentsOfPath(p: Path)
    requires AllPlain(p)
    ensures Segments(PathOf(p)) == p
    decreases |p|
  {
    if p == [] {
      SegmentsOfName("");
    } else {
      var init, last := p[..|p| - 1], p[|p| - 1];
      assert p == init + [last] && last in p;
      SegmentsOfPath(init);
      SegmentsOfName(last);
      PathOfAppend(init, last);
      SegmentsConcat(PathOf(init), last);
    }
  }

  lemma {:induction false} PathOfAppend(p: Path, name: string)
    ensures PathOf(p + [name]) == PathOf(p) + "/" + name
  {
    if p == [] {
      assert PathOf([name]) == "/" + name + PathOf([]);
    } else {
      assert (p + [name])[1..] == p[1..] + [name];
      PathOfAppend(p[1..], name);
    }
  }

  lemma PathOfCons(name: string, rest: Path)
    ensures PathOf([name] + rest) == "/" + name + PathOf(rest)
  {
    assert ([name] + rest)[1..] == rest;
  }

  lemma {:induction false} KeptNamesArePlain(parts: seq<string>)
    requires forall p :: p in parts ==> '/' !in p
    ensures AllPlain(KeepNames(parts))
  {
    if parts != [] {
      KeptNamesArePlain(parts[1..]);
    }
  }

  lemma SegmentsArePlain(path: string)
    ensures AllPlain(Segments(path))
  {
    SplitPartsHaveNoSeparator(path, '/');
    KeptNamesArePlain(Split(path, '/'));
  }

  lemma {:induction false} CountOfPlain(p: Path)
    requires AllPlain(p)
    ensures CountNonEmpty(p) == |p|
  {
    if p != [] {
      assert p[0] in p;
      CountOfPlain(p[1..]);
    }
  }

  lemma {:induction false} CountConcat(a: seq<string>, b: seq<string>)
    ensures CountNonEmpty(a + b) == CountNonEmpty(a) + CountNonEmpty(b)
  {
    if a == [] {
      assert a + b == b;
    } else {
      assert (a + b)[1..] == a[1..] + b;
      CountConcat(a[1..], b);
    }
  }

  lemma DepthConcat(a: string, b: string)
    ensures PathDepth(a + "/" + b) == PathDepth(a) + PathDepth(b)
  {
    SplitConcat(a, b, '/');
    CountConcat(Split(a, '/'), Split(b, '/'));
  }

  lemma DepthOfName(name: string)
    requires '/' !in name
    ensures PathDepth(name) == if name == "" then 0 else 1
  {
    SplitOfPart(name, '/');
    var none: seq<string> := [];
    assert [name][1..] == none && CountNonEmpty(none) == 0;
  }

  lemma {:induction false} SplitOfPath(p: Path)
    requires AllPlain(p)
    ensures Split(PathOf(p), '/') == [""] + p
    decreases |p|
  {
    if p == [] {
      assert Split("", '/') == [""];
    } else {
      var init, last := p[..|p| - 1], p[|p| - 1];
      assert p == init + [last] && last in p;
      SplitOfPath(init);
      PathOfAppend(init, last);
      SplitConcat(PathOf(init), last, '/');
      SplitOfPart(last, '/');
    }
  }

  /** On canonical paths the depth is the number of names. */
  lemma DepthOfCanonical(path: string)
    requires Canonical(path)
    ensures PathDepth(path) == |Segments(path)|
  {
    SegmentsArePlain(path);
    SplitOfPath(Segments(path));
    CountOfPlain(Segments(path));
    assert ([""] + Segments(path))[1..] == Segments(path);
  }

  lemma CanonicalPathOf(p: Path)
    requires AllPlain(p)
    ensures Canonical(PathOf(p)) && Segments(PathOf(p)) == p
  {
    SegmentsOfPath(p);
  }

  lemma {:induction false} KeepNamesNone(parts: seq<string>)
    requires KeepNames(parts) == []
    ensures forall part :: part in parts ==> part == "" || part == "."
  {
    if parts != [] {
      assert |KeepNames(parts)| >= |KeepNames(parts[1..])|;
      KeepNamesNone(parts[1..]);
      assert parts == [parts[0]] + parts[1..];
    }
  }

  /** Whatever adds no name to a path leaves its end open. */
  lemma NoNamesIsOpen(a: string, rest: string)
    requires Segments(rest) == []
    ensures OpenEnd(a + "/" + rest)
  {
    SplitConcat(a, rest, '/');
    KeepNamesNone(Split(rest, '/'));
    var parts := Split(rest, '/');
    assert parts[|parts| - 1] in parts;
  }

  lemma DotEndIsOpen(path: string)
    ensures DotEnd(path) ==> OpenEnd(path)
  {}

  lemma EndOfConcat(a: string, name: string)
    requires '/' !in name && name != ""
    ensures OpenEnd(a + "/" + name) <==> name == "."
    ensures DotEnd(a + "/" + name) <==> name == "."
  {
    SplitConcat(a, name, '/');
    SplitOfPart(name, '/');
  }

  /** Canonical paths end in a name. */
  lemma CanonicalEnd(path: string)
    requires Canonical(path)
    ensures !DotEnd(path) && (Segments(path) != [] ==> !OpenEnd(path))
  {
    SegmentsArePlain(path);
    SplitOfPath(Segments(path));
    if Segments(path) != [] {
      assert Segments(path)[|Segments(path)| - 1] in Segments(path);
    } else {
      assert Split(path, '/') == [""];
    }
  }

  lemma {:induction false} NoDoubleDots(p: Path)
    requires forall name :: name in p ==> !Contains(name, "..")
    ensures !Contains(PathOf(p), "..")
    decreases |p|
  {
    if p == [] {
      NoDots("");
    } else {
      var init, last := p[..|p| - 1], p[|p| - 1];
      assert p == init + [last] && last in p;
      NoDoubleDots(init);
      PathOfAppend(init, last);
      ContainsAcross(PathOf(init), '/', last, "..");
    }
  }
}
