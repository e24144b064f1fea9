/** Semantic Versioning 2.0.0 as the release policy script reads and orders it. */
module SemVer {
  import opened Options
  import opened Strings
  import opened Orders

  /* ---- identifiers ---- */

  predicate IsDigits(s: string) { s != "" && forall c :: c in s ==> IsDigit(c) }

  predicate IsIdentifier(s: string) {
    s != "" && forall c :: c in s ==> IsDigit(c) || IsAsciiLetter(c) || c == '-'
  }

  /** A numeral without leading zeros. */
  predicate IsNumeral(s: string) { IsDigits(s) && (s[0] == '0' ==> s == "0") }

  /** A prerelease identifier: if it is all digits it has no leading zero. */
  predicate IsPreIdentifier(s: string) { IsIdentifier(s) && (IsDigits(s) ==> IsNumeral(s)) }

  function Digit(c: char): (d: nat)
    requires IsDigit(c)
    ensures d < 10 && (d == 0 <==> c == '0')
  {
    c as int - '0' as int
  }

  function ToNat(s: string): nat
    requires forall c :: c in s ==> IsDigit(c)
  {
    if s == "" then 0
    else
      assert s[|s| - 1] in s;
      10 * ToNat(s[..|s| - 1]) + Digit(s[|s| - 1])
  }

  /* ---- texts and their parts ---- */

  /** The dotted lists a version string is made of. */
  datatype Parts = Parts(core: seq<string>, pre: Option<seq<string>>, build: Option<seq<string>>)

  predicate AllOf(p: string -> bool, items: Option<seq<string>>) {
    items.Some? ==> items.value != [] && forall i :: i in items.value ==> p(i)
  }

  predicate ValidParts(p: Parts) {
    && |p.core| == 3 && (forall n :: n in p.core ==> IsNumeral(n))
    && AllOf(IsPreIdentifier, p.pre) && AllOf(IsIdentifier, p.build)
  }

  function Tail(mark: string, items: Option<seq<string>>): string
    requires items.Some? ==> items.value != []
  {
    if items.Some? then mark + Join(items.value, '.') else ""
  }

  function Render(p: Parts): string
    requires ValidParts(p)
  {
    Join(p.core, '.') + Tail("-", p.pre) + Tail("+", p.build)
  }

  function Position(s: string, c: char): (i: nat)
    ensures i <= |s| && c !in s[..i] && (i < |s| ==> s[i] == c)
  {
    if s == "" || s[0] == c then 0 else
      var i := 1 + Position(s[1..], c);
      assert s[..i] == [s[0]] + s[1..][..i - 1];
      i
  }

  function Fields(s: string, at: nat): Option<seq<string>>
    requires at <= |s|
  {
    if at < |s| then Some(Split(s[at + 1..], '.')) else None
  }

  /** Cut at the first "+", then at the first "-" before it, then at the dots. */
  function Decompose(s: string): Parts {
    var plus := Position(s, '+');
    var head := s[..plus];
    var dash := Position(head, '-');
    Parts(Split(head[..dash], '.'), Fields(head, dash), Fields(s, plus))
  }

  /** A pattern anchored with "$" also matches before one trailing newline. */
  function WithoutFinalNewline(s: string): string {
    if s != "" && s[|s| - 1] == '\n' then s[..|s| - 1] else s
  }

  datatype Version = Version(base: seq<nat>, pre: Option<seq<string>>)

  predicate IsSemVer(s: string) {
    ValidParts(Decompose(WithoutFinalNewline(s)))
  }

  function ValueOf(p: Parts): Version
    requires ValidParts(p)
  {
    assert p.core[0] in p.core && p.core[1] in p.core && p.core[2] in p.core;
    Version([ToNat(p.core[0]), ToNat(p.core[1]), ToNat(p.core[2])], p.pre)
  }

  /** `parse_semver`, with `None` for the exception it raises. */
  function Parse(s: string): Option<Version> {
    if IsSemVer(s) then Some(ValueOf(Decompose(WithoutFinalNewline(s)))) else None
  }

  /* ---- precedence as the script computes it ---- */

  function CompareChar(a: char, b: char): int { Sign(a as int, b as int) }

  function CompareText(a: string, b: string): int { Lex(CompareChar, a, b) }

  function CompareItem(l: string, r: string): int {
    if IsDigits(l) && IsDigits(r) then Sign(ToNat(l), ToNat(r))
    else if IsDigits(l) != IsDigits(r) then (if IsDigits(l) then -1 else 1)
    else CompareText(l, r)
  }

  function ComparePre(l: Option<seq<string>>, r: Option<seq<string>>): int {
    if l.None? && r.None? then 0
    else if l.None? then 1
    else if r.None? then -1
    else Lex(CompareItem, l.value, r.value)
  }

  function CompareNumber(a: nat, b: nat): int { Sign(a, b) }

  function CompareBase(l: seq<nat>, r: seq<nat>): int { Lex(CompareNumber, l, r) }

  function CompareVersions(l: Version, r: Version): int {
    if l.base != r.base then CompareBase(l.base, r.base) else ComparePre(l.pre, r.pre)
  }

  /** The loop of `compare_prerelease` over two lists of identifiers. */
  method ComparePrerelease(left: Option<seq<string>>, right: Option<seq<string>>) returns (order: int)
    ensures order == ComparePre(left, right)
  {
    if left.None? && right.None? { return 0; }
    if left.None? { return 1; }
    if right.None? { return -1; }
    var l, r := left.value, right.value;
    var i := 0;
    while i < |l| && i < |r|
      invariant i <= |l| && i <= |r|
      invariant Lex(CompareItem, l, r) == Lex(CompareItem, l[i..], r[i..])
    {
      var leftNumeric, rightNumeric := IsDigits(l[i]), IsDigits(r[i]);
      assert l[i..][0] == l[i] && r[i..][0] == r[i] && l[i..][1..] == l[i + 1..] && r[i..][1..] == r[i + 1..];
      if leftNumeric && rightNumeric {
        if ToNat(l[i]) != ToNat(r[i]) {
          return if ToNat(l[i]) > ToNat(r[i]) then 1 else -1;
        }
      } else if leftNumeric != rightNumeric {
        return if leftNumeric then -1 else 1;
      } else if l[i] != r[i] {
        TextTiesAreEqual(l[i], r[i]);
        return if CompareText(l[i], r[i]) > 0 then 1 else -1;
      } else {
        TextTiesAreEqual(l[i], r[i]);
      }
      i := i + 1;
    }
    if |l| == |r| { return 0; }
    return if |l| > |r| then 1 else -1;
  }

  /* ---- precedence as section 11 of Semantic Versioning 2.0.0 states it ---- */

  predicate CharLess(a: char, b: char) { a < b }

  /** Items 11.4.1 to 11.4.3: numbers numerically, others in ASCII order, numbers before others. */
  ghost predicate ItemPrecedes(l: string, r: string) {
    if IsDigits(l) && IsDigits(r) then ToNat(l) < ToNat(r)
    else if IsDigits(l) || IsDigits(r) then IsDigits(l)
    else exists k: nat :: FirstDifference(CharLess, l, r, k)
  }

  /** Items 11.3 and 11.4.4: a prerelease comes before its release, and the first difference
      between identifiers decides, a shorter list coming first. */
  ghost predicate PrePrecedes(l: Option<seq<string>>, r: Option<seq<string>>) {
    l.Some? && (r.None? || exists k: nat :: FirstDifference(ItemPrecedes, l.value, r.value, k))
  }

  ghost predicate NumberLess(a: nat, b: nat) { a < b }

  /** Item 11.2: major, minor and patch, in this order and numerically. */
  ghost predicate Precedes(l: Version, r: Version) {
    if l.base != r.base then exists k: nat :: FirstDifference(NumberLess, l.base, r.base, k)
    else PrePrecedes(l.pre, r.pre)
  }

  ghost predicate ValidVersion(v: Version) {
    |v.base| == 3 && AllOf(IsPreIdentifier, v.pre)
  }

  /* ---- the comparison is a total preorder ---- */

  lemma CharsAndNumbersAreOrdered()
    ensures TotalPreorder(CompareChar) && TotalPreorder(CompareText)
  {
    LexIsTotalPreorder(CompareChar);
    var lifted := (a: string, b: string) => Lex(CompareChar, a, b);
    assert forall a, b :: CompareText(a, b) == lifted(a, b);
  }

  lemma ItemsAreOrdered()
    ensures TotalPreorder(CompareItem)
  {
    CharsAndNumbersAreOrdered();
  }

  lemma PreAntisymmetric(l: Option<seq<string>>, r: Option<seq<string>>)
    ensures -1 <= ComparePre(l, r) <= 1 && ComparePre(l, r) == -ComparePre(r, l)
  {
    ItemsAreOrdered();
    if l.Some? && r.Some? { LexAntisymmetric(CompareItem, l.value, r.value); }
  }

  lemma PreTransitive(l: Option<seq<string>>, m: Option<seq<string>>, r: Option<seq<string>>)
    requires ComparePre(l, m) <= 0 && ComparePre(m, r) <= 0
    ensures ComparePre(l, r) <= 0
  {
    ItemsAreOrdered();
    if l.Some? && m.Some? && r.Some? { LexTransitive(CompareItem, l.value, m.value, r.value); }
  }

  lemma BaseTies(l: seq<nat>, r: seq<nat>)
    ensures CompareBase(l, r) == 0 <==> l == r
    ensures CompareBase(l, r) < 0 <==> exists k: nat :: FirstDifference(NumberLess, l, r, k)
  {
    LexMeans(CompareNumber, NumberLess, l, r);
  }

  lemma VersionsAntisymmetric(l: Version, r: Version)
    ensures -1 <= CompareVersions(l, r) <= 1 && CompareVersions(l, r) == -CompareVersions(r, l)
  {
    LexAntisymmetric(CompareNumber, l.base, r.base);
    PreAntisymmetric(l.pre, r.pre);
  }

  lemma VersionsTransitive(l: Version, m: Version, r: Version)
    requires CompareVersions(l, m) <= 0 && CompareVersions(m, r) <= 0
    ensures CompareVersions(l, r) <= 0
  {
    BaseTies(l.base, m.base);
    BaseTies(m.base, r.base);
    BaseTies(l.base, r.base);
    LexTransitive(CompareNumber, l.base, m.base, r.base);
    if l.base == r.base {
      LexAntisymmetric(CompareNumber, l.base, m.base);
      PreTransitive(l.pre, m.pre, r.pre);
    }
  }

  lemma CompareIsTotalPreorder()
    ensures TotalPreorder(CompareVersions)
  {
    forall l, r ensures -1 <= CompareVersions(l, r) <= 1 && CompareVersions(l, r) == -CompareVersions(r, l) {
      VersionsAntisymmetric(l, r);
    }
    forall l, m, r | CompareVersions(l, m) <= 0 && CompareVersions(m, r) <= 0 ensures CompareVersions(l, r) <= 0 {
      VersionsTransitive(l, m, r);
    }
  }

  /* ---- the comparison is section 11 ---- */

  lemma TextTiesAreEqual(l: string, r: string)
    ensures CompareText(l, r) == 0 <==> l == r
    ensures CompareText(l, r) < 0 <==> exists k: nat :: FirstDifference(CharLess, l, r, k)
    ensures -1 <= CompareText(l, r) <= 1
  {
    LexMeans(CompareChar, CharLess, l, r);
    CharsAndNumbersAreOrdered();
  }

  lemma {:induction false} NumberOfUnpadded(s: string)
    requires forall c :: c in s ==> IsDigit(c)
    requires s != "" && s[0] != '0'
    ensures ToNat(s) >= 1
  {
    if |s| > 1 {
      NumberOfUnpadded(s[..|s| - 1]);
    } else {
      assert s[0] in s && s[..0] == "";
    }
  }

  /** Numerals without leading zeros are determined by their value. */
  lemma {:induction false} UnpaddedNumeralsInjective(s: string, t: string)
    requires (forall c :: c in s ==> IsDigit(c)) && (s != "" ==> s[0] != '0')
    requires (forall c :: c in t ==> IsDigit(c)) && (t != "" ==> t[0] != '0')
    requires ToNat(s) == ToNat(t)
    ensures s == t
    decreases |s|
  {
    if s == "" || t == "" {
      if s != "" { NumberOfUnpadded(s); }
      if t != "" { NumberOfUnpadded(t); }
    } else {
      var a, b := s[|s| - 1], t[|t| - 1];
      assert a in s && b in t;
      assert Digit(a) == ToNat(s) % 10 && Digit(b) == ToNat(t) % 10;
      assert a == b;
      UnpaddedNumeralsInjective(s[..|s| - 1], t[..|t| - 1]);
      assert s == s[..|s| - 1] + [a] && t == t[..|t| - 1] + [b];
    }
  }

  lemma NumeralsInjective(s: string, t: string)
    requires IsNumeral(s) && IsNumeral(t) && ToNat(s) == ToNat(t)
    ensures s == t
  {
    if s[0] == '0' || t[0] == '0' {
      assert ToNat("0") == 0;
      if s[0] != '0' { NumberOfUnpadded(s); }
      if t[0] != '0' { NumberOfUnpadded(t); }
    } else {
      UnpaddedNumeralsInjective(s, t);
    }
  }

  lemma ItemMeans(l: string, r: string)
    requires IsPreIdentifier(l) && IsPreIdentifier(r)
    ensures CompareItem(l, r) == 0 <==> l == r
    ensures CompareItem(l, r) < 0 <==> ItemPrecedes(l, r)
  {
    if IsDigits(l) && IsDigits(r) {
      if ToNat(l) == ToNat(r) { NumeralsInjective(l, r); }
    } else {
      TextTiesAreEqual(l, r);
    }
  }

  /** On versions the script can have parsed, ties are exactly equal base and prerelease, and
      the comparison is negative exactly when section 11 puts the left version first. */
  lemma CompareIsPrecedence(l: Version, r: Version)
    requires ValidVersion(l) && ValidVersion(r)
    ensures CompareVersions(l, r) == 0 <==> l == r
    ensures CompareVersions(l, r) < 0 <==> Precedes(l, r)
  {
    BaseTies(l.base, r.base);
    if l.base == r.base && l.pre.Some? && r.pre.Some? {
      forall x, y | x in l.pre.value && y in r.pre.value
        ensures (CompareItem(x, y) == 0 <==> x == y) && (CompareItem(x, y) < 0 <==> ItemPrecedes(x, y))
      {
        ItemMeans(x, y);
      }
      LexMeans(CompareItem, ItemPrecedes, l.pre.value, r.pre.value);
    }
  }

  /* ---- the texts are the grammar ---- */

  lemma {:induction false} JoinUses(items: seq<string>, c: char)
    requires items != [] && c != '.' && forall i :: i in items ==> c !in i
    ensures c !in Join(items, '.')
  {
    assert items[0] in items;
    if |items| > 1 { JoinUses(items[1..], c); }
  }

  lemma {:induction false} PositionAfter(a: string, c: char, b: string)
    requires c !in a
    ensures Position(a + [c] + b, c) == |a|
  {
    if a == "" {
      assert a + [c] + b == [c] + b;
    } else {
      assert a[0] in a;
      assert (a + [c] + b)[1..] == a[1..] + [c] + b;
      PositionAfter(a[1..], c, b);
    }
  }

  lemma {:induction false} PositionAbsent(a: string, c: char)
    requires c !in a
    ensures Position(a, c) == |a|
  {
    if a != "" {
      assert a[0] in a;
      PositionAbsent(a[1..], c);
    }
  }

  /** Cutting `head + tail` at the mark that starts the tail gives both back. */
  lemma CutTail(head: string, mark: char, items: Option<seq<string>>)
    requires mark !in head && mark != '.'
    requires items.Some? ==> items.value != [] && forall i :: i in items.value ==> '.' !in i
    ensures var s := head + Tail([mark], items);
            Position(s, mark) == |head| && s[..|head|] == head && Fields(s, |head|) == items
  {
    var s := head + Tail([mark], items);
    if items.Some? {
      var text := Join(items.value, '.');
      assert s == head + [mark] + text;
      PositionAfter(head, mark, text);
      assert s[|head| + 1..] == text;
      SplitOfJoin(items.value, '.');
    } else {
      assert s == head;
      PositionAbsent(head, mark);
    }
  }

  lemma NumeralsAreClean(items: seq<string>)
    requires forall n :: n in items ==> IsNumeral(n)
    ensures forall n :: n in items ==> '.' !in n && '-' !in n && '+' !in n && '\n' !in n
  {}

  lemma IdentifiersAreClean(items: seq<string>)
    requires forall n :: n in items ==> IsIdentifier(n)
    ensures forall n :: n in items ==> '.' !in n && '+' !in n && '\n' !in n
  {}

  lemma TailUses(mark: char, items: Option<seq<string>>, c: char)
    requires c != '.' && c != mark
    requires items.Some? ==> items.value != [] && forall i :: i in items.value ==> c !in i
    ensures c !in Tail([mark], items)
  {
    if items.Some? { JoinUses(items.value, c); }
  }

  /** Reading a rendered version gives its parts back. */
  lemma RenderThenDecompose(p: Parts)
    requires ValidParts(p)
    ensures Decompose(Render(p)) == p
    ensures WithoutFinalNewline(Render(p)) == Render(p)
  {
    var core := Join(p.core, '.');
    NumeralsAreClean(p.core);
    JoinUses(p.core, '-');
    JoinUses(p.core, '+');
    JoinUses(p.core, '\n');
    SplitOfJoin(p.core, '.');
    if p.pre.Some? { IdentifiersAreClean(p.pre.value); }
    if p.build.Some? { IdentifiersAreClean(p.build.value); }
    CutTail(core, '-', p.pre);
    TailUses('-', p.pre, '+');
    TailUses('-', p.pre, '\n');
    TailUses('+', p.build, '\n');
    CutTail(core + Tail("-", p.pre), '+', p.build);
    assert '\n' !in Render(p);
  }

  lemma FieldsRender(s: string, mark: char)
    ensures var at := Position(s, mark); s == s[..at] + Tail([mark], Fields(s, at))
  {
    var at := Position(s, mark);
    if at < |s| {
      JoinOfSplit(s[at + 1..], '.');
      assert s == s[..at] + [mark] + s[at + 1..];
    }
  }

  /** Rendering what was read gives the text back. */
  lemma DecomposeThenRender(s: string)
    requires ValidParts(Decompose(s))
    ensures Render(Decompose(s)) == s
  {
    FieldsRender(s, '+');
    var head := s[..Position(s, '+')];
    FieldsRender(head, '-');
    JoinOfSplit(head[..Position(head, '-')], '.');
  }

  /** The texts the script accepts are exactly the renderings of valid parts, with or without a
      final newline. */
  lemma SemVerIsTheGrammar(s: string)
    ensures IsSemVer(s) <==> exists p :: ValidParts(p) && WithoutFinalNewline(s) == Render(p)
  {
    if IsSemVer(s) {
      DecomposeThenRender(WithoutFinalNewline(s));
    }
    if p :| ValidParts(p) && WithoutFinalNewline(s) == Render(p) {
      RenderThenDecompose(p);
    }
  }

  /** What the script can have parsed is a valid version. */
  lemma ParsedIsValid(s: string)
    requires IsSemVer(s)
    ensures Parse(s).Some? && ValidVersion(Parse(s).value)
  {}
}
