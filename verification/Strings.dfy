/** Splitting, joining and searching strings. */
module Strings {

  /** The parts of `s` between separators; there is always at least one. */
  function Split(s: string, sep: char): (parts: seq<string>)
    ensures parts != []
  {
    if s == "" then [""]
    else
      var rest := Split(s[1..], sep);
      if s[0] == sep then [""] + rest else [[s[0]] + rest[0]] + rest[1..]
  }

  function Join(parts: seq<string>, sep: char): string
    requires parts != []
  {
    if |parts| == 1 then parts[0] else parts[0] + [sep] + Join(parts[1..], sep)
  }

  lemma {:induction false} SplitPartsHaveNoSeparator(s: string, sep: char)
    ensures forall p :: p in Split(s, sep) ==> sep !in p
  {
    if s != "" {
      SplitPartsHaveNoSeparator(s[1..], sep);
    }
  }

  lemma {:induction false} SplitOfPart(part: string, sep: char)
    requires sep !in part
    ensures Split(part, sep) == [part]
  {
    if part != "" {
      assert part[0] in part;
      SplitOfPart(part[1..], sep);
      assert [part[0]] + part[1..] == part;
    }
  }

  lemma {:induction false} SplitConcat(a: string, b: string, sep: char)
    ensures Split(a + [sep] + b, sep) == Split(a, sep) + Split(b, sep)
  {
    if a == "" {
      assert a + [sep] + b == [sep] + b;
    } else {
      assert (a + [sep] + b)[1..] == a[1..] + [sep] + b;
      SplitConcat(a[1..], b, sep);
    }
  }

  lemma {:induction false} SplitOfJoin(parts: seq<string>, sep: char)
    requires parts != [] && forall p :: p in parts ==> sep !in p
    ensures Split(Join(parts, sep), sep) == parts
  {
    SplitOfPart(parts[0], sep);
    if |parts| > 1 {
      SplitOfJoin(parts[1..], sep);
      SplitConcat(parts[0], Join(parts[1..], sep), sep);
    }
  }

  lemma {:induction false} JoinOfSplit(s: string, sep: char)
    ensures Join(Split(s, sep), sep) == s
  {
    if s != "" {
      JoinOfSplit(s[1..], sep);
      var rest := Split(s[1..], sep);
      if s[0] == sep {
        assert ([""] + rest)[1..] == rest;
      } else {
        assert ([[s[0]] + rest[0]] + rest[1..])[1..] == rest[1..];
      }
    }
  }

  lemma Assoc(a: string, b: string, c: string)
    ensures (a + b) + c == a + (b + c)
  {}

  predicate Contains(s: string, mark: string) {
    mark <= s || (s != "" && Contains(s[1..], mark))
  }

  lemma {:induction false} ContainsAt(s: string, i: nat, mark: string)
    requires i <= |s| && mark <= s[i..]
    ensures Contains(s, mark)
  {
    if i > 0 {
      assert s[1..][i - 1..] == s[i..];
      ContainsAt(s[1..], i - 1, mark);
    }
  }

  lemma LongMarkMeetsSeparator(a: string, sep: char, b: string, mark: string)
    requires mark <= a + [sep] + b && |mark| > |a|
    ensures sep in mark
  {
    assert mark[|a|] == (a + [sep] + b)[|a|];
  }

  /** Nothing can be found across a separator it does not hold. */
  lemma {:induction false} ContainsAcross(a: string, sep: char, b: string, mark: string)
    requires mark != "" && sep !in mark
    ensures Contains(a + [sep] + b, mark) <==> Contains(a, mark) || Contains(b, mark)
  {
    var s := a + [sep] + b;
    if mark <= s && |mark| > |a| { LongMarkMeetsSeparator(a, sep, b, mark); }
    assert mark <= s <==> mark <= a;
    if a == "" {
      assert s[1..] == b;
    } else {
      assert s[1..] == a[1..] + [sep] + b;
      ContainsAcross(a[1..], sep, b, mark);
    }
  }

  lemma DotsStart(s: string)
    requires s != ""
    ensures ".." <= s ==> |s| > 1 && s[0] == s[1] == '.'
  {}

  lemma {:induction false} NoDots(s: string)
    requires '.' !in s
    ensures !Contains(s, "..")
  {
    if s != "" {
      DotsStart(s);
      assert s[0] in s;
      NoDots(s[1..]);
    }
  }

  lemma {:induction false} OneDot(a: string, b: string)
    requires '.' !in a && '.' !in b
    ensures !Contains(a + "." + b, "..")
  {
    var s := a + "." + b;
    DotsStart(s);
    if a == "" {
      assert s[1..] == b;
      NoDots(b);
      if b != "" { assert b[0] in b; }
    } else {
      assert s[1..] == a[1..] + "." + b && s[0] == a[0] && a[0] in a;
      OneDot(a[1..], b);
    }
  }

  predicate EndsWith(s: string, suffix: string) {
    |suffix| <= |s| && s[|s| - |suffix|..] == suffix
  }

  predicate IsDigit(c: char) { '0' <= c <= '9' }

  predicate IsAsciiLetter(c: char) { 'a' <= c <= 'z' || 'A' <= c <= 'Z' }
}
