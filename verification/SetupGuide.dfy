/** The finalize block of the setup guide. */
module SetupGuide {
  import opened Strings

  const START := "<!-- G7-RUNTIME-FINALIZE-START -->"
  const FINISH := "<!-- G7-RUNTIME-FINALIZE-END -->"

  datatype Check = Check(name: string, status: string, message: string)

  datatype Report = Report(status: string, services: seq<string>, checks: seq<Check>)

  /** The fixed wording of the block, whatever its language. */
  datatype Wording = Wording(title: string, statusLine: string -> string, pathLines: string -> string,
                             servicesTitle: string, noService: string, serviceLine: string -> string,
                             checksTitle: string)

  /* ---- building the block ---- */

  function ServiceLines(w: Wording, services: seq<string>): string {
    if services == [] then ""
    else ServiceLines(w, services[..|services| - 1]) + w.serviceLine(services[|services| - 1])
  }

  function CheckLine(c: Check): string {
    "- [" + c.status + "] `" + c.name + "`: " + c.message + "\n"
  }

  function CheckLines(checks: seq<Check>): string {
    if checks == [] then "" else CheckLines(checks[..|checks| - 1]) + CheckLine(checks[|checks| - 1])
  }

  /** What follows the start mark. */
  function Body(w: Wording, webRoot: string, report: Report): string {
    "\n" + w.title + w.statusLine(report.status) + w.pathLines(webRoot) + w.servicesTitle +
    (if report.services == [] then w.noService else ServiceLines(w, report.services)) +
    w.checksTitle + CheckLines(report.checks) +
    "\n" + FINISH + "\n"
  }

  method BuildBody(w: Wording, webRoot: string, report: Report) returns (block: string)
    ensures block == Body(w, webRoot, report)
  {
    block := "\n" + w.title + w.statusLine(report.status) + w.pathLines(webRoot) + w.servicesTitle;
    if report.services == [] {
      block := block + w.noService;
    } else {
      ghost var head := block;
      for i := 0 to |report.services|
        invariant block == head + ServiceLines(w, report.services[..i])
      {
        var done := report.services[..i];
        assert report.services[..i + 1] == done + [report.services[i]] && (done + [report.services[i]])[..i] == done;
        Assoc(head, ServiceLines(w, done), w.serviceLine(report.services[i]));
        block := block + w.serviceLine(report.services[i]);
      }
      assert report.services[..|report.services|] == report.services;
    }
    block := block + w.checksTitle;
    ghost var head := block;
    for i := 0 to |report.checks|
      invariant block == head + CheckLines(report.checks[..i])
    {
      var done := report.checks[..i];
      assert report.checks[..i + 1] == done + [report.checks[i]] && (done + [report.checks[i]])[..i] == done;
      Assoc(head, CheckLines(done), CheckLine(report.checks[i]));
      block := block + CheckLine(report.checks[i]);
    }
    assert report.checks[..|report.checks|] == report.checks;
    block := block + "\n" + FINISH + "\n";
  }

  /* ---- replacing it ---- */

  predicate IsWhitespace(c: char) {
    var u := c as int;
    9 <= u <= 13 || u == 32 || u == 0x85 || u == 0xA0 || u == 0x1680 || 0x2000 <= u <= 0x200A ||
    u == 0x2028 || u == 0x2029 || u == 0x202F || u == 0x205F || u == 0x3000
  }

  function TrimEnd(s: string): string {
    if s != "" && IsWhitespace(s[|s| - 1]) then TrimEnd(s[..|s| - 1]) else s
  }

  /** Everything before the first occurrence of the mark, or the whole text. */
  function Before(s: string, mark: string): string {
    if mark <= s || s == "" then "" else [s[0]] + Before(s[1..], mark)
  }

  /** The part of the text an update keeps. */
  function Kept(existing: string, mark: string): string {
    TrimEnd(Before(existing, mark))
  }

  function Replaced(existing: string, mark: string, body: string): string {
    Kept(existing, mark) + ("\n\n" + (mark + (body + "\n")))
  }

  /** `update_setup_guide`: the new text of the guide. */
  function Update(existing: string, w: Wording, webRoot: string, report: Report): string {
    Replaced(existing, START, Body(w, webRoot, report))
  }

  /* ---- lemmas ---- */

  lemma {:induction false} TrimIsPrefix(s: string)
    ensures TrimEnd(s) <= s
  {
    if s != "" && IsWhitespace(s[|s| - 1]) { TrimIsPrefix(s[..|s| - 1]); }
  }

  lemma {:induction false} TrimTwice(s: string)
    ensures TrimEnd(TrimEnd(s)) == TrimEnd(s)
  {
    if s != "" && IsWhitespace(s[|s| - 1]) { TrimTwice(s[..|s| - 1]); }
  }

  lemma TrimNewline(s: string)
    ensures TrimEnd(s + "\n") == TrimEnd(s)
  {
    assert (s + "\n")[..|s|] == s;
  }

  lemma {:induction false} BeforeHasNoMark(s: string, mark: string)
    requires mark != ""
    ensures !Contains(Before(s, mark), mark)
    ensures Before(s, mark) <= s
  {
    if !(mark <= s) && s != "" {
      BeforeHasNoMark(s[1..], mark);
      var b := Before(s, mark);
      assert b[1..] == Before(s[1..], mark);
      assert s == [s[0]] + s[1..];
    }
  }

  lemma {:induction false} PrefixHasNoMark(t: string, s: string, mark: string)
    requires t <= s && !Contains(s, mark)
    ensures !Contains(t, mark)
  {
    if t != "" {
      PrefixHasNoMark(t[1..], s[1..], mark);
    }
  }

  lemma MarkStartsHere(mark: string, rest: string)
    ensures Before(mark + rest, mark) == "" && Contains(mark + rest, mark)
  {
    assert mark <= mark + rest;
  }

  lemma NoMarkAcrossBreak(t: string, mark: string, end: string)
    requires '\n' !in mark && !(mark <= t)
    requires end != "" && end[0] == '\n'
    ensures !(mark <= t + end)
  {
    assert (t + end)[|t|] == '\n';
    assert |mark| > |t| ==> mark[|t|] in mark;
    assert |mark| <= |t| ==> (t + end)[..|mark|] == t[..|mark|];
  }

  lemma {:induction false} BeforeStopsAtMark(t: string, mark: string, rest: string)
    requires mark != "" && '\n' !in mark && !Contains(t, mark)
    ensures Before(t + ("\n\n" + (mark + rest)), mark) == t + "\n\n"
    ensures Contains(t + ("\n\n" + (mark + rest)), mark)
  {
    var end := "\n\n" + (mark + rest);
    var s := t + end;
    if t == "" {
      assert s == end;
      MarkStartsHere(mark, rest);
      assert mark[0] in mark;
      assert end[1..] == "\n" + (mark + rest) && end[1..][1..] == mark + rest;
      assert Before(end[1..], mark) == "\n" + "";
    } else {
      NoMarkAcrossBreak(t, mark, end);
      assert s[1..] == t[1..] + end;
      BeforeStopsAtMark(t[1..], mark, rest);
      Assoc([t[0]], t[1..], "\n\n");
      assert [t[0]] + t[1..] == t;
    }
  }

  /** The kept part has no mark and no trailing whitespace. */
  lemma KeptIsClean(existing: string, mark: string)
    requires mark != ""
    ensures !Contains(Kept(existing, mark), mark) && TrimEnd(Kept(existing, mark)) == Kept(existing, mark)
    ensures Kept(existing, mark) <= existing
  {
    var head := Before(existing, mark);
    BeforeHasNoMark(existing, mark);
    TrimIsPrefix(head);
    TrimTwice(head);
    PrefixHasNoMark(TrimEnd(head), head, mark);
  }

  /** Replacing a block by another forgets the first. */
  lemma ReplacingForgets(existing: string, mark: string, first: string, second: string)
    requires mark != "" && '\n' !in mark
    ensures Replaced(Replaced(existing, mark, first), mark, second) == Replaced(existing, mark, second)
  {
    var t := Kept(existing, mark);
    KeptIsClean(existing, mark);
    BeforeStopsAtMark(t, mark, first + "\n");
    assert t + "\n\n" == (t + "\n") + "\n";
    TrimNewline(t + "\n");
    TrimNewline(t);
  }

  lemma StartIsAMark()
    ensures START != "" && '\n' !in START
  {}

  /** The last finalize wins: for every existing text, updating twice, even with different web
      roots and reports, gives exactly the text of updating once with the second. */
  lemma LastWriterWins(existing: string, w: Wording, root1: string, report1: Report, root2: string, report2: Report)
    ensures Update(Update(existing, w, root1, report1), w, root2, report2) == Update(existing, w, root2, report2)
  {
    StartIsAMark();
    ReplacingForgets(existing, START, Body(w, root1, report1), Body(w, root2, report2));
  }

  lemma {:induction false} TailAfterMarkIsIgnored(s: string, tail: string, mark: string)
    requires Contains(s, mark)
    ensures Contains(s + tail, mark) && Before(s + tail, mark) == Before(s, mark)
  {
    if !(mark <= s) {
      assert (s + tail)[1..] == s[1..] + tail;
      TailAfterMarkIsIgnored(s[1..], tail, mark);
      if mark <= s + tail {
        FirstMark(s, tail, mark);
      }
    }
  }

  lemma {:induction false} ContainsNeedsRoom(s: string, mark: string)
    requires Contains(s, mark)
    ensures |mark| <= |s|
  {
    if !(mark <= s) { ContainsNeedsRoom(s[1..], mark); }
  }

  lemma FirstMark(s: string, tail: string, mark: string)
    requires Contains(s, mark) && mark <= s + tail
    ensures mark <= s
  {
    ContainsNeedsRoom(s, mark);
  }

  /** Whatever an operator wrote after the first start mark, even after the end mark, is lost by
      the next update. */
  lemma TextAfterMarkIsLost(existing: string, tail: string, w: Wording, root: string, report: Report)
    requires Contains(existing, START)
    ensures Update(existing + tail, w, root, report) == Update(existing, w, root, report)
  {
    TailAfterMarkIsIgnored(existing, tail, START);
  }
}
