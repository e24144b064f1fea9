/** Text the installer writes for MySQL and PHP, and independent readers that take it apart. */
module Quoting {
  import opened Options
  import opened Strings

  /** `str::replace` of one character. */
  function Replace(s: string, c: char, with: string): string {
    if s == "" then "" else (if s[0] == c then with else [s[0]]) + Replace(s[1..], c, with)
  }

  lemma {:induction false} ReplaceAbsent(s: string, c: char, with: string)
    requires c !in s
    ensures Replace(s, c, with) == s
  {
    if s != "" {
      assert s[0] in s;
      ReplaceAbsent(s[1..], c, with);
    }
  }

  /* ---- writing ---- */

  function EscapeMysqlIdentifier(value: string): string { Replace(value, '`', "``") }

  function EscapeMysqlString(value: string): string { Replace(Replace(value, '\\', "\\\\"), '\'', "''") }

  function PhpString(value: string): string { Replace(Replace(value, '\\', "\\\\"), '\'', "\\'") }

  const DROP_DATABASE := ["DROP", "DATABASE", "IF", "EXISTS"]
  const DROP_USER := ["DROP", "USER", "IF", "EXISTS"]
  const END := ";\n"

  /** Each word followed by a space. */
  function Spaced(words: seq<string>): string {
    if words == [] then "" else words[0] + (" " + Spaced(words[1..]))
  }

  /** DROP DATABASE IF EXISTS `name`; and what follows. */
  function DropDatabaseSql(name: string, rest: string): string {
    Spaced(DROP_DATABASE) + ("`" + (EscapeMysqlIdentifier(name) + ("`" + (END + rest))))
  }

  /** DROP USER IF EXISTS 'user'@'localhost'; and what follows. */
  function DropUserSql(user: string, rest: string): string {
    Spaced(DROP_USER) + ("'" + (EscapeMysqlString(user) + ("'" + ("@" + ("'" + ("localhost" + ("'" + (END + rest))))))))
  }

  /** FLUSH PRIVILEGES; */
  const FLUSH_SQL := "FLUSH" + (" " + ("PRIVILEGES" + (END + "")))

  function DatabaseResetSql(database: Option<string>, user: Option<string>): string {
    var tail := if user.Some? then DropUserSql(user.value, FLUSH_SQL) else FLUSH_SQL;
    if database.Some? then DropDatabaseSql(database.value, tail) else tail
  }

  /* ---- reading MySQL ---- */

  /** A name or text up to its closing quote, and what follows it. */
  datatype Read = Read(text: string, rest: string)

  function Prepend(text: string, r: Option<Read>): Option<Read> {
    if r.None? then None else Some(Read(text + r.value.text, r.value.rest))
  }

  /** A quoted identifier after its opening quote: a doubled quote stands for one. */
  function ReadIdentifier(s: string): Option<Read> {
    if s == "" then None
    else if s[0] == '`' then
      if |s| > 1 && s[1] == '`' then Prepend("`", ReadIdentifier(s[2..])) else Some(Read("", s[1..]))
    else Prepend([s[0]], ReadIdentifier(s[1..]))
  }

  /** What a backslash sequence stands for. */
  function Unescape(c: char): string {
    match c
    case '0' => "\0"
    case 'b' => [8 as char]
    case 'n' => "\n"
    case 'r' => "\r"
    case 't' => "\t"
    case 'Z' => [26 as char]
    case '%' => "\\%"
    case '_' => "\\_"
    case _ => [c]
  }

  /** A quoted string after its opening quote; `backslash` is the default mode, its absence the
      NO_BACKSLASH_ESCAPES mode. */
  function ReadString(s: string, backslash: bool): Option<Read> {
    if s == "" then None
    else if s[0] == '\'' then
      if |s| > 1 && s[1] == '\'' then Prepend("'", ReadString(s[2..], backslash)) else Some(Read("", s[1..]))
    else if s[0] == '\\' && backslash then
      if |s| == 1 then None else Prepend(Unescape(s[1]), ReadString(s[2..], backslash))
    else Prepend([s[0]], ReadString(s[1..], backslash))
  }

  datatype Token = Word(text: string) | Identifier(name: string) | Text(value: string) | Symbol(c: char)

  function WordEnd(s: string): (n: nat)
    ensures n <= |s|
  {
    if s != "" && IsAsciiLetter(s[0]) then 1 + WordEnd(s[1..]) else 0
  }

  function Cons(t: Token, rest: Option<seq<Token>>): Option<seq<Token>> {
    if rest.None? then None else Some([t] + rest.value)
  }

  lemma {:induction false} ReadsShrink(s: string)
    ensures ReadIdentifier(s).Some? ==> |ReadIdentifier(s).value.rest| < |s|
    ensures ReadString(s, true).Some? ==> |ReadString(s, true).value.rest| < |s|
  {
    if s != "" {
      ReadsShrink(s[1..]);
      if |s| > 1 { ReadsShrink(s[2..]); }
    }
  }

  function Tokens(s: string): Option<seq<Token>>
    decreases |s|
  {
    if s == "" then Some([])
    else if s[0] == ' ' || s[0] == '\n' then Tokens(s[1..])
    else if s[0] == '`' then
      ReadsShrink(s[1..]);
      var r := ReadIdentifier(s[1..]);
      if r.None? then None else Cons(Identifier(r.value.text), Tokens(r.value.rest))
    else if s[0] == '\'' then
      ReadsShrink(s[1..]);
      var r := ReadString(s[1..], true);
      if r.None? then None else Cons(Text(r.value.text), Tokens(r.value.rest))
    else if IsAsciiLetter(s[0]) then
      Cons(Word(s[..WordEnd(s)]), Tokens(s[WordEnd(s)..]))
    else Cons(Symbol(s[0]), Tokens(s[1..]))
  }

  datatype Statement = DropDatabase(name: string) | DropUser(user: string, host: string) | FlushPrivileges

  function WordsOf(words: seq<string>): seq<Token> {
    if words == [] then [] else [Word(words[0])] + WordsOf(words[1..])
  }

  /** The statements a token sequence consists of. */
  function Statements(ts: seq<Token>): Option<seq<Statement>> {
    if ts == [] then Some([])
    else if |ts| >= 3 && ts[0] == Word("FLUSH") && ts[1] == Word("PRIVILEGES") && ts[2] == Symbol(';') then
      More(FlushPrivileges, Statements(ts[3..]))
    else if |ts| >= 6 && ts[..4] == WordsOf(DROP_DATABASE) && ts[4].Identifier? && ts[5] == Symbol(';') then
      More(DropDatabase(ts[4].name), Statements(ts[6..]))
    else if |ts| >= 8 && ts[..4] == WordsOf(DROP_USER) &&
            ts[4].Text? && ts[5] == Symbol('@') && ts[6].Text? && ts[7] == Symbol(';') then
      More(DropUser(ts[4].value, ts[6].value), Statements(ts[8..]))
    else None
  }

  function More(first: Statement, rest: Option<seq<Statement>>): Option<seq<Statement>> {
    if rest.None? then None else Some([first] + rest.value)
  }

  function ReadScript(s: string): Option<seq<Statement>> {
    var ts := Tokens(s);
    if ts.None? then None else Statements(ts.value)
  }

  /* ---- single quoted values ---- */

  lemma PrependTail(c: char, value: string, rest: string)
    requires value != "" && value[0] == c
    ensures Prepend([c], Some(Read(value[1..], rest))) == Some(Read(value, rest))
  {
    assert [c] + value[1..] == value;
  }

  lemma {:induction false} ReadsEscapedIdentifier(name: string, end: string, rest: string)
    requires ReadIdentifier(end) == Some(Read("", rest))
    ensures ReadIdentifier(EscapeMysqlIdentifier(name) + end) == Some(Read(name, rest))
  {
    if name == "" {
      assert EscapeMysqlIdentifier(name) + end == end;
    } else {
      var c, tail := name[0], EscapeMysqlIdentifier(name[1..]) + end;
      ReadsEscapedIdentifier(name[1..], end, rest);
      if c == '`' {
        Assoc("``", EscapeMysqlIdentifier(name[1..]), end);
        assert EscapeMysqlIdentifier(name) + end == [c, c] + tail;
        assert ([c, c] + tail)[2..] == tail;
      } else {
        Assoc([c], EscapeMysqlIdentifier(name[1..]), end);
        assert ([c] + tail)[1..] == tail;
      }
      PrependTail(c, name, rest);
    }
  }

  /** A quoted database name reads back as it was. */
  lemma IdentifierRoundTrip(name: string, rest: string)
    requires rest == "" || rest[0] != '`'
    ensures ReadIdentifier(EscapeMysqlIdentifier(name) + ("`" + rest)) == Some(Read(name, rest))
  {
    assert ("`" + rest)[1..] == rest;
    ReadsEscapedIdentifier(name, "`" + rest, rest);
  }

  /** What the two replacements of `EscapeMysqlString` do to each character. */
  function Doubled(value: string): string {
    if value == "" then ""
    else (if value[0] == '\\' || value[0] == '\'' then [value[0], value[0]] else [value[0]]) + Doubled(value[1..])
  }

  lemma {:induction false} EscapeIsDoubling(value: string)
    ensures EscapeMysqlString(value) == Doubled(value)
  {
    if value != "" {
      EscapeIsDoubling(value[1..]);
      var tail := Replace(value[1..], '\\', "\\\\");
      if value[0] == '\\' {
        assert ("\\\\" + tail)[1..] == "\\" + tail && ("\\" + tail)[1..] == tail;
        assert Replace("\\\\" + tail, '\'', "''") == "\\" + Replace("\\" + tail, '\'', "''");
      } else {
        assert ([value[0]] + tail)[1..] == tail;
      }
    }
  }

  lemma ReadPlain(c: char, tail: string, backslash: bool)
    requires c != '\'' && !(c == '\\' && backslash)
    ensures ReadString([c] + tail, backslash) == Prepend([c], ReadString(tail, backslash))
  {
    assert ([c] + tail)[1..] == tail;
  }

  lemma ReadPair(c: char, tail: string, backslash: bool)
    requires c == '\'' || (c == '\\' && backslash)
    ensures ReadString([c, c] + tail, backslash) == Prepend([c], ReadString(tail, backslash))
  {
    assert ([c, c] + tail)[2..] == tail;
  }

  lemma ReadClosing(rest: string, backslash: bool)
    requires rest == "" || rest[0] != '\''
    ensures ReadString("'" + rest, backslash) == Some(Read("", rest))
  {
    assert ("'" + rest)[1..] == rest;
  }

  lemma {:induction false} ReadsDoubled(value: string, end: string, rest: string)
    requires ReadString(end, true) == Some(Read("", rest))
    ensures ReadString(Doubled(value) + end, true) == Some(Read(value, rest))
  {
    if value == "" {
      assert Doubled(value) + end == end;
    } else {
      var c, tail := value[0], Doubled(value[1..]) + end;
      ReadsDoubled(value[1..], end, rest);
      if c == '\\' || c == '\'' {
        Assoc([c, c], Doubled(value[1..]), end);
        ReadPair(c, tail, true);
      } else {
        Assoc([c], Doubled(value[1..]), end);
        ReadPlain(c, tail, true);
      }
      PrependTail(c, value, rest);
    }
  }

  lemma {:induction false} ReadsDoubledWithoutBackslashMode(value: string, end: string, rest: string)
    requires ReadString(end, false) == Some(Read("", rest))
    ensures ReadString(Doubled(value) + end, false) == Some(Read(Replace(value, '\\', "\\\\"), rest))
  {
    if value == "" {
      assert Doubled(value) + end == end;
    } else {
      var c, tail := value[0], Doubled(value[1..]) + end;
      var read := Replace(value[1..], '\\', "\\\\");
      ReadsDoubledWithoutBackslashMode(value[1..], end, rest);
      if c == '\\' {
        Assoc([c, c], Doubled(value[1..]), end);
        Assoc([c], [c], tail);
        Assoc([c], [c], read);
        assert [c] + [c] == "\\\\";
        ReadPlain(c, tail, false);
        ReadPlain(c, [c] + tail, false);
      } else if c == '\'' {
        Assoc([c, c], Doubled(value[1..]), end);
        ReadPair(c, tail, false);
      } else {
        Assoc([c], Doubled(value[1..]), end);
        ReadPlain(c, tail, false);
      }
    }
  }

  /** In the default mode a quoted text reads back as it was. */
  lemma StringRoundTrip(value: string, rest: string)
    requires rest == "" || rest[0] != '\''
    ensures ReadString(EscapeMysqlString(value) + ("'" + rest), true) == Some(Read(value, rest))
  {
    EscapeIsDoubling(value);
    ReadClosing(rest, true);
    ReadsDoubled(value, "'" + rest, rest);
  }

  /** Without backslash escapes it reads back with every backslash doubled. */
  lemma StringWithoutBackslashMode(value: string, rest: string)
    requires rest == "" || rest[0] != '\''
    ensures ReadString(EscapeMysqlString(value) + ("'" + rest), false) == Some(Read(Replace(value, '\\', "\\\\"), rest))
  {
    EscapeIsDoubling(value);
    ReadClosing(rest, false);
    ReadsDoubledWithoutBackslashMode(value, "'" + rest, rest);
  }

  lemma {:induction false} DoublingKeepsIff(value: string)
    ensures |Replace(value, '\\', "\\\\")| >= |value|
    ensures Replace(value, '\\', "\\\\") == value <==> '\\' !in value
  {
    if value != "" {
      DoublingKeepsIff(value[1..]);
      assert value == [value[0]] + value[1..];
      if value[0] != '\\' {
        assert Replace(value, '\\', "\\\\")[1..] == Replace(value[1..], '\\', "\\\\");
      }
    }
  }

  /** In NO_BACKSLASH_ESCAPES mode a user name survives iff it has no backslash. */
  lemma WithoutBackslashModeIff(value: string, rest: string)
    requires rest == "" || rest[0] != '\''
    ensures ReadString(EscapeMysqlString(value) + ("'" + rest), false) == Some(Read(value, rest)) <==> '\\' !in value
  {
    StringWithoutBackslashMode(value, rest);
    DoublingKeepsIff(value);
  }

  /* ---- the whole script ---- */

  lemma {:induction false} WordEndOf(w: string, rest: string)
    requires forall c :: c in w ==> IsAsciiLetter(c)
    requires rest == "" || !IsAsciiLetter(rest[0])
    ensures WordEnd(w + rest) == |w|
  {
    if w == "" {
      assert w + rest == rest;
    } else {
      assert w[0] in w;
      assert (w + rest)[1..] == w[1..] + rest;
      WordEndOf(w[1..], rest);
    }
  }

  predicate IsWord(w: string) {
    w != "" && forall c :: c in w ==> IsAsciiLetter(c)
  }

  function All(ts: seq<Token>, rest: Option<seq<Token>>): Option<seq<Token>> {
    if rest.None? then None else Some(ts + rest.value)
  }

  lemma TokensOfWord(w: string, rest: string)
    requires IsWord(w)
    requires rest == "" || !IsAsciiLetter(rest[0])
    ensures Tokens(w + rest) == Cons(Word(w), Tokens(rest))
  {
    var s := w + rest;
    assert w[0] in w;
    WordEndOf(w, rest);
    assert s[..|w|] == w && s[|w|..] == rest;
  }

  lemma TokensOfSpace(rest: string)
    ensures Tokens(" " + rest) == Tokens(rest)
  {
    assert (" " + rest)[1..] == rest;
  }

  lemma {:induction false} TokensOfWords(words: seq<string>, rest: string)
    requires forall i :: 0 <= i < |words| ==> IsWord(words[i])
    ensures Tokens(Spaced(words) + rest) == All(WordsOf(words), Tokens(rest))
  {
    if words == [] {
      assert Spaced(words) + rest == rest;
      if Tokens(rest).Some? { assert WordsOf(words) + Tokens(rest).value == Tokens(rest).value; }
    } else {
      var tail := Spaced(words[1..]) + rest;
      TokensOfWords(words[1..], rest);
      assert Spaced(words) + rest == words[0] + (" " + tail);
      TokensOfWord(words[0], " " + tail);
      TokensOfSpace(tail);
      if Tokens(rest).Some? {
        assert [Word(words[0])] + (WordsOf(words[1..]) + Tokens(rest).value) == WordsOf(words) + Tokens(rest).value;
      }
    }
  }

  lemma TokensOfEnd(rest: string)
    ensures Tokens(END + rest) == Cons(Symbol(';'), Tokens(rest))
  {
    assert (END + rest)[1..] == "\n" + rest && ("\n" + rest)[1..] == rest;
  }

  lemma TokensOfName(name: string, rest: string)
    requires rest == "" || rest[0] != '`'
    ensures Tokens("`" + (EscapeMysqlIdentifier(name) + ("`" + rest))) == Cons(Identifier(name), Tokens(rest))
  {
    IdentifierRoundTrip(name, rest);
    var body := EscapeMysqlIdentifier(name) + ("`" + rest);
    assert ("`" + body)[1..] == body;
  }

  lemma TokensOfText(value: string, rest: string)
    requires rest == "" || rest[0] != '\''
    ensures Tokens("'" + (EscapeMysqlString(value) + ("'" + rest))) == Cons(Text(value), Tokens(rest))
  {
    StringRoundTrip(value, rest);
    var body := EscapeMysqlString(value) + ("'" + rest);
    assert ("'" + body)[1..] == body;
  }

  lemma KeywordsAreWords()
    ensures forall i :: 0 <= i < |DROP_DATABASE| ==> IsWord(DROP_DATABASE[i])
    ensures forall i :: 0 <= i < |DROP_USER| ==> IsWord(DROP_USER[i])
    ensures IsWord("FLUSH") && IsWord("PRIVILEGES")
  {}

  lemma PlainText(value: string)
    requires '\\' !in value && '\'' !in value
    ensures EscapeMysqlString(value) == value
  {
    ReplaceAbsent(value, '\\', "\\\\");
    ReplaceAbsent(value, '\'', "''");
  }

  lemma DropDatabaseTokens(name: string, rest: string)
    ensures Tokens(DropDatabaseSql(name, rest)) ==
            All(WordsOf(DROP_DATABASE), Cons(Identifier(name), Cons(Symbol(';'), Tokens(rest))))
  {
    KeywordsAreWords();
    TokensOfWords(DROP_DATABASE, "`" + (EscapeMysqlIdentifier(name) + ("`" + (END + rest))));
    TokensOfName(name, END + rest);
    TokensOfEnd(rest);
  }

  lemma HostTokens(host: string, rest: string)
    requires '\\' !in host && '\'' !in host
    ensures Tokens("@" + ("'" + (host + ("'" + (END + rest))))) ==
            Cons(Symbol('@'), Cons(Text(host), Cons(Symbol(';'), Tokens(rest))))
  {
    PlainText(host);
    var quoted := "'" + (host + ("'" + (END + rest)));
    assert ("@" + quoted)[1..] == quoted;
    TokensOfText(host, END + rest);
    TokensOfEnd(rest);
  }

  lemma DropUserTokens(user: string, rest: string)
    ensures Tokens(DropUserSql(user, rest)) ==
            All(WordsOf(DROP_USER),
                Cons(Text(user), Cons(Symbol('@'), Cons(Text("localhost"), Cons(Symbol(';'), Tokens(rest))))))
  {
    var host := "@" + ("'" + ("localhost" + ("'" + (END + rest))));
    KeywordsAreWords();
    TokensOfWords(DROP_USER, "'" + (EscapeMysqlString(user) + ("'" + host)));
    TokensOfText(user, host);
    HostTokens("localhost", rest);
  }

  lemma FlushTokens()
    ensures Tokens(FLUSH_SQL) == Some([Word("FLUSH"), Word("PRIVILEGES"), Symbol(';')])
  {
    KeywordsAreWords();
    var second := "PRIVILEGES" + (END + "");
    TokensOfWord("FLUSH", " " + second);
    TokensOfSpace(second);
    TokensOfWord("PRIVILEGES", END + "");
    TokensOfEnd("");
    assert Tokens("") == Some([]);
    assert [Word("FLUSH")] + ([Word("PRIVILEGES")] + ([Symbol(';')] + [])) ==
           [Word("FLUSH"), Word("PRIVILEGES"), Symbol(';')];
  }

  lemma DropsAreNoFlush()
    ensures |WordsOf(DROP_DATABASE)| == |WordsOf(DROP_USER)| == 4
    ensures WordsOf(DROP_DATABASE)[0] == WordsOf(DROP_USER)[0] != Word("FLUSH")
    ensures WordsOf(DROP_DATABASE) != WordsOf(DROP_USER)
  {
    assert WordsOf(DROP_DATABASE) == [Word("DROP"), Word("DATABASE"), Word("IF"), Word("EXISTS")];
    assert WordsOf(DROP_USER) == [Word("DROP"), Word("USER"), Word("IF"), Word("EXISTS")];
    assert WordsOf(DROP_DATABASE)[1] != WordsOf(DROP_USER)[1];
  }

  lemma ReadDropDatabase(name: string, rest: seq<Token>)
    ensures Statements(WordsOf(DROP_DATABASE) + [Identifier(name), Symbol(';')] + rest) ==
            More(DropDatabase(name), Statements(rest))
  {
    DropsAreNoFlush();
    var ts := WordsOf(DROP_DATABASE) + [Identifier(name), Symbol(';')] + rest;
    assert ts[..4] == WordsOf(DROP_DATABASE) && ts[6..] == rest;
  }

  lemma ReadDropUser(user: string, rest: seq<Token>)
    ensures Statements(WordsOf(DROP_USER) + [Text(user), Symbol('@'), Text("localhost"), Symbol(';')] + rest) ==
            More(DropUser(user, "localhost"), Statements(rest))
  {
    DropsAreNoFlush();
    var ts := WordsOf(DROP_USER) + [Text(user), Symbol('@'), Text("localhost"), Symbol(';')] + rest;
    assert ts[..4] == WordsOf(DROP_USER) && ts[8..] == rest;
  }

  lemma FlushRoundTrip()
    ensures ReadScript(FLUSH_SQL) == Some([FlushPrivileges]) && Tokens(FLUSH_SQL).Some?
  {
    FlushTokens();
    var ts := [Word("FLUSH"), Word("PRIVILEGES"), Symbol(';')];
    var none: seq<Token> := [];
    assert ts[3..] == none && Statements(none) == Some([]);
    assert [FlushPrivileges] + [] == [FlushPrivileges];
  }

  lemma DropUserRoundTrip(user: string, rest: string)
    requires Tokens(rest).Some?
    ensures Tokens(DropUserSql(user, rest)).Some?
    ensures ReadScript(DropUserSql(user, rest)) == More(DropUser(user, "localhost"), ReadScript(rest))
  {
    DropUserTokens(user, rest);
    ReadDropUser(user, Tokens(rest).value);
    assert Tokens(DropUserSql(user, rest)).value ==
           WordsOf(DROP_USER) + [Text(user), Symbol('@'), Text("localhost"), Symbol(';')] + Tokens(rest).value;
  }

  lemma DropDatabaseRoundTrip(name: string, rest: string)
    requires Tokens(rest).Some?
    ensures ReadScript(DropDatabaseSql(name, rest)) == More(DropDatabase(name), ReadScript(rest))
  {
    DropDatabaseTokens(name, rest);
    ReadDropDatabase(name, Tokens(rest).value);
    assert Tokens(DropDatabaseSql(name, rest)).value ==
           WordsOf(DROP_DATABASE) + [Identifier(name), Symbol(';')] + Tokens(rest).value;
  }

  /** For every database and user name, MySQL reads exactly the intended statements with exactly
      the original names. */
  lemma ResetScriptRoundTrip(database: Option<string>, user: Option<string>)
    ensures ReadScript(DatabaseResetSql(database, user)) ==
            Some((if database.Some? then [DropDatabase(database.value)] else []) +
                 (if user.Some? then [DropUser(user.value, "localhost")] else []) +
                 [FlushPrivileges])
  {
    FlushRoundTrip();
    var d := if database.Some? then [DropDatabase(database.value)] else [];
    var u := if user.Some? then [DropUser(user.value, "localhost")] else [];
    assert d + u + [FlushPrivileges] == d + (u + [FlushPrivileges]);
    assert user.None? ==> u + [FlushPrivileges] == [FlushPrivileges];
    var tail := FLUSH_SQL;
    if user.Some? {
      DropUserRoundTrip(user.value, FLUSH_SQL);
      tail := DropUserSql(user.value, FLUSH_SQL);
    }
    if database.Some? {
      DropDatabaseRoundTrip(database.value, tail);
    } else {
      assert d + (u + [FlushPrivileges]) == u + [FlushPrivileges];
    }
  }

  /* ---- PHP ---- */

  /** A single-quoted PHP string after its opening quote: only "\\" and "\'" are escapes. */
  function ReadPhp(s: string): Option<Read> {
    if s == "" then None
    else if s[0] == '\'' then Some(Read("", s[1..]))
    else if s[0] == '\\' && |s| > 1 && (s[1] == '\\' || s[1] == '\'') then Prepend([s[1]], ReadPhp(s[2..]))
    else Prepend([s[0]], ReadPhp(s[1..]))
  }

  /** What the two replacements of `PhpString` do to each character. */
  function Backslashed(value: string): string {
    if value == "" then ""
    else (if value[0] == '\\' || value[0] == '\'' then ['\\', value[0]] else [value[0]]) + Backslashed(value[1..])
  }

  lemma {:induction false} PhpStringIsBackslashed(value: string)
    ensures PhpString(value) == Backslashed(value)
  {
    if value != "" {
      PhpStringIsBackslashed(value[1..]);
      var tail := Replace(value[1..], '\\', "\\\\");
      if value[0] == '\\' {
        assert ("\\\\" + tail)[1..] == "\\" + tail && ("\\" + tail)[1..] == tail;
        assert Replace("\\\\" + tail, '\'', "\\'") == "\\" + Replace("\\" + tail, '\'', "\\'");
      } else {
        assert ([value[0]] + tail)[1..] == tail;
      }
    }
  }

  lemma {:induction false} ReadsBackslashed(value: string, end: string, rest: string)
    requires ReadPhp(end) == Some(Read("", rest))
    ensures ReadPhp(Backslashed(value) + end) == Some(Read(value, rest))
  {
    if value == "" {
      assert Backslashed(value) + end == end;
    } else {
      var c, tail := value[0], Backslashed(value[1..]) + end;
      ReadsBackslashed(value[1..], end, rest);
      if c == '\\' || c == '\'' {
        Assoc(['\\', c], Backslashed(value[1..]), end);
        assert (['\\', c] + tail)[2..] == tail;
      } else {
        Assoc([c], Backslashed(value[1..]), end);
        assert ([c] + tail)[1..] == tail;
      }
      PrependTail(c, value, rest);
    }
  }

  /** Any value put between quotes reads back as it was, up to the added closing quote. */
  lemma PhpRoundTrip(value: string, rest: string)
    ensures ReadPhp(PhpString(value) + ("'" + rest)) == Some(Read(value, rest))
  {
    PhpStringIsBackslashed(value);
    assert ("'" + rest)[1..] == rest;
    ReadsBackslashed(value, "'" + rest, rest);
  }
}
