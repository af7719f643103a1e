/** Readers for the three files of module CloudInit, and the proof that each gives the assignments back. */
module GuestReaders {
  import opened Wrappers
  import opened Text
  import opened CloudInit

  // ----- line files -----

  /** One line: strip the prefix, then name and value around the first '='. */
  function ReadLine(line: string, prefix: string): Option<Assignment> {
    if !(prefix <= line) then None
    else
      match Cut(line[|prefix|..], '=')
      case None => None
      case Some(parts) => Some(Assignment(parts.0, parts.1))
  }

  /** Lines up to and including the empty piece after the last newline. */
  function ReadLines(lines: seq<string>, prefix: string): Option<seq<Assignment>> {
    if lines == [""] then Some([])
    else if lines == [] then None
    else
      match (ReadLine(lines[0], prefix), ReadLines(lines[1..], prefix))
      case (Some(a), Some(rest)) => Some([a] + rest)
      case (_, _) => None
  }

  /** /etc/environment */
  function ReadEnvironment(text: string): Option<seq<Assignment>> {
    ReadLines(Split(text, '\n'), "")
  }

  /** /etc/profile.d/proxy.sh; no file means no assignments. */
  function ReadScript(text: string): Option<seq<Assignment>> {
    if text == "" then Some([])
    else
      var lines := Split(text, '\n');
      if lines[0] != SHEBANG then None else ReadLines(lines[1..], EXPORT)
  }

  /** A name without '=' and a value on one line. */
  predicate OneLine(a: Assignment) {
    '=' !in a.name && '\n' !in a.name && '\n' !in a.value
  }

  lemma ReadLineOfText(prefix: string, a: Assignment)
    requires '=' !in a.name
    ensures ReadLine(prefix + a.Text(), prefix) == Some(a)
  {
    var line := prefix + a.Text();
    assert line[|prefix|..] == a.name + ['='] + a.value;
    CutAt(a.name, '=', a.value);
  }

  lemma {:induction false} ReadLinesOfLines(prefix: string, vars: seq<Assignment>)
    requires '\n' !in prefix && forall a :: a in vars ==> OneLine(a)
    ensures ReadLines(Split(Lines(prefix, vars), '\n'), prefix) == Some(vars)
  {
    if vars != [] {
      var a, rest := vars[0], vars[1..];
      assert a in vars;
      ReadLinesOfLines(prefix, rest);
      ReadLineOfText(prefix, a);
      var line := prefix + a.Text();
      SplitFirst(line, '\n', Lines(prefix, rest));
      assert Lines(prefix, vars) == line + ['\n'] + Lines(prefix, rest);
      assert vars == [a] + rest;
    }
  }

  // ----- the systemd drop-in -----

  /** The one-letter escapes of systemd.syntax(7), section "Quoting"; others are rejected. */
  function Unescape(c: char): Option<char> {
    match c
    case '\\' => Some('\\')
    case '"' => Some('"')
    case '\'' => Some('\'')
    case 'n' => Some('\n')
    case 't' => Some('\t')
    case 'r' => Some('\r')
    case 's' => Some(' ')
    case _ => None
  }

  function Prepend(c: char, r: Option<(string, string)>): Option<(string, string)> {
    match r
    case None => None
    case Some(parts) => Some(([c] + parts.0, parts.1))
  }

  /**
   The rest of a word, inside or outside double quotes, and the text after the word. A word ends
   at a blank outside quotes; a backslash escapes the next character; an open quote is an error.
   */
  function ReadWord(s: string, quoted: bool): (r: Option<(string, string)>)
    ensures r.Some? ==> |r.value.1| <= |s|
    ensures r.Some? && s != "" && (quoted || s[0] != ' ') ==> |r.value.1| < |s|
  {
    if s == "" then if quoted then None else Some(("", ""))
    else if s[0] == '\\' then
      if |s| == 1 || Unescape(s[1]).None? then None
      else Prepend(Unescape(s[1]).value, ReadWord(s[2..], quoted))
    else if s[0] == '"' then ReadWord(s[1..], !quoted)
    else if s[0] == ' ' && !quoted then Some(("", s))
    else Prepend(s[0], ReadWord(s[1..], quoted))
  }

  function SkipBlanks(s: string): (t: string)
    ensures |t| <= |s|
    ensures t != "" ==> t[0] != ' '
  {
    if s != "" && s[0] == ' ' then SkipBlanks(s[1..]) else s
  }

  /** All words of a value. */
  function ReadWords(s: string): Option<seq<string>>
    decreases |s|
  {
    var t := SkipBlanks(s);
    if t == "" then Some([])
    else
      var word := ReadWord(t, false);
      if word.None? then None
      else
        match ReadWords(word.value.1)
        case None => None
        case Some(rest) => Some([word.value.0] + rest)
  }

  lemma ReadEscape(c: char, rest: string)
    requires c == '\\' || c == '"'
    ensures ReadWord(['\\', c] + rest, true) == Prepend(c, ReadWord(rest, true))
  {
    assert (['\\', c] + rest)[2..] == rest;
  }

  /** Inside quotes the reader takes an escaped text back to the text, whatever its characters. */
  lemma {:induction false} ReadEscaped(s: string, tail: string)
    requires tail == "" || tail[0] == ' '
    ensures ReadWord(Escaped(s) + "\"" + tail, true) == Some((s, tail))
  {
    var text := Escaped(s) + "\"" + tail;
    if s == "" {
      assert text[1..] == tail;
      assert ReadWord(tail, false) == Some(("", tail));
    } else {
      var rest := Escaped(s[1..]) + "\"" + tail;
      ReadEscaped(s[1..], tail);
      assert s == [s[0]] + s[1..];
      if s[0] == '\\' || s[0] == '"' {
        assert text == ['\\', s[0]] + rest;
        ReadEscape(s[0], rest);
      } else {
        assert text == [s[0]] + rest;
        assert text[1..] == rest;
      }
    }
  }

  lemma ReadQuoted(s: string, tail: string)
    requires tail == "" || tail[0] == ' '
    ensures ReadWord(Quoted(s) + tail, false) == Some((s, tail))
  {
    ReadEscaped(s, tail);
    assert (Quoted(s) + tail)[1..] == Escaped(s) + "\"" + tail;
  }

  /** Reading the words of a joined list of quoted words gives the words, whatever they contain. */
  lemma {:induction false} ReadWordsOfQuoted(words: seq<string>)
    ensures ReadWords(Join(QuotedWords(words), " ")) == Some(words)
  {
    if words != [] {
      var more := QuotedWords(words[1..]);
      var tail := if more == [] then "" else " " + Join(more, " ");
      var text := Join(QuotedWords(words), " ");
      assert QuotedWords(words)[1..] == more;
      assert text == Quoted(words[0]) + tail;
      ReadQuoted(words[0], tail);
      ReadWordsOfQuoted(words[1..]);
      if more != [] {
        assert tail[1..] == Join(more, " ");
        ReadWordsSkipsBlank(Join(more, " "));
      }
      assert words == [words[0]] + words[1..];
    }
  }

  lemma ReadWordsSkipsBlank(s: string)
    ensures ReadWords(" " + s) == ReadWords(s)
  {
    assert (" " + s)[1..] == s;
  }

  /** The drop-in's words are exactly the name=value pairs, for every configuration. */
  lemma DropInWords(p: ProxyConfig)
    ensures ReadWords(Join(QuotedWords(Words(Assignments(p))), " ")) ==
      Some((if p.http == "" then [] else ["http_proxy" + "=" + p.http, "HTTP_PROXY" + "=" + p.http]) +
           (if p.https == "" then [] else ["https_proxy" + "=" + p.https, "HTTPS_PROXY" + "=" + p.https]) +
           (if p.noProxy == "" then [] else ["no_proxy" + "=" + p.noProxy, "NO_PROXY" + "=" + p.noProxy]))
  {
    UpperHttp();
    UpperHttps();
    UpperNo();
    WordsOfBoth(HTTP_PROXY, p.http);
    WordsOfBoth(HTTPS_PROXY, p.https);
    WordsOfBoth(NO_PROXY, p.noProxy);
    WordsAppend(Both(HTTP_PROXY, p.http), Both(HTTPS_PROXY, p.https));
    WordsAppend(Both(HTTP_PROXY, p.http) + Both(HTTPS_PROXY, p.https), Both(NO_PROXY, p.noProxy));
    ReadWordsOfQuoted(Words(Assignments(p)));
  }

  lemma {:induction false} WordsAppend(a: seq<Assignment>, b: seq<Assignment>)
    ensures Words(a + b) == Words(a) + Words(b)
  {
    if a == [] {
      assert a + b == b;
    } else {
      assert (a + b)[1..] == a[1..] + b;
      WordsAppend(a[1..], b);
    }
  }

  lemma WordsOfBoth(name: string, value: string)
    ensures Words(Both(name, value)) ==
      if value == "" then [] else [name + "=" + value, Upper(name) + "=" + value]
  {
    if value != "" {
      var b := Assignment(Upper(name), value);
      assert Both(name, value)[1..] == [b] && [b][1..] == [];
      assert Words([b]) == [b.Text()] + Words([]);
    }
  }

  function CutWords(words: seq<string>): Option<seq<Assignment>> {
    if words == [] then Some([])
    else
      match (ReadLine(words[0], ""), CutWords(words[1..]))
      case (Some(a), Some(rest)) => Some([a] + rest)
      case (_, _) => None
  }

  /** The words of a drop-in that is exactly the section line and the one setting. No file means no words. */
  function SettingWords(text: string): Option<seq<string>> {
    if text == "" then Some([])
    else
      var lines := Split(text, '\n');
      if |lines| != 3 || lines[0] != SECTION || !(SETTING <= lines[1]) || lines[2] != "" then None
      else ReadWords(lines[1][|SETTING|..])
  }

  function ReadDropIn(text: string): Option<seq<Assignment>> {
    match SettingWords(text)
    case None => None
    case Some(words) => CutWords(words)
  }

  lemma {:induction false} CutWordsOfWords(vars: seq<Assignment>)
    requires forall a :: a in vars ==> '=' !in a.name
    ensures CutWords(Words(vars)) == Some(vars)
  {
    if vars != [] {
      assert vars[0] in vars && forall a :: a in vars[1..] ==> a in vars;
      CutWordsOfWords(vars[1..]);
      ReadLineOfText("", vars[0]);
      assert "" + vars[0].Text() == vars[0].Text();
      assert vars == [vars[0]] + vars[1..];
    }
  }

  lemma {:induction false} EscapedOneLine(s: string)
    requires '\n' !in s
    ensures '\n' !in Escaped(s)
  {
    if s != "" {
      EscapedOneLine(s[1..]);
    }
  }

  lemma {:induction false} QuotedOneLine(vars: seq<Assignment>)
    requires forall a :: a in vars ==> OneLine(a)
    ensures '\n' !in Join(QuotedWords(Words(vars)), " ")
  {
    if vars != [] {
      assert vars[0] in vars && forall a :: a in vars[1..] ==> a in vars;
      QuotedOneLine(vars[1..]);
      EscapedOneLine(vars[0].Text());
      var quoted := QuotedWords(Words(vars));
      assert quoted[1..] == QuotedWords(Words(vars[1..]));
    }
  }

  // ----- the three readings -----

  lemma UpperOneLine(s: string)
    requires '\n' !in s
    ensures '\n' !in Upper(s)
  {
  }

  lemma BothOneLine(name: string, value: string)
    requires '=' !in name && '\n' !in name && Printable(value)
    ensures forall a :: a in Both(name, value) ==> OneLine(a)
  {
    UpperOneLine(name);
    assert '\n' !in value by {
      assert IsControl('\n');
    }
  }

  lemma AssignmentsOneLine(p: ProxyConfig)
    requires ValidProxy(p)
    ensures forall a :: a in Assignments(p) ==> OneLine(a)
  {
    BothOneLine(HTTP_PROXY, p.http);
    BothOneLine(HTTPS_PROXY, p.https);
    BothOneLine(NO_PROXY, p.noProxy);
  }

  lemma ScriptReads(vars: seq<Assignment>)
    requires forall a :: a in vars ==> OneLine(a)
    ensures ReadScript(SHEBANG + "\n" + Lines(EXPORT, vars)) == Some(vars)
  {
    var body := Lines(EXPORT, vars);
    SplitFirst(SHEBANG, '\n', body);
    ReadLinesOfLines(EXPORT, vars);
    assert SHEBANG + "\n" + body == SHEBANG + ['\n'] + body;
  }

  lemma TwoLinesSplit(a: string, b: string)
    requires '\n' !in a && '\n' !in b
    ensures Split(a + "\n" + (b + "\n"), '\n') == [a, b, ""]
  {
    SplitFirst(b, '\n', "");
    SplitFirst(a, '\n', b + "\n");
    assert b + "\n" == b + ['\n'] + "";
  }

  lemma SettingWordsOf(vars: seq<Assignment>)
    requires forall a :: a in vars ==> OneLine(a)
    ensures SettingWords(DropInText(vars)) == Some(Words(vars))
  {
    var value := Join(QuotedWords(Words(vars)), " ");
    QuotedOneLine(vars);
    assert '\n' !in SECTION && '\n' !in SETTING;
    TwoLinesSplit(SECTION, SETTING + value);
    assert (SETTING + value)[|SETTING|..] == value;
    ReadWordsOfQuoted(Words(vars));
  }

  /** One-line assignments read back from each of the three files. */
  lemma ReadingsAgree(vars: seq<Assignment>)
    requires forall a :: a in vars ==> OneLine(a)
    ensures ReadEnvironment(EnvironmentText(vars)) == Some(vars)
    ensures ReadScript(ScriptText(vars)) == Some(vars)
    ensures ReadDropIn(DropInText(vars)) == Some(vars)
  {
    ReadLinesOfLines("", vars);
    ScriptReads(vars);
    SettingWordsOf(vars);
    CutWordsOfWords(vars);
  }

  /**
   For every accepted configuration the three files read back to the same assignments: its HTTP,
   HTTPS and no_proxy lists, as far as they are set, each under its small and its capital name.
   */
  lemma RenderingsAgree(p: ProxyConfig)
    requires ValidProxy(p)
    ensures
      var vars :=
        (if p.http == "" then [] else [Assignment("http_proxy", p.http), Assignment("HTTP_PROXY", p.http)]) +
        (if p.https == "" then [] else [Assignment("https_proxy", p.https), Assignment("HTTPS_PROXY", p.https)]) +
        (if p.noProxy == "" then [] else [Assignment("no_proxy", p.noProxy), Assignment("NO_PROXY", p.noProxy)]);
      && ReadEnvironment(EnvironmentText(Assignments(p))) == Some(vars)
      && ReadScript(ScriptText(Assignments(p))) == Some(vars)
      && ReadDropIn(DropInText(Assignments(p))) == Some(vars)
  {
    AssignmentsExactly(p);
    AssignmentsOneLine(p);
    ReadingsAgree(Assignments(p));
  }

  /** One rendering is empty exactly when the others are: when all three lists are. */
  lemma EmptyTogether(p: ProxyConfig)
    ensures EnvironmentText(Assignments(p)) == "" <==> p.http == "" && p.https == "" && p.noProxy == ""
    ensures ScriptText(Assignments(p)) == "" <==> p.http == "" && p.https == "" && p.noProxy == ""
    ensures DropInText(Assignments(p)) == "" <==> p.http == "" && p.https == "" && p.noProxy == ""
  {
    assert Assignments(p) == [] <==> p.http == "" && p.https == "" && p.noProxy == "";
    LinesBlank("", Assignments(p));
  }

  /** Appended after a newline, the assignments are read back and every line of the existing file stays as it is. */
  lemma AppendKeepsLines(existing: string, vars: seq<Assignment>)
    requires forall a :: a in vars ==> OneLine(a)
    ensures var lines, before := Split(existing + "\n" + EnvironmentText(vars), '\n'), Split(existing, '\n');
      |before| <= |lines| && lines[..|before|] == before && ReadLines(lines[|before|..], "") == Some(vars)
  {
    var env := EnvironmentText(vars);
    ReadLinesOfLines("", vars);
    SplitAppend(existing, '\n', env);
    assert existing + "\n" + env == existing + ['\n'] + env;
    assert (Split(existing, '\n') + Split(env, '\n'))[|Split(existing, '\n')|..] == Split(env, '\n');
  }
}
