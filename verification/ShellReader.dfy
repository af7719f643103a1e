/** The profile script as a POSIX shell reads it, and exactly which values survive that. */
module ShellReader {
  import opened Wrappers
  import opened Text
  import opened CloudInit
  import opened GuestReaders

  datatype Quoting = Unquoted | Single | Double

  /** The characters that end an unquoted word: blanks, the newline and the operators. */
  predicate EndsWord(c: char) {
    || c == ' ' || c == '\t' || c == '\n'
    || c == ';' || c == '&' || c == '|' || c == '<' || c == '>' || c == '(' || c == ')'
  }

  /** The characters that start an expansion. */
  predicate Expands(c: char) {
    c == '$' || c == '`'
  }

  /**
   One shell word and the text after it (POSIX, Shell Command Language, sections 2.2 "Quoting" and
   2.3 "Token Recognition"). None stands for an open quote and for any expansion.
   */
  function ReadShellWord(s: string, q: Quoting): Option<(string, string)> {
    if s == "" then if q == Unquoted then Some(("", "")) else None
    else if q == Single then
      if s[0] == '\'' then ReadShellWord(s[1..], Unquoted) else Prepend(s[0], ReadShellWord(s[1..], Single))
    else if Expands(s[0]) then None
    else if s[0] == '"' then ReadShellWord(s[1..], if q == Double then Unquoted else Double)
    else if s[0] == '\\' then
      if |s| == 1 then None
      else if s[1] == '\n' then ReadShellWord(s[2..], q)
      else if q == Unquoted || Expands(s[1]) || s[1] == '"' || s[1] == '\\' then Prepend(s[1], ReadShellWord(s[2..], q))
      else Prepend('\\', ReadShellWord(s[1..], q))
    else if q == Unquoted && s[0] == '\'' then ReadShellWord(s[1..], Single)
    else if q == Unquoted && EndsWord(s[0]) then Some(("", s))
    else Prepend(s[0], ReadShellWord(s[1..], q))
  }

  /** A tilde where an assignment expands it: at the start of the value or after a colon. */
  predicate HasTildePrefix(s: string) {
    exists i :: 0 <= i < |s| && s[i] == '~' && (i == 0 || s[i - 1] == ':')
  }

  /** The value of an unquoted assignment, if the rest of the line is that one word and nothing expands. */
  function ReadShellValue(s: string): Option<string> {
    if HasTildePrefix(s) then None
    else
      match ReadShellWord(s, Unquoted)
      case None => None
      case Some(parts) => if parts.1 == "" then Some(parts.0) else None
  }

  predicate PlainChar(c: char) {
    !EndsWord(c) && !Expands(c) && c != '"' && c != '\'' && c != '\\'
  }

  /** The values a shell takes literally without quotes. */
  predicate ShellPlain(s: string) {
    (forall c :: c in s ==> PlainChar(c)) && !HasTildePrefix(s)
  }

  /** The 15 characters that are not plain. */
  lemma PlainCharExactly(c: char)
    ensures PlainChar(c) <==> c !in " \t\n;&|<>()$`\"'\\"
  {
  }

  lemma {:induction false} PlainIsRead(s: string)
    requires forall c :: c in s ==> PlainChar(c)
    ensures ReadShellWord(s, Unquoted) == Some((s, ""))
  {
    if s != "" {
      assert s[0] in s && forall c :: c in s[1..] ==> c in s;
      PlainIsRead(s[1..]);
      assert s == [s[0]] + s[1..];
    }
  }

  /** Reading never lengthens a text, and keeps its length only if no character was special. */
  lemma {:induction false} SpecialShortens(s: string, q: Quoting)
    requires ReadShellWord(s, q).Some?
    ensures var r := ReadShellWord(s, q).value;
      && |r.0| + |r.1| <= |s|
      && (q != Unquoted ==> |r.0| + |r.1| < |s|)
      && (|r.0| == |s| ==> forall c :: c in s ==> PlainChar(c))
  {
    if s == "" {
    } else if q == Single {
      SpecialShortens(s[1..], if s[0] == '\'' then Unquoted else Single);
    } else if s[0] == '"' {
      SpecialShortens(s[1..], if q == Double then Unquoted else Double);
    } else if s[0] == '\\' {
      if s[1] == '\n' || q == Unquoted || Expands(s[1]) || s[1] == '"' || s[1] == '\\' {
        SpecialShortens(s[2..], q);
      } else {
        SpecialShortens(s[1..], q);
      }
    } else if q == Unquoted && s[0] == '\'' {
      SpecialShortens(s[1..], Single);
    } else if q == Unquoted && EndsWord(s[0]) {
    } else {
      SpecialShortens(s[1..], q);
      assert forall c :: c in s ==> c == s[0] || c in s[1..];
    }
  }

  /** An unquoted value is read as itself if and only if it is plain. */
  lemma ValueReadsBack(s: string)
    ensures ReadShellValue(s) == Some(s) <==> ShellPlain(s)
  {
    if ReadShellValue(s) == Some(s) {
      SpecialShortens(s, Unquoted);
    }
    if ShellPlain(s) {
      PlainIsRead(s);
    }
  }

  // ----- the script -----

  /** One line of the script: an export with a value that is one literal word. */
  function ReadExport(line: string): Option<Assignment> {
    match ReadLine(line, EXPORT)
    case None => None
    case Some(a) =>
      match ReadShellValue(a.value)
      case None => None
      case Some(value) => Some(Assignment(a.name, value))
  }

  function ReadExports(lines: seq<string>): Option<seq<Assignment>> {
    if lines == [""] then Some([])
    else if lines == [] then None
    else
      match (ReadExport(lines[0]), ReadExports(lines[1..]))
      case (Some(a), Some(rest)) => Some([a] + rest)
      case (_, _) => None
  }

  function RunScript(text: string): Option<seq<Assignment>> {
    if text == "" then Some([])
    else
      var lines := Split(text, '\n');
      if lines[0] != SHEBANG then None else ReadExports(lines[1..])
  }

  ghost predicate AllPlain(vars: seq<Assignment>) {
    forall a :: a in vars ==> ShellPlain(a.value)
  }

  lemma ExportReadsBack(a: Assignment)
    requires '=' !in a.name
    ensures ReadExport(EXPORT + a.Text()) == Some(a) <==> ShellPlain(a.value)
  {
    ReadLineOfText(EXPORT, a);
    ValueReadsBack(a.value);
  }

  lemma ExportLineSplits(a: Assignment, rest: seq<Assignment>)
    requires OneLine(a)
    ensures Split(Lines(EXPORT, [a] + rest), '\n') == [EXPORT + a.Text()] + Split(Lines(EXPORT, rest), '\n')
    ensures EXPORT + a.Text() != ""
  {
    var line := EXPORT + a.Text();
    assert ([a] + rest)[1..] == rest;
    assert Lines(EXPORT, [a] + rest) == line + ['\n'] + Lines(EXPORT, rest);
    assert '\n' !in EXPORT;
    SplitFirst(line, '\n', Lines(EXPORT, rest));
  }

  lemma {:induction false} ExportsReadBack(vars: seq<Assignment>)
    requires forall a :: a in vars ==> OneLine(a)
    ensures ReadExports(Split(Lines(EXPORT, vars), '\n')) == Some(vars) <==> AllPlain(vars)
  {
    if vars != [] {
      var a, rest := vars[0], vars[1..];
      assert vars == [a] + rest && a in vars;
      assert forall b :: b in vars <==> b == a || b in rest;
      ExportsReadBack(rest);
      ExportReadsBack(a);
      ExportLineSplits(a, rest);
      var lines := Split(Lines(EXPORT, vars), '\n');
      assert lines[0] == EXPORT + a.Text() && lines[1..] == Split(Lines(EXPORT, rest), '\n');
    }
  }

  /** The script sets exactly its assignments if and only if every value is plain. */
  lemma ScriptSetsExactly(vars: seq<Assignment>)
    requires forall a :: a in vars ==> OneLine(a)
    ensures RunScript(ScriptText(vars)) == Some(vars) <==> AllPlain(vars)
  {
    if vars != [] {
      var body := Lines(EXPORT, vars);
      ExportsReadBack(vars);
      SplitFirst(SHEBANG, '\n', body);
      assert SHEBANG + "\n" + body == SHEBANG + ['\n'] + body;
    }
  }

  lemma BothPlain(name: string, value: string)
    ensures AllPlain(Both(name, value)) <==> ShellPlain(value)
  {
    if value != "" {
      assert Both(name, value)[0].value == value;
      assert Both(name, value)[0] in Both(name, value);
    }
  }

  lemma AssignmentsPlain(p: ProxyConfig)
    ensures AllPlain(Assignments(p)) <==> ShellPlain(p.http) && ShellPlain(p.https) && ShellPlain(p.noProxy)
  {
    BothPlain(HTTP_PROXY, p.http);
    BothPlain(HTTPS_PROXY, p.https);
    BothPlain(NO_PROXY, p.noProxy);
    var a, b, c := Both(HTTP_PROXY, p.http), Both(HTTPS_PROXY, p.https), Both(NO_PROXY, p.noProxy);
    assert forall x :: x in a + b + c <==> x in a || x in b || x in c;
  }

  /** For an accepted configuration a shell sets exactly its assignments if and only if its lists are plain. */
  lemma ProfileScriptSetsExactly(p: ProxyConfig)
    requires ValidProxy(p)
    ensures RunScript(ScriptText(Assignments(p))) == Some(Assignments(p)) <==>
            ShellPlain(p.http) && ShellPlain(p.https) && ShellPlain(p.noProxy)
  {
    AssignmentsOneLine(p);
    ScriptSetsExactly(Assignments(p));
    AssignmentsPlain(p);
  }

  /** A no_proxy list with a blank is accepted, and the script does not set it. */
  lemma BlankIsAcceptedButSplit(p: ProxyConfig)
    requires p == ProxyConfig("", "", "a b", "")
    ensures ValidProxy(p)
    ensures RunScript(ScriptText(Assignments(p))) != Some(Assignments(p))
  {
    assert p.noProxy == ['a', ' ', 'b'];
    assert p.noProxy[1] in p.noProxy && !PlainChar(p.noProxy[1]);
    ProfileScriptSetsExactly(p);
  }
}
