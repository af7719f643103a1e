/** The three renderings of the proxy settings inside the guest (internal/cloudinit/cloudinit.go). */
module CloudInit {
  import opened Wrappers
  import opened Text

  datatype ProxyConfig = ProxyConfig(http: string, https: string, noProxy: string, caCertPEM: string)

  /** A strings.Builder. */
  class Builder {
    var data: string

    constructor ()
      ensures data == ""
    {
      data := "";
    }

    method Write(s: string)
      modifies this
      ensures data == old(data) + s
    {
      data := data + s;
    }
  }

  predicate IsEmpty(p: Option<ProxyConfig>) {
    p.None? || (p.value.http == "" && p.value.https == "" && p.value.noProxy == "" && p.value.caCertPEM == "")
  }

  predicate IsControl(c: char) {
    c as int < 0x20 || c as int == 0x7f
  }

  predicate Printable(s: string) {
    forall c :: c in s ==> !IsControl(c)
  }

  method HasControlChars(s: string) returns (found: bool)
    ensures found <==> exists i :: 0 <= i < |s| && ((s[i] as int) < 0x20 || s[i] as int == 0x7f)
  {
    for i := 0 to |s|
      invariant forall k :: 0 <= k < i ==> !IsControl(s[k])
    {
      if IsControl(s[i]) {
        return true;
      }
    }
    return false;
  }

  /** No list holds an ASCII control character. */
  predicate ValidProxy(p: ProxyConfig) {
    Printable(p.http) && Printable(p.https) && Printable(p.noProxy)
  }

  /** Printable means free of the 33 ASCII control characters. */
  lemma PrintableExactly(s: string)
    ensures Printable(s) <==> !exists i :: 0 <= i < |s| && ((s[i] as int) < 0x20 || s[i] as int == 0x7f)
  {
    assert forall i :: 0 <= i < |s| ==> s[i] in s;
  }

  /** Accepts exactly a missing or empty configuration and one whose three lists are printable. */
  method ValidateProxy(p: Option<ProxyConfig>) returns (r: Result<()>)
    ensures r.Ok? <==> p.None? || (Printable(p.value.http) && Printable(p.value.https) && Printable(p.value.noProxy))
    ensures r.Err? ==>
      var name := if !Printable(p.value.http) then "Proxy.HTTP"
                  else if !Printable(p.value.https) then "Proxy.HTTPS"
                  else "Proxy.NoProxy";
      r.reason == name + " contains control characters"
  {
    if IsEmpty(p) {
      return Ok(());
    }
    var names := ["Proxy.HTTP", "Proxy.HTTPS", "Proxy.NoProxy"];
    var values := [p.value.http, p.value.https, p.value.noProxy];
    for i := 0 to |values|
      invariant i > 0 ==> Printable(p.value.http)
      invariant i > 1 ==> Printable(p.value.https)
      invariant i > 2 ==> Printable(p.value.noProxy)
    {
      if values[i] != "" {
        var bad := HasControlChars(values[i]);
        PrintableExactly(values[i]);
        if bad {
          return Err(names[i] + " contains control characters");
        }
      }
    }
    return Ok(());
  }

  // ----- what is rendered -----

  datatype Assignment = Assignment(name: string, value: string) {
    function Text(): string {
      name + "=" + value
    }
  }

  /** strings.ToUpper on the ASCII names below. */
  function Upper(s: string): (u: string)
    ensures |u| == |s|
    ensures '=' !in s ==> '=' !in u
  {
    if s == "" then ""
    else [if 'a' <= s[0] <= 'z' then (s[0] as int - 32) as char else s[0]] + Upper(s[1..])
  }

  /** A set variable gives a lower-case and an upper-case assignment. */
  function Both(name: string, value: string): seq<Assignment> {
    if value == "" then [] else [Assignment(name, value), Assignment(Upper(name), value)]
  }

  const HTTP_PROXY: string := "http_proxy"
  const HTTPS_PROXY: string := "https_proxy"
  const NO_PROXY: string := "no_proxy"
  const SHEBANG: string := "#!/bin/sh"
  const EXPORT: string := "export "
  const SECTION: string := "[Manager]"
  const SETTING: string := "DefaultEnvironment="

  /** The assignments a configuration stands for, in the order they are rendered. */
  function Assignments(p: ProxyConfig): seq<Assignment> {
    Both(HTTP_PROXY, p.http) + Both(HTTPS_PROXY, p.https) + Both(NO_PROXY, p.noProxy)
  }

  predicate CapitalOf(d: char, c: char) {
    if 'a' <= c <= 'z' then d as int == c as int - 32 else d == c
  }

  lemma {:induction false} UpperExactly(s: string)
    ensures forall i :: 0 <= i < |s| ==> CapitalOf(Upper(s)[i], s[i])
  {
    if s != "" {
      UpperExactly(s[1..]);
    }
  }

  lemma UpperIs(s: string, t: string)
    requires |s| == |t| && forall i :: 0 <= i < |s| ==> CapitalOf(t[i], s[i])
    ensures Upper(s) == t
  {
    UpperExactly(s);
  }

  lemma UpperHttp()
    ensures Upper(HTTP_PROXY) == "HTTP_PROXY"
  {
    UpperIs("http_proxy", "HTTP_PROXY");
  }

  lemma UpperHttps()
    ensures Upper(HTTPS_PROXY) == "HTTPS_PROXY"
  {
    UpperIs("https_proxy", "HTTPS_PROXY");
  }

  lemma UpperNo()
    ensures Upper(NO_PROXY) == "NO_PROXY"
  {
    UpperIs("no_proxy", "NO_PROXY");
  }

  /** What a configuration stands for: each list that is set, under its small and its capital name. */
  lemma AssignmentsExactly(p: ProxyConfig)
    ensures Assignments(p) ==
      (if p.http == "" then [] else [Assignment("http_proxy", p.http), Assignment("HTTP_PROXY", p.http)]) +
      (if p.https == "" then [] else [Assignment("https_proxy", p.https), Assignment("HTTPS_PROXY", p.https)]) +
      (if p.noProxy == "" then [] else [Assignment("no_proxy", p.noProxy), Assignment("NO_PROXY", p.noProxy)])
  {
    UpperHttp();
    UpperHttps();
    UpperNo();
  }

  function LineOf(prefix: string, a: Assignment): string {
    prefix + a.Text() + "\n"
  }

  function Lines(prefix: string, vars: seq<Assignment>): string {
    if vars == [] then "" else LineOf(prefix, vars[0]) + Lines(prefix, vars[1..])
  }

  lemma {:induction false} LinesAppend(prefix: string, a: seq<Assignment>, b: seq<Assignment>)
    ensures Lines(prefix, a + b) == Lines(prefix, a) + Lines(prefix, b)
  {
    if a == [] {
      assert a + b == b;
    } else {
      assert (a + b)[1..] == a[1..] + b;
      LinesAppend(prefix, a[1..], b);
    }
  }

  function Escaped(s: string): string {
    if s == "" then ""
    else (if s[0] == '\\' || s[0] == '"' then "\\" else "") + [s[0]] + Escaped(s[1..])
  }

  function Quoted(s: string): string {
    "\"" + Escaped(s) + "\""
  }

  function Words(vars: seq<Assignment>): seq<string> {
    if vars == [] then [] else [vars[0].Text()] + Words(vars[1..])
  }

  function QuotedWords(words: seq<string>): seq<string> {
    if words == [] then [] else [Quoted(words[0])] + QuotedWords(words[1..])
  }

  /** /etc/environment */
  function EnvironmentText(vars: seq<Assignment>): string {
    Lines("", vars)
  }

  /** /etc/profile.d/proxy.sh */
  function ScriptText(vars: seq<Assignment>): string {
    if vars == [] then "" else SHEBANG + "\n" + Lines(EXPORT, vars)
  }

  function DropInFile(pairs: seq<string>): string {
    SECTION + "\n" + (SETTING + Join(pairs, " ") + "\n")
  }

  /** /etc/systemd/system.conf.d/proxy.conf */
  function DropInText(vars: seq<Assignment>): string {
    if vars == [] then "" else DropInFile(QuotedWords(Words(vars)))
  }

  // ----- the three texts, character by character -----

  lemma BothLines(prefix: string, name: string, value: string)
    ensures Lines(prefix, Both(name, value)) ==
      if value == "" then ""
      else prefix + name + "=" + value + "\n" + (prefix + Upper(name) + "=" + value + "\n")
  {
    if value != "" {
      TwoLines(prefix, Assignment(name, value), Assignment(Upper(name), value));
      PiecesOfLine(prefix, name, value);
      PiecesOfLine(prefix, Upper(name), value);
    }
  }

  lemma LinesExactly(prefix: string, p: ProxyConfig)
    ensures Lines(prefix, Assignments(p)) ==
      (if p.http == "" then ""
       else prefix + "http_proxy" + "=" + p.http + "\n" + (prefix + "HTTP_PROXY" + "=" + p.http + "\n")) +
      (if p.https == "" then ""
       else prefix + "https_proxy" + "=" + p.https + "\n" + (prefix + "HTTPS_PROXY" + "=" + p.https + "\n")) +
      (if p.noProxy == "" then ""
       else prefix + "no_proxy" + "=" + p.noProxy + "\n" + (prefix + "NO_PROXY" + "=" + p.noProxy + "\n"))
  {
    UpperHttp();
    UpperHttps();
    UpperNo();
    BothLines(prefix, HTTP_PROXY, p.http);
    BothLines(prefix, HTTPS_PROXY, p.https);
    BothLines(prefix, NO_PROXY, p.noProxy);
    LinesAppend(prefix, Both(HTTP_PROXY, p.http), Both(HTTPS_PROXY, p.https));
    LinesAppend(prefix, Both(HTTP_PROXY, p.http) + Both(HTTPS_PROXY, p.https), Both(NO_PROXY, p.noProxy));
  }

  /** The environment file and the script: two lines for each list that is set. */
  lemma LineFilesExactly(p: ProxyConfig)
    ensures EnvironmentText(Assignments(p)) == Lines("", Assignments(p))
    ensures ScriptText(Assignments(p)) ==
      if p.http == "" && p.https == "" && p.noProxy == "" then ""
      else "#!/bin/sh" + "\n" + Lines("export ", Assignments(p))
  {
  }

  lemma BothWords(name: string, value: string)
    ensures QuotedWords(Words(Both(name, value))) ==
      if value == "" then [] else [Quoted(name + "=" + value), Quoted(Upper(name) + "=" + value)]
  {
    if value != "" {
      TwoWords(Assignment(name, value), Assignment(Upper(name), value));
    }
  }

  lemma PairsExactly(p: ProxyConfig)
    ensures QuotedWords(Words(Assignments(p))) ==
      (if p.http == "" then [] else [Quoted("http_proxy" + "=" + p.http), Quoted("HTTP_PROXY" + "=" + p.http)]) +
      (if p.https == "" then [] else [Quoted("https_proxy" + "=" + p.https), Quoted("HTTPS_PROXY" + "=" + p.https)]) +
      (if p.noProxy == "" then [] else [Quoted("no_proxy" + "=" + p.noProxy), Quoted("NO_PROXY" + "=" + p.noProxy)])
  {
    UpperHttp();
    UpperHttps();
    UpperNo();
    BothWords(HTTP_PROXY, p.http);
    BothWords(HTTPS_PROXY, p.https);
    BothWords(NO_PROXY, p.noProxy);
    QuotedWordsAppend(Both(HTTP_PROXY, p.http), Both(HTTPS_PROXY, p.https));
    QuotedWordsAppend(Both(HTTP_PROXY, p.http) + Both(HTTPS_PROXY, p.https), Both(NO_PROXY, p.noProxy));
  }

  /** The drop-in: its section and one setting with two quoted words for each list that is set. */
  lemma DropInExactly(p: ProxyConfig)
    ensures DropInText(Assignments(p)) ==
      if p.http == "" && p.https == "" && p.noProxy == "" then ""
      else "[Manager]" + "\n" + ("DefaultEnvironment=" + Join(QuotedWords(Words(Assignments(p))), " ") + "\n")
  {
  }

  // ----- the printers -----

  method EmitVar(b: Builder, prefix: string, name: string, value: string)
    modifies b
    ensures b.data == old(b.data) + Lines(prefix, Both(name, value))
  {
    if value == "" {
      return;
    }
    b.Write(prefix + name + "=" + value + "\n");
    PiecesOfLine(prefix, name, value);
    b.Write(prefix + Upper(name) + "=" + value + "\n");
    PiecesOfLine(prefix, Upper(name), value);
    TwoLines(prefix, Assignment(name, value), Assignment(Upper(name), value));
  }

  lemma TwoLines(prefix: string, a: Assignment, b: Assignment)
    ensures Lines(prefix, [a, b]) == LineOf(prefix, a) + LineOf(prefix, b)
  {
    assert [a, b][1..] == [b] && [b][1..] == [];
    assert Lines(prefix, [b]) == LineOf(prefix, b) + Lines(prefix, []);
  }

  lemma PiecesOfLine(prefix: string, name: string, value: string)
    ensures prefix + name + "=" + value + "\n" == LineOf(prefix, Assignment(name, value))
  {
  }

  lemma ThreeBlocks(prefix: string, a: seq<Assignment>, b: seq<Assignment>, c: seq<Assignment>, start: string)
    ensures start + Lines(prefix, a) + Lines(prefix, b) + Lines(prefix, c) == start + Lines(prefix, a + b + c)
  {
    LinesAppend(prefix, a, b);
    LinesAppend(prefix, a + b, c);
  }

  method WriteProxyVars(b: Builder, p: ProxyConfig, exported: bool)
    modifies b
    ensures b.data == old(b.data) + Lines(if exported then EXPORT else "", Assignments(p))
  {
    var prefix := "";
    if exported {
      prefix := EXPORT;
    }
    EmitVar(b, prefix, HTTP_PROXY, p.http);
    EmitVar(b, prefix, HTTPS_PROXY, p.https);
    EmitVar(b, prefix, NO_PROXY, p.noProxy);
    ThreeBlocks(prefix, Both(HTTP_PROXY, p.http), Both(HTTPS_PROXY, p.https), Both(NO_PROXY, p.noProxy), old(b.data));
  }

  lemma LinesBlank(prefix: string, vars: seq<Assignment>)
    ensures Lines(prefix, vars) == "" <==> vars == []
  {
  }

  method ProxyEnvironment(p: ProxyConfig) returns (text: string)
    ensures text == EnvironmentText(Assignments(p))
  {
    var b := new Builder();
    WriteProxyVars(b, p, false);
    return b.data;
  }

  method ProxyProfileScript(p: ProxyConfig) returns (text: string)
    ensures text == ScriptText(Assignments(p))
  {
    var head := SHEBANG + "\n";
    var b := new Builder();
    b.Write(head);
    assert b.data == head;
    WriteProxyVars(b, p, true);
    LinesBlank(EXPORT, Assignments(p));
    if |b.data| == |head| {
      return "";
    }
    return b.data;
  }

  method SystemdQuote(s: string) returns (q: string)
    ensures q == Quoted(s)
  {
    var b := new Builder();
    b.Write("\"");
    for i := 0 to |s|
      invariant b.data == "\"" + Escaped(s[..i])
    {
      var c := s[i];
      EscapedAppend(s[..i], c);
      assert s[..i + 1] == s[..i] + [c];
      if c == '\\' || c == '"' {
        b.Write("\\");
      }
      b.Write([c]);
    }
    assert s[..|s|] == s;
    b.Write("\"");
    return b.data;
  }

  lemma {:induction false} EscapedAppend(s: string, c: char)
    ensures Escaped("") == ""
    ensures Escaped(s + [c]) == Escaped(s) + (if c == '\\' || c == '"' then "\\" else "") + [c]
  {
    if s == "" {
      assert s + [c] == [c] && [c][1..] == "";
    } else {
      assert (s + [c])[1..] == s[1..] + [c];
      EscapedAppend(s[1..], c);
    }
  }

  lemma {:induction false} QuotedWordsAppend(a: seq<Assignment>, b: seq<Assignment>)
    ensures QuotedWords(Words(a + b)) == QuotedWords(Words(a)) + QuotedWords(Words(b))
  {
    if a == [] {
      assert a + b == b;
    } else {
      assert (a + b)[1..] == a[1..] + b;
      QuotedWordsAppend(a[1..], b);
    }
  }

  lemma TwoWords(a: Assignment, b: Assignment)
    ensures QuotedWords(Words([a, b])) == [Quoted(a.Text()), Quoted(b.Text())]
  {
    assert [a, b][1..] == [b] && [b][1..] == [];
    assert Words([b]) == [b.Text()];
    assert Words([a, b]) == [a.Text(), b.Text()];
    assert [a.Text(), b.Text()][1..] == [b.Text()] && [b.Text()][1..] == [];
    assert QuotedWords([b.Text()]) == [Quoted(b.Text())];
  }

  method AddPair(pairs: seq<string>, name: string, value: string) returns (more: seq<string>)
    ensures more == pairs + QuotedWords(Words(Both(name, value)))
  {
    if value == "" {
      return pairs;
    }
    var lower := SystemdQuote(name + "=" + value);
    var upper := SystemdQuote(Upper(name) + "=" + value);
    TwoWords(Assignment(name, value), Assignment(Upper(name), value));
    return pairs + [lower] + [upper];
  }

  lemma ThreePairs(a: seq<Assignment>, b: seq<Assignment>, c: seq<Assignment>)
    ensures [] + QuotedWords(Words(a)) + QuotedWords(Words(b)) + QuotedWords(Words(c)) == QuotedWords(Words(a + b + c))
    ensures QuotedWords(Words(a + b + c)) == [] <==> a + b + c == []
  {
    QuotedWordsAppend(a, b);
    QuotedWordsAppend(a + b, c);
  }

  lemma Builds(data: string, pairs: seq<string>)
    requires data == "" + (SECTION + "\n") + (SETTING + Join(pairs, " ") + "\n")
    ensures data == DropInFile(pairs)
  {
  }

  method ProxySystemdDropIn(p: ProxyConfig) returns (text: string)
    ensures text == DropInText(Assignments(p))
  {
    var pairs := AddPair([], HTTP_PROXY, p.http);
    pairs := AddPair(pairs, HTTPS_PROXY, p.https);
    pairs := AddPair(pairs, NO_PROXY, p.noProxy);
    ThreePairs(Both(HTTP_PROXY, p.http), Both(HTTPS_PROXY, p.https), Both(NO_PROXY, p.noProxy));
    if |pairs| == 0 {
      return "";
    }
    var b := new Builder();
    b.Write(SECTION + "\n");
    b.Write(SETTING + Join(pairs, " ") + "\n");
    Builds(b.data, pairs);
    return b.data;
  }
}
