/** The drop-in as systemd loads it, specifiers included, and exactly which values survive that. */
module SpecifierReader {
  import opened Wrappers
  import opened Text
  import opened CloudInit
  import opened GuestReaders

  /** What one machine puts in place of '%' and a character, and of a '%' at the end. */
  datatype Specifiers = Specifiers(of: char -> string, lone: string)

  /**
   The one specifier that is the same everywhere is "%%" for a percent sign
   (systemd-system.conf(5), section "Specifiers"); nothing is presumed of the others.
   */
  predicate Documented(sp: Specifiers) {
    sp.of('%') == "%"
  }

  function Expand(s: string, sp: Specifiers): string {
    if s == "" then ""
    else if s[0] != '%' then [s[0]] + Expand(s[1..], sp)
    else if |s| == 1 then sp.lone
    else sp.of(s[1]) + Expand(s[2..], sp)
  }

  function ExpandAll(words: seq<string>, sp: Specifiers): seq<string> {
    if words == [] then [] else [Expand(words[0], sp)] + ExpandAll(words[1..], sp)
  }

  /** Unquote the words of the setting, expand each, and cut it at its first '='. */
  function LoadDropIn(text: string, sp: Specifiers): Option<seq<Assignment>> {
    match SettingWords(text)
    case None => None
    case Some(words) => CutWords(ExpandAll(words, sp))
  }

  /** On this machine every assignment expands to itself. */
  ghost predicate AllKept(vars: seq<Assignment>, sp: Specifiers) {
    forall a :: a in vars ==> Expand(a.Text(), sp) == a.Text()
  }

  lemma CutWord(word: string, a: Assignment)
    requires '=' !in a.name
    ensures ReadLine(word, "") == Some(a) <==> word == a.Text()
  {
    assert word[|""|..] == word;
    ReadLineOfText("", a);
    assert "" + a.Text() == a.Text();
    if ReadLine(word, "") == Some(a) {
      CutJoins(word, '=');
    }
  }

  /** The words that are cut to given assignments are theirs alone. */
  lemma {:induction false} CutWordsExactly(words: seq<string>, vars: seq<Assignment>)
    requires forall a :: a in vars ==> '=' !in a.name
    ensures CutWords(words) == Some(vars) <==> words == Words(vars)
  {
    if words != [] && vars != [] {
      assert vars[0] in vars && forall a :: a in vars[1..] ==> a in vars;
      CutWord(words[0], vars[0]);
      CutWordsExactly(words[1..], vars[1..]);
      assert words == [words[0]] + words[1..] && vars == [vars[0]] + vars[1..];
      assert Words(vars)[0] == vars[0].Text() && Words(vars)[1..] == Words(vars[1..]);
    }
  }

  lemma {:induction false} ExpandAllKeeps(vars: seq<Assignment>, sp: Specifiers)
    ensures ExpandAll(Words(vars), sp) == Words(vars) <==> AllKept(vars, sp)
  {
    if vars != [] {
      var words := Words(vars);
      ExpandAllKeeps(vars[1..], sp);
      assert words[0] == vars[0].Text() && words[1..] == Words(vars[1..]);
      assert ExpandAll(words, sp)[0] == Expand(words[0], sp);
      assert ExpandAll(words, sp)[1..] == ExpandAll(words[1..], sp);
      assert words == [words[0]] + words[1..];
      assert forall a :: a in vars <==> a == vars[0] || a in vars[1..];
    }
  }

  /** A given machine loads the assignments if and only if each expands to itself there. */
  lemma DropInLoadsOn(vars: seq<Assignment>, sp: Specifiers)
    requires forall a :: a in vars ==> OneLine(a)
    ensures LoadDropIn(DropInText(vars), sp) == Some(vars) <==> AllKept(vars, sp)
  {
    SettingWordsOf(vars);
    CutWordsExactly(ExpandAll(Words(vars), sp), vars);
    ExpandAllKeeps(vars, sp);
  }

  lemma {:induction false} PlainExpands(s: string, sp: Specifiers)
    requires '%' !in s
    ensures Expand(s, sp) == s
  {
    if s != "" {
      PlainExpands(s[1..], sp);
      assert s == [s[0]] + s[1..];
    }
  }

  /** A machine on which every other specifier is empty. */
  function Bare(): Specifiers {
    Specifiers(c => if c == '%' then "%" else "", "")
  }

  lemma {:induction false} BareShortens(s: string)
    ensures |Expand(s, Bare())| <= |s|
    ensures '%' in s ==> |Expand(s, Bare())| < |s|
  {
    if s != "" && s[0] != '%' {
      BareShortens(s[1..]);
    } else if |s| > 1 {
      BareShortens(s[2..]);
    }
  }

  ghost predicate NonePercent(vars: seq<Assignment>) {
    forall a :: a in vars ==> '%' !in a.Text()
  }

  ghost predicate LoadsEverywhere(vars: seq<Assignment>) {
    forall sp :: Documented(sp) ==> LoadDropIn(DropInText(vars), sp) == Some(vars)
  }

  /** Every machine loads exactly the assignments if and only if none holds a percent sign. */
  lemma DropInLoadsExactly(vars: seq<Assignment>)
    requires forall a :: a in vars ==> OneLine(a)
    ensures LoadsEverywhere(vars) <==> NonePercent(vars)
  {
    if LoadsEverywhere(vars) {
      DropInLoadsOn(vars, Bare());
      forall a | a in vars ensures '%' !in a.Text() {
        BareShortens(a.Text());
      }
    }
    if NonePercent(vars) {
      forall sp ensures LoadDropIn(DropInText(vars), sp) == Some(vars) {
        forall a | a in vars ensures Expand(a.Text(), sp) == a.Text() {
          PlainExpands(a.Text(), sp);
        }
        DropInLoadsOn(vars, sp);
      }
    }
  }

  lemma {:induction false} UpperHoldsNoPercent(s: string)
    requires '%' !in s
    ensures '%' !in Upper(s)
  {
    if s != "" {
      UpperHoldsNoPercent(s[1..]);
    }
  }

  lemma BothPercent(name: string, value: string)
    requires '%' !in name
    ensures NonePercent(Both(name, value)) <==> '%' !in value
  {
    UpperHoldsNoPercent(name);
    if value != "" {
      var a := Both(name, value)[0];
      assert a in Both(name, value) && a.value == value;
      assert '%' in value ==> '%' in a.Text();
    }
  }

  lemma AssignmentsPercent(p: ProxyConfig)
    ensures NonePercent(Assignments(p)) <==> '%' !in p.http && '%' !in p.https && '%' !in p.noProxy
  {
    NamesHoldNoPercent();
    BothPercent(HTTP_PROXY, p.http);
    BothPercent(HTTPS_PROXY, p.https);
    BothPercent(NO_PROXY, p.noProxy);
    var a, b, c := Both(HTTP_PROXY, p.http), Both(HTTPS_PROXY, p.https), Both(NO_PROXY, p.noProxy);
    assert forall x :: x in a + b + c <==> x in a || x in b || x in c;
  }

  lemma NamesHoldNoPercent()
    ensures '%' !in HTTP_PROXY && '%' !in HTTPS_PROXY && '%' !in NO_PROXY
  {
  }

  /** For an accepted configuration: if and only if no list holds a percent sign. */
  lemma ConfigurationLoadsExactly(p: ProxyConfig)
    requires ValidProxy(p)
    ensures LoadsEverywhere(Assignments(p)) <==> '%' !in p.http && '%' !in p.https && '%' !in p.noProxy
  {
    AssignmentsOneLine(p);
    DropInLoadsExactly(Assignments(p));
    AssignmentsPercent(p);
  }

  lemma {:induction false} ExpandAppend(plain: string, s: string, sp: Specifiers)
    requires '%' !in plain
    ensures Expand(plain + s, sp) == plain + Expand(s, sp)
  {
    if plain == "" {
      assert plain + s == s;
    } else {
      ExpandAppend(plain[1..], s, sp);
      assert (plain + s)[1..] == plain[1..] + s;
      assert plain == [plain[0]] + plain[1..];
    }
  }

  lemma DoubledExpands(a: Assignment, sp: Specifiers)
    requires '%' !in a.name && a.value == "%%" && Documented(sp)
    ensures Expand(a.Text(), sp) != a.Text()
  {
    var head := a.name + "=";
    assert a.Text() == head + "%%";
    ExpandAppend(head, "%%", sp);
    assert "%%"[2..] == "";
    assert Expand("%%", sp) == "%";
  }

  /** An accepted value with a doubled percent sign is loaded as it was set on no machine at all. */
  lemma DoubledPercentIsHalved(p: ProxyConfig, sp: Specifiers)
    requires p.http == "%%" && ValidProxy(p) && Documented(sp)
    ensures LoadDropIn(DropInText(Assignments(p)), sp) != Some(Assignments(p))
  {
    var a := Assignment(HTTP_PROXY, p.http);
    AssignmentsOneLine(p);
    DropInLoadsOn(Assignments(p), sp);
    assert Both(HTTP_PROXY, p.http)[0] == a;
    assert Assignments(p)[0] == a && a in Assignments(p);
    NamesHoldNoPercent();
    DoubledExpands(a, sp);
  }
}
