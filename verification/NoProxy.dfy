/** The no_proxy list merged with its defaults (internal/proxy/proxy.go). */
module NoProxy {
  import opened Text

  const DEFAULT_NO_PROXY_ENTRIES: seq<string> :=
    ["localhost", "127.0.0.1", "10.0.2.0/24", "10.0.2.2", "10.0.2.3", "::1"]

  /** The `seen` map and `out` slice that the merge updates. */
  class Merger {
    const fold: Fold
    var seen: set<string>
    var out: seq<string>

    ghost predicate Valid()
      reads this
    {
      seen == KeysOf(out, fold)
    }

    constructor (fold: Fold)
      ensures Valid() && out == [] && this.fold == fold
    {
      this.fold := fold;
      seen, out := {}, [];
    }

    method Add(entry: string)
      requires Valid()
      modifies this
      ensures Valid() && out == AddEntry(old(out), entry, fold)
    {
      var e := TrimSpace(entry);
      if e == "" {
        return;
      }
      var key := Lower(e, fold);
      if key in seen {
        return;
      }
      seen := seen + {key};
      KeysOfAppend(out, e, fold);
      out := out + [e];
    }
  }

  function KeysOf(out: seq<string>, fold: Fold): set<string> {
    set e | e in out :: Lower(e, fold)
  }

  lemma KeysOfAppend(out: seq<string>, e: string, fold: Fold)
    ensures KeysOf(out + [e], fold) == KeysOf(out, fold) + {Lower(e, fold)}
  {
    assert forall x :: x in out + [e] <==> x in out || x == e;
  }

  function AddEntry(out: seq<string>, entry: string, fold: Fold): seq<string> {
    var e := TrimSpace(entry);
    if e == "" || Lower(e, fold) in KeysOf(out, fold) then out else out + [e]
  }

  function AddAll(out: seq<string>, entries: seq<string>, fold: Fold): seq<string> {
    if entries == [] then out
    else AddEntry(AddAll(out, entries[..|entries| - 1], fold), entries[|entries| - 1], fold)
  }

  /** The merged list, before it is joined with commas. */
  function MergedEntries(defaults: seq<string>, extra: string, fold: Fold): seq<string> {
    AddAll(AddAll([], defaults, fold), Split(extra, ','), fold)
  }

  function MergedList(defaults: seq<string>, extra: string, fold: Fold): string {
    Join(MergedEntries(defaults, extra, fold), ",")
  }

  /** One of the two loops: add every entry in turn. */
  method AddEach(m: Merger, entries: seq<string>)
    requires m.Valid()
    modifies m
    ensures m.Valid() && m.out == AddAll(old(m.out), entries, m.fold)
  {
    ghost var start := m.out;
    for i := 0 to |entries|
      invariant m.Valid()
      invariant m.out == AddAll(start, entries[..i], m.fold)
    {
      assert entries[..i + 1][..i] == entries[..i];
      m.Add(entries[i]);
    }
    assert entries[..|entries|] == entries;
  }

  method DefaultNoProxy(extra: string, fold: Fold) returns (r: string)
    ensures r == MergedList(DEFAULT_NO_PROXY_ENTRIES, extra, fold)
  {
    var m := new Merger(fold);
    AddEach(m, DEFAULT_NO_PROXY_ENTRIES);
    AddEach(m, Split(extra, ','));
    return Join(m.out, ",");
  }

  // ----- what the merge keeps -----

  /** Trimmed, not blank and free of commas: an entry that survives being joined and split. */
  predicate Clean(e: string) {
    e != "" && Trimmed(e) && ',' !in e
  }

  predicate NoDuplicates(out: seq<string>, fold: Fold) {
    forall i, j :: 0 <= i < j < |out| ==> Lower(out[i], fold) != Lower(out[j], fold)
  }

  predicate CleanList(out: seq<string>, fold: Fold) {
    (forall e :: e in out ==> Clean(e)) && NoDuplicates(out, fold)
  }

  lemma AddKeepsClean(out: seq<string>, entry: string, fold: Fold)
    requires CleanList(out, fold) && ',' !in entry
    ensures CleanList(AddEntry(out, entry, fold), fold)
  {
    TrimSpaceFacts(entry);
    forall i | 0 <= i < |out| ensures Lower(out[i], fold) in KeysOf(out, fold) {
      assert out[i] in out;
    }
  }

  lemma {:induction false} AddAllKeepsClean(out: seq<string>, entries: seq<string>, fold: Fold)
    requires CleanList(out, fold) && forall e :: e in entries ==> ',' !in e
    ensures CleanList(AddAll(out, entries, fold), fold)
    ensures out <= AddAll(out, entries, fold)
  {
    if entries != [] {
      var n := |entries| - 1;
      assert entries[n] in entries && forall e :: e in entries[..n] ==> e in entries;
      AddAllKeepsClean(out, entries[..n], fold);
      AddKeepsClean(AddAll(out, entries[..n], fold), entries[n], fold);
    }
  }

  lemma CleanIsAdded(out: seq<string>, e: string, fold: Fold)
    requires Clean(e) && forall x :: x in out ==> Lower(x, fold) != Lower(e, fold)
    ensures AddEntry(out, e, fold) == out + [e]
  {
    TrimSpaceFacts(e);
  }

  lemma KnownIsSkipped(out: seq<string>, e: string, fold: Fold)
    requires Clean(e) && e in out
    ensures AddEntry(out, e, fold) == out
  {
    TrimSpaceFacts(e);
  }

  /** Feeding a clean list to the merge, after any prefix of it, gives the list back. */
  lemma {:induction false} AddAllOfClean(list: seq<string>, k: nat, n: nat, fold: Fold)
    requires CleanList(list, fold) && k <= |list| && n <= |list|
    ensures AddAll(list[..k], list[..n], fold) == list[..if k < n then n else k]
  {
    if n > 0 {
      var e := list[n - 1];
      assert list[..n][..n - 1] == list[..n - 1];
      AddAllOfClean(list, k, n - 1, fold);
      assert e in list;
      if n <= k {
        assert list[..k][n - 1] == e;
        KnownIsSkipped(list[..k], e, fold);
      } else {
        assert list[..n] == list[..n - 1] + [e];
        CleanIsAdded(list[..n - 1], e, fold);
      }
    }
  }

  lemma DefaultIsPlain(i: nat)
    requires i < |DEFAULT_NO_PROXY_ENTRIES|
    ensures Clean(DEFAULT_NO_PROXY_ENTRIES[i]) && IsLowerAscii(DEFAULT_NO_PROXY_ENTRIES[i])
  {
  }

  lemma DefaultsDiffer(i: nat, j: nat)
    requires i < j < |DEFAULT_NO_PROXY_ENTRIES|
    ensures DEFAULT_NO_PROXY_ENTRIES[i] != DEFAULT_NO_PROXY_ENTRIES[j]
  {
    var a, b := DEFAULT_NO_PROXY_ENTRIES[i], DEFAULT_NO_PROXY_ENTRIES[j];
    if |a| == |b| {
      assert a[|a| - 1] != b[|b| - 1];
    }
  }

  lemma DefaultsAreClean(fold: Fold)
    ensures CleanList(DEFAULT_NO_PROXY_ENTRIES, fold)
  {
    var d := DEFAULT_NO_PROXY_ENTRIES;
    forall i | 0 <= i < |d| ensures Clean(d[i]) && Lower(d[i], fold) == d[i] {
      DefaultIsPlain(i);
      LowerOfLower(d[i], fold);
    }
    forall i, j | 0 <= i < j < |d| ensures Lower(d[i], fold) != Lower(d[j], fold) {
      DefaultsDiffer(i, j);
    }
  }

  lemma CleanDefaultsStart(defaults: seq<string>, fold: Fold)
    requires CleanList(defaults, fold)
    ensures AddAll([], defaults, fold) == defaults
  {
    AddAllOfClean(defaults, 0, |defaults|, fold);
    assert defaults[..0] == [] && defaults[..|defaults|] == defaults;
  }

  /** The list starts with the defaults, and its entries are clean and differ pairwise up to case. */
  lemma MergedEntriesAreClean(defaults: seq<string>, extra: string, fold: Fold)
    requires CleanList(defaults, fold)
    ensures CleanList(MergedEntries(defaults, extra, fold), fold)
    ensures defaults <= MergedEntries(defaults, extra, fold)
  {
    CleanDefaultsStart(defaults, fold);
    PiecesHoldNoSeparator(extra, ',');
    AddAllKeepsClean(defaults, Split(extra, ','), fold);
  }

  /** Reading the joined list back by splitting at commas gives the entries. */
  lemma SplitOfMergedList(defaults: seq<string>, extra: string, fold: Fold)
    requires CleanList(defaults, fold) && defaults != []
    ensures Split(MergedList(defaults, extra, fold), ',') == MergedEntries(defaults, extra, fold)
  {
    MergedEntriesAreClean(defaults, extra, fold);
    SplitOfJoin(MergedEntries(defaults, extra, fold), ',');
  }

  /** Merging twice, as production code does, is the same as merging once. */
  lemma MergeIdempotent(defaults: seq<string>, extra: string, fold: Fold)
    requires CleanList(defaults, fold) && defaults != []
    ensures MergedList(defaults, MergedList(defaults, extra, fold), fold) == MergedList(defaults, extra, fold)
  {
    var list := MergedEntries(defaults, extra, fold);
    MergedEntriesAreClean(defaults, extra, fold);
    SplitOfMergedList(defaults, extra, fold);
    CleanDefaultsStart(defaults, fold);
    assert list[..|defaults|] == defaults && list[..|list|] == list;
    AddAllOfClean(list, |defaults|, |list|, fold);
  }

  /** The same for the six defaults of the source. */
  lemma DefaultNoProxyIdempotent(extra: string, fold: Fold)
    ensures var once := MergedList(DEFAULT_NO_PROXY_ENTRIES, extra, fold);
      MergedList(DEFAULT_NO_PROXY_ENTRIES, once, fold) == once
  {
    DefaultsAreClean(fold);
    MergeIdempotent(DEFAULT_NO_PROXY_ENTRIES, extra, fold);
  }

  // ----- single entries -----

  /** A clean entry whose name is new is appended, whatever spaces surround it. */
  lemma PaddedEntryIsAdded(out: seq<string>, a: string, e: string, b: string, fold: Fold)
    requires AllSpaces(a) && AllSpaces(b) && Clean(e)
    requires forall x :: x in out ==> Lower(x, fold) != Lower(e, fold)
    ensures AddEntry(out, a + e + b, fold) == out + [e]
  {
    TrimPadded(a, e, b);
  }

  /** The two ASCII characters are the same letter but for its case. */
  predicate SameLetter(c: char, d: char) {
    c == d || ('A' <= c <= 'Z' && d as int == c as int + 32) || ('A' <= d <= 'Z' && c as int == d as int + 32)
  }

  lemma SameLetterSameLower(c: char, d: char, fold: Fold)
    requires SameLetter(c, d)
    ensures LowerChar(c, fold) == LowerChar(d, fold)
  {
  }

  lemma {:induction false} SameLettersSameKey(x: string, e: string, fold: Fold)
    requires |x| == |e| && forall i :: 0 <= i < |x| ==> SameLetter(x[i], e[i])
    ensures Lower(x, fold) == Lower(e, fold)
  {
    if x != "" {
      assert SameLetter(x[0], e[0]);
      SameLetterSameLower(x[0], e[0], fold);
      SameLettersSameKey(x[1..], e[1..], fold);
    }
  }

  /** An entry that is already there but for case and surrounding spaces is dropped. */
  lemma RecasedEntryIsDropped(out: seq<string>, x: string, a: string, e: string, b: string, fold: Fold)
    requires AllSpaces(a) && AllSpaces(b) && Trimmed(e) && x in out
    requires |x| == |e| && forall i :: 0 <= i < |x| ==> SameLetter(x[i], e[i])
    ensures AddEntry(out, a + e + b, fold) == out
  {
    TrimPadded(a, e, b);
    SameLettersSameKey(x, e, fold);
  }

  lemma CapitalLocalhostIsDropped(fold: Fold)
    ensures AddEntry(DEFAULT_NO_PROXY_ENTRIES, " LOCALHOST", fold) == DEFAULT_NO_PROXY_ENTRIES
  {
    assert DEFAULT_NO_PROXY_ENTRIES[0] == "localhost";
    RecasedEntryIsDropped(DEFAULT_NO_PROXY_ENTRIES, "localhost", " ", "LOCALHOST", "", fold);
    assert " " + "LOCALHOST" + "" == " LOCALHOST";
  }

  lemma JoinOfDefaults()
    ensures Join(DEFAULT_NO_PROXY_ENTRIES, ",") ==
      "localhost" + "," + ("127.0.0.1" + "," + ("10.0.2.0/24" + "," + ("10.0.2.2" + "," + ("10.0.2.3" + "," + "::1"))))
  {
    var d := DEFAULT_NO_PROXY_ENTRIES;
    assert d[1..][1..] == d[2..] && d[2..][1..] == d[3..] && d[3..][1..] == d[4..] && d[4..][1..] == d[5..];
    assert Join(d[5..], ",") == "::1";
    assert Join(d[4..], ",") == "10.0.2.3" + "," + Join(d[5..], ",");
    assert Join(d[3..], ",") == "10.0.2.2" + "," + Join(d[4..], ",");
    assert Join(d[2..], ",") == "10.0.2.0/24" + "," + Join(d[3..], ",");
    assert Join(d[1..], ",") == "127.0.0.1" + "," + Join(d[2..], ",");
  }

  /** Without extra entries the list is the six defaults. */
  lemma DefaultListExactly(fold: Fold)
    ensures MergedList(DEFAULT_NO_PROXY_ENTRIES, "", fold) ==
      "localhost" + "," + ("127.0.0.1" + "," + ("10.0.2.0/24" + "," + ("10.0.2.2" + "," + ("10.0.2.3" + "," + "::1"))))
  {
    DefaultsAreClean(fold);
    CleanDefaultsStart(DEFAULT_NO_PROXY_ENTRIES, fold);
    BlankIsDropped(DEFAULT_NO_PROXY_ENTRIES, fold);
    JoinOfDefaults();
  }

  lemma BlankIsDropped(out: seq<string>, fold: Fold)
    ensures AddAll(out, Split("", ','), fold) == out
  {
    assert [""][..0] == [];
    assert AddAll(out, [""][..0], fold) == out;
    TrimPadded("", "", "");
    assert "" + "" + "" == "";
    assert AddAll(out, [""], fold) == AddEntry(out, "", fold);
  }

  // ----- an independent description: first occurrences in order -----

  /** Entry `i` is not blank and no earlier entry has its case-insensitive key. */
  predicate IsFirst(entries: seq<string>, i: nat, fold: Fold)
    requires i < |entries|
  {
    TrimSpace(entries[i]) != "" &&
    forall j :: 0 <= j < i ==> Lower(TrimSpace(entries[j]), fold) != Lower(TrimSpace(entries[i]), fold)
  }

  /** The trimmed first occurrences among the first `n` entries, in order. */
  function Firsts(entries: seq<string>, n: nat, fold: Fold): seq<string>
    requires n <= |entries|
  {
    if n == 0 then []
    else Firsts(entries, n - 1, fold) + if IsFirst(entries, n - 1, fold) then [TrimSpace(entries[n - 1])] else []
  }

  lemma LowerBlank(s: string, fold: Fold)
    ensures Lower(s, fold) == "" <==> s == ""
  {
  }

  /** One of the first `n` entries has this key. */
  predicate KeyOccurs(entries: seq<string>, n: nat, fold: Fold, key: string)
    requires n <= |entries|
  {
    exists j :: 0 <= j < n && Lower(TrimSpace(entries[j]), fold) == key
  }

  lemma KeyOccursStep(entries: seq<string>, n: nat, fold: Fold, key: string)
    requires 0 < n <= |entries|
    ensures KeyOccurs(entries, n, fold, key) <==>
            KeyOccurs(entries, n - 1, fold, key) || Lower(TrimSpace(entries[n - 1]), fold) == key
  {
  }

  /** A blank or repeated entry adds no key. */
  lemma RepeatedKey(entries: seq<string>, i: nat, fold: Fold, key: string)
    requires i < |entries| && key != "" && !IsFirst(entries, i, fold)
    requires Lower(TrimSpace(entries[i]), fold) == key
    ensures KeyOccurs(entries, i, fold, key)
  {
    LowerBlank(TrimSpace(entries[i]), fold);
  }

  lemma {:induction false} FirstsKeys(entries: seq<string>, n: nat, fold: Fold, key: string)
    requires n <= |entries| && key != ""
    ensures key in KeysOf(Firsts(entries, n, fold), fold) <==> KeyOccurs(entries, n, fold, key)
  {
    if n > 0 {
      FirstsKeys(entries, n - 1, fold, key);
      KeyOccursStep(entries, n, fold, key);
      if IsFirst(entries, n - 1, fold) {
        KeysOfAppend(Firsts(entries, n - 1, fold), TrimSpace(entries[n - 1]), fold);
      } else if Lower(TrimSpace(entries[n - 1]), fold) == key {
        RepeatedKey(entries, n - 1, fold, key);
      }
    }
  }

  lemma {:induction false} AddAllIsFirsts(entries: seq<string>, n: nat, fold: Fold)
    requires n <= |entries|
    ensures AddAll([], entries[..n], fold) == Firsts(entries, n, fold)
  {
    if n > 0 {
      assert entries[..n][..n - 1] == entries[..n - 1];
      AddAllIsFirsts(entries, n - 1, fold);
      var e := TrimSpace(entries[n - 1]);
      LowerBlank(e, fold);
      if e != "" {
        FirstsKeys(entries, n - 1, fold, Lower(e, fold));
      }
    }
  }

  lemma {:induction false} AddAllAppend(out: seq<string>, a: seq<string>, b: seq<string>, fold: Fold)
    ensures AddAll(out, a + b, fold) == AddAll(AddAll(out, a, fold), b, fold)
  {
    if b == [] {
      assert a + b == a;
    } else {
      var n := |b| - 1;
      assert (a + b)[..|a + b| - 1] == a + b[..n];
      AddAllAppend(out, a, b[..n], fold);
    }
  }

  /** The merge is exactly the first occurrences of defaults followed by extras, trimmed and in order. */
  lemma MergeKeepsFirstOccurrences(defaults: seq<string>, extra: string, fold: Fold)
    ensures var all := defaults + Split(extra, ',');
      MergedEntries(defaults, extra, fold) == Firsts(all, |all|, fold)
  {
    var all := defaults + Split(extra, ',');
    AddAllAppend([], defaults, Split(extra, ','), fold);
    AddAllIsFirsts(all, |all|, fold);
    assert all[..|all|] == all;
  }
}
