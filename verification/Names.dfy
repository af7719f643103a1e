/** Which paths a scan skips, and the names given to conflict backups (internal/share/sync.go). */
module Names {
  import opened Int64s
  import opened PathOrder
  import Decimal

  const MARKER: string := ".vc-conflict-"

  datatype Side = Host | Guest

  predicate OccursAt(s: string, t: string, i: nat) {
    i + |t| <= |s| && s[i..i + |t|] == t
  }

  /** `t` occurs in `s` at index `i` or later. */
  predicate ContainsFrom(s: string, t: string, i: nat)
    decreases |s| - i
  {
    OccursAt(s, t, i) || (i < |s| && ContainsFrom(s, t, i + 1))
  }

  /** strings.Contains. */
  predicate Contains(s: string, t: string) {
    ContainsFrom(s, t, 0)
  }

  /** How much of `p[..n]` is left without its trailing slashes. */
  function StrippedEnd(p: Path, n: nat): (e: nat)
    requires n <= |p|
    ensures e <= n
  {
    if n > 0 && p[n - 1] == '/' then StrippedEnd(p, n - 1) else n
  }

  /** The last component of `p[..n]`. */
  function LastComponent(p: Path, n: nat): Path
    requires n <= |p|
  {
    if n > 0 && p[n - 1] != '/' then LastComponent(p, n - 1) + [p[n - 1]] else ""
  }

  /** Go's path.Base. */
  function Base(p: Path): Path {
    if p == "" then "."
    else
      var e := StrippedEnd(p, |p|);
      if e == 0 then "/" else LastComponent(p, e)
  }

  /**
   The paths that the scans skip. It is given as a set fixed by its members, so that proofs about
   the stores do not look into the text of every path they meet; IgnoredExactly says what it holds.
   */
  ghost function Ignored(): (skipped: iset<Path>)
    ensures forall p {:trigger Base(p)} :: p in skipped <==> Contains(Base(p), MARKER)
  {
    var all := iset p: Path | Contains(Base(p), MARKER);
    assert forall p {:trigger Base(p)} :: p in all <==> Contains(Base(p), MARKER);
    var skipped: iset<Path> :| forall p {:trigger Base(p)} :: p in skipped <==> Contains(Base(p), MARKER);
    skipped
  }

  ghost predicate IsIgnored(rel: Path) {
    rel in Ignored()
  }

  lemma IgnoredExactly(rel: Path)
    ensures IsIgnored(rel) <==> Contains(Base(rel), MARKER)
  {
    var base := Base(rel);
  }

  /** The test the scans make. */
  method TestIgnored(rel: Path) returns (skip: bool)
    ensures skip <==> IsIgnored(rel)
  {
    IgnoredExactly(rel);
    var base := Base(rel);
    return Contains(base, MARKER);
  }

  function SideName(side: Side): string {
    match side
    case Host => "host"
    case Guest => "guest"
  }

  function Suffix(side: Side, stamp: Int64): string {
    MARKER + SideName(side) + "-" + Decimal.Format(stamp)
  }

  /** The sibling that keeps the losing `side`'s version of `p`. */
  function BackupName(p: Path, side: Side, stamp: Int64): Path {
    p + Suffix(side, stamp)
  }

  lemma {:induction false} FoundOccurs(s: string, t: string, i: nat) returns (k: nat)
    requires ContainsFrom(s, t, i)
    ensures k + |t| <= |s| && s[k..k + |t|] == t
    decreases |s| - i
  {
    if OccursAt(s, t, i) {
      k := i;
    } else {
      k := FoundOccurs(s, t, i + 1);
    }
  }

  /** `t` is somewhere in `s`. */
  lemma ContainsExactly(s: string, t: string)
    ensures Contains(s, t) <==> exists a, b :: s == a + t + b
  {
    if Contains(s, t) {
      var k := FoundOccurs(s, t, 0);
      assert s == s[..k] + t + s[k + |t|..];
    }
    forall a, b | s == a + t + b ensures Contains(s, t) {
      MiddleOccurs(a, t, b);
    }
  }

  lemma {:induction false} OccurrenceIsFound(s: string, t: string, i: nat, k: nat)
    requires i <= k && OccursAt(s, t, k)
    ensures ContainsFrom(s, t, i)
    decreases k - i
  {
    if i < k {
      OccurrenceIsFound(s, t, i + 1, k);
    }
  }

  lemma {:induction false} LastComponentOfPrefix(p: Path, t: string, n: nat)
    requires n <= |p|
    ensures LastComponent(p + t, n) == LastComponent(p, n)
  {
    if n > 0 {
      LastComponentOfPrefix(p, t, n - 1);
    }
  }

  lemma OneMoreChar(p: Path, c: char)
    requires c != '/'
    ensures LastComponent(p + [c], |p| + 1) == LastComponent(p, |p|) + [c]
  {
    LastComponentOfPrefix(p, [c], |p|);
  }

  /** Text without a slash only extends the last component. */
  lemma {:induction false} LastComponentOfAppend(p: Path, t: string)
    requires '/' !in t
    ensures LastComponent(p + t, |p + t|) == LastComponent(p, |p|) + t
  {
    if t == "" {
      assert p + t == p;
    } else {
      var init, c := t[..|t| - 1], t[|t| - 1];
      assert c in t;
      LastComponentOfAppend(p, init);
      OneMoreChar(p + init, c);
      assert p + t == (p + init) + [c];
      assert t == init + [c];
    }
  }

  /** The base of a path that ends in slash-free text. */
  lemma BaseOfAppend(p: Path, t: string)
    requires t != "" && '/' !in t
    ensures Base(p + t) == LastComponent(p, |p|) + t
  {
    EndOfAppend(p, t);
    NothingStripped(p + t);
    LastComponentOfAppend(p, t);
  }

  lemma EndOfAppend(p: Path, t: string)
    requires t != "" && '/' !in t
    ensures (p + t)[|p + t| - 1] != '/'
  {
    assert (p + t)[|p + t| - 1] == t[|t| - 1];
    assert t[|t| - 1] in t;
  }

  lemma NothingStripped(n: Path)
    requires n != "" && n[|n| - 1] != '/'
    ensures Base(n) == LastComponent(n, |n|)
  {
  }

  lemma {:induction false} SlashesStripped(p: Path, slashes: string)
    requires forall c :: c in slashes ==> c == '/'
    ensures StrippedEnd(p + slashes, |p + slashes|) == StrippedEnd(p, |p|)
  {
    if slashes == "" {
      assert p + slashes == p;
    } else {
      var n := |slashes| - 1;
      assert slashes[n] in slashes && forall c :: c in slashes[..n] ==> c in slashes;
      assert p + slashes == (p + slashes[..n]) + [slashes[n]];
      SlashesStripped(p, slashes[..n]);
      StrippedOfPrefix(p + slashes[..n], [slashes[n]], |p| + n);
    }
  }

  lemma {:induction false} StrippedOfPrefix(p: Path, t: string, n: nat)
    requires n <= |p|
    ensures StrippedEnd(p + t, n) == StrippedEnd(p, n)
  {
    if n > 0 {
      StrippedOfPrefix(p, t, n - 1);
    }
  }

  lemma LastAfterSlash(dir: Path, name: Path)
    requires name != "" && '/' !in name && (dir == "" || dir[|dir| - 1] == '/')
    ensures LastComponent(dir + name, |dir + name|) == name
  {
    LastComponentOfAppend(dir, name);
    assert "" + name == name;
  }

  /** Every path is empty, or slashes, or has a last component between slashes: path.Base gives that one. */
  lemma BaseExactly(dir: Path, name: Path, slashes: string)
    requires '/' !in name && (dir == "" || dir[|dir| - 1] == '/')
    requires forall c :: c in slashes ==> c == '/'
    ensures name != "" ==> Base(dir + name + slashes) == name
    ensures Base(slashes) == if slashes == "" then "." else "/"
  {
    SlashesStripped("", slashes);
    assert "" + slashes == slashes;
    if name != "" {
      SlashesStripped(dir + name, slashes);
      EndOfAppend(dir, name);
      LastAfterSlash(dir, name);
      LastComponentOfPrefix(dir + name, slashes, |dir + name|);
    }
  }

  /** Only the last component decides: a marker in a directory name hides nothing. */
  lemma IgnoredByLastComponent(dir: Path, name: Path)
    requires name != "" && '/' !in name
    ensures IsIgnored(dir + "/" + name) <==> exists a, b :: name == a + ".vc-conflict-" + b
    ensures IsIgnored(name) <==> exists a, b :: name == a + ".vc-conflict-" + b
  {
    ContainsExactly(name, MARKER);
    IgnoredExactly(dir + "/" + name);
    IgnoredExactly(name);
    BaseOfAppend(dir + "/", name);
    BaseOfAppend("", name);
    assert "" + name == name;
  }

  /** The names of the backups as text. */
  lemma BackupNameExactly(p: Path, stamp: Int64)
    ensures BackupName(p, Guest, stamp) == p + ".vc-conflict-guest-" + Decimal.Format(stamp)
    ensures BackupName(p, Host, stamp) == p + ".vc-conflict-host-" + Decimal.Format(stamp)
  {
  }

  lemma SideNamePlain(side: Side)
    ensures SideName(side) != ""
    ensures forall c :: c in SideName(side) ==> c != '/' && c != '.'
  {
    match side
    case Host => assert SideName(side) == ['h', 'o', 's', 't'];
    case Guest => assert SideName(side) == ['g', 'u', 'e', 's', 't'];
  }

  lemma MarkerShape()
    ensures MARKER[0] == '.' && '.' !in MARKER[1..] && '/' !in MARKER
  {
    var rest := "vc-conflict-";
    assert MARKER[1..] == rest && '.' !in rest;
  }

  lemma TailPlain(side: Side, stamp: Int64)
    ensures forall c :: c in SideName(side) + "-" + Decimal.Format(stamp) ==> c != '/' && c != '.'
  {
    var d := Decimal.Format(stamp);
    SideNamePlain(side);
    forall c | c in SideName(side) + "-" + d ensures c != '/' && c != '.' {
      assert c in SideName(side) || c == '-' || c in d;
    }
  }

  lemma AppendPlain(m: string, tail: string)
    requires m != "" && m[0] == '.' && '.' !in m[1..] && '/' !in m
    requires forall c :: c in tail ==> c != '/' && c != '.'
    ensures var s := m + tail; s[..|m|] == m && '/' !in s && s[0] == '.' && '.' !in s[1..]
  {
    assert (m + tail)[1..] == m[1..] + tail;
  }

  /** A suffix is the marker's dot followed by text with neither dot nor slash. */
  lemma SuffixShape(side: Side, stamp: Int64)
    ensures var s := Suffix(side, stamp);
      |s| > |MARKER| && s[..|MARKER|] == MARKER && '/' !in s && s[0] == '.' && '.' !in s[1..]
  {
    var tail := SideName(side) + "-" + Decimal.Format(stamp);
    assert Suffix(side, stamp) == MARKER + tail;
    MarkerShape();
    TailPlain(side, stamp);
    AppendPlain(MARKER, tail);
  }

  lemma MiddleOccurs(a: string, t: string, b: string)
    ensures Contains(a + t + b, t)
  {
    assert OccursAt(a + t + b, t, |a|);
    OccurrenceIsFound(a + t + b, t, 0, |a|);
  }

  /** Every backup name is skipped by the scans, whatever the path it was made from. */
  lemma BackupIgnored(p: Path, side: Side, stamp: Int64)
    ensures IsIgnored(BackupName(p, side, stamp))
  {
    var s := Suffix(side, stamp);
    SuffixShape(side, stamp);
    IgnoredExactly(p + s);
    BaseOfAppend(p, s);
    var a := LastComponent(p, |p|);
    assert s == MARKER + s[|MARKER|..];
    assert a + s == a + MARKER + s[|MARKER|..];
    MiddleOccurs(a, MARKER, s[|MARKER|..]);
  }

  /** If both names end in a dot followed by dot-free text, they split at the same place. */
  lemma LastDotSplits(p: Path, s: string, q: Path, t: string)
    requires s != "" && s[0] == '.' && '.' !in s[1..]
    requires t != "" && t[0] == '.' && '.' !in t[1..]
    requires p + s == q + t
    ensures p == q && s == t
  {
    var n := p + s;
    assert n[|p|] == '.' && n[|q|] == '.';
    assert forall k :: |p| < k < |n| ==> n[k] == s[1..][k - |p| - 1];
    assert forall k :: |q| < k < |n| ==> n[k] == t[1..][k - |q| - 1];
    assert |p| == |q|;
    assert p == n[..|p|] && q == n[..|q|];
    assert s == n[|p|..] && t == n[|q|..];
  }

  /** Backup names are injective in the path, the losing side and the stamp. */
  lemma BackupNameInjective(p: Path, a: Side, m: Int64, q: Path, b: Side, n: Int64)
    requires BackupName(p, a, m) == BackupName(q, b, n)
    ensures p == q && a == b && m == n
  {
    SuffixShape(a, m);
    SuffixShape(b, n);
    LastDotSplits(p, Suffix(a, m), q, Suffix(b, n));
    var k := |MARKER|;
    assert Suffix(a, m)[k] == SideName(a)[0] && Suffix(b, n)[k] == SideName(b)[0];
    assert a == b;
    var j := k + |SideName(a)| + 1;
    assert Suffix(a, m)[j..] == Decimal.Format(m) && Suffix(b, n)[j..] == Decimal.Format(n);
    Decimal.ParseOfFormat(m);
    Decimal.ParseOfFormat(n);
  }
}
