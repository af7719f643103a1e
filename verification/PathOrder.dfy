/** Go's string order on paths, and the increasing enumeration of a finite set of paths. */
module PathOrder {
  type Path = string

  /** `a` comes before `b`, given that they agree up to index `i`. */
  predicate LessFrom(a: Path, b: Path, i: nat)
    decreases |b| - i
  {
    i < |b| && (i >= |a| || a[i] < b[i] || (a[i] == b[i] && LessFrom(a, b, i + 1)))
  }

  predicate Less(a: Path, b: Path) {
    LessFrom(a, b, 0)
  }

  lemma {:induction false} LessFromExactly(a: Path, b: Path, i: nat)
    requires i <= |a| && i <= |b| && a[..i] == b[..i]
    ensures LessFrom(a, b, i) <==>
            exists n: nat :: i <= n <= |a| && n < |b| && a[..n] == b[..n] && (n == |a| || a[n] < b[n])
    decreases |a| - i
  {
    if i < |a| && i < |b| {
      if a[i] == b[i] {
        LessFromExactly(a, b, i + 1);
      }
      forall n: nat | i < n <= |a| && n < |b| && a[..n] == b[..n] ensures a[i] == b[i] {
        assert a[..n][i] == b[..n][i];
      }
    }
  }

  /** `a` is a proper prefix of `b`, or has the smaller character where they first differ. */
  lemma LessExactly(a: Path, b: Path)
    ensures Less(a, b) <==>
            exists n: nat :: n <= |a| && n < |b| && a[..n] == b[..n] && (n == |a| || a[n] < b[n])
  {
    LessFromExactly(a, b, 0);
  }

  lemma {:induction false} IrreflexiveFrom(a: Path, i: nat)
    ensures !LessFrom(a, a, i)
    decreases |a| - i
  {
    if i < |a| {
      IrreflexiveFrom(a, i + 1);
    }
  }

  lemma {:induction false} TotalFrom(a: Path, b: Path, i: nat)
    requires i <= |a| && i <= |b| && forall k :: 0 <= k < i ==> a[k] == b[k]
    ensures a == b || LessFrom(a, b, i) || LessFrom(b, a, i)
    decreases |a| - i
  {
    if i < |a| && i < |b| && a[i] == b[i] {
      TotalFrom(a, b, i + 1);
    }
  }

  lemma {:induction false} TransitiveFrom(a: Path, b: Path, c: Path, i: nat)
    requires LessFrom(a, b, i) && LessFrom(b, c, i)
    ensures LessFrom(a, c, i)
    decreases |b| - i
  {
    if i < |a| && a[i] == b[i] == c[i] {
      TransitiveFrom(a, b, c, i + 1);
    }
  }

  lemma LessIrreflexive(a: Path)
    ensures !Less(a, a)
  {
    IrreflexiveFrom(a, 0);
  }

  lemma LessTotal(a: Path, b: Path)
    ensures a == b || Less(a, b) || Less(b, a)
  {
    TotalFrom(a, b, 0);
  }

  lemma LessTransitive(a: Path, b: Path, c: Path)
    requires Less(a, b) && Less(b, c)
    ensures Less(a, c)
  {
    TransitiveFrom(a, b, c, 0);
  }

  ghost predicate Increasing(s: seq<Path>) {
    forall i, j :: 0 <= i < j < |s| ==> Less(s[i], s[j])
  }

  ghost function Least(s: set<Path>): (m: Path)
    requires s != {}
    ensures m in s
    ensures forall x :: x in s && x != m ==> Less(m, x)
  {
    var x :| x in s;
    if s == {x} then x
    else
      var y := Least(s - {x});
      LessTotal(x, y);
      assert forall z :: z in s ==> z == x || z in s - {x};
      if Less(x, y) then
        (forall z | z in s - {x} && z != y { LessTransitive(x, y, z); }
         x)
      else y
  }

  /** The elements of `s`, each once, in increasing order. */
  ghost function Sorted(s: set<Path>): seq<Path> {
    if s == {} then [] else [Least(s)] + Sorted(s - {Least(s)})
  }

  lemma {:induction false} SortedFacts(s: set<Path>)
    ensures Increasing(Sorted(s))
    ensures forall x :: x in Sorted(s) <==> x in s
  {
    if s != {} {
      var m := Least(s);
      SortedFacts(s - {m});
      assert forall x :: x in s ==> x == m || x in s - {m};
    }
  }

  /** An increasing sequence is determined by the set of its elements. */
  lemma {:induction false} IncreasingUnique(a: seq<Path>, b: seq<Path>)
    requires Increasing(a) && Increasing(b)
    requires forall x :: x in a <==> x in b
    ensures a == b
  {
    if b != [] {
      var first := b[0];
      assert first in b;
    }
    if a != [] {
      assert a[0] in b;
      var k :| 0 <= k < |b| && b[k] == a[0];
      assert b[0] in a;
      var j :| 0 <= j < |a| && a[j] == b[0];
      HeadsEqual(a, b, j, k);
      forall x ensures x in a[1..] <==> x in b[1..] {
        LessIrreflexive(x);
        assert x in a <==> x == a[0] || x in a[1..];
        assert x in b <==> x == b[0] || x in b[1..];
        assert a[0] !in a[1..] by { LessIrreflexive(a[0]); }
        assert b[0] !in b[1..] by { LessIrreflexive(b[0]); }
      }
      IncreasingUnique(a[1..], b[1..]);
      assert a == [a[0]] + a[1..] && b == [b[0]] + b[1..];
    }
  }

  lemma HeadsEqual(a: seq<Path>, b: seq<Path>, j: nat, k: nat)
    requires Increasing(a) && Increasing(b)
    requires j < |a| && k < |b| && a[j] == b[0] && b[k] == a[0]
    ensures a[0] == b[0]
  {
    if a[0] != b[0] {
      assert Less(a[0], a[j]) && Less(b[0], b[k]);
      LessTransitive(a[0], b[0], a[0]);
      LessIrreflexive(a[0]);
    }
  }

  lemma InsertIncreasing(ps: seq<Path>, p: Path, j: nat)
    requires Increasing(ps) && p !in ps && j <= |ps|
    requires j > 0 ==> Less(ps[j - 1], p)
    requires j < |ps| ==> !Less(ps[j], p)
    ensures Increasing(ps[..j] + [p] + ps[j..])
  {
    forall k | 0 <= k < j ensures Less(ps[k], p) {
      if k < j - 1 {
        LessTransitive(ps[k], ps[j - 1], p);
      }
    }
    forall k | j <= k < |ps| ensures Less(p, ps[k]) {
      assert ps[j] in ps;
      LessTotal(p, ps[j]);
      if j < k {
        LessTransitive(p, ps[j], ps[k]);
      }
    }
  }
}
