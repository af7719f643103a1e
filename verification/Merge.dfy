/** The state a completed run leaves: which paths exist, and how far the two sides agree. */
module Merge {
  import opened Wrappers
  import opened Int64s
  import opened PathOrder
  import opened Names
  import opened Planner
  import opened SyncModel
  import opened RunFacts
  import opened Loss

  /** The synced paths of one side. */
  ghost function Keys(t: Tree): set<Path> {
    ScanOf(t).Keys
  }

  /** Three-way merge of key sets. */
  function MergedKeys(l: set<Path>, r: set<Path>, m: set<Path>): set<Path> {
    (l * r) + ((l + r) - m)
  }

  lemma SettledKeys(s: State, t: State, tol: Int64, clock: Clock)
    requires SettledFrom(s, t, tol, clock)
    ensures Keys(t.local) == Keys(t.remote) == Load(t.manifest).Keys ==
              MergedKeys(Keys(s.local), Keys(s.remote), Load(s.manifest).Keys)
  {
    var merged := MergedKeys(Keys(s.local), Keys(s.remote), Load(s.manifest).Keys);
    forall p ensures p in Keys(t.local) <==> p in merged ensures p in Keys(t.remote) <==> p in merged {
      if !IsIgnored(p) {
        SettledPresence(CellAt(s, p), tol, clock(p));
        assert At(t, p) == Settle(CellAt(s, p), tol, clock(p));
      }
    }
    assert Keys(t.local) == merged && Keys(t.remote) == merged;
  }

  lemma SettledPresence(c: Cell, tol: Int64, m: Int64)
    ensures var q := Settle(c, tol, m);
      && (q.local.Some? <==> q.remote.Some?)
      && (q.local.Some? <==> (c.local.Some? && c.remote.Some?) || ((c.local.Some? || c.remote.Some?) && c.base.None?))
  {
  }

  /** A completed run leaves host, guest and manifest with the three-way merge of the key sets. */
  lemma KeysMerge(s: State, r: RunEnv)
    requires Completes(s, r)
    ensures var t := Run(s, r);
      Keys(t.local) == Keys(t.remote) == Load(t.manifest).Keys ==
        MergedKeys(Keys(s.local), Keys(s.remote), Load(s.manifest).Keys)
  {
    CompletedRunSettles(s, r);
    SettledKeys(s, Run(s, r), EffectiveTol(r.tolSec), r.clock);
  }

  /**
   No distance by which a pair is kept has left the int64 range: not that of the two mtimes, and,
   where the baseline vouches for both, not that of one of them alone to the baseline.
   */
  predicate Unwrapped(c: Cell, tol: Int64)
    requires c.local.Some? && c.remote.Some?
  {
    var l, r := c.local.value.mtime, c.remote.value.mtime;
    && Abs(l - r) <= MAX
    && (c.base.Some? && !Changed(Stat(c.local.value), c.base, tol) ==>
          (Abs(l - c.base.value.modUnix) == MAX + 1 <==> Abs(r - c.base.value.modUnix) == MAX + 1))
  }

  /**
   Same content on both sides, or an untouched pair of equal sizes whose mtimes are at most twice
   the tolerance apart: always so within half the int64 range, and elsewhere exactly if no
   distance has wrapped around.
   */
  ghost predicate Agree(before: Cell, after: Pair, tol: Int64) {
    && after.local.Some? && after.remote.Some?
    && (|| after.local.value.content == after.remote.value.content
        || (&& after == Pair(before.local, before.remote)
            && |after.local.value.content| == |after.remote.value.content|
            && (CellInRange(before) ==> Abs(after.local.value.mtime - after.remote.value.mtime) <= 2 * tol)
            && (tol <= MAX / 3 ==>
                  (Abs(after.local.value.mtime - after.remote.value.mtime) <= 2 * tol <==> Unwrapped(before, tol)))))
  }

  /** Keeping two files bounds their distance through the manifest's baseline. */
  lemma KeptIsClose(c: Cell, tol: Int64)
    requires tol >= 0 && CellInRange(c) && VerdictOf(c, tol).Keep?
    requires c.local.Some? && c.remote.Some?
    ensures Abs(c.local.value.mtime - c.remote.value.mtime) <= 2 * tol
  {
    var l, r := Stat(c.local.value), Stat(c.remote.value);
    ComparisonsAreExact(l, r, tol);
    if c.base.Some? {
      ComparisonsAreExact(l, c.base.value, tol);
      ComparisonsAreExact(r, c.base.value, tol);
    }
  }

  /** The bound holds for a kept pair if and only if no distance has wrapped around. */
  lemma KeptIsCloseExactly(c: Cell, tol: Int64)
    requires 0 <= tol <= MAX / 3 && VerdictOf(c, tol).Keep?
    requires c.local.Some? && c.remote.Some?
    ensures Abs(c.local.value.mtime - c.remote.value.mtime) <= 2 * tol <==> Unwrapped(c, tol)
  {
  }

  lemma SettledAgrees(c: Cell, tol: Int64, m: Int64)
    requires tol >= 0 && Settle(c, tol, m).local.Some?
    ensures Agree(c, Settle(c, tol, m), tol)
    ensures VerdictOf(c, tol).Do? ==> TextOf(Settle(c, tol, m).local) == TextOf(Settle(c, tol, m).remote)
  {
    if VerdictOf(c, tol).Keep? {
      SettledPresence(c, tol, m);
      if CellInRange(c) {
        KeptIsClose(c, tol);
      }
      if tol <= MAX / 3 {
        KeptIsCloseExactly(c, tol);
      }
    }
  }

  /** After a completed run each surviving path agrees, with identical contents if it was acted on. */
  lemma SidesAgree(s: State, r: RunEnv, p: Path)
    requires Completes(s, r) && !IsIgnored(p) && p in Run(s, r).local
    ensures Agree(CellAt(s, p), At(Run(s, r), p), EffectiveTol(r.tolSec))
    ensures p in Paths(PlanFor(s, r.tolSec)) ==>
              TextOf(At(Run(s, r), p).local) == TextOf(At(Run(s, r), p).remote)
  {
    CompletedRunAt(s, r, p);
    PlannedAt(s, r.tolSec, p);
    SettledAgrees(CellAt(s, p), EffectiveTol(r.tolSec), r.clock(p));
  }

  /** The bound can fail: two new files, one of them dated half the int64 range back, are kept as equal. */
  lemma DistantPairIsKept()
    ensures var c := Cell(Some(File([1], MIN)), Some(File([2], 0)), None);
      VerdictOf(c, 2).Keep? && !Unwrapped(c, 2) && Abs(c.local.value.mtime - c.remote.value.mtime) > 2 * 2
  {
  }

  lemma NothingDeleted(sc: Scene)
    requires sc.manifest == map[]
    ensures forall a :: a in PlanOf(sc) ==> a.op != DeleteLocal && a.op != DeleteRemote
  {
    PlanOfIsPlan(sc);
    forall a | a in PlanOf(sc) ensures a.op != DeleteLocal && a.op != DeleteRemote {
      assert sc.Asks(a);
    }
  }

  /** A version at a path the manifest does not know survives every run, completed or failed. */
  lemma UnknownPathSurvives(s: State, r: RunEnv, p: Path, side: Side)
    requires !IsIgnored(p)
    requires CellAt(s, p).base.None? && Version(CellAt(s, p), side).Some?
    ensures Survives(s, r, p, Version(CellAt(s, p), side).value.content)
  {
    LossExactly(s, r, p, side);
  }

  /**
   A missing or corrupt manifest costs nothing: no run deletes anything or loses a version, and
   one that completes leaves all paths on both sides.
   */
  lemma LostManifestIsSafe(s: State, r: RunEnv)
    requires s.manifest.Missing? || s.manifest.Corrupt?
    ensures forall a :: a in PlanFor(s, r.tolSec) ==> a.op != DeleteLocal && a.op != DeleteRemote
    ensures Completes(s, r) ==>
              Keys(Run(s, r).local) == Keys(Run(s, r).remote) == Keys(s.local) + Keys(s.remote)
    ensures forall p, side :: !IsIgnored(p) && Version(CellAt(s, p), side).Some? ==>
              Survives(s, r, p, Version(CellAt(s, p), side).value.content)
  {
    assert SceneOf(s, r.tolSec).manifest == map[];
    NothingDeleted(SceneOf(s, r.tolSec));
    if Completes(s, r) {
      KeysMerge(s, r);
      var l, m := Keys(s.local), Keys(s.remote);
      assert MergedKeys(l, m, {}) == l + m;
    }
    forall p, side | !IsIgnored(p) && Version(CellAt(s, p), side).Some?
      ensures Survives(s, r, p, Version(CellAt(s, p), side).value.content)
    {
      UnknownPathSurvives(s, r, p, side);
    }
  }
}
