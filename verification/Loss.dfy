/** Which versions a run destroys, exactly. */
module Loss {
  import opened Wrappers
  import opened Int64s
  import opened PathOrder
  import opened Names
  import opened Planner
  import opened SyncModel
  import opened RunFacts
  import opened Backups
  import opened CrashResume

  predicate InPlace(q: Pair, c: Content) {
    TextOf(q.local) == Some(c) || TextOf(q.remote) == Some(c)
  }

  /** In state `t`, content `x` is in a backup of `p` that run `r` wrote when started in `s`. */
  ghost predicate InBackupOf(s: State, r: RunEnv, t: State, p: Path, x: Content) {
    exists a :: Wrote(s, r, a) && a.path == p && TextOf(Get(t.local, BackupPath(a, r.stamp))) == Some(x)
  }

  /** Content `c`, at `p` before the run, can still be found there or in a backup made by this run. */
  ghost predicate Survives(s: State, r: RunEnv, p: Path, c: Content) {
    InPlace(At(Run(s, r), p), c) || InBackupOf(s, r, Run(s, r), p, c)
  }

  /**
   What a caller can see beforehand: the version is alone and the manifest knows the path, or
   it is unchanged since the manifest while the other side has changed to different content.
   */
  predicate Sacrificed(c: Cell, side: Side, tol: Int64) {
    var mine, other := Version(c, side), Version(c, Other(side));
    mine.Some? &&
    if other.None? then c.base.Some?
    else
      && !Changed(Stat(mine.value), c.base, tol)
      && Changed(Stat(other.value), c.base, tol)
      && other.value.content != mine.value.content
  }

  /** Carrying out a verdict loses a version in place exactly when it was sacrificed, or was a conflict's loser. */
  lemma SettleLoses(c: Cell, side: Side, tol: Int64, m: Int64)
    requires Version(c, side).Some? && VerdictOf(c, tol).Do?
    ensures VerdictOf(c, tol).op != Conflict ==>
              (InPlace(Settle(c, tol, m), Version(c, side).value.content) <==> !Sacrificed(c, side, tol))
    ensures VerdictOf(c, tol).op == Conflict ==> !Sacrificed(c, side, tol)
    ensures VerdictOf(c, tol).op == Conflict && side != Loser(VerdictOf(c, tol).resolution) ==>
              InPlace(Settle(c, tol, m), Version(c, side).value.content)
  {
  }

  lemma KeepLosesNothing(c: Cell, side: Side, tol: Int64)
    requires Version(c, side).Some? && VerdictOf(c, tol).Keep?
    ensures !Sacrificed(c, side, tol)
  {
  }

  /** A path that was reached and found in conflict has its losing version in a backup. */
  lemma LoserIsBackedUp(s: State, r: RunEnv, p: Path)
    requires !IsIgnored(p) && Reached(s, r, p)
    requires VerdictOf(CellAt(s, p), EffectiveTol(r.tolSec)).Do?
    requires VerdictOf(CellAt(s, p), EffectiveTol(r.tolSec)).op == Conflict
    ensures var loser := Version(CellAt(s, p), Loser(VerdictOf(CellAt(s, p), EffectiveTol(r.tolSec)).resolution));
      loser.Some? && InBackupOf(s, r, Run(s, r), p, loser.value.content)
  {
    var plan := PlanFor(s, r.tolSec);
    PlannedAt(s, r.tolSec, p);
    var i := ReachedIndex(plan, r.fault, p);
    var a := plan[i];
    assert WroteOf(plan, r.fault, a);
    WroteBackup(s, r, a);
    assert Holds(Run(s, r), s, a, r.stamp, r.clock);
  }

  /** Without a conflict at `p` there is no backup of `p` to look in. */
  lemma NoBackupUnlessConflict(s: State, r: RunEnv, p: Path, c: Content)
    requires var v := VerdictOf(CellAt(s, p), EffectiveTol(r.tolSec)); v.Keep? || v.op != Conflict
    ensures !InBackupOf(s, r, Run(s, r), p, c)
  {
    forall a | Wrote(s, r, a) ensures a.path != p {
      WroteIsPlanned(s, r, a);
    }
  }

  /** After any run, however it ends, a version is lost exactly when its path was reached and it was sacrificed. */
  lemma LossExactly(s: State, r: RunEnv, p: Path, side: Side)
    requires !IsIgnored(p)
    requires Version(CellAt(s, p), side).Some?
    ensures Survives(s, r, p, Version(CellAt(s, p), side).value.content) <==>
            !(Reached(s, r, p) && Sacrificed(CellAt(s, p), side, EffectiveTol(r.tolSec)))
  {
    var c, tol := CellAt(s, p), EffectiveTol(r.tolSec);
    var text := Version(c, side).value.content;
    RunAt(s, r, p);
    if Reached(s, r, p) {
      SettleLoses(c, side, tol, r.clock(p));
      if VerdictOf(c, tol).op == Conflict {
        LoserIsBackedUp(s, r, p);
      } else {
        NoBackupUnlessConflict(s, r, p, text);
      }
    }
  }

  /** For a run that completes the condition is on the state before the call alone. */
  lemma LossOfCompletedRun(s: State, r: RunEnv, p: Path, side: Side)
    requires !IsIgnored(p) && Completes(s, r)
    requires Version(CellAt(s, p), side).Some?
    ensures Survives(s, r, p, Version(CellAt(s, p), side).value.content) <==>
            !Sacrificed(CellAt(s, p), side, EffectiveTol(r.tolSec))
  {
    LossExactly(s, r, p, side);
    PlannedAt(s, r.tolSec, p);
    FinishedSaves(s, PlanFor(s, r.tolSec), r);
    if VerdictOf(CellAt(s, p), EffectiveTol(r.tolSec)).Keep? {
      KeepLosesNothing(CellAt(s, p), side, EffectiveTol(r.tolSec));
    }
  }

  // ----- conflicts -----

  /** Both sides changed and do not count as equal. */
  predicate InConflict(c: Cell, tol: Int64) {
    && c.local.Some? && c.remote.Some?
    && Changed(Stat(c.local.value), c.base, tol)
    && Changed(Stat(c.remote.value), c.base, tol)
    && !EntriesEqual(Stat(c.local.value), Stat(c.remote.value), tol)
  }

  /** The side whose version was written later; the host on a tie. */
  function Winner(c: Cell): Side
    requires c.local.Some? && c.remote.Some?
  {
    if c.remote.value.mtime > c.local.value.mtime then Guest else Host
  }

  lemma ConflictVerdict(c: Cell, tol: Int64, m: Int64)
    requires InConflict(c, tol)
    ensures VerdictOf(c, tol).Do? && VerdictOf(c, tol).op == Conflict
    ensures Loser(VerdictOf(c, tol).resolution) == Other(Winner(c))
    ensures var text := TextOf(Version(c, Winner(c))); Texts(Settle(c, tol, m)) == (text, text)
  {
  }

  /**
   Last writer wins and the other version is kept: a completed run leaves the later version on
   both sides, the host's on a tie, and the other one in the host's backup named after its side.
   */
  lemma LastWriterWins(s: State, r: RunEnv, p: Path)
    requires !IsIgnored(p) && Completes(s, r) && InConflict(CellAt(s, p), EffectiveTol(r.tolSec))
    ensures p in s.local && p in s.remote && p in Run(s, r).local && p in Run(s, r).remote
    ensures var won := if s.remote[p].mtime > s.local[p].mtime then s.remote[p].content else s.local[p].content;
      Run(s, r).local[p].content == won && Run(s, r).remote[p].content == won
    ensures var (kept, lost) :=
      if s.remote[p].mtime > s.local[p].mtime
      then (p + ".vc-conflict-host-" + Decimal.Format(r.stamp), s.local[p].content)
      else (p + ".vc-conflict-guest-" + Decimal.Format(r.stamp), s.remote[p].content);
      kept in Run(s, r).local && Run(s, r).local[kept].content == lost
  {
    BackupNameExactly(p, r.stamp);
    var c, tol := CellAt(s, p), EffectiveTol(r.tolSec);
    var plan := PlanFor(s, r.tolSec);
    ConflictVerdict(c, tol, r.clock(p));
    CompletedRunAt(s, r, p);
    PlannedAt(s, r.tolSec, p);
    FinishedSaves(s, plan, r);
    var i := ReachedIndex(plan, r.fault, p);
    assert WroteOf(plan, r.fault, plan[i]);
    WroteBackup(s, r, plan[i]);
  }

  // ----- an existing backup through a run -----

  /** A completed run writes exactly the backups of the paths that are in conflict before it. */
  lemma WroteExactlyConflicts(s: State, r: RunEnv, p: Path, side: Side)
    requires Completes(s, r)
    ensures (exists a :: Wrote(s, r, a) && a.path == p && Loser(a.resolution) == side) <==>
            !IsIgnored(p) && InConflict(CellAt(s, p), EffectiveTol(r.tolSec)) && side == Other(Winner(CellAt(s, p)))
  {
    var c, tol := CellAt(s, p), EffectiveTol(r.tolSec);
    var plan := PlanFor(s, r.tolSec);
    forall a | Wrote(s, r, a) && a.path == p && Loser(a.resolution) == side
      ensures !IsIgnored(p) && InConflict(c, tol) && side == Other(Winner(c))
    {
      WroteIsPlanned(s, r, a);
      ConflictOnlyThen(c, tol);
      ConflictVerdict(c, tol, 0);
    }
    if !IsIgnored(p) && InConflict(c, tol) && side == Other(Winner(c)) {
      ConflictVerdict(c, tol, 0);
      PlannedAt(s, r.tolSec, p);
      FinishedSaves(s, plan, r);
      var i := ReachedIndex(plan, r.fault, p);
      assert WroteOf(plan, r.fault, plan[i]);
    }
  }

  lemma ConflictOnlyThen(c: Cell, tol: Int64)
    requires VerdictOf(c, tol).Do? && VerdictOf(c, tol).op == Conflict
    ensures InConflict(c, tol)
  {
  }

  /** The backup named after `p`, `side` and `stamp` is about to be overwritten with another version. */
  ghost predicate BackupInDanger(s: State, tol: Int64, runStamp: Int64, p: Path, side: Side, stamp: Int64) {
    && stamp == runStamp
    && !IsIgnored(p)
    && InConflict(CellAt(s, p), tol)
    && side == Other(Winner(CellAt(s, p)))
    && TextOf(Version(CellAt(s, p), side)) != TextOf(Get(s.local, BackupName(p, side, stamp)))
  }

  /** For a completed run the state before it decides whether a backup keeps its content. */
  lemma BackupKeptByCompletedRun(s: State, r: RunEnv, p: Path, side: Side, stamp: Int64)
    requires Completes(s, r)
    ensures var n := BackupName(p, side, stamp);
      TextOf(Get(Run(s, r).local, n)) == TextOf(Get(s.local, n)) <==>
      !BackupInDanger(s, EffectiveTol(r.tolSec), r.stamp, p, side, stamp)
  {
    BackupKeptExactly(s, r, p, side, stamp);
    WroteExactlyConflicts(s, r, p, side);
    forall a | Wrote(s, r, a) && a.path == p && Loser(a.resolution) == side
      ensures LosingFile(s, a) == Version(CellAt(s, p), side)
    {
    }
  }
}
