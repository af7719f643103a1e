/** Which versions are lost when failed runs are repeated until one completes. */
module RepeatedLoss {
  import opened Wrappers
  import opened Int64s
  import opened PathOrder
  import opened Names
  import opened Planner
  import opened SyncModel
  import opened RunFacts
  import opened Backups
  import opened Loss

  /** Content `x` is at the path, and some version holding it is not sacrificed. */
  predicate Lasting(c: Cell, x: Content, tol: Int64) {
    || (TextOf(c.local) == Some(x) && !Sacrificed(c, Host, tol))
    || (TextOf(c.remote) == Some(x) && !Sacrificed(c, Guest, tol))
  }

  /** Content `x` is the losing side's in a conflict. */
  predicate LosesConflict(c: Cell, x: Content, tol: Int64) {
    InConflict(c, tol) && TextOf(Version(c, Other(Winner(c)))) == Some(x)
  }

  /** A version lasts exactly when it is not sacrificed: a copy on the other side changes nothing. */
  lemma VersionLasts(c: Cell, side: Side, tol: Int64)
    requires Version(c, side).Some?
    ensures Lasting(c, Version(c, side).value.content, tol) <==> !Sacrificed(c, side, tol)
  {
  }

  /** Where a verdict is carried out, a content lasts exactly if it is still in place or was a conflict's loser. */
  lemma SettlingKeepsLasting(c: Cell, x: Content, tol: Int64, m: Int64)
    ensures Lasting(c, x, tol) <==> InPlace(Settle(c, tol, m), x) || LosesConflict(c, x, tol)
  {
    if InConflict(c, tol) {
      ConflictVerdict(c, tol, m);
    }
  }

  /** After an action nothing at its path is sacrificed any more, under the old baseline. */
  lemma NothingLeftToSacrifice(c: Cell, x: Content, tol: Int64, m: Int64)
    requires VerdictOf(c, tol).Do?
    ensures var q := Settle(c, tol, m); Lasting(Cell(q.local, q.remote, c.base), x, tol) <==> InPlace(q, x)
  {
  }

  /** An unfinished conflict keeps both versions. */
  lemma LoserLasts(c: Cell, x: Content, tol: Int64)
    requires LosesConflict(c, x, tol)
    ensures Lasting(c, x, tol)
  {
    SettlingKeepsLasting(c, x, tol, 0);
  }

  // ----- backups over several runs -----

  /** All stamps of the runs differ from `stamp`. */
  ghost predicate NoneHasStamp(runs: seq<RunEnv>, stamp: Int64) {
    forall r :: r in runs ==> r.stamp != stamp
  }

  ghost predicate DistinctStamps(runs: seq<RunEnv>)
    decreases |runs|
  {
    runs == [] || (NoneHasStamp(runs[1..], runs[0].stamp) && DistinctStamps(runs[1..]))
  }

  lemma {:induction false} RunsKeepBackup(s: State, runs: seq<RunEnv>, p: Path, side: Side, stamp: Int64)
    requires NoneHasStamp(runs, stamp)
    ensures At(RunAll(s, runs), BackupName(p, side, stamp)) == At(s, BackupName(p, side, stamp))
    decreases |runs|
  {
    if runs != [] {
      assert runs[0] in runs && forall r :: r in runs[1..] ==> r in runs;
      OtherStampKeepsBackup(s, runs[0], p, side, stamp);
      RunsKeepBackup(Run(s, runs[0]), runs[1..], p, side, stamp);
    }
  }

  /** In state `t`, content `x` is in a backup of `p` that one of the runs wrote. */
  ghost predicate InSomeBackup(s: State, runs: seq<RunEnv>, t: State, p: Path, x: Content)
    decreases |runs|
  {
    runs != [] && (InBackupOf(s, runs[0], t, p, x) || InSomeBackup(Run(s, runs[0]), runs[1..], t, p, x))
  }

  /** `x` is at `p` at the end of the runs, or in a backup of `p` that one of them wrote. */
  ghost predicate SurvivesRuns(s: State, runs: seq<RunEnv>, p: Path, x: Content) {
    InPlace(At(RunAll(s, runs), p), x) || InSomeBackup(s, runs, RunAll(s, runs), p, x)
  }

  /** A backup that a run wrote at `p` holds the loser of a conflict found there before the run. */
  lemma WrittenMeansConflict(s: State, r: RunEnv, a: Action)
    requires Wrote(s, r, a)
    ensures var c, tol := CellAt(s, a.path), EffectiveTol(r.tolSec);
      InConflict(c, tol) && LosingFile(s, a) == Version(c, Other(Winner(c)))
    ensures TextOf(Get(Run(s, r).local, BackupPath(a, r.stamp))) == TextOf(LosingFile(s, a))
  {
    var c, tol := CellAt(s, a.path), EffectiveTol(r.tolSec);
    WroteIsPlanned(s, r, a);
    ConflictOnlyThen(c, tol);
    ConflictVerdict(c, tol, 0);
    WroteBackup(s, r, a);
  }

  /** Later runs with other stamps do not change what the backups of `r` hold. */
  lemma InBackupStays(s: State, r: RunEnv, later: seq<RunEnv>, p: Path, x: Content)
    requires NoneHasStamp(later, r.stamp)
    ensures InBackupOf(s, r, RunAll(Run(s, r), later), p, x) <==> InBackupOf(s, r, Run(s, r), p, x)
  {
    var t, u := Run(s, r), RunAll(Run(s, r), later);
    forall a | Wrote(s, r, a) && a.path == p
      ensures Get(u.local, BackupPath(a, r.stamp)) == Get(t.local, BackupPath(a, r.stamp))
    {
      RunsKeepBackup(t, later, a.path, Loser(a.resolution), r.stamp);
    }
  }

  /** A backup of a run holds only a conflict's loser, and does if the run carried the conflict out. */
  lemma InBackupExactly(s: State, r: RunEnv, p: Path, x: Content)
    requires !IsIgnored(p)
    ensures var c, tol := CellAt(s, p), EffectiveTol(r.tolSec);
      && (InBackupOf(s, r, Run(s, r), p, x) ==> LosesConflict(c, x, tol))
      && (LosesConflict(c, x, tol) && Reached(s, r, p) ==> InBackupOf(s, r, Run(s, r), p, x))
  {
    var c, tol := CellAt(s, p), EffectiveTol(r.tolSec);
    forall a | Wrote(s, r, a) && a.path == p
      ensures InConflict(c, tol)
      ensures TextOf(Get(Run(s, r).local, BackupPath(a, r.stamp))) == TextOf(Version(c, Other(Winner(c))))
    {
      WrittenMeansConflict(s, r, a);
    }
    if LosesConflict(c, x, tol) && Reached(s, r, p) {
      ConflictVerdict(c, tol, 0);
      LoserIsBackedUp(s, r, p);
    }
  }

  // ----- the runs -----

  /** A failed run hands a content on, in place or in its own backup, exactly if the content lasts. */
  lemma FailedRunHandsOn(s: State, r: RunEnv, p: Path, x: Content)
    requires !IsIgnored(p) && !Completes(s, r)
    ensures var tol := EffectiveTol(r.tolSec);
      Lasting(CellAt(s, p), x, tol) <==>
      Lasting(CellAt(Run(s, r), p), x, tol) || InBackupOf(s, r, Run(s, r), p, x)
  {
    var c, tol := CellAt(s, p), EffectiveTol(r.tolSec);
    FailedRunAt(s, r, p);
    InBackupExactly(s, r, p, x);
    if Reached(s, r, p) {
      RunAt(s, r, p);
      SettlingKeepsLasting(c, x, tol, r.clock(p));
      NothingLeftToSacrifice(c, x, tol, r.clock(p));
    } else if LosesConflict(c, x, tol) {
      LoserLasts(c, x, tol);
    }
  }

  /** A completed run leaves a content, in place or in its own backup, exactly if the content lasts. */
  lemma CompletedRunLeaves(s: State, r: RunEnv, p: Path, x: Content)
    requires !IsIgnored(p) && Completes(s, r)
    ensures Lasting(CellAt(s, p), x, EffectiveTol(r.tolSec)) <==>
            InPlace(At(Run(s, r), p), x) || InBackupOf(s, r, Run(s, r), p, x)
  {
    var c, tol := CellAt(s, p), EffectiveTol(r.tolSec);
    CompletedRunAt(s, r, p);
    SettlingKeepsLasting(c, x, tol, r.clock(p));
    InBackupExactly(s, r, p, x);
    if LosesConflict(c, x, tol) {
      ConflictVerdict(c, tol, 0);
      PlannedAt(s, r.tolSec, p);
      FinishedSaves(s, PlanFor(s, r.tolSec), r);
    }
  }

  /** All runs but the last fail, and the last completes. */
  ghost predicate FailUntilLast(s: State, runs: seq<RunEnv>)
    decreases |runs|
  {
    && runs != []
    && if |runs| == 1 then Completes(s, runs[0])
       else !Completes(s, runs[0]) && FailUntilLast(Run(s, runs[0]), runs[1..])
  }

  lemma {:induction false} LastingSurvives(s: State, runs: seq<RunEnv>, tolSec: Int64, p: Path, x: Content)
    requires !IsIgnored(p) && FailUntilLast(s, runs) && DistinctStamps(runs)
    requires forall r :: r in runs ==> r.tolSec == tolSec
    ensures SurvivesRuns(s, runs, p, x) <==> Lasting(CellAt(s, p), x, EffectiveTol(tolSec))
    decreases |runs|
  {
    var r, later := runs[0], runs[1..];
    var t := Run(s, r);
    assert r in runs && forall q :: q in later ==> q in runs;
    var u := RunAll(s, runs);
    assert u == RunAll(t, later);
    assert InSomeBackup(s, runs, u, p, x) <==> InBackupOf(s, r, u, p, x) || InSomeBackup(t, later, u, p, x);
    InBackupStays(s, r, later, p, x);
    if |runs| == 1 {
      assert later == [] && u == t;
      CompletedRunLeaves(s, r, p, x);
    } else {
      LastingSurvives(t, later, tolSec, p, x);
      FailedRunHandsOn(s, r, p, x);
    }
  }

  /**
   Runs repeated until one completes, with distinct stamps: a version of the first state survives,
   in place or in a backup that one of the runs wrote, if and only if it was not sacrificed there.
   How often and where the runs failed does not matter.
   */
  lemma {:induction false} LossOverRuns(s: State, runs: seq<RunEnv>, tolSec: Int64, p: Path, side: Side)
    requires !IsIgnored(p) && FailUntilLast(s, runs) && DistinctStamps(runs)
    requires forall r :: r in runs ==> r.tolSec == tolSec
    requires Version(CellAt(s, p), side).Some?
    ensures SurvivesRuns(s, runs, p, Version(CellAt(s, p), side).value.content) <==>
            !Sacrificed(CellAt(s, p), side, EffectiveTol(tolSec))
  {
    LastingSurvives(s, runs, tolSec, p, Version(CellAt(s, p), side).value.content);
    VersionLasts(CellAt(s, p), side, EffectiveTol(tolSec));
  }
}
