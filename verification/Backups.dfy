/** Conflict backups: what a run writes, and that nothing later disturbs it. */
module Backups {
  import opened Wrappers
  import opened Int64s
  import opened PathOrder
  import opened Names
  import opened Planner
  import opened SyncModel
  import opened RunFacts

  /** The version a conflict action is about to overwrite. */
  function LosingFile(s: State, a: Action): Option<File> {
    Version(CellAt(s, a.path), Loser(a.resolution))
  }

  lemma TransferKeepsSkipped(s: State, p: Path, op: Op, clock: Clock, n: Path)
    requires IsIgnored(n) && !IsIgnored(p)
    ensures At(Transfer(s, p, op, clock), n) == At(s, n)
  {
  }

  lemma ExecKeepsOtherNames(s: State, a: Action, stamp: Int64, clock: Clock, n: Path)
    requires IsIgnored(n) && !IsIgnored(a.path)
    ensures Get(Exec(s, a, stamp, clock).remote, n) == Get(s.remote, n)
    ensures (a.op == Conflict ==> BackupPath(a, stamp) != n) ==>
              Get(Exec(s, a, stamp, clock).local, n) == Get(s.local, n)
  {
  }

  lemma {:induction false} OtherNamesKept(s: State, actions: seq<Action>, stamp: Int64, clock: Clock, n: Path)
    requires AllReady(s, actions) && IsIgnored(n)
    ensures Get(ExecAll(s, actions, stamp, clock).remote, n) == Get(s.remote, n)
    ensures (forall a :: a in actions && a.op == Conflict ==> BackupPath(a, stamp) != n) ==>
              Get(ExecAll(s, actions, stamp, clock).local, n) == Get(s.local, n)
  {
    if actions != [] {
      var k := |actions| - 1;
      assert forall a :: a in actions[..k] ==> a in actions;
      assert actions[k] in actions && Ready(s, actions[k]);
      OtherNamesKept(s, actions[..k], stamp, clock, n);
      ExecKeepsOtherNames(ExecAll(s, actions[..k], stamp, clock), actions[k], stamp, clock, n);
    }
  }

  /** `t` holds the backup of `a`: the version that `a` overwrites, as it was in `s`. */
  predicate Holds(t: State, s: State, a: Action, stamp: Int64, clock: Clock) {
    var dst := BackupPath(a, stamp);
    LosingFile(s, a).Some? && Get(t.local, dst) == Some(File(LosingFile(s, a).value.content, clock(dst)))
  }

  lemma DistinctBackups(a: Action, b: Action, stamp: Int64)
    requires a.path != b.path
    ensures BackupPath(a, stamp) != BackupPath(b, stamp)
  {
    if BackupPath(a, stamp) == BackupPath(b, stamp) {
      BackupNameInjective(a.path, Loser(a.resolution), stamp, b.path, Loser(b.resolution), stamp);
    }
  }

  /** Writing a backup when the action is due stores the version its side had before the run. */
  lemma BackupWhenDue(s: State, actions: seq<Action>, i: nat, stamp: Int64, clock: Clock)
    requires AllReady(s, actions) && i < |actions| && actions[i].op == Conflict
    ensures Holds(Backup(ExecAll(s, actions[..i], stamp, clock), actions[i], stamp, clock), s, actions[i], stamp, clock)
  {
    ReadyWhenDue(s, actions, i, stamp, clock);
  }

  lemma TransferKeepsHeld(t: State, s: State, a: Action, stamp: Int64, clock: Clock)
    requires Holds(t, s, a, stamp, clock) && !IsIgnored(a.path)
    ensures Holds(Transfer(t, a.path, a.Effective(), clock), s, a, stamp, clock)
  {
    BackupIgnored(a.path, Loser(a.resolution), stamp);
    TransferKeepsSkipped(t, a.path, a.Effective(), clock, BackupPath(a, stamp));
  }

  lemma ExecKeepsHeld(t: State, s: State, a: Action, b: Action, stamp: Int64, clock: Clock)
    requires Holds(t, s, a, stamp, clock) && a.path != b.path && !IsIgnored(b.path)
    ensures Holds(Exec(t, b, stamp, clock), s, a, stamp, clock)
  {
    BackupIgnored(a.path, Loser(a.resolution), stamp);
    DistinctBackups(a, b, stamp);
    ExecKeepsOtherNames(t, b, stamp, clock, BackupPath(a, stamp));
  }

  lemma {:induction false} BackupWritten(s: State, actions: seq<Action>, i: nat, stamp: Int64, clock: Clock)
    requires AllReady(s, actions) && i < |actions| && actions[i].op == Conflict
    ensures Holds(ExecAll(s, actions, stamp, clock), s, actions[i], stamp, clock)
  {
    var k := |actions| - 1;
    var t := ExecAll(s, actions[..k], stamp, clock);
    assert Ready(s, actions[k]);
    if i == k {
      BackupWhenDue(s, actions, i, stamp, clock);
      TransferKeepsHeld(Backup(t, actions[k], stamp, clock), s, actions[k], stamp, clock);
    } else {
      PrefixReady(s, actions, k);
      BackupWritten(s, actions[..k], i, stamp, clock);
      ExecKeepsHeld(t, s, actions[i], actions[k], stamp, clock);
    }
  }

  // ----- one run -----

  /** `a` is a conflict of the plan whose backup the run wrote, even if its transfer then failed. */
  predicate WroteOf(plan: seq<Action>, fault: Fault, a: Action) {
    a.op == Conflict &&
    (a in Done(plan, fault) || (HalfDone(plan, fault) && a == plan[fault.at]))
  }

  ghost predicate Wrote(s: State, r: RunEnv, a: Action) {
    WroteOf(PlanFor(s, r.tolSec), r.fault, a)
  }

  lemma WroteIsInPlan(plan: seq<Action>, fault: Fault, a: Action)
    requires WroteOf(plan, fault, a)
    ensures a in plan
  {
    DoneIsPrefix(plan, fault);
  }

  lemma WroteIsPlanned(s: State, r: RunEnv, a: Action)
    requires Wrote(s, r, a)
    ensures !IsIgnored(a.path)
    ensures VerdictOf(CellAt(s, a.path), EffectiveTol(r.tolSec)) == Do(Conflict, a.resolution)
  {
    var plan := PlanFor(s, r.tolSec);
    WroteIsInPlan(plan, r.fault, a);
    PlanIsReady(s, r.tolSec);
    var i :| 0 <= i < |plan| && plan[i] == a;
    assert Ready(s, plan[i]);
    PlannedAt(s, r.tolSec, a.path);
  }

  /** Each backup a run writes holds the losing side's version from before the run. */
  lemma WroteBackupOf(s: State, plan: seq<Action>, r: RunEnv, a: Action)
    requires AllReady(s, plan) && WroteOf(plan, r.fault, a)
    ensures Holds(RunPlan(s, plan, r), s, a, r.stamp, r.clock)
  {
    var done := Done(plan, r.fault);
    DoneIsPrefix(plan, r.fault);
    DoneIsReady(s, plan, r.fault);
    if a in done {
      var i :| 0 <= i < |done| && done[i] == a;
      BackupWritten(s, done, i, r.stamp, r.clock);
      if HalfDone(plan, r.fault) {
        assert plan[i] == a;
        DistinctBackups(a, plan[r.fault.at], r.stamp);
      }
    } else {
      BackupWhenDue(s, plan, r.fault.at, r.stamp, r.clock);
    }
  }

  lemma WroteBackup(s: State, r: RunEnv, a: Action)
    requires Wrote(s, r, a)
    ensures Holds(Run(s, r), s, a, r.stamp, r.clock)
  {
    PlanIsReady(s, r.tolSec);
    WroteBackupOf(s, PlanFor(s, r.tolSec), r, a);
  }

  lemma SkippedNamesKeptOf(s: State, plan: seq<Action>, r: RunEnv, n: Path)
    requires AllReady(s, plan) && IsIgnored(n)
    ensures Get(RunPlan(s, plan, r).remote, n) == Get(s.remote, n)
    ensures (forall a :: WroteOf(plan, r.fault, a) ==> BackupPath(a, r.stamp) != n) ==>
              Get(RunPlan(s, plan, r).local, n) == Get(s.local, n)
  {
    DoneIsReady(s, plan, r.fault);
    OtherNamesKept(s, Done(plan, r.fault), r.stamp, r.clock, n);
    if forall a :: WroteOf(plan, r.fault, a) ==> BackupPath(a, r.stamp) != n {
      forall a | a in Done(plan, r.fault) && a.op == Conflict ensures BackupPath(a, r.stamp) != n {
        assert WroteOf(plan, r.fault, a);
      }
      if HalfDone(plan, r.fault) {
        assert WroteOf(plan, r.fault, plan[r.fault.at]);
      }
    }
  }

  /** Every other name that the scans skip keeps its file on the host, and all of them on the guest. */
  lemma SkippedNamesKept(s: State, r: RunEnv, n: Path)
    requires IsIgnored(n)
    ensures Get(Run(s, r).remote, n) == Get(s.remote, n)
    ensures (forall a :: Wrote(s, r, a) ==> BackupPath(a, r.stamp) != n) ==>
              Get(Run(s, r).local, n) == Get(s.local, n)
  {
    var plan := PlanFor(s, r.tolSec);
    PlanIsReady(s, r.tolSec);
    SkippedNamesKeptOf(s, plan, r, n);
    assert forall a :: WroteOf(plan, r.fault, a) ==> Wrote(s, r, a);
  }

  /** This run, with this stamp, overwrites the backup of `side`'s version of `p` with different content. */
  ghost predicate Overwrites(s: State, r: RunEnv, p: Path, side: Side, stamp: Int64) {
    stamp == r.stamp &&
    exists a :: Wrote(s, r, a) && a.path == p && Loser(a.resolution) == side &&
                TextOf(LosingFile(s, a)) != TextOf(Get(s.local, BackupName(p, side, stamp)))
  }

  /** A backup keeps its content through a run exactly when the run does not write the same name anew. */
  lemma BackupKeptExactly(s: State, r: RunEnv, p: Path, side: Side, stamp: Int64)
    ensures var n := BackupName(p, side, stamp);
      TextOf(Get(Run(s, r).local, n)) == TextOf(Get(s.local, n)) <==> !Overwrites(s, r, p, side, stamp)
  {
    var n := BackupName(p, side, stamp);
    BackupIgnored(p, side, stamp);
    if a :| Wrote(s, r, a) && BackupPath(a, r.stamp) == n {
      BackupNameInjective(p, side, stamp, a.path, Loser(a.resolution), r.stamp);
      WroteBackup(s, r, a);
      forall b | Wrote(s, r, b) && b.path == p && Loser(b.resolution) == side
        ensures TextOf(LosingFile(s, b)) == TextOf(LosingFile(s, a))
      {
        WroteBackup(s, r, b);
      }
    } else {
      SkippedNamesKept(s, r, n);
    }
  }

  /** A run with another stamp leaves a backup as it is. */
  lemma OtherStampKeepsBackup(s: State, r: RunEnv, p: Path, side: Side, stamp: Int64)
    requires stamp != r.stamp
    ensures var n := BackupName(p, side, stamp); At(Run(s, r), n) == At(s, n)
  {
    var n := BackupName(p, side, stamp);
    BackupIgnored(p, side, stamp);
    forall a | Wrote(s, r, a) ensures BackupPath(a, r.stamp) != n {
      if BackupPath(a, r.stamp) == n {
        BackupNameInjective(p, side, stamp, a.path, Loser(a.resolution), r.stamp);
      }
    }
    SkippedNamesKept(s, r, n);
  }
}
