/** Whole histories: runs that complete or fail, user edits, and a manifest that gets lost. */
module Histories {
  import opened Wrappers
  import opened Int64s
  import opened PathOrder
  import opened Names
  import opened Planner
  import opened SyncModel
  import opened RunFacts
  import opened Backups

  datatype Event =
    | SyncRun(r: RunEnv)
    | Edit(local: Tree, remote: Tree)     // the user leaves the two sides like this
    | LoseManifest(corrupt: bool)

  ghost function Step(s: State, e: Event): State {
    match e
    case SyncRun(r) => Run(s, r)
    case Edit(local, remote) => s.(local := local, remote := remote)
    case LoseManifest(corrupt) => s.(manifest := if corrupt then Corrupt else Missing)
  }

  ghost function After(s: State, events: seq<Event>): State
    decreases |events|
  {
    if events == [] then s else After(Step(s, events[0]), events[1..])
  }

  // ----- backups -----

  /** No later run reuses the stamp and no edit touches the name `n` on either side. */
  ghost predicate LeftAlone(s: State, events: seq<Event>, n: Path, stamp: Int64)
    decreases |events|
  {
    events == [] ||
    (&& (events[0].SyncRun? ==> events[0].r.stamp != stamp)
     && (events[0].Edit? ==> At(Step(s, events[0]), n) == At(s, n))
     && LeftAlone(Step(s, events[0]), events[1..], n, stamp))
  }

  lemma {:induction false} NameKept(s: State, events: seq<Event>, p: Path, side: Side, stamp: Int64)
    requires LeftAlone(s, events, BackupName(p, side, stamp), stamp)
    ensures At(After(s, events), BackupName(p, side, stamp)) == At(s, BackupName(p, side, stamp))
    decreases |events|
  {
    if events != [] {
      if events[0].SyncRun? {
        OtherStampKeepsBackup(s, events[0].r, p, side, stamp);
      }
      NameKept(Step(s, events[0]), events[1..], p, side, stamp);
    }
  }

  /**
   A backup outlives every continuation of the history in which stamps differ and users leave it
   alone: it keeps its content and mtime on the host, and the guest's file of that name, if any, too.
   */
  lemma BackupsAreDurable(s: State, r: RunEnv, a: Action, later: seq<Event>)
    requires Wrote(s, r, a)
    requires LeftAlone(Run(s, r), later, BackupPath(a, r.stamp), r.stamp)
    ensures Holds(After(Run(s, r), later), s, a, r.stamp, r.clock)
    ensures Get(After(Run(s, r), later).remote, BackupPath(a, r.stamp)) == Get(s.remote, BackupPath(a, r.stamp))
  {
    WroteBackup(s, r, a);
    NameKept(Run(s, r), later, a.path, Loser(a.resolution), r.stamp);
    BackupIgnored(a.path, Loser(a.resolution), r.stamp);
    SkippedNamesKept(s, r, BackupPath(a, r.stamp));
  }

  /** No plan of any state ever has an action on a backup. */
  lemma BackupsAreNeverPlanned(s: State, tolSec: Int64, p: Path, side: Side, stamp: Int64)
    ensures BackupName(p, side, stamp) !in Paths(PlanFor(s, tolSec))
  {
    BackupIgnored(p, side, stamp);
    IgnoredNeverPlanned(s, tolSec, BackupName(p, side, stamp));
  }

  // ----- deletions -----

  ghost predicate Absent(s: State, p: Path) {
    p !in s.local && p !in s.remote
  }

  /** Known to the manifest but missing on at least one side. */
  ghost predicate Doomed(s: State, p: Path) {
    p in Load(s.manifest) && (p !in s.local || p !in s.remote)
  }

  /** No event of the history is a completed run or loses the manifest. */
  ghost predicate Uncommitted(s: State, events: seq<Event>)
    decreases |events|
  {
    events == [] ||
    (&& !events[0].LoseManifest?
     && (events[0].SyncRun? ==> !Completes(s, events[0].r))
     && Uncommitted(Step(s, events[0]), events[1..]))
  }

  /** No edit puts a file at `p` on a side that has none. */
  ghost predicate NeverCreates(s: State, events: seq<Event>, p: Path)
    decreases |events|
  {
    events == [] ||
    (&& (events[0].Edit? ==> (p in events[0].local ==> p in s.local) && (p in events[0].remote ==> p in s.remote))
     && NeverCreates(Step(s, events[0]), events[1..], p))
  }

  lemma {:induction false} UncommittedKeepsManifest(s: State, events: seq<Event>, p: Path)
    requires Uncommitted(s, events) && !IsIgnored(p)
    ensures After(s, events).manifest == s.manifest
    decreases |events|
  {
    if events != [] {
      if events[0].SyncRun? {
        FailedRunAt(s, events[0].r, p);
      }
      UncommittedKeepsManifest(Step(s, events[0]), events[1..], p);
    }
  }

  /** A path missing on both sides stays missing, whatever runs and even if the manifest is lost. */
  lemma {:induction false} AbsentStays(s: State, events: seq<Event>, p: Path)
    requires !IsIgnored(p) && NeverCreates(s, events, p)
    requires Absent(s, p) && p !in Load(s.manifest)
    ensures Absent(After(s, events), p) && p !in Load(After(s, events).manifest)
    decreases |events|
  {
    if events != [] {
      if events[0].SyncRun? {
        AbsentAfterRun(s, events[0].r, p);
      }
      AbsentStays(Step(s, events[0]), events[1..], p);
    }
  }

  lemma AbsentAfterRun(s: State, r: RunEnv, p: Path)
    requires !IsIgnored(p) && Absent(s, p) && p !in Load(s.manifest)
    ensures Absent(Run(s, r), p) && p !in Load(Run(s, r).manifest)
  {
    if Completes(s, r) {
      CompletedRunAt(s, r, p);
    } else {
      FailedRunAt(s, r, p);
    }
  }

  lemma DoomedIsRemoved(s: State, r: RunEnv, p: Path)
    requires !IsIgnored(p) && Doomed(s, p) && Completes(s, r)
    ensures Absent(Run(s, r), p) && p !in Load(Run(s, r).manifest)
  {
    CompletedRunAt(s, r, p);
    DoomedCell(CellAt(s, p), EffectiveTol(r.tolSec), r.clock(p));
  }

  lemma DoomedCell(c: Cell, tol: Int64, m: Int64)
    requires c.base.Some? && (c.local.None? || c.remote.None?)
    ensures Settle(c, tol, m) == Pair(None, None)
  {
  }

  lemma DoomedAfterFailedRun(s: State, r: RunEnv, p: Path)
    requires !IsIgnored(p) && Doomed(s, p) && !Completes(s, r)
    ensures Doomed(Run(s, r), p)
  {
    FailedRunAt(s, r, p);
    DoomedCell(CellAt(s, p), EffectiveTol(r.tolSec), r.clock(p));
  }

  /** Neither failed runs nor edits that create nothing bring a deleted path back. */
  lemma {:induction false} DoomedStays(s: State, events: seq<Event>, p: Path)
    requires !IsIgnored(p) && Doomed(s, p)
    requires Uncommitted(s, events) && NeverCreates(s, events, p)
    ensures Doomed(After(s, events), p)
    decreases |events|
  {
    if events != [] {
      if events[0].SyncRun? {
        DoomedAfterFailedRun(s, events[0].r, p);
      }
      DoomedStays(Step(s, events[0]), events[1..], p);
    }
  }

  /**
   A path that a completed run left in place, and that some time later, before the next completed
   run, is missing on one side, is gone from both sides and from the manifest after that next run,
   however many runs fail in the meantime, and stays gone until a user creates it.
   */
  lemma DeletesPropagate(s: State, first: RunEnv, between: seq<Event>, pending: seq<Event>, second: RunEnv,
                         later: seq<Event>, p: Path)
    requires !IsIgnored(p)
    requires Completes(s, first) && p in Run(s, first).local
    requires Uncommitted(Run(s, first), between)
    requires var m := After(Run(s, first), between);
      && (p !in m.local || p !in m.remote)
      && Uncommitted(m, pending) && NeverCreates(m, pending, p)
      && Completes(After(m, pending), second)
      && NeverCreates(Run(After(m, pending), second), later, p)
    ensures var t := After(Run(After(After(Run(s, first), between), pending), second), later);
      Absent(t, p) && p !in Load(t.manifest)
  {
    var m := After(Run(s, first), between);
    CompletedRunAt(s, first, p);
    UncommittedKeepsManifest(Run(s, first), between, p);
    DoomedStays(m, pending, p);
    DoomedIsRemoved(After(m, pending), second, p);
    AbsentStays(Run(After(m, pending), second), later, p);
  }
}
