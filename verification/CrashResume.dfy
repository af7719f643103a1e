/** Interrupted runs followed by a completed one reach the contents of one uninterrupted run. */
module CrashResume {
  import opened Wrappers
  import opened Int64s
  import opened PathOrder
  import opened Names
  import opened SyncModel
  import opened RunFacts

  /** The contents of both sides, without mtimes. */
  function Texts(c: Pair): (Option<Content>, Option<Content>) {
    (TextOf(c.local), TextOf(c.remote))
  }

  ghost predicate SameContents(s: State, t: State) {
    forall p :: !IsIgnored(p) ==> Texts(At(s, p)) == Texts(At(t, p))
  }

  /** The contents a cell ends with when its verdict is carried out. */
  function Outcome(c: Cell, tol: Int64): (Option<Content>, Option<Content>) {
    Texts(Settle(c, tol, 0))
  }

  /** The mtime a transfer happens to write has no say in the contents. */
  lemma OutcomeIgnoresClock(c: Cell, tol: Int64, m: Int64)
    ensures Texts(Settle(c, tol, m)) == Outcome(c, tol)
  {
  }

  /**
   The key step: acting on a path without recording it in the manifest leaves a path whose
   new verdict, whatever it is, leads to the same contents.
   */
  lemma ActingPreservesOutcome(c: Cell, tol: Int64, m: Int64)
    ensures var q := Settle(c, tol, m);
      Outcome(Cell(q.local, q.remote, c.base), tol) == Outcome(c, tol)
  {
    var q := Settle(c, tol, m);
    if q.local.Some? && q.remote.Some? && TextOf(q.local) == TextOf(q.remote) {
      EqualContentsStay(Cell(q.local, q.remote, c.base), tol, 0);
    }
  }

  /** Once both sides hold the same contents no verdict changes them. */
  lemma EqualContentsStay(c: Cell, tol: Int64, m: Int64)
    requires c.local.Some? && c.remote.Some? && TextOf(c.local) == TextOf(c.remote)
    ensures Texts(Settle(c, tol, m)) == Texts(Pair(c.local, c.remote))
  {
  }

  ghost predicate NoneCompletes(s: State, runs: seq<RunEnv>)
    decreases |runs|
  {
    runs == [] || (!Completes(s, runs[0]) && NoneCompletes(Run(s, runs[0]), runs[1..]))
  }

  lemma FailedRunPreservesOutcome(s: State, r: RunEnv, p: Path)
    requires !Completes(s, r) && !IsIgnored(p)
    ensures var tol := EffectiveTol(r.tolSec);
      Outcome(CellAt(Run(s, r), p), tol) == Outcome(CellAt(s, p), tol)
  {
    FailedRunAt(s, r, p);
    ActingPreservesOutcome(CellAt(s, p), EffectiveTol(r.tolSec), r.clock(p));
  }

  lemma {:induction false} FailedRunsPreserveOutcome(s: State, runs: seq<RunEnv>, tolSec: Int64, p: Path)
    requires NoneCompletes(s, runs) && !IsIgnored(p)
    requires forall r :: r in runs ==> r.tolSec == tolSec
    ensures var tol := EffectiveTol(tolSec);
      Outcome(CellAt(RunAll(s, runs), p), tol) == Outcome(CellAt(s, p), tol)
    decreases |runs|
  {
    if runs != [] {
      FailedRunPreservesOutcome(s, runs[0], p);
      FailedRunsPreserveOutcome(Run(s, runs[0]), runs[1..], tolSec, p);
    }
  }

  /**
   Any number of runs that fail at arbitrary points, then one that completes, against one run
   that completes at once: the same contents at every synced path, for all clocks and stamps.
   */
  lemma {:induction false} CrashThenResume(s: State, failed: seq<RunEnv>, last: RunEnv, straight: RunEnv)
    requires forall r :: r in failed ==> r.tolSec == straight.tolSec
    requires last.tolSec == straight.tolSec
    requires NoneCompletes(s, failed)
    requires Completes(RunAll(s, failed), last) && Completes(s, straight)
    ensures SameContents(Run(RunAll(s, failed), last), Run(s, straight))
  {
    var tol := EffectiveTol(straight.tolSec);
    var t := RunAll(s, failed);
    forall p | !IsIgnored(p) ensures Texts(At(Run(t, last), p)) == Texts(At(Run(s, straight), p)) {
      FailedRunsPreserveOutcome(s, failed, straight.tolSec, p);
      CompletedRunAt(t, last, p);
      CompletedRunAt(s, straight, p);
      OutcomeIgnoresClock(CellAt(t, p), tol, last.clock(p));
      OutcomeIgnoresClock(CellAt(s, p), tol, straight.clock(p));
    }
  }
}
