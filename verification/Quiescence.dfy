/** What later runs do when nobody edits anything. */
module Quiescence {
  import opened Wrappers
  import opened Int64s
  import opened PathOrder
  import opened Names
  import opened Planner
  import opened SyncModel
  import opened RunFacts
  import opened Backups
  import opened CrashResume

  /** The manifest describes the host file, and the guest has a file of the same size. */
  predicate RestingCell(c: Cell) {
    && c.base == StatOf(c.local)
    && (c.local.Some? <==> c.remote.Some?)
    && (c.local.Some? ==> |c.local.value.content| == |c.remote.value.content|)
  }

  ghost predicate Resting(s: State) {
    forall p :: !IsIgnored(p) ==> RestingCell(CellAt(s, p))
  }

  /** The two mtimes differ by more than the tolerance, as the code computes it. */
  predicate FarApart(c: Cell, tol: Int64) {
    c.local.Some? && c.remote.Some? && Abs64(Sub64(c.local.value.mtime, c.remote.value.mtime)) > tol
  }

  lemma SettledCellRests(c: Cell, tol: Int64, m: Int64)
    ensures var q := Settle(c, tol, m); RestingCell(Cell(q.local, q.remote, StatOf(q.local)))
  {
  }

  lemma CompletedRunRests(s: State, r: RunEnv)
    requires Completes(s, r)
    ensures Resting(Run(s, r))
  {
    var t := Run(s, r);
    forall p | !IsIgnored(p) ensures RestingCell(CellAt(t, p)) {
      CompletedRunAt(s, r, p);
      SettledCellRests(CellAt(s, p), EffectiveTol(r.tolSec), r.clock(p));
    }
  }

  lemma RestingVerdict(c: Cell, tol: Int64)
    requires RestingCell(c) && tol >= 0
    ensures VerdictOf(c, tol) == if FarApart(c, tol) then Do(Download, Download) else Keep
  {
    if c.local.Some? {
      DistanceSymmetric(c.local.value.mtime, c.remote.value.mtime);
    }
  }

  lemma RestingPlanAt(s: State, tolSec: Int64, p: Path)
    requires Resting(s)
    ensures p in Paths(PlanFor(s, tolSec)) <==> !IsIgnored(p) && FarApart(CellAt(s, p), EffectiveTol(tolSec))
  {
    if IsIgnored(p) {
      IgnoredNeverPlanned(s, tolSec, p);
    } else {
      PlannedAt(s, tolSec, p);
      RestingVerdict(CellAt(s, p), EffectiveTol(tolSec));
    }
  }

  lemma RestingActions(s: State, tolSec: Int64, i: nat)
    requires Resting(s) && i < |PlanFor(s, tolSec)|
    ensures PlanFor(s, tolSec)[i].op == Download && PlanFor(s, tolSec)[i].resolution == Download
  {
    PlanIsReady(s, tolSec);
    var a := PlanFor(s, tolSec)[i];
    assert Ready(s, a);
    PlannedAt(s, tolSec, a.path);
    RestingVerdict(CellAt(s, a.path), EffectiveTol(tolSec));
  }

  /** At rest a run plans downloads only, for exactly the paths whose mtimes are far apart. */
  lemma RestingPlan(s: State, tolSec: Int64)
    requires Resting(s)
    ensures forall i :: 0 <= i < |PlanFor(s, tolSec)| ==>
              PlanFor(s, tolSec)[i].op == Download && PlanFor(s, tolSec)[i].resolution == Download
    ensures forall p :: p in Paths(PlanFor(s, tolSec)) <==>
              !IsIgnored(p) && FarApart(CellAt(s, p), EffectiveTol(tolSec))
  {
    forall i | 0 <= i < |PlanFor(s, tolSec)|
      ensures PlanFor(s, tolSec)[i].op == Download && PlanFor(s, tolSec)[i].resolution == Download
    {
      RestingActions(s, tolSec, i);
    }
    forall p
      ensures p in Paths(PlanFor(s, tolSec)) <==> !IsIgnored(p) && FarApart(CellAt(s, p), EffectiveTol(tolSec))
    {
      RestingPlanAt(s, tolSec, p);
    }
  }

  /** In range, the downloads are those whose mtimes differ by more than the tolerance. */
  lemma FarApartInRange(c: Cell, tol: Int64)
    requires tol >= 0 && c.local.Some? && c.remote.Some?
    requires InRange(Stat(c.local.value)) && InRange(Stat(c.remote.value))
    ensures FarApart(c, tol) <==> Abs(c.local.value.mtime - c.remote.value.mtime) > tol
  {
    FarExactlyWhen(c.local.value.mtime, c.remote.value.mtime, tol);
  }

  lemma SameLookups<K, V>(m: map<K, V>, n: map<K, V>)
    requires forall k :: Get(m, k) == Get(n, k)
    ensures m == n
  {
    assert forall k :: k in m <==> Get(m, k).Some?;
    assert forall k :: k in n <==> Get(n, k).Some?;
    assert forall k :: k in m ==> Get(m, k) == Some(m[k]) && Get(n, k) == Some(n[k]);
  }

  lemma NothingWritten(s: State, r: RunEnv, a: Action)
    requires Resting(s)
    ensures !Wrote(s, r, a)
  {
    if Wrote(s, r, a) {
      WroteIsPlanned(s, r, a);
      RestingVerdict(CellAt(s, a.path), EffectiveTol(r.tolSec));
    }
  }

  lemma RestingRunAt(s: State, r: RunEnv, p: Path)
    requires Resting(s)
    ensures Get(Run(s, r).remote, p) == Get(s.remote, p)
    ensures IsIgnored(p) ==> Get(Run(s, r).local, p) == Get(s.local, p)
    ensures TextOf(Get(Run(s, r).local, p)) == TextOf(Get(s.local, p)) ||
            TextOf(Get(Run(s, r).local, p)) == TextOf(Get(s.remote, p))
  {
    if IsIgnored(p) {
      forall a ensures !Wrote(s, r, a) {
        NothingWritten(s, r, a);
      }
      SkippedNamesKept(s, r, p);
    } else {
      RunAt(s, r, p);
      RestingVerdict(CellAt(s, p), EffectiveTol(r.tolSec));
    }
  }

  /**
   A run from rest, however it ends, never writes the guest, makes no backup, and changes a host
   content only to the guest's; where the two sides agreed nothing changes.
   */
  lemma RestingRun(s: State, r: RunEnv)
    requires Resting(s)
    ensures Run(s, r).remote == s.remote
    ensures forall a :: !Wrote(s, r, a)
    ensures forall p :: IsIgnored(p) ==> Get(Run(s, r).local, p) == Get(s.local, p)
    ensures forall p :: TextOf(Get(s.local, p)) == TextOf(Get(s.remote, p)) ==>
              TextOf(Get(Run(s, r).local, p)) == TextOf(Get(s.local, p))
    ensures Completes(s, r) ==> Resting(Run(s, r))
  {
    forall a ensures !Wrote(s, r, a) {
      NothingWritten(s, r, a);
    }
    forall p
      ensures Get(Run(s, r).remote, p) == Get(s.remote, p)
      ensures IsIgnored(p) ==> Get(Run(s, r).local, p) == Get(s.local, p)
      ensures TextOf(Get(s.local, p)) == TextOf(Get(s.remote, p)) ==>
                TextOf(Get(Run(s, r).local, p)) == TextOf(Get(s.local, p))
    {
      RestingRunAt(s, r, p);
    }
    SameLookups(Run(s, r).remote, s.remote);
    if Completes(s, r) {
      CompletedRunRests(s, r);
    }
  }

  ghost predicate AllComplete(s: State, runs: seq<RunEnv>)
    decreases |runs|
  {
    runs == [] || (Completes(s, runs[0]) && AllComplete(Run(s, runs[0]), runs[1..]))
  }

  /** Through completed runs the workspace rests and every guest file stays exactly as it is. */
  lemma {:induction false} RestsForever(s: State, runs: seq<RunEnv>)
    requires Resting(s) && AllComplete(s, runs)
    ensures Resting(RunAll(s, runs)) && RunAll(s, runs).remote == s.remote
    decreases |runs|
  {
    if runs != [] {
      RestingRun(s, runs[0]);
      RestsForever(Run(s, runs[0]), runs[1..]);
    }
  }

  // ----- failed runs -----

  /** The cell after a download that the manifest does not record. */
  function Downloaded(c: Cell, m: Int64): Cell
    requires c.remote.Some?
  {
    c.(local := Some(File(c.remote.value.content, m)))
  }

  /** The two mtimes are within the tolerance, as the code computes it. */
  predicate Near(a: Int64, b: Int64, tol: Int64) {
    Abs64(Sub64(a, b)) <= tol
  }

  /**
   What a path at rest is in for after a run has downloaded it with mtime `m` and then failed:
   nothing was edited, and still it may become a conflict that writes the guest.
   */
  lemma VerdictAfterFailedDownload(c: Cell, tol: Int64, m: Int64)
    requires RestingCell(c) && tol >= 0 && FarApart(c, tol)
    ensures VerdictOf(Downloaded(c, m), tol) ==
      if Near(m, c.local.value.mtime, tol) then Do(Download, Download)
      else if Near(m, c.remote.value.mtime, tol) then Keep
      else if m >= c.remote.value.mtime then Do(Conflict, Upload)
      else Do(Conflict, Download)
  {
    DistanceSymmetric(c.local.value.mtime, c.remote.value.mtime);
  }

  lemma FailedDownloadAt(s: State, r: RunEnv, p: Path)
    requires Resting(s) && !Completes(s, r) && Reached(s, r, p) && !IsIgnored(p)
    ensures FarApart(CellAt(s, p), EffectiveTol(r.tolSec))
    ensures CellAt(Run(s, r), p) == Downloaded(CellAt(s, p), r.clock(p))
  {
    FailedRunAt(s, r, p);
    RunAt(s, r, p);
    RestingVerdict(CellAt(s, p), EffectiveTol(r.tolSec));
  }

  // ----- any number of failed runs -----

  /** `d` is `c`, or the manifest is the one of `c` and both sides hold the guest's content, with any mtimes. */
  predicate RefreshedFrom(c: Cell, d: Cell) {
    d == c ||
    (&& c.local.Some? && c.remote.Some? && d.local.Some? && d.remote.Some?
     && d.base == c.base
     && TextOf(d.local) == TextOf(d.remote) == TextOf(c.remote))
  }

  lemma SettlingRefreshes(c: Cell, d: Cell, tol: Int64, m: Int64)
    requires RestingCell(c) && RefreshedFrom(c, d) && tol >= 0
    ensures var q := Settle(d, tol, m); RefreshedFrom(c, Cell(q.local, q.remote, d.base))
  {
    if d == c {
      RestingVerdict(c, tol);
    } else {
      EqualContentsStay(d, tol, m);
    }
  }

  lemma {:induction false} FailedRunsRefresh(c: Cell, s: State, runs: seq<RunEnv>, p: Path)
    requires !IsIgnored(p) && NoneCompletes(s, runs)
    requires RestingCell(c) && RefreshedFrom(c, CellAt(s, p))
    ensures RefreshedFrom(c, CellAt(RunAll(s, runs), p))
    decreases |runs|
  {
    if runs != [] {
      FailedRunAt(s, runs[0], p);
      SettlingRefreshes(c, CellAt(s, p), EffectiveTol(runs[0].tolSec), runs[0].clock(p));
      FailedRunsRefresh(c, Run(s, runs[0]), runs[1..], p);
    }
  }

  /** Carrying out the verdict writes or removes the guest's file. */
  predicate TouchesGuest(v: Verdict) {
    v.Do? && (v.op == Upload || v.op == DeleteRemote || (v.op == Conflict && v.resolution == Upload))
  }

  lemma RefreshedVerdict(c: Cell, d: Cell, tol: Int64)
    requires RestingCell(c) && RefreshedFrom(c, d) && tol >= 0
    ensures TouchesGuest(VerdictOf(d, tol)) <==>
      && c.local.Some? && c.remote.Some?
      && !Near(d.local.value.mtime, c.local.value.mtime, tol)
      && (|| Near(d.remote.value.mtime, c.local.value.mtime, tol)
          || (!Near(d.local.value.mtime, d.remote.value.mtime, tol) && d.local.value.mtime >= d.remote.value.mtime))
  {
    if d == c {
      RestingVerdict(c, tol);
    }
  }

  /**
   After any failed runs from rest, of whatever tolerances and whether or not they wrote the guest
   already, a run touches the guest exactly if the host's mtime has moved away from the resting one
   while the guest's is near that one, or is neither near the host's nor later.
   */
  lemma GuestTouchedAfterFailures(s: State, runs: seq<RunEnv>, tolSec: Int64, p: Path)
    requires Resting(s) && NoneCompletes(s, runs) && !IsIgnored(p)
    ensures var c, d, tol := CellAt(s, p), CellAt(RunAll(s, runs), p), EffectiveTol(tolSec);
      && (c.local.Some? && c.remote.Some? ==> d.local.Some? && d.remote.Some?)
      && (TouchesGuest(VerdictOf(d, tol)) <==>
            && c.local.Some? && c.remote.Some?
            && !Near(d.local.value.mtime, c.local.value.mtime, tol)
            && (|| Near(d.remote.value.mtime, c.local.value.mtime, tol)
                || (&& !Near(d.local.value.mtime, d.remote.value.mtime, tol)
                    && d.local.value.mtime >= d.remote.value.mtime)))
  {
    FailedRunsRefresh(CellAt(s, p), s, runs, p);
    RefreshedVerdict(CellAt(s, p), CellAt(RunAll(s, runs), p), EffectiveTol(tolSec));
  }

  /** Failed runs of a tolerance within which the two mtimes are leave the path as it is. */
  lemma {:induction false} NearPairStays(s: State, runs: seq<RunEnv>, tolSec: Int64, p: Path)
    requires !IsIgnored(p) && NoneCompletes(s, runs)
    requires forall r :: r in runs ==> r.tolSec == tolSec
    requires RestingCell(CellAt(s, p)) && !FarApart(CellAt(s, p), EffectiveTol(tolSec))
    ensures CellAt(RunAll(s, runs), p) == CellAt(s, p)
    decreases |runs|
  {
    if runs != [] {
      assert runs[0] in runs && forall r :: r in runs[1..] ==> r in runs;
      RestingVerdict(CellAt(s, p), EffectiveTol(tolSec));
      FailedRunAt(s, runs[0], p);
      NearPairStays(Run(s, runs[0]), runs[1..], tolSec, p);
    }
  }

  /**
   While failed runs of one tolerance have left the guest's file as it was, the next verdict writes
   it exactly for these mtimes `m` of the host's file.
   */
  lemma {:induction false} GuestWrittenAfterFailures(s: State, runs: seq<RunEnv>, tolSec: Int64, p: Path)
    requires Resting(s) && NoneCompletes(s, runs) && !IsIgnored(p)
    requires forall r :: r in runs ==> r.tolSec == tolSec
    requires Get(RunAll(s, runs).remote, p) == Get(s.remote, p)
    ensures var c, d, tol := CellAt(s, p), CellAt(RunAll(s, runs), p), EffectiveTol(tolSec);
      TouchesGuest(VerdictOf(d, tol)) <==>
      && FarApart(c, tol) && d.local.Some?
      && var m := d.local.value.mtime;
         !Near(m, c.local.value.mtime, tol) && !Near(m, c.remote.value.mtime, tol) && m >= c.remote.value.mtime
    ensures var v := VerdictOf(CellAt(RunAll(s, runs), p), EffectiveTol(tolSec));
      TouchesGuest(v) ==> v == Do(Conflict, Upload)
  {
    var c, d, tol := CellAt(s, p), CellAt(RunAll(s, runs), p), EffectiveTol(tolSec);
    FailedRunsRefresh(c, s, runs, p);
    if !FarApart(c, tol) {
      NearPairStays(s, runs, tolSec, p);
    }
    if d == c {
      RestingVerdict(c, tol);
    } else {
      assert d == Downloaded(c, d.local.value.mtime);
      VerdictAfterFailedDownload(c, tol, d.local.value.mtime);
    }
  }

  lemma SingleRun(s: State, r: RunEnv)
    ensures RunAll(s, [r]) == Run(s, r)
    ensures NoneCompletes(s, [r]) <==> !Completes(s, r)
  {
    assert [r][1..] == [];
    assert NoneCompletes(Run(s, r), []) && RunAll(Run(s, r), []) == Run(s, r);
  }

  /** For a single failed run: exactly for these mtimes of its downloads. */
  lemma GuestWrittenAfterFailure(s: State, r: RunEnv, p: Path)
    requires Resting(s) && !Completes(s, r) && !IsIgnored(p)
    ensures var c, tol, m := CellAt(s, p), EffectiveTol(r.tolSec), r.clock(p);
      VerdictOf(CellAt(Run(s, r), p), tol) == Do(Conflict, Upload) <==>
      && Reached(s, r, p) && FarApart(c, tol)
      && !Near(m, c.local.value.mtime, tol) && !Near(m, c.remote.value.mtime, tol) && m >= c.remote.value.mtime
    ensures var next := VerdictOf(CellAt(Run(s, r), p), EffectiveTol(r.tolSec));
      next.Keep? || next == Do(Conflict, Upload) || next.resolution == Download
  {
    SingleRun(s, r);
    RestingRunAt(s, r, p);
    GuestWrittenAfterFailures(s, [r], r.tolSec, p);
    if Reached(s, r, p) {
      FailedDownloadAt(s, r, p);
    } else {
      FailedRunAt(s, r, p);
    }
  }

  /** A path at rest, or one whose two sides hold the same content. */
  predicate SettledCell(c: Cell) {
    RestingCell(c) || (c.local.Some? && c.remote.Some? && TextOf(c.local) == TextOf(c.remote))
  }

  lemma SettledCellStays(c: Cell, tol: Int64, m: Int64)
    requires SettledCell(c) && tol >= 0
    ensures var q := Settle(c, tol, m);
      && TextOf(q.remote) == TextOf(c.remote)
      && (TextOf(q.local) == TextOf(c.local) || TextOf(q.local) == TextOf(c.remote))
      && SettledCell(Cell(q.local, q.remote, StatOf(q.local)))
      && (VerdictOf(c, tol).Do? ==> SettledCell(Cell(q.local, q.remote, c.base)))
  {
    if c.local.Some? && c.remote.Some? && TextOf(c.local) == TextOf(c.remote) {
      EqualContentsStay(c, tol, m);
    } else {
      RestingVerdict(c, tol);
    }
  }

  lemma SettledRunAt(s: State, r: RunEnv, p: Path)
    requires !IsIgnored(p) && SettledCell(CellAt(s, p))
    ensures SettledCell(CellAt(Run(s, r), p))
    ensures TextOf(Get(Run(s, r).remote, p)) == TextOf(Get(s.remote, p))
    ensures TextOf(Get(Run(s, r).local, p)) == TextOf(Get(s.local, p)) ||
            TextOf(Get(Run(s, r).local, p)) == TextOf(Get(s.remote, p))
  {
    SettledCellStays(CellAt(s, p), EffectiveTol(r.tolSec), r.clock(p));
    if Completes(s, r) {
      CompletedRunAt(s, r, p);
    } else {
      FailedRunAt(s, r, p);
      RunAt(s, r, p);
    }
  }

  lemma {:induction false} SettledRunsAt(s: State, runs: seq<RunEnv>, p: Path)
    requires !IsIgnored(p) && SettledCell(CellAt(s, p))
    ensures SettledCell(CellAt(RunAll(s, runs), p))
    ensures TextOf(Get(RunAll(s, runs).remote, p)) == TextOf(Get(s.remote, p))
    ensures TextOf(Get(RunAll(s, runs).local, p)) == TextOf(Get(s.local, p)) ||
            TextOf(Get(RunAll(s, runs).local, p)) == TextOf(Get(s.remote, p))
    decreases |runs|
  {
    if runs != [] {
      SettledRunAt(s, runs[0], p);
      SettledRunsAt(Run(s, runs[0]), runs[1..], p);
    }
  }

  /**
   What the runs keep without edits, be they completed or failed and whatever their tolerances:
   after one completed run no guest content ever changes, and a host content changes at most to
   the guest's.
   */
  lemma {:induction false} GuestContentsKept(s: State, first: RunEnv, later: seq<RunEnv>, p: Path)
    requires Completes(s, first) && !IsIgnored(p)
    ensures var u, t := Run(s, first), RunAll(Run(s, first), later);
      && TextOf(Get(t.remote, p)) == TextOf(Get(u.remote, p))
      && (TextOf(Get(t.local, p)) == TextOf(Get(u.local, p)) || TextOf(Get(t.local, p)) == TextOf(Get(u.remote, p)))
  {
    CompletedRunRests(s, first);
    SettledRunsAt(Run(s, first), later, p);
  }

  // ----- convergence of contents -----

  /** Equal contents, or a pair that the planner keeps and whose host file the manifest describes. */
  predicate StableCell(c: Cell, tol: Int64) {
    || (c.local.None? && c.remote.None?)
    || (&& c.local.Some? && c.remote.Some?
        && (TextOf(c.local) == TextOf(c.remote) || (c.base == StatOf(c.local) && VerdictOf(c, tol).Keep?)))
  }

  lemma SettlingStabilizes(c: Cell, tol: Int64, m: Int64)
    requires SettledCell(c) && tol >= 0
    ensures var q := Settle(c, tol, m); StableCell(Cell(q.local, q.remote, StatOf(q.local)), tol)
  {
    if RestingCell(c) {
      RestingVerdict(c, tol);
    } else {
      EqualContentsStay(c, tol, m);
    }
  }

  lemma StableCellStays(c: Cell, tol: Int64, m: Int64)
    requires StableCell(c, tol)
    ensures var q := Settle(c, tol, m);
      && Texts(q) == Texts(Pair(c.local, c.remote))
      && StableCell(Cell(q.local, q.remote, c.base), tol)
      && StableCell(Cell(q.local, q.remote, StatOf(q.local)), tol)
  {
    if c.local.Some? && TextOf(c.local) == TextOf(c.remote) {
      EqualContentsStay(c, tol, m);
    }
  }

  lemma StableRunAt(s: State, r: RunEnv, p: Path)
    requires !IsIgnored(p) && StableCell(CellAt(s, p), EffectiveTol(r.tolSec))
    ensures StableCell(CellAt(Run(s, r), p), EffectiveTol(r.tolSec))
    ensures Texts(At(Run(s, r), p)) == Texts(At(s, p))
  {
    StableCellStays(CellAt(s, p), EffectiveTol(r.tolSec), r.clock(p));
    if Completes(s, r) {
      CompletedRunAt(s, r, p);
    } else {
      FailedRunAt(s, r, p);
    }
  }

  lemma {:induction false} StableRuns(s: State, runs: seq<RunEnv>, tolSec: Int64, p: Path)
    requires !IsIgnored(p) && StableCell(CellAt(s, p), EffectiveTol(tolSec))
    requires forall r :: r in runs ==> r.tolSec == tolSec
    ensures Texts(At(RunAll(s, runs), p)) == Texts(At(s, p))
    decreases |runs|
  {
    if runs != [] {
      StableRunAt(s, runs[0], p);
      StableRuns(Run(s, runs[0]), runs[1..], tolSec, p);
    }
  }

  /**
   Two completed runs fix the contents of both sides for good, whatever runs lie between them: no
   later run with the second one's tolerance, completed or not, changes any.
   */
  lemma {:induction false} ContentsConverge(s: State, first: RunEnv, between: seq<RunEnv>, second: RunEnv,
                                            later: seq<RunEnv>)
    requires Completes(s, first) && Completes(RunAll(Run(s, first), between), second)
    requires forall r :: r in later ==> r.tolSec == second.tolSec
    ensures var t := Run(RunAll(Run(s, first), between), second); SameContents(RunAll(t, later), t)
  {
    var u := RunAll(Run(s, first), between);
    var t := Run(u, second);
    CompletedRunRests(s, first);
    forall p | !IsIgnored(p) ensures Texts(At(RunAll(t, later), p)) == Texts(At(t, p)) {
      SettledRunsAt(Run(s, first), between, p);
      CompletedRunAt(u, second, p);
      SettlingStabilizes(CellAt(u, p), EffectiveTol(second.tolSec), second.clock(p));
      StableRuns(t, later, second.tolSec, p);
    }
  }
}
