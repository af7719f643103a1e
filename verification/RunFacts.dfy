/** What a sequence of planned actions does to each path and to each backup name. */
module RunFacts {
  import opened Wrappers
  import opened Int64s
  import opened PathOrder
  import opened Names
  import opened Planner
  import opened SyncModel

  function TextOf(f: Option<File>): Option<Content> {
    if f.None? then None else Some(f.value.content)
  }

  /** The two sides at one path. */
  datatype Pair = Pair(local: Option<File>, remote: Option<File>)

  function At(s: State, p: Path): Pair {
    Pair(Get(s.local, p), Get(s.remote, p))
  }

  /** What carrying out `op` does to the pair at its path; `m` is the mtime written. */
  function Effect(c: Pair, op: Op, m: Int64): Pair {
    match op
    case Upload => if c.local.Some? then c.(remote := Some(File(c.local.value.content, m))) else c
    case Download => if c.remote.Some? then c.(local := Some(File(c.remote.value.content, m))) else c
    case DeleteLocal => c.(local := None)
    case DeleteRemote => c.(remote := None)
    case Conflict => c
  }

  /** The action's path is one the scans see, and what it copies or removes is there. */
  ghost predicate Ready(s: State, a: Action) {
    && !IsIgnored(a.path)
    && match a.op
       case Upload => a.path in s.local
       case Download => a.path in s.remote
       case DeleteLocal => a.path in s.local
       case DeleteRemote => a.path in s.remote
       case Conflict => a.path in s.local && a.path in s.remote && (a.resolution == Upload || a.resolution == Download)
  }

  ghost predicate AllReady(s: State, actions: seq<Action>) {
    && Distinct(actions)
    && forall i :: 0 <= i < |actions| ==> Ready(s, actions[i])
  }

  lemma AskedIsReady(s: State, tolSec: Int64, a: Action)
    requires SceneOf(s, tolSec).Asks(a)
    ensures Ready(s, a)
  {
    var sc := SceneOf(s, tolSec);
    var l, r := Get(sc.local, a.path), Get(sc.remote, a.path);
    AskedNeedsFiles(l, r, Get(sc.manifest, a.path), sc.tol);
    assert l.Some? <==> a.path in s.local && !IsIgnored(a.path);
    assert r.Some? <==> a.path in s.remote && !IsIgnored(a.path);
  }

  /** What the decision matrix presupposes for each of its answers. */
  lemma AskedNeedsFiles(l: Option<Entry>, r: Option<Entry>, base: Option<Entry>, tol: Int64)
    ensures match Decide(l, r, base, tol)
      case Keep => true
      case Do(op, res) =>
        match op
        case Upload => l.Some?
        case Download => r.Some?
        case DeleteLocal => l.Some?
        case DeleteRemote => r.Some?
        case Conflict => l.Some? && r.Some? && (res == Upload || res == Download)
  {
  }

  lemma PlanIsReady(s: State, tolSec: Int64)
    ensures AllReady(s, PlanFor(s, tolSec))
  {
    var sc := SceneOf(s, tolSec);
    var plan := PlanFor(s, tolSec);
    PlanOfIsPlan(sc);
    forall i | 0 <= i < |plan| ensures Ready(s, plan[i]) {
      var a := plan[i];
      assert a in plan;
      AskedIsReady(s, tolSec, a);
    }
  }

  lemma IgnoredNeverPlanned(s: State, tolSec: Int64, n: Path)
    requires IsIgnored(n)
    ensures n !in Paths(PlanFor(s, tolSec))
  {
    var plan := PlanFor(s, tolSec);
    PlanIsReady(s, tolSec);
    forall i | 0 <= i < |plan| ensures Paths(plan)[i] != n {
      assert Ready(s, plan[i]);
    }
  }

  /** One action at one path that the scans see. */
  lemma ExecAt(s: State, a: Action, stamp: Int64, clock: Clock, p: Path)
    requires !IsIgnored(p)
    ensures At(Exec(s, a, stamp, clock), p) ==
            if p == a.path then Effect(At(s, p), a.Effective(), clock(p)) else At(s, p)
  {
    BackupIgnored(a.path, Loser(a.resolution), stamp);
  }

  lemma {:induction false} UntouchedAt(s: State, actions: seq<Action>, stamp: Int64, clock: Clock, p: Path)
    requires !IsIgnored(p) && p !in Paths(actions)
    ensures At(ExecAll(s, actions, stamp, clock), p) == At(s, p)
  {
    if actions != [] {
      var n := |actions| - 1;
      assert Paths(actions)[n] == actions[n].path;
      assert Paths(actions[..n]) == Paths(actions)[..n];
      UntouchedAt(s, actions[..n], stamp, clock, p);
      ExecAt(ExecAll(s, actions[..n], stamp, clock), actions[n], stamp, clock, p);
    }
  }

  lemma {:induction false} ActedAt(s: State, actions: seq<Action>, stamp: Int64, clock: Clock, i: nat)
    requires Distinct(actions) && i < |actions| && !IsIgnored(actions[i].path)
    ensures At(ExecAll(s, actions, stamp, clock), actions[i].path) ==
            Effect(At(s, actions[i].path), actions[i].Effective(), clock(actions[i].path))
  {
    var n := |actions| - 1;
    var p := actions[i].path;
    ExecAt(ExecAll(s, actions[..n], stamp, clock), actions[n], stamp, clock, p);
    if i == n {
      assert p !in Paths(actions[..n]);
      UntouchedAt(s, actions[..n], stamp, clock, p);
    } else {
      ActedAt(s, actions[..n], stamp, clock, i);
    }
  }

  lemma ReadyWhenDue(s: State, actions: seq<Action>, i: nat, stamp: Int64, clock: Clock)
    requires AllReady(s, actions) && i < |actions|
    ensures Ready(ExecAll(s, actions[..i], stamp, clock), actions[i])
    ensures At(ExecAll(s, actions[..i], stamp, clock), actions[i].path) == At(s, actions[i].path)
    ensures actions[i].path !in Paths(actions[..i])
  {
    var p := actions[i].path;
    assert p !in Paths(actions[..i]);
    UntouchedAt(s, actions[..i], stamp, clock, p);
    var t := ExecAll(s, actions[..i], stamp, clock);
    assert At(t, p) == At(s, p);
  }

  lemma ExecAllStep(s: State, actions: seq<Action>, i: nat, stamp: Int64, clock: Clock)
    requires i < |actions|
    ensures ExecAll(s, actions[..i + 1], stamp, clock) ==
            Exec(ExecAll(s, actions[..i], stamp, clock), actions[i], stamp, clock)
    ensures Tally(actions[..i + 1]) == TallyStep(Tally(actions[..i]), actions[i])
  {
    assert actions[..i + 1][..i] == actions[..i];
  }

  /** A run whose fault strikes at action `i`. */
  lemma StoppedRun(s: State, plan: seq<Action>, r: RunEnv, i: nat)
    requires i < |plan| && Strikes(r.fault, plan[i], i)
    ensures !Finishes(plan, r.fault)
    ensures var t := ExecAll(s, plan[..i], r.stamp, r.clock);
      RunPlan(s, plan, r) == if r.fault.TransferFailed? && plan[i].op == Conflict
                             then Backup(t, plan[i], r.stamp, r.clock) else t
    ensures SummaryOf(plan, r.fault) == if !r.fault.Cancelled? && plan[i].op == Conflict
                                        then NoteConflict(Tally(plan[..i]), plan[i].path) else Tally(plan[..i])
  {
  }

  /** A run whose action loop reaches the end of the plan. */
  lemma FinishedLoop(s: State, plan: seq<Action>, r: RunEnv)
    requires !r.fault.SetupFailed? && !Interrupted(r.fault, plan)
    ensures Finishes(plan, r.fault) <==> !r.fault.SaveFailed?
    ensures var t := ExecAll(s, plan[..|plan|], r.stamp, r.clock);
      RunPlan(s, plan, r) == if r.fault.SaveFailed? then t else t.(manifest := Saved(ScanOf(t.local)))
    ensures SummaryOf(plan, r.fault) == Tally(plan[..|plan|])
  {
    assert plan[..|plan|] == plan;
  }

  /** When a run completes, case by case: a backup can only fail where there is a conflict. */
  lemma FinishesExactly(plan: seq<Action>, fault: Fault)
    ensures Finishes(plan, fault) <==>
      match fault
      case NoFault => true
      case SetupFailed => false
      case SaveFailed => false
      case Cancelled(i) => i >= |plan|
      case TransferFailed(i) => i >= |plan|
      case BackupFailed(i) => i >= |plan| || plan[i].op != Conflict
  {
  }

  // ----- a run seen from one path -----

  /** Everything a run knows about one path. */
  datatype Cell = Cell(local: Option<File>, remote: Option<File>, base: Option<Entry>)

  function CellAt(s: State, p: Path): Cell {
    Cell(Get(s.local, p), Get(s.remote, p), Get(Load(s.manifest), p))
  }

  function Version(c: Cell, side: Side): Option<File> {
    if side == Host then c.local else c.remote
  }

  function Other(side: Side): Side {
    if side == Host then Guest else Host
  }

  function StatOf(f: Option<File>): Option<Entry> {
    if f.None? then None else Some(Stat(f.value))
  }

  function VerdictOf(c: Cell, tol: Int64): Verdict {
    Decide(StatOf(c.local), StatOf(c.remote), c.base, tol)
  }

  /** The pair left at a path once its verdict has been carried out. */
  function Settle(c: Cell, tol: Int64, m: Int64): Pair {
    match VerdictOf(c, tol)
    case Keep => Pair(c.local, c.remote)
    case Do(op, res) => Effect(Pair(c.local, c.remote), if op == Conflict then res else op, m)
  }

  lemma VerdictAtCell(s: State, tolSec: Int64, p: Path)
    requires !IsIgnored(p)
    ensures SceneOf(s, tolSec).VerdictAt(p) == VerdictOf(CellAt(s, p), EffectiveTol(tolSec))
  {
    ScanAt(s.local, p);
    ScanAt(s.remote, p);
  }

  /** The plan has an action at `p` exactly when the verdict there is to act, and it is that action. */
  lemma PlannedAt(s: State, tolSec: Int64, p: Path)
    requires !IsIgnored(p)
    ensures p in Paths(PlanFor(s, tolSec)) <==> VerdictOf(CellAt(s, p), EffectiveTol(tolSec)).Do?
    ensures forall i :: 0 <= i < |PlanFor(s, tolSec)| && PlanFor(s, tolSec)[i].path == p ==>
              VerdictOf(CellAt(s, p), EffectiveTol(tolSec)) ==
                Do(PlanFor(s, tolSec)[i].op, PlanFor(s, tolSec)[i].resolution)
  {
    var sc := SceneOf(s, tolSec);
    var plan := PlanFor(s, tolSec);
    PlanOfIsPlan(sc);
    VerdictAtCell(s, tolSec, p);
    PathIn(plan, p);
    if sc.VerdictAt(p).Do? {
      assert sc.Asks(sc.ActionAt(p));
    }
    forall i | 0 <= i < |plan| && plan[i].path == p
      ensures sc.VerdictAt(p) == Do(plan[i].op, plan[i].resolution)
    {
      assert plan[i] in plan;
    }
  }

  lemma PlannedExactly(s: State, tolSec: Int64, p: Path, op: Op, resolution: Op)
    requires !IsIgnored(p)
    ensures Action(p, op, resolution) in PlanFor(s, tolSec) <==>
            VerdictOf(CellAt(s, p), EffectiveTol(tolSec)) == Do(op, resolution)
  {
    var sc := SceneOf(s, tolSec);
    PlanOfIsPlan(sc);
    VerdictAtCell(s, tolSec, p);
    assert sc.Asks(Action(p, op, resolution)) <==> sc.VerdictAt(p) == Do(op, resolution);
  }

  /** A file on one side alone: whether it is copied or removed depends on the manifest alone. */
  lemma LoneFilePlanned(s: State, tolSec: Int64, p: Path)
    requires !IsIgnored(p)
    ensures p in s.local && p !in s.remote ==>
      && (Action(p, DeleteLocal, DeleteLocal) in PlanFor(s, tolSec) <==> p in Load(s.manifest))
      && (Action(p, Upload, Upload) in PlanFor(s, tolSec) <==> p !in Load(s.manifest))
    ensures p !in s.local && p in s.remote ==>
      && (Action(p, DeleteRemote, DeleteRemote) in PlanFor(s, tolSec) <==> p in Load(s.manifest))
      && (Action(p, Download, Download) in PlanFor(s, tolSec) <==> p !in Load(s.manifest))
  {
    PlannedExactly(s, tolSec, p, DeleteLocal, DeleteLocal);
    PlannedExactly(s, tolSec, p, DeleteRemote, DeleteRemote);
    PlannedExactly(s, tolSec, p, Upload, Upload);
    PlannedExactly(s, tolSec, p, Download, Download);
  }

  /** Whether the decision matrix counts a file as changed, over the integers. */
  predicate Edited(f: File, base: Option<Entry>, tol: int) {
    base.None? || |f.content| != base.value.size || Abs(f.mtime - base.value.modUnix) > tol
  }

  predicate Similar(f: File, g: File, tol: int) {
    |f.content| == |g.content| && Abs(f.mtime - g.mtime) <= tol
  }

  ghost predicate CellInRange(c: Cell) {
    && (c.local.Some? ==> InRange(Stat(c.local.value)))
    && (c.remote.Some? ==> InRange(Stat(c.remote.value)))
    && (c.base.Some? ==> InRange(c.base.value))
  }

  lemma SharedVerdict(c: Cell, tol: Int64)
    requires CellInRange(c) && c.local.Some? && c.remote.Some? && tol >= 0
    ensures var l, r := c.local.value, c.remote.value;
      VerdictOf(c, tol) ==
        if Edited(l, c.base, tol) && Edited(r, c.base, tol) then
          if Similar(l, r, tol) then Keep
          else Do(Conflict, if l.mtime >= r.mtime then Upload else Download)
        else if Edited(l, c.base, tol) then Do(Upload, Upload)
        else if Edited(r, c.base, tol) then Do(Download, Download)
        else Keep
  {
    var l, r := Stat(c.local.value), Stat(c.remote.value);
    ComparisonsAreExact(l, r, tol);
    if c.base.Some? {
      ComparisonsAreExact(l, c.base.value, tol);
      ComparisonsAreExact(r, c.base.value, tol);
    }
  }

  /**
   A file on both sides, with mtimes in range: the matrix as it is documented, with the tolerance
   that the caller gave, or of two seconds.
   */
  lemma SharedFilePlanned(s: State, tolSec: Int64, p: Path)
    requires !IsIgnored(p) && p in s.local && p in s.remote && CellInRange(CellAt(s, p))
    ensures var tol := if tolSec > 0 then tolSec else 2;
      var l, r, base := s.local[p], s.remote[p], Get(Load(s.manifest), p);
      var plan := PlanFor(s, tolSec);
      && (Action(p, Upload, Upload) in plan <==> Edited(l, base, tol) && !Edited(r, base, tol))
      && (Action(p, Download, Download) in plan <==> !Edited(l, base, tol) && Edited(r, base, tol))
      && (Action(p, Conflict, Upload) in plan <==>
            Edited(l, base, tol) && Edited(r, base, tol) && !Similar(l, r, tol) && l.mtime >= r.mtime)
      && (Action(p, Conflict, Download) in plan <==>
            Edited(l, base, tol) && Edited(r, base, tol) && !Similar(l, r, tol) && l.mtime < r.mtime)
  {
    SharedVerdict(CellAt(s, p), EffectiveTol(tolSec));
    PlannedExactly(s, tolSec, p, Upload, Upload);
    PlannedExactly(s, tolSec, p, Download, Download);
    PlannedExactly(s, tolSec, p, Conflict, Upload);
    PlannedExactly(s, tolSec, p, Conflict, Download);
  }

  ghost predicate Reached(s: State, r: RunEnv, p: Path) {
    p in Paths(Executed(s, r))
  }

  lemma PrefixReady(s: State, actions: seq<Action>, k: nat)
    requires AllReady(s, actions) && k <= |actions|
    ensures AllReady(s, actions[..k])
  {
  }

  /** What a run carries out is a prefix of its plan. */
  lemma DoneIsPrefix(plan: seq<Action>, fault: Fault)
    ensures |Done(plan, fault)| <= |plan|
    ensures Done(plan, fault) == plan[..|Done(plan, fault)|]
    ensures Finishes(plan, fault) ==> Done(plan, fault) == plan
    ensures HalfDone(plan, fault) ==> Done(plan, fault) == plan[..fault.at] && !Finishes(plan, fault)
  {
    assert plan[..|plan|] == plan;
  }

  lemma DoneIsReady(s: State, plan: seq<Action>, fault: Fault)
    requires AllReady(s, plan)
    ensures AllReady(s, Done(plan, fault))
  {
    DoneIsPrefix(plan, fault);
    PrefixReady(s, plan, |Done(plan, fault)|);
  }

  /** A backup written last changes no path that the scans see. */
  lemma RunPlanPairs(s: State, plan: seq<Action>, r: RunEnv, p: Path)
    requires !IsIgnored(p)
    ensures At(RunPlan(s, plan, r), p) == At(ExecAll(s, Done(plan, r.fault), r.stamp, r.clock), p)
  {
    if HalfDone(plan, r.fault) {
      var a := plan[r.fault.at];
      BackupIgnored(a.path, Loser(a.resolution), r.stamp);
    }
  }

  lemma RunPlanReached(s: State, plan: seq<Action>, r: RunEnv, i: nat)
    requires AllReady(s, plan) && i < |Done(plan, r.fault)|
    ensures i < |plan|
    ensures At(RunPlan(s, plan, r), plan[i].path) ==
            Effect(At(s, plan[i].path), plan[i].Effective(), r.clock(plan[i].path))
  {
    var done := Done(plan, r.fault);
    DoneIsPrefix(plan, r.fault);
    DoneIsReady(s, plan, r.fault);
    assert done[i] == plan[i];
    assert Ready(s, plan[i]);
    RunPlanPairs(s, plan, r, plan[i].path);
    ActedAt(s, done, r.stamp, r.clock, i);
  }

  lemma ReachedIndex(plan: seq<Action>, fault: Fault, p: Path) returns (i: nat)
    requires p in Paths(Done(plan, fault))
    ensures i < |Done(plan, fault)| <= |plan| && plan[i].path == p && Done(plan, fault)[i] == plan[i]
    ensures p in Paths(plan)
  {
    var done := Done(plan, fault);
    DoneIsPrefix(plan, fault);
    i :| 0 <= i < |done| && Paths(done)[i] == p;
    assert done[i] == plan[i];
    assert Paths(plan)[i] == p;
  }

  /** A run settles each path it reaches and leaves every other path alone. */
  lemma RunAt(s: State, r: RunEnv, p: Path)
    requires !IsIgnored(p)
    ensures At(Run(s, r), p) ==
            if Reached(s, r, p) then Settle(CellAt(s, p), EffectiveTol(r.tolSec), r.clock(p)) else At(s, p)
    ensures Reached(s, r, p) ==> VerdictOf(CellAt(s, p), EffectiveTol(r.tolSec)).Do?
  {
    var plan := PlanFor(s, r.tolSec);
    if Reached(s, r, p) {
      PlannedAt(s, r.tolSec, p);
      PlanIsReady(s, r.tolSec);
      var i := ReachedIndex(plan, r.fault, p);
      RunPlanReached(s, plan, r, i);
    } else {
      RunPlanPairs(s, plan, r, p);
      UntouchedAt(s, Done(plan, r.fault), r.stamp, r.clock, p);
    }
  }

  /** A completed run settles every path and takes the host side as the new baseline. */
  lemma CompletedRunAt(s: State, r: RunEnv, p: Path)
    requires Completes(s, r) && !IsIgnored(p)
    ensures var q := Settle(CellAt(s, p), EffectiveTol(r.tolSec), r.clock(p));
      CellAt(Run(s, r), p) == Cell(q.local, q.remote, StatOf(q.local))
    ensures Load(Run(s, r).manifest) == ScanOf(Run(s, r).local)
  {
    RunAt(s, r, p);
    PlannedAt(s, r.tolSec, p);
    FinishedSaves(s, PlanFor(s, r.tolSec), r);
    ScanAt(Run(s, r).local, p);
  }

  lemma FinishedSaves(s: State, plan: seq<Action>, r: RunEnv)
    requires Finishes(plan, r.fault)
    ensures Done(plan, r.fault) == plan
    ensures Load(RunPlan(s, plan, r).manifest) == ScanOf(RunPlan(s, plan, r).local)
  {
  }

  lemma ScanAt(t: Tree, p: Path)
    requires !IsIgnored(p)
    ensures Get(ScanOf(t), p) == StatOf(Get(t, p))
  {
  }

  /** A run that does not complete keeps the manifest. */
  lemma FailedRunAt(s: State, r: RunEnv, p: Path)
    requires !Completes(s, r) && !IsIgnored(p)
    ensures Run(s, r).manifest == s.manifest
    ensures var q := if Reached(s, r, p) then Settle(CellAt(s, p), EffectiveTol(r.tolSec), r.clock(p)) else At(s, p);
      CellAt(Run(s, r), p) == Cell(q.local, q.remote, CellAt(s, p).base)
  {
    RunAt(s, r, p);
    ExecAllManifest(s, Executed(s, r), r.stamp, r.clock);
  }

  lemma {:induction false} ExecAllManifest(s: State, actions: seq<Action>, stamp: Int64, clock: Clock)
    ensures ExecAll(s, actions, stamp, clock).manifest == s.manifest
  {
    if actions != [] {
      ExecAllManifest(s, actions[..|actions| - 1], stamp, clock);
    }
  }

  /** `t` is `s` with every synced path settled and the host side taken as the new baseline. */
  ghost predicate SettledFrom(s: State, t: State, tol: Int64, clock: Clock) {
    && (forall p :: !IsIgnored(p) ==> At(t, p) == Settle(CellAt(s, p), tol, clock(p)))
    && Load(t.manifest) == ScanOf(t.local)
  }

  lemma CompletedRunSettles(s: State, r: RunEnv)
    requires Completes(s, r)
    ensures SettledFrom(s, Run(s, r), EffectiveTol(r.tolSec), r.clock)
  {
    var t := Run(s, r);
    forall p | !IsIgnored(p) ensures At(t, p) == Settle(CellAt(s, p), EffectiveTol(r.tolSec), r.clock(p)) {
      CompletedRunAt(s, r, p);
    }
    FinishedSaves(s, PlanFor(s, r.tolSec), r);
  }

  // ----- several runs in a row -----

  ghost function RunAll(s: State, runs: seq<RunEnv>): State
    decreases |runs|
  {
    if runs == [] then s else RunAll(Run(s, runs[0]), runs[1..])
  }

  lemma {:induction false} RunAllStep(s: State, runs: seq<RunEnv>, i: nat)
    requires i < |runs|
    ensures RunAll(s, runs[..i + 1]) == Run(RunAll(s, runs[..i]), runs[i])
    decreases i
  {
    if i == 0 {
      assert runs[..1] == [runs[0]] && runs[..0] == [];
      assert [runs[0]][1..] == [];
    } else {
      assert runs[..i + 1][1..] == runs[1..][..i] && runs[..i][1..] == runs[1..][..i - 1];
      RunAllStep(Run(s, runs[0]), runs[1..], i - 1);
    }
  }
}
