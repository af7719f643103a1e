/** Concrete histories in which the code does not do what its comments say. */
module Witnesses {
  import opened Wrappers
  import opened Int64s
  import opened PathOrder
  import opened Names
  import opened Planner
  import opened SyncModel
  import opened RunFacts
  import opened Backups
  import opened Loss
  import opened Quiescence

  const F: Path := "f"

  lemma PlainName()
    ensures !IsIgnored(F)
  {
    IgnoredByLastComponent("", F);
    assert |F| < |MARKER|;
  }

  /** With at most one synced path the plan is that path's verdict. */
  lemma OnePathPlan(s: State, tolSec: Int64, p: Path)
    requires !IsIgnored(p)
    requires forall q :: q != p && (q in s.local || q in s.remote) ==> IsIgnored(q)
    ensures PlanFor(s, tolSec) ==
      match VerdictOf(CellAt(s, p), EffectiveTol(tolSec))
      case Keep => []
      case Do(op, res) => [Action(p, op, res)]
  {
    var sc := SceneOf(s, tolSec);
    var v := VerdictOf(CellAt(s, p), EffectiveTol(tolSec));
    VerdictAtCell(s, tolSec, p);
    var plan := if v.Keep? then [] else [Action(p, v.op, v.resolution)];
    forall a ensures a in plan <==> sc.Asks(a) {
    }
    PlanUnique(sc, plan);
  }

  function Env(stamp: Int64, mtime: Int64, fault: Fault): RunEnv {
    RunEnv(0, stamp, (_: Path) => mtime, fault)
  }

  /** The guest deleted the file, the host edited it: the edit is removed without a backup. */
  lemma EditedFileIsDeleted()
    ensures var s := State(map[F := File([7, 7], 200)], map[], Saved(map[F := Entry(1, 100)]));
      var r := Env(1, 300, NoFault);
      Completes(s, r) && Changed(Stat(s.local[F]), Some(Entry(1, 100)), 2) && !Survives(s, r, F, [7, 7])
  {
    var s := State(map[F := File([7, 7], 200)], map[], Saved(map[F := Entry(1, 100)]));
    var r := Env(1, 300, NoFault);
    PlainName();
    assert CellAt(s, F) == Cell(Some(File([7, 7], 200)), None, Some(Entry(1, 100)));
    LossOfCompletedRun(s, r, F, Host);
  }

  /** Two different files near the baseline, and the same files once the manifest describes the host's. */
  function NearBaseline(base: Int64): State {
    State(map[F := File([1], 102)], map[F := File([2], 98)], Saved(map[F := Entry(1, base)]))
  }

  lemma NearPlan(base: Int64)
    requires base == 100 || base == 102
    ensures PlanFor(NearBaseline(base), 0) == if base == 100 then [] else [Action(F, Download, Download)]
  {
    PlainName();
    assert CellAt(NearBaseline(base), F) == Cell(Some(File([1], 102)), Some(File([2], 98)), Some(Entry(1, base)));
    OnePathPlan(NearBaseline(base), 0, F);
  }

  lemma NothingToDo(r: RunEnv)
    requires r.fault.NoFault?
    ensures RunPlan(NearBaseline(100), [], r) == NearBaseline(102)
  {
    PlainName();
    assert ScanOf(NearBaseline(100).local) == map[F := Entry(1, 102)];
  }

  /** The first run keeps both files as near enough to the baseline; the second overwrites the host's. */
  lemma KeptFileIsOverwritten()
    ensures var r := Env(1, 300, NoFault);
      && Run(NearBaseline(100), r) == NearBaseline(102) && Completes(NearBaseline(100), r)
      && Completes(NearBaseline(102), r) && !Survives(NearBaseline(102), r, F, [1])
  {
    var r := Env(1, 300, NoFault);
    PlainName();
    NearPlan(100);
    NearPlan(102);
    NothingToDo(r);
    assert CellAt(NearBaseline(102), F) == Cell(Some(File([1], 102)), Some(File([2], 98)), Some(Entry(1, 102)));
    LossOfCompletedRun(NearBaseline(102), r, F, Host);
  }

  // A conflict won by the host: before, after a run that cannot save its manifest, and after another one.

  const CLASH: Action := Action(F, Conflict, Upload)

  function Before(): State {
    State(map[F := File([1], 1000)], map[F := File([2, 2], 500)], Missing)
  }

  function Between(): State {
    State(map[F := File([1], 1000), BackupPath(CLASH, 7) := File([2, 2], 900)], map[F := File([1], 900)], Missing)
  }

  lemma OneAction(s: State, a: Action, stamp: Int64, clock: Clock)
    ensures ExecAll(s, [a], stamp, clock) == Exec(s, a, stamp, clock)
  {
    assert ExecAll(s, [a][..0], stamp, clock) == s;
  }

  lemma BackupIsElsewhere()
    ensures BackupPath(CLASH, 7) != F && IsIgnored(BackupPath(CLASH, 7))
  {
    PlainName();
    BackupIgnored(F, Guest, 7);
  }

  lemma BeforePlan()
    ensures PlanFor(Before(), 0) == [CLASH]
  {
    PlainName();
    assert CellAt(Before(), F) == Cell(Some(File([1], 1000)), Some(File([2, 2], 500)), None);
    OnePathPlan(Before(), 0, F);
  }

  lemma BetweenPlan()
    ensures PlanFor(Between(), 0) == [CLASH]
  {
    PlainName();
    BackupIsElsewhere();
    assert CellAt(Between(), F) == Cell(Some(File([1], 1000)), Some(File([1], 900)), None);
    OnePathPlan(Between(), 0, F);
  }

  lemma FirstClash(r: RunEnv)
    requires r == Env(7, 900, SaveFailed)
    ensures Run(Before(), r) == Between()
    ensures Wrote(Before(), r, CLASH)
  {
    BeforePlan();
    BackupIsElsewhere();
    OneAction(Before(), CLASH, 7, r.clock);
    assert RunPlan(Before(), [CLASH], r) == Between();
  }

  predicate Nowhere(t: State, c: Content) {
    (forall n :: n in t.local ==> t.local[n].content != c) && (forall n :: n in t.remote ==> t.remote[n].content != c)
  }

  lemma SecondClash(r: RunEnv)
    requires r == Env(7, 900, NoFault)
    ensures Completes(Between(), r)
    ensures Nowhere(Run(Between(), r), [2, 2])
  {
    BetweenPlan();
    SecondClashRun(r);
    assert Run(Between(), r) == RunPlan(Between(), [CLASH], r);
  }

  lemma SecondClashRun(r: RunEnv)
    requires r == Env(7, 900, NoFault)
    ensures Nowhere(RunPlan(Between(), [CLASH], r), [2, 2])
  {
    BackupIsElsewhere();
    OneAction(Between(), CLASH, 7, r.clock);
    var t := RunPlan(Between(), [CLASH], r);
    assert t.local == map[F := File([1], 1000), BackupPath(CLASH, 7) := File([1], 900)];
    assert t.remote == map[F := File([1], 900)];
  }

  /**
   Two runs in the same second: the first fails to save its manifest, the second finds its own
   upload in conflict and overwrites the backup. The guest's version is nowhere any more, so
   backups are durable only as long as stamps differ.
   */
  lemma RepeatedStampDestroysBackup(first: RunEnv, second: RunEnv)
    requires first == Env(7, 900, SaveFailed) && second == Env(7, 900, NoFault)
    ensures Wrote(Before(), first, CLASH) && LosingFile(Before(), CLASH) == Some(File([2, 2], 500))
    ensures Completes(Run(Before(), first), second)
    ensures Nowhere(Run(Run(Before(), first), second), [2, 2])
  {
    FirstClash(first);
    SecondClash(second);
  }

  // A new host file: uploaded by a run that completes, downloaded by one that cannot save its manifest.

  function New(): State {
    State(map[F := File([1], 100)], map[], Missing)
  }

  function Uploaded(): State {
    State(map[F := File([1], 100)], map[F := File([1], 200)], Saved(map[F := Entry(1, 100)]))
  }

  function Refreshed(): State {
    State(map[F := File([1], 300)], map[F := File([1], 200)], Saved(map[F := Entry(1, 100)]))
  }

  lemma UploadRun(r: RunEnv)
    requires r == Env(1, 200, NoFault)
    ensures Completes(New(), r) && Run(New(), r) == Uploaded()
  {
    PlainName();
    assert CellAt(New(), F) == Cell(Some(File([1], 100)), None, None);
    OnePathPlan(New(), 0, F);
    var a := Action(F, Upload, Upload);
    OneAction(New(), a, r.stamp, r.clock);
    assert ScanOf(New().local) == map[F := Entry(1, 100)];
    assert RunPlan(New(), [a], r) == Uploaded();
  }

  lemma RefreshRun(r: RunEnv)
    requires r == Env(2, 300, SaveFailed)
    ensures !Completes(Uploaded(), r) && Run(Uploaded(), r) == Refreshed()
  {
    PlainName();
    assert CellAt(Uploaded(), F) == Cell(Some(File([1], 100)), Some(File([1], 200)), Some(Entry(1, 100)));
    OnePathPlan(Uploaded(), 0, F);
    var a := Action(F, Download, Download);
    OneAction(Uploaded(), a, r.stamp, r.clock);
    assert RunPlan(Uploaded(), [a], r) == Refreshed();
  }

  lemma RefreshedPlan()
    ensures PlanFor(Refreshed(), 0) == [CLASH]
  {
    PlainName();
    assert CellAt(Refreshed(), F) == Cell(Some(File([1], 300)), Some(File([1], 200)), Some(Entry(1, 100)));
    OnePathPlan(Refreshed(), 0, F);
  }

  lemma ClashRun(r: RunEnv)
    requires r == Env(3, 400, NoFault)
    ensures Wrote(Refreshed(), r, CLASH)
    ensures Get(Run(Refreshed(), r).remote, F) == Some(File([1], 400))
  {
    RefreshedPlan();
    PlainName();
    OneAction(Refreshed(), CLASH, r.stamp, r.clock);
    BackupIgnored(F, Guest, 3);
    assert Get(RunPlan(Refreshed(), [CLASH], r).remote, F) == Some(File([1], 400));
  }

  /**
   Three runs and no edit: the first uploads a file and completes, the second downloads it back
   because the guest's mtime is newer and fails to save its manifest, and the third finds both
   sides changed: it reports a conflict, makes a backup and writes the guest.
   */
  lemma FailedRunMakesAConflict(first: RunEnv, second: RunEnv, third: RunEnv)
    requires first == Env(1, 200, NoFault) && second == Env(2, 300, SaveFailed) && third == Env(3, 400, NoFault)
    ensures Completes(New(), first) && Resting(Run(New(), first))
    ensures !Completes(Run(New(), first), second)
    ensures var t := Run(Run(New(), first), second);
      && Wrote(t, third, CLASH)
      && Get(t.remote, F) == Some(File([1], 200))
      && Get(Run(t, third).remote, F) == Some(File([1], 400))
  {
    UploadRun(first);
    CompletedRunRests(New(), first);
    RefreshRun(second);
    ClashRun(third);
  }
}
