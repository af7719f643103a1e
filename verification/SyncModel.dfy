/**
 The three stores of a workspace and what one run of Sync does to them
 (internal/share/sync.go), as functions: the specification of class Workspace.
 */
module SyncModel {
  import opened Int64s
  import opened PathOrder
  import opened Names
  import opened Planner

  newtype byte = x: int | 0 <= x < 256

  type Content = seq<byte>

  datatype File = File(content: Content, mtime: Int64)

  type Tree = map<Path, File>

  /** The manifest file as loadManifest finds it. */
  datatype ManifestFile = Missing | Corrupt | Saved(entries: Snapshot)

  datatype State = State(local: Tree, remote: Tree, manifest: ManifestFile)

  /** The mtime the target's filesystem gives to a file written by this run. Arbitrary. */
  type Clock = Path -> Int64

  /** Where a run fails, if it does; `at` counts actions. */
  datatype Fault =
    | NoFault
    | SetupFailed              // connecting, scanning or reading the manifest
    | Cancelled(at: nat)       // the context is done before action `at`
    | BackupFailed(at: nat)    // action `at` is a conflict and its backup cannot be written
    | TransferFailed(at: nat)  // the copy or removal of action `at` fails, after any backup
    | SaveFailed               // the rescan or the manifest write at the end

  datatype RunEnv = RunEnv(tolSec: Int64, stamp: Int64, clock: Clock, fault: Fault)

  const DEFAULT_MTIME_TOLERANCE_SEC: Int64 := 2

  function EffectiveTol(tolSec: Int64): Int64 {
    if tolSec <= 0 then DEFAULT_MTIME_TOLERANCE_SEC else tolSec
  }

  function Stat(f: File): Entry {
    Entry(|f.content|, f.mtime)
  }

  /** What a scan of one side sees. */
  ghost function ScanOf(t: Tree): Snapshot {
    map p | p in t && !IsIgnored(p) :: Stat(t[p])
  }

  function Load(m: ManifestFile): Snapshot {
    match m
    case Missing => map[]
    case Corrupt => map[]
    case Saved(entries) => entries
  }

  ghost function SceneOf(s: State, tolSec: Int64): Scene {
    Scene(ScanOf(s.local), ScanOf(s.remote), Load(s.manifest), EffectiveTol(tolSec))
  }

  ghost function PlanFor(s: State, tolSec: Int64): seq<Action> {
    PlanOf(SceneOf(s, tolSec))
  }

  // ----- one action -----

  function Loser(resolution: Op): Side {
    if resolution == Upload then Guest else Host
  }

  function BackupPath(a: Action, stamp: Int64): Path {
    BackupName(a.path, Loser(a.resolution), stamp)
  }

  /** Copy the side about to be overwritten to its sibling on the host. */
  function Backup(s: State, a: Action, stamp: Int64, clock: Clock): State {
    var dst := BackupPath(a, stamp);
    match a.resolution
    case Upload =>
      if a.path in s.remote then s.(local := s.local[dst := File(s.remote[a.path].content, clock(dst))]) else s
    case Download =>
      if a.path in s.local then s.(local := s.local[dst := File(s.local[a.path].content, clock(dst))]) else s
    case _ => s
  }

  function Transfer(s: State, p: Path, op: Op, clock: Clock): State {
    match op
    case Upload =>
      if p in s.local then s.(remote := s.remote[p := File(s.local[p].content, clock(p))]) else s
    case Download =>
      if p in s.remote then s.(local := s.local[p := File(s.remote[p].content, clock(p))]) else s
    case DeleteLocal => s.(local := s.local - {p})
    case DeleteRemote => s.(remote := s.remote - {p})
    case Conflict => s
  }

  function Exec(s: State, a: Action, stamp: Int64, clock: Clock): State {
    Transfer(if a.op == Conflict then Backup(s, a, stamp, clock) else s, a.path, a.Effective(), clock)
  }

  function ExecAll(s: State, actions: seq<Action>, stamp: Int64, clock: Clock): State {
    if actions == [] then s
    else
      var n := |actions| - 1;
      Exec(ExecAll(s, actions[..n], stamp, clock), actions[n], stamp, clock)
  }

  // ----- one run -----

  /** The fault strikes while action `a`, number `i` of the plan, is due. */
  predicate Strikes(fault: Fault, a: Action, i: nat) {
    match fault
    case Cancelled(k) => i == k
    case BackupFailed(k) => i == k && a.op == Conflict
    case TransferFailed(k) => i == k
    case _ => false
  }

  predicate Interrupted(fault: Fault, plan: seq<Action>) {
    (fault.Cancelled? || fault.BackupFailed? || fault.TransferFailed?) &&
    fault.at < |plan| && Strikes(fault, plan[fault.at], fault.at)
  }

  /** The actions of a plan that are carried out in full. */
  function Done(plan: seq<Action>, fault: Fault): seq<Action> {
    if fault.SetupFailed? then []
    else if Interrupted(fault, plan) then plan[..fault.at]
    else plan
  }

  predicate Finishes(plan: seq<Action>, fault: Fault) {
    !fault.SetupFailed? && !fault.SaveFailed? && !Interrupted(fault, plan)
  }

  /** A conflict whose backup is written although its transfer then fails. */
  predicate HalfDone(plan: seq<Action>, fault: Fault) {
    fault.TransferFailed? && fault.at < |plan| && plan[fault.at].op == Conflict
  }

  ghost function RunPlan(s: State, plan: seq<Action>, r: RunEnv): State {
    var t := ExecAll(s, Done(plan, r.fault), r.stamp, r.clock);
    if Finishes(plan, r.fault) then t.(manifest := Saved(ScanOf(t.local)))
    else if HalfDone(plan, r.fault) then Backup(t, plan[r.fault.at], r.stamp, r.clock)
    else t
  }

  ghost function Executed(s: State, r: RunEnv): seq<Action> {
    Done(PlanFor(s, r.tolSec), r.fault)
  }

  ghost predicate Completes(s: State, r: RunEnv) {
    Finishes(PlanFor(s, r.tolSec), r.fault)
  }

  /** One whole run: plan, act until the end or the fault, and save the manifest if all went well. */
  ghost function Run(s: State, r: RunEnv): State {
    RunPlan(s, PlanFor(s, r.tolSec), r)
  }

  // ----- the summary a run returns -----

  datatype SyncResult = SyncResult(uploaded: nat, downloaded: nat, deletedLocal: nat, deletedRemote: nat,
                                   conflicts: nat, conflictPaths: seq<Path>)

  const NOTHING_DONE: SyncResult := SyncResult(0, 0, 0, 0, 0, [])

  function NoteConflict(res: SyncResult, p: Path): SyncResult {
    res.(conflicts := res.conflicts + 1, conflictPaths := res.conflictPaths + [p])
  }

  function NoteDone(res: SyncResult, op: Op): SyncResult {
    match op
    case Upload => res.(uploaded := res.uploaded + 1)
    case Download => res.(downloaded := res.downloaded + 1)
    case DeleteLocal => res.(deletedLocal := res.deletedLocal + 1)
    case DeleteRemote => res.(deletedRemote := res.deletedRemote + 1)
    case Conflict => res
  }

  function TallyStep(res: SyncResult, a: Action): SyncResult {
    NoteDone(if a.op == Conflict then NoteConflict(res, a.path) else res, a.Effective())
  }

  function Tally(actions: seq<Action>): SyncResult {
    if actions == [] then NOTHING_DONE
    else TallyStep(Tally(actions[..|actions| - 1]), actions[|actions| - 1])
  }

  /** An interrupted run has already counted the conflict it was stopped at. */
  function SummaryOf(plan: seq<Action>, fault: Fault): SyncResult {
    var res := Tally(Done(plan, fault));
    if Interrupted(fault, plan) && !fault.Cancelled? && plan[fault.at].op == Conflict
    then NoteConflict(res, plan[fault.at].path)
    else res
  }

  ghost function Summary(s: State, r: RunEnv): SyncResult {
    SummaryOf(PlanFor(s, r.tolSec), r.fault)
  }
}
