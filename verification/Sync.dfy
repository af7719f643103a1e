/**
 The sync engine as it runs: a workspace whose two sides and manifest are updated in place
 (internal/share/sync.go).
 */
module Sync {
  import opened Int64s
  import opened PathOrder
  import opened Names
  import opened Planner
  import opened SyncModel
  import opened RunFacts

  /** The walk over one side, filling a snapshot entry by entry. */
  method Scan(t: Tree) returns (snap: Snapshot)
    ensures snap == ScanOf(t)
    ensures forall p :: p in snap <==> p in t && !IsIgnored(p)
    ensures forall p :: p in snap ==> snap[p] == Entry(|t[p].content|, t[p].mtime)
  {
    snap := map[];
    var todo := t.Keys;
    while todo != {}
      invariant todo <= t.Keys
      invariant forall p :: p in snap <==> p in t && p !in todo && !IsIgnored(p)
      invariant forall p :: p in snap ==> snap[p] == Stat(t[p])
      decreases |todo|
    {
      var rel :| rel in todo;
      todo := todo - {rel};
      var skip := TestIgnored(rel);
      if skip {
        continue;
      }
      snap := snap[rel := Stat(t[rel])];
    }
  }

  class Workspace {
    var local: Tree
    var remote: Tree
    var manifest: ManifestFile

    ghost function Contents(): State
      reads this
    {
      State(local, remote, manifest)
    }

    constructor (local: Tree, remote: Tree, manifest: ManifestFile)
      ensures Contents() == State(local, remote, manifest)
    {
      this.local, this.remote, this.manifest := local, remote, manifest;
    }

    method LoadManifest() returns (snap: Snapshot)
      ensures snap == Load(manifest)
    {
      match manifest
      case Missing => snap := map[];
      case Corrupt => snap := map[];
      case Saved(entries) => snap := entries;
    }

    /**
     Preserve the side that action `a` is about to overwrite. A guest file that is gone is an
     error; a host file that is gone leaves nothing to preserve.
     */
    method BackupConflictLoser(a: Action, stamp: Int64, clock: Clock) returns (ok: bool)
      modifies this`local
      ensures ok <==> (a.resolution == Upload ==> a.path in remote)
      ensures Contents() == Backup(old(Contents()), a, stamp, clock)
      ensures var dst := a.path + ".vc-conflict-guest-" + Decimal.Format(stamp);
        a.resolution == Upload && ok ==> local == old(local)[dst := File(remote[a.path].content, clock(dst))]
      ensures var dst := a.path + ".vc-conflict-host-" + Decimal.Format(stamp);
        a.resolution == Download && a.path in old(local) ==>
          local == old(local)[dst := File(old(local)[a.path].content, clock(dst))]
      ensures a.resolution == Upload && !ok ==> local == old(local)
      ensures a.resolution == Download && a.path !in old(local) ==> local == old(local)
    {
      BackupNameExactly(a.path, stamp);
      var dst := BackupPath(a, stamp);
      match a.resolution
      case Upload =>
        if a.path !in remote {
          return false;
        }
        local := local[dst := File(remote[a.path].content, clock(dst))];
        return true;
      case Download =>
        if a.path in local {
          local := local[dst := File(local[a.path].content, clock(dst))];
        }
        return true;
      case _ =>
        return true;
    }

    /** The copy or removal that settles one path: a missing source is an error, a missing victim is not. */
    method Carry(path: Path, op: Op, clock: Clock) returns (ok: bool)
      modifies this`local, this`remote
      ensures ok <==> (op == Upload ==> path in old(local)) && (op == Download ==> path in old(remote))
      ensures Contents() == Transfer(old(Contents()), path, op, clock)
    {
      match op
      case Upload =>
        if path !in local {
          return false;
        }
        remote := remote[path := File(local[path].content, clock(path))];
        return true;
      case Download =>
        if path !in remote {
          return false;
        }
        local := local[path := File(remote[path].content, clock(path))];
        return true;
      case DeleteLocal =>
        local := local - {path};
        return true;
      case DeleteRemote =>
        remote := remote - {path};
        return true;
      case Conflict =>
        return true;
    }

    /** The body of the action loop: action number `i`, with each place where it can stop. */
    method Perform(a: Action, i: nat, r: RunEnv, before: SyncResult) returns (res: SyncResult, ok: bool)
      requires Ready(Contents(), a)
      modifies this`local, this`remote
      ensures ok <==> !Strikes(r.fault, a, i)
      ensures ok ==> Contents() == Exec(old(Contents()), a, r.stamp, r.clock)
      ensures ok ==> res == TallyStep(before, a)
      ensures !ok ==> Contents() == if r.fault.TransferFailed? && a.op == Conflict
                                    then Backup(old(Contents()), a, r.stamp, r.clock) else old(Contents())
      ensures !ok ==> res == if !r.fault.Cancelled? && a.op == Conflict then NoteConflict(before, a.path) else before
    {
      res := before;
      if r.fault == Cancelled(i) {
        return res, false;
      }
      var op := a.op;
      if op == Conflict {
        res := NoteConflict(res, a.path);
        if r.fault == BackupFailed(i) {
          return res, false;
        }
        var preserved := BackupConflictLoser(a, r.stamp, r.clock);
        assert preserved;
        op := a.resolution;
      }
      if r.fault == TransferFailed(i) {
        return res, false;
      }
      var carried := Carry(a.path, op, r.clock);
      assert carried;
      return NoteDone(res, op), true;
    }

    /** The action loop: it ends at the first action that fails, or after the last one. */
    method ApplyPlan(actions: seq<Action>, r: RunEnv) returns (res: SyncResult, stopped: bool, count: nat)
      requires AllReady(Contents(), actions)
      modifies this`local, this`remote
      ensures stopped ==> count < |actions| && Strikes(r.fault, actions[count], count)
      ensures !stopped ==> count == |actions| && !Interrupted(r.fault, actions)
      ensures count <= |actions|
      ensures var t := ExecAll(old(Contents()), actions[..count], r.stamp, r.clock);
        Contents() == if stopped && r.fault.TransferFailed? && actions[count].op == Conflict
                      then Backup(t, actions[count], r.stamp, r.clock) else t
      ensures var done := Tally(actions[..count]);
        res == if stopped && !r.fault.Cancelled? && actions[count].op == Conflict
               then NoteConflict(done, actions[count].path) else done
    {
      ghost var s0 := Contents();
      res := NOTHING_DONE;
      for i := 0 to |actions|
        invariant Contents() == ExecAll(s0, actions[..i], r.stamp, r.clock)
        invariant res == Tally(actions[..i])
        invariant forall k :: 0 <= k < i ==> !Strikes(r.fault, actions[k], k)
      {
        ReadyWhenDue(s0, actions, i, r.stamp, r.clock);
        ExecAllStep(s0, actions, i, r.stamp, r.clock);
        var ok;
        res, ok := Perform(actions[i], i, r, res);
        if !ok {
          return res, true, i;
        }
      }
      return res, false, |actions|;
    }

    /**
     One reconciliation. `ok` is false exactly when the run returns an error; whatever happens,
     the stores and the summary are those of the specification. Every transfer finds its source
     (the assertions in Perform), so a run fails only where its fault strikes.
     */
    method Sync(r: RunEnv) returns (res: SyncResult, ok: bool)
      modifies this
      ensures Contents() == Run(old(Contents()), r)
      ensures res == Summary(old(Contents()), r)
      ensures ok <==> Completes(old(Contents()), r)
    {
      ghost var s0 := Contents();
      var tol := r.tolSec;
      if tol <= 0 {
        tol := DEFAULT_MTIME_TOLERANCE_SEC;
      }
      if r.fault.SetupFailed? {
        return NOTHING_DONE, false;
      }
      var localSnap := Scan(local);
      var remoteSnap := Scan(remote);
      var base := LoadManifest();
      var actions := Plan(localSnap, remoteSnap, base, tol);
      assert actions == PlanFor(s0, r.tolSec);
      PlanIsReady(s0, r.tolSec);
      var stopped, count;
      res, stopped, count := ApplyPlan(actions, r);
      if stopped {
        StoppedRun(s0, actions, r, count);
        return res, false;
      }
      FinishedLoop(s0, actions, r);
      if r.fault.SaveFailed? {
        return res, false;
      }
      var newManifest := Scan(local);
      manifest := Saved(newManifest);
      ok := true;
    }

    /**
     The watch loop (internal/cli/cp.go) over the runs it makes until it is cancelled: the first
     run's failure ends it, later failures are tolerated.
     */
    method Watch(runs: seq<RunEnv>) returns (ok: bool)
      requires runs != []
      modifies this
      ensures ok <==> Completes(old(Contents()), runs[0])
      ensures Contents() == if ok then RunAll(old(Contents()), runs) else Run(old(Contents()), runs[0])
    {
      ghost var s0 := Contents();
      RunAllStep(s0, runs, 0);
      assert RunAll(s0, runs[..0]) == s0;
      var _, first := Sync(runs[0]);
      if !first {
        return false;
      }
      for i := 1 to |runs|
        invariant Contents() == RunAll(s0, runs[..i])
      {
        RunAllStep(s0, runs, i);
        var _, _ := Sync(runs[i]);
      }
      assert runs[..|runs|] == runs;
      return true;
    }
  }
}
