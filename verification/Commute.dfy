/** The order of a plan's actions does not matter. */
module Commute {
  import opened Wrappers
  import opened Int64s
  import opened PathOrder
  import opened Names
  import opened Planner
  import opened SyncModel
  import opened RunFacts
  import opened Backups
  import opened Quiescence

  lemma {:induction false} OnceEach(actions: seq<Action>, x: Action)
    requires Distinct(actions)
    ensures multiset(actions)[x] <= 1
  {
    if actions != [] {
      var k := |actions| - 1;
      assert actions == actions[..k] + [actions[k]];
      OnceEach(actions[..k], x);
      if actions[k] == x {
        assert x !in actions[..k];
      }
    }
  }

  lemma TwiceCounted(b: seq<Action>, i: nat, j: nat)
    requires i < j < |b| && b[i] == b[j]
    ensures multiset(b)[b[i]] >= 2
  {
    assert b == b[..j] + b[j..];
    assert b[..j][i] == b[i] && b[j..][0] == b[i];
    assert b[i] in multiset(b[..j]) && b[i] in multiset(b[j..]);
  }

  lemma PermutationDistinct(a: seq<Action>, b: seq<Action>)
    requires Distinct(a) && multiset(a) == multiset(b)
    ensures Distinct(b)
  {
    forall i, j | 0 <= i < j < |b| ensures b[i].path != b[j].path {
      assert b[i] in multiset(b) && b[j] in multiset(b);
      assert b[i] in a && b[j] in a;
      if b[i].path == b[j].path {
        assert b[i] == b[j];
        TwiceCounted(b, i, j);
        OnceEach(a, b[i]);
      }
    }
  }

  lemma PermutationReady(s: State, a: seq<Action>, b: seq<Action>)
    requires AllReady(s, a) && multiset(a) == multiset(b)
    ensures AllReady(s, b)
    ensures forall x :: x in a <==> x in b
  {
    PermutationDistinct(a, b);
    forall x ensures x in a <==> x in b {
      assert x in a <==> x in multiset(a);
      assert x in b <==> x in multiset(b);
    }
    forall i | 0 <= i < |b| ensures Ready(s, b[i]) {
      assert b[i] in a;
    }
  }

  /** At a synced path only the action on that path counts. */
  lemma {:induction false} SameAtSyncedPath(s: State, a: seq<Action>, b: seq<Action>,
                                            stamp: Int64, clock: Clock, p: Path)
    requires AllReady(s, a) && AllReady(s, b) && (forall x :: x in a <==> x in b)
    requires !IsIgnored(p)
    ensures At(ExecAll(s, a, stamp, clock), p) == At(ExecAll(s, b, stamp, clock), p)
  {
    PathIn(a, p);
    PathIn(b, p);
    if p in Paths(a) {
      var i :| 0 <= i < |a| && Paths(a)[i] == p;
      assert a[i] in b;
      var j :| 0 <= j < |b| && b[j] == a[i];
      ActedAt(s, a, stamp, clock, i);
      ActedAt(s, b, stamp, clock, j);
    } else {
      UntouchedAt(s, a, stamp, clock, p);
      UntouchedAt(s, b, stamp, clock, p);
    }
  }

  /** At a skipped name only the backup of that name counts. */
  lemma SameAtSkippedName(s: State, a: seq<Action>, b: seq<Action>, stamp: Int64, clock: Clock, n: Path)
    requires AllReady(s, a) && AllReady(s, b) && (forall x :: x in a <==> x in b)
    requires IsIgnored(n)
    ensures At(ExecAll(s, a, stamp, clock), n) == At(ExecAll(s, b, stamp, clock), n)
  {
    OtherNamesKept(s, a, stamp, clock, n);
    OtherNamesKept(s, b, stamp, clock, n);
    if x :| x in a && x.op == Conflict && BackupPath(x, stamp) == n {
      var i :| 0 <= i < |a| && a[i] == x;
      assert x in b;
      var j :| 0 <= j < |b| && b[j] == x;
      BackupWritten(s, a, i, stamp, clock);
      BackupWritten(s, b, j, stamp, clock);
    }
  }

  /**
   Any permutation of a plan reaches the same stores: planned paths are distinct, and no backup
   name is a planned path or another action's backup.
   */
  lemma {:induction false} ActionsCommute(s: State, tolSec: Int64, b: seq<Action>, stamp: Int64, clock: Clock)
    requires multiset(b) == multiset(PlanFor(s, tolSec))
    ensures ExecAll(s, b, stamp, clock) == ExecAll(s, PlanFor(s, tolSec), stamp, clock)
  {
    var a := PlanFor(s, tolSec);
    PlanIsReady(s, tolSec);
    PermutationReady(s, a, b);
    SameStores(s, a, b, stamp, clock);
  }

  lemma SameStores(s: State, a: seq<Action>, b: seq<Action>, stamp: Int64, clock: Clock)
    requires AllReady(s, a) && AllReady(s, b) && (forall x :: x in a <==> x in b)
    ensures ExecAll(s, a, stamp, clock) == ExecAll(s, b, stamp, clock)
  {
    var t, u := ExecAll(s, a, stamp, clock), ExecAll(s, b, stamp, clock);
    forall p ensures At(t, p) == At(u, p) {
      if IsIgnored(p) {
        SameAtSkippedName(s, a, b, stamp, clock, p);
      } else {
        SameAtSyncedPath(s, a, b, stamp, clock, p);
      }
    }
    forall p ensures Get(t.local, p) == Get(u.local, p) && Get(t.remote, p) == Get(u.remote, p) {
      assert At(t, p) == At(u, p);
    }
    SameLookups(t.local, u.local);
    SameLookups(t.remote, u.remote);
    ExecAllManifest(s, a, stamp, clock);
    ExecAllManifest(s, b, stamp, clock);
  }
}
