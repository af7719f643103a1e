/** The counters a run returns account for every action and for the host's file count. */
module Counters {
  import opened Int64s
  import opened PathOrder
  import opened Names
  import opened Planner
  import opened SyncModel
  import opened RunFacts
  import opened Merge

  function Total(res: SyncResult): nat {
    res.uploaded + res.downloaded + res.deletedLocal + res.deletedRemote
  }

  /** The paths of the conflicts among `actions`, in order. */
  function ConflictPathsOf(actions: seq<Action>): seq<Path> {
    if actions == [] then []
    else
      var a := actions[|actions| - 1];
      ConflictPathsOf(actions[..|actions| - 1]) + if a.op == Conflict then [a.path] else []
  }

  lemma {:induction false} ConflictPathsAreConflicts(actions: seq<Action>, p: Path)
    ensures p in ConflictPathsOf(actions) <==> exists a :: a in actions && a.op == Conflict && a.path == p
  {
    if actions != [] {
      var k := |actions| - 1;
      assert actions == actions[..k] + [actions[k]];
      ConflictPathsAreConflicts(actions[..k], p);
    }
  }

  lemma {:induction false} ConflictPathsIncrease(actions: seq<Action>)
    requires Increasing(Paths(actions))
    ensures Increasing(ConflictPathsOf(actions))
  {
    if actions != [] {
      var k := |actions| - 1;
      assert Paths(actions[..k]) == Paths(actions)[..k];
      ConflictPathsIncrease(actions[..k]);
      forall p | p in ConflictPathsOf(actions[..k]) ensures Less(p, actions[k].path) {
        ConflictPathsAreConflicts(actions[..k], p);
        var a :| a in actions[..k] && a.path == p;
        var i :| 0 <= i < k && actions[i] == a;
        assert Less(Paths(actions)[i], Paths(actions)[k]);
      }
    }
  }

  /** How many actions come down to `op`. */
  function Count(actions: seq<Action>, op: Op): nat {
    if actions == [] then 0
    else Count(actions[..|actions| - 1], op) + if actions[|actions| - 1].Effective() == op then 1 else 0
  }

  /** Each counter counts its own operation. */
  predicate CountsOf(res: SyncResult, actions: seq<Action>) {
    && res.uploaded == Count(actions, Upload)
    && res.downloaded == Count(actions, Download)
    && res.deletedLocal == Count(actions, DeleteLocal)
    && res.deletedRemote == Count(actions, DeleteRemote)
  }

  lemma {:induction false} TallyCountsOf(actions: seq<Action>)
    ensures CountsOf(Tally(actions), actions)
  {
    if actions != [] {
      TallyCountsOf(actions[..|actions| - 1]);
    }
  }

  lemma {:induction false} TallyCounts(s: State, actions: seq<Action>)
    requires AllReady(s, actions)
    ensures Total(Tally(actions)) == |actions|
    ensures Tally(actions).conflicts == |Tally(actions).conflictPaths|
    ensures Tally(actions).conflictPaths == ConflictPathsOf(actions)
  {
    if actions != [] {
      var k := |actions| - 1;
      assert Ready(s, actions[k]);
      PrefixReady(s, actions, k);
      TallyCounts(s, actions[..k]);
    }
  }

  /** Downloads of paths the host did not have. */
  function NewDownloads(s: State, actions: seq<Action>): nat {
    if actions == [] then 0
    else
      var a := actions[|actions| - 1];
      NewDownloads(s, actions[..|actions| - 1]) +
      if a.Effective() == Download && a.path !in s.local then 1 else 0
  }

  lemma ExecKeys(s: State, a: Action, stamp: Int64, clock: Clock)
    requires Ready(s, a)
    ensures Keys(Exec(s, a, stamp, clock).local) ==
      match a.Effective()
      case Download => Keys(s.local) + {a.path}
      case DeleteLocal => Keys(s.local) - {a.path}
      case _ => Keys(s.local)
  {
    BackupIgnored(a.path, Loser(a.resolution), stamp);
  }

  lemma {:induction false} HostCount(s: State, actions: seq<Action>, stamp: Int64, clock: Clock)
    requires AllReady(s, actions)
    ensures |Keys(ExecAll(s, actions, stamp, clock).local)| ==
            |Keys(s.local)| + NewDownloads(s, actions) - Tally(actions).deletedLocal
  {
    if actions != [] {
      var k := |actions| - 1;
      var a, t := actions[k], ExecAll(s, actions[..k], stamp, clock);
      PrefixReady(s, actions, k);
      HostCount(s, actions[..k], stamp, clock);
      ReadyWhenDue(s, actions, k, stamp, clock);
      ExecKeys(t, a, stamp, clock);
      assert a.path in Keys(t.local) <==> a.path in s.local;
    }
  }

  /** The actions a run turns to: those it carries out, and the one whose backup or transfer fails. */
  function Begun(plan: seq<Action>, fault: Fault): seq<Action> {
    if Interrupted(fault, plan) && !fault.Cancelled? then plan[..fault.at + 1] else Done(plan, fault)
  }

  /** The counters of a run in terms of its plan. */
  ghost predicate Accounted(res: SyncResult, plan: seq<Action>, fault: Fault) {
    && CountsOf(res, Done(plan, fault))
    && Total(res) == |Done(plan, fault)|
    && res.conflicts == |res.conflictPaths|
    && res.conflictPaths == ConflictPathsOf(Begun(plan, fault))
    && Increasing(res.conflictPaths)
    && (Finishes(plan, fault) ==> Done(plan, fault) == Begun(plan, fault) == plan)
  }

  /**
   For every run, however it ends: each counter counts its operation among the actions carried out,
   together they add up to them, and the conflict paths, as many as the conflict count says, are those
   of the conflicts the run turned to, strictly sorted. For a completed run that is the whole plan.
   */
  lemma CountersConserved(s: State, r: RunEnv)
    ensures Accounted(Summary(s, r), PlanFor(s, r.tolSec), r.fault)
  {
    var plan := PlanFor(s, r.tolSec);
    PlanIsReady(s, r.tolSec);
    PlanOfIsPlan(SceneOf(s, r.tolSec));
    PlanAccounted(s, plan, r.fault);
  }

  lemma PlanAccounted(s: State, plan: seq<Action>, fault: Fault)
    requires AllReady(s, plan) && Increasing(Paths(plan))
    ensures Accounted(SummaryOf(plan, fault), plan, fault)
  {
    SummaryCounts(plan, fault);
    SummaryTotals(s, plan, fault);
    SummaryConflicts(s, plan, fault);
    DoneIsPrefix(plan, fault);
  }

  /** `res` is `t`, or `t` with one conflict more. */
  predicate TallyOrConflict(res: SyncResult, t: SyncResult) {
    || res == t
    || (res.conflictPaths != [] && res == NoteConflict(t, res.conflictPaths[|res.conflictPaths| - 1]))
  }

  /** The summary of a run is its tally, with one conflict more if the run stopped at one. */
  lemma SummaryIsTally(plan: seq<Action>, fault: Fault)
    ensures TallyOrConflict(SummaryOf(plan, fault), Tally(Done(plan, fault)))
    ensures Finishes(plan, fault) ==> SummaryOf(plan, fault) == Tally(Done(plan, fault))
  {
    if Interrupted(fault, plan) {
      ConflictIsLast(Tally(Done(plan, fault)), plan[fault.at].path);
    }
  }

  lemma ConflictIsLast(t: SyncResult, p: Path)
    ensures TallyOrConflict(NoteConflict(t, p), t)
  {
  }

  /** One conflict more moves none of the four counters. */
  lemma SameCounts(res: SyncResult, t: SyncResult, actions: seq<Action>)
    requires TallyOrConflict(res, t)
    ensures Total(res) == Total(t) && res.deletedLocal == t.deletedLocal
    ensures CountsOf(t, actions) ==> CountsOf(res, actions)
    ensures t.conflicts == |t.conflictPaths| ==> res.conflicts == |res.conflictPaths|
  {
  }

  lemma SummaryCounts(plan: seq<Action>, fault: Fault)
    ensures CountsOf(SummaryOf(plan, fault), Done(plan, fault))
  {
    SummaryIsTally(plan, fault);
    TallyCountsOf(Done(plan, fault));
    SameCounts(SummaryOf(plan, fault), Tally(Done(plan, fault)), Done(plan, fault));
  }

  lemma SummaryTotals(s: State, plan: seq<Action>, fault: Fault)
    requires AllReady(s, plan)
    ensures Total(SummaryOf(plan, fault)) == |Done(plan, fault)|
    ensures SummaryOf(plan, fault).conflicts == |SummaryOf(plan, fault).conflictPaths|
  {
    SummaryIsTally(plan, fault);
    DoneIsReady(s, plan, fault);
    TallyCounts(s, Done(plan, fault));
    SameCounts(SummaryOf(plan, fault), Tally(Done(plan, fault)), Done(plan, fault));
  }

  lemma BegunIsPrefix(plan: seq<Action>, fault: Fault)
    ensures |Begun(plan, fault)| <= |plan|
    ensures Begun(plan, fault) == plan[..|Begun(plan, fault)|]
  {
    DoneIsPrefix(plan, fault);
  }

  lemma BegunConflicts(plan: seq<Action>, fault: Fault)
    requires Interrupted(fault, plan) && !fault.Cancelled?
    ensures ConflictPathsOf(Begun(plan, fault)) == ConflictPathsOf(Done(plan, fault)) +
            if plan[fault.at].op == Conflict then [plan[fault.at].path] else []
  {
    assert plan[..fault.at + 1][..fault.at] == plan[..fault.at];
  }

  /** The conflict paths a run returns are those of the conflicts it turned to, in increasing order. */
  lemma SummaryConflicts(s: State, plan: seq<Action>, fault: Fault)
    requires AllReady(s, plan) && Increasing(Paths(plan))
    ensures SummaryOf(plan, fault).conflictPaths == ConflictPathsOf(Begun(plan, fault))
    ensures Increasing(ConflictPathsOf(Begun(plan, fault)))
  {
    DoneIsReady(s, plan, fault);
    TallyConflicts(s, Done(plan, fault));
    if Interrupted(fault, plan) && !fault.Cancelled? {
      BegunConflicts(plan, fault);
    }
    BegunIsPrefix(plan, fault);
    IncreasingPrefix(plan, |Begun(plan, fault)|);
    ConflictPathsIncrease(Begun(plan, fault));
  }

  lemma IncreasingPrefix(plan: seq<Action>, k: nat)
    requires Increasing(Paths(plan)) && k <= |plan|
    ensures Increasing(Paths(plan[..k]))
  {
    assert Paths(plan[..k]) == Paths(plan)[..k];
  }

  lemma TallyConflicts(s: State, actions: seq<Action>)
    requires AllReady(s, actions)
    ensures Tally(actions).conflictPaths == ConflictPathsOf(actions)
  {
    TallyCounts(s, actions);
  }

  /**
   The host's synced file count moves by the downloads of new paths minus the local deletions;
   backups are not counted.
   */
  lemma {:induction false} HostFilesConserved(s: State, r: RunEnv)
    ensures |Keys(Run(s, r).local)| ==
            |Keys(s.local)| + NewDownloads(s, Executed(s, r)) - Summary(s, r).deletedLocal
  {
    var plan := PlanFor(s, r.tolSec);
    PlanIsReady(s, r.tolSec);
    DoneIsReady(s, plan, r.fault);
    SummaryIsTally(plan, r.fault);
    SameCounts(SummaryOf(plan, r.fault), Tally(Done(plan, r.fault)), plan);
    HostCount(s, Done(plan, r.fault), r.stamp, r.clock);
    RunPlanKeys(s, plan, r);
  }

  lemma RunPlanKeys(s: State, plan: seq<Action>, r: RunEnv)
    ensures Keys(RunPlan(s, plan, r).local) == Keys(ExecAll(s, Done(plan, r.fault), r.stamp, r.clock).local)
  {
    if HalfDone(plan, r.fault) {
      var a := plan[r.fault.at];
      BackupIgnored(a.path, Loser(a.resolution), r.stamp);
    }
  }
}
