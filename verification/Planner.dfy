/** Three-way reconciliation from metadata alone (internal/share/plan.go). */
module Planner {
  import opened Wrappers
  import opened Int64s
  import opened PathOrder

  datatype Entry = Entry(size: int, modUnix: Int64)

  type Snapshot = map<Path, Entry>

  datatype Op = Upload | Download | DeleteLocal | DeleteRemote | Conflict

  /** For a Conflict, `resolution` is the transfer that is carried out; otherwise it repeats `op`. */
  datatype Action = Action(path: Path, op: Op, resolution: Op) {
    function Effective(): Op {
      if op == Conflict then resolution else op
    }
  }

  datatype Verdict = Keep | Do(op: Op, resolution: Op)

  predicate Changed(a: Entry, base: Option<Entry>, tol: Int64) {
    base.None? || a.size != base.value.size || Abs64(Sub64(a.modUnix, base.value.modUnix)) > tol
  }

  predicate EntriesEqual(a: Entry, b: Entry, tol: Int64) {
    a.size == b.size && Abs64(Sub64(a.modUnix, b.modUnix)) <= tol
  }

  /** The decision for one path, from its entries on the two sides and in the manifest. */
  function Decide(l: Option<Entry>, r: Option<Entry>, base: Option<Entry>, tol: Int64): Verdict {
    match (l, r)
    case (None, None) => Keep
    case (Some(_), None) => if base.Some? then Do(DeleteLocal, DeleteLocal) else Do(Upload, Upload)
    case (None, Some(_)) => if base.Some? then Do(DeleteRemote, DeleteRemote) else Do(Download, Download)
    case (Some(a), Some(b)) =>
      var lChanged := Changed(a, base, tol);
      var rChanged := Changed(b, base, tol);
      if lChanged && rChanged then
        if EntriesEqual(a, b, tol) then Keep
        else if a.modUnix >= b.modUnix then Do(Conflict, Upload)
        else Do(Conflict, Download)
      else if lChanged then Do(Upload, Upload)
      else if rChanged then Do(Download, Download)
      else Keep
  }

  /** Everything one planning step looks at. */
  datatype Scene = Scene(local: Snapshot, remote: Snapshot, manifest: Snapshot, tol: Int64) {
    function VerdictAt(p: Path): Verdict {
      Decide(Get(local, p), Get(remote, p), Get(manifest, p), tol)
    }

    /** The action `a` is the one the decision matrix asks for at its path. */
    predicate Asks(a: Action) {
      VerdictAt(a.path) == Do(a.op, a.resolution)
    }

    ghost function Planned(): set<Path> {
      set p | p in local.Keys + remote.Keys && VerdictAt(p).Do?
    }

    ghost function ActionAt(p: Path): Action
      requires VerdictAt(p).Do?
    {
      Action(p, VerdictAt(p).op, VerdictAt(p).resolution)
    }
  }

  function Paths(actions: seq<Action>): (ps: seq<Path>)
    ensures |ps| == |actions|
    ensures forall i :: 0 <= i < |ps| ==> ps[i] == actions[i].path
  {
    seq(|actions|, i requires 0 <= i < |actions| => actions[i].path)
  }

  ghost predicate Distinct(actions: seq<Action>) {
    forall i, j :: 0 <= i < j < |actions| ==> actions[i].path != actions[j].path
  }

  /** `actions` holds, once each and in any order, the actions asked for on `keys`. */
  ghost predicate Covers(sc: Scene, keys: set<Path>, actions: seq<Action>) {
    && Distinct(actions)
    && (forall a :: a in actions <==> a.path in keys && sc.Asks(a))
  }

  /** One planning step in full: the asked-for actions in increasing path order. */
  ghost predicate IsPlan(sc: Scene, actions: seq<Action>) {
    && Increasing(Paths(actions))
    && (forall a :: a in actions <==> sc.Asks(a))
  }

  /** The plan as a function of the scene. */
  ghost function PlanOf(sc: Scene): (actions: seq<Action>) {
    var ks := Sorted(sc.Planned());
    SortedFacts(sc.Planned());
    seq(|ks|, i requires 0 <= i < |ks| => (assert ks[i] in ks; sc.ActionAt(ks[i])))
  }

  lemma AskedPathsExist(sc: Scene, a: Action)
    requires sc.Asks(a)
    ensures a.path in sc.Planned() && a == sc.ActionAt(a.path)
  {
  }

  /** PlanOf has exactly one action for each path needing one, no others, in increasing order. */
  lemma PlanOfIsPlan(sc: Scene)
    ensures IsPlan(sc, PlanOf(sc))
    ensures Distinct(PlanOf(sc))
  {
    var ks := Sorted(sc.Planned());
    SortedFacts(sc.Planned());
    var plan := PlanOf(sc);
    assert Paths(plan) == ks;
    forall a ensures a in plan <==> sc.Asks(a) {
      if a in plan {
        var i :| 0 <= i < |plan| && plan[i] == a;
        assert ks[i] in ks;
      }
      if sc.Asks(a) {
        AskedPathsExist(sc, a);
        var i :| 0 <= i < |ks| && ks[i] == a.path;
        assert plan[i] == a;
      }
    }
    IncreasingDistinct(plan);
  }

  lemma IncreasingDistinct(actions: seq<Action>)
    requires Increasing(Paths(actions))
    ensures Distinct(actions)
  {
    forall i, j | 0 <= i < j < |actions| ensures actions[i].path != actions[j].path {
      assert Less(Paths(actions)[i], Paths(actions)[j]);
      LessIrreflexive(actions[i].path);
    }
  }

  /** The decision matrix and the order leave no freedom: any plan is PlanOf. */
  lemma PlanUnique(sc: Scene, actions: seq<Action>)
    requires IsPlan(sc, actions)
    ensures actions == PlanOf(sc)
  {
    var plan := PlanOf(sc);
    PlanOfIsPlan(sc);
    forall p ensures p in Paths(actions) <==> p in Paths(plan) {
      PathIn(actions, p);
      PathIn(plan, p);
    }
    IncreasingUnique(Paths(actions), Paths(plan));
    forall i | 0 <= i < |actions| ensures actions[i] == plan[i] {
      assert actions[i] in actions && plan[i] in plan;
      assert Paths(actions)[i] == Paths(plan)[i];
    }
  }

  lemma PathIn(actions: seq<Action>, p: Path)
    ensures p in Paths(actions) <==> exists a :: a in actions && a.path == p
  {
    if p in Paths(actions) {
      var i :| 0 <= i < |actions| && Paths(actions)[i] == p;
      assert actions[i] in actions;
    }
    if a :| a in actions && a.path == p {
      var i :| 0 <= i < |actions| && actions[i] == a;
      assert Paths(actions)[i] == p;
    }
  }

  lemma CoverStep(sc: Scene, keys: set<Path>, actions: seq<Action>, p: Path)
    requires Covers(sc, keys, actions) && p !in keys
    ensures sc.VerdictAt(p).Keep? ==> Covers(sc, keys + {p}, actions)
    ensures sc.VerdictAt(p).Do? ==> Covers(sc, keys + {p}, actions + [sc.ActionAt(p)])
  {
    if sc.VerdictAt(p).Do? {
      var more := actions + [sc.ActionAt(p)];
      assert forall i :: 0 <= i < |actions| ==> actions[i] in actions;
      assert forall a :: a in more <==> a in actions || a == sc.ActionAt(p);
    }
  }

  lemma SortedCoverIsPlan(sc: Scene, unsorted: seq<Action>, actions: seq<Action>)
    requires Covers(sc, sc.local.Keys + sc.remote.Keys, unsorted)
    requires Increasing(Paths(actions))
    requires forall a :: a in actions <==> a in unsorted
    ensures actions == PlanOf(sc)
  {
    PlanUnique(sc, actions);
  }

  /** Stands for sort.Slice by path; the paths are distinct, so the result does not depend on the algorithm. */
  method SortByPath(actions: seq<Action>) returns (r: seq<Action>)
    requires Distinct(actions)
    ensures Increasing(Paths(r))
    ensures forall a :: a in r <==> a in actions
  {
    r := [];
    for n := 0 to |actions|
      invariant Increasing(Paths(r))
      invariant forall a :: a in r <==> a in actions[..n]
    {
      var a := actions[n];
      var j := 0;
      while j < |r| && Less(r[j].path, a.path)
        invariant j <= |r|
        invariant j > 0 ==> Less(r[j - 1].path, a.path)
      {
        j := j + 1;
      }
      assert a.path !in Paths(r) by {
        PathIn(r, a.path);
        forall b | b in r ensures b.path != a.path {
          assert b in actions[..n];
        }
      }
      InsertKeepsOrder(r, a, j);
      assert actions[..n + 1] == actions[..n] + [a];
      r := r[..j] + [a] + r[j..];
    }
    assert actions[..|actions|] == actions;
  }

  lemma InsertKeepsOrder(r: seq<Action>, a: Action, j: nat)
    requires Increasing(Paths(r)) && a.path !in Paths(r) && j <= |r|
    requires j > 0 ==> Less(r[j - 1].path, a.path)
    requires j < |r| ==> !Less(r[j].path, a.path)
    ensures Increasing(Paths(r[..j] + [a] + r[j..]))
    ensures forall b :: b in r[..j] + [a] + r[j..] <==> b in r || b == a
  {
    InsertIncreasing(Paths(r), a.path, j);
    assert Paths(r[..j] + [a] + r[j..]) == Paths(r)[..j] + [a.path] + Paths(r)[j..];
    forall b ensures b in r[..j] + [a] + r[j..] <==> b in r || b == a {
      assert r == r[..j] + r[j..];
    }
  }

  /** The first loop of the planner: every path of the host snapshot, in an arbitrary order. */
  method PlanLocalPaths(local: Snapshot, remote: Snapshot, manifest: Snapshot, tol: Int64)
    returns (seen: set<Path>, actions: seq<Action>)
    ensures seen == local.Keys
    ensures Covers(Scene(local, remote, manifest, tol), local.Keys, actions)
  {
    ghost var sc := Scene(local, remote, manifest, tol);
    seen, actions := {}, [];
    var todo := local.Keys;
    while todo != {}
      invariant todo <= local.Keys && seen == local.Keys - todo
      invariant Covers(sc, seen, actions)
      decreases |todo|
    {
      var path :| path in todo;
      todo := todo - {path};
      CoverStep(sc, seen, actions, path);
      ghost var before := actions;
      seen := seen + {path};
      var l := local[path];
      var base := Get(manifest, path);
      if path in remote {
        var r := remote[path];
        var lChanged := Changed(l, base, tol);
        var rChanged := Changed(r, base, tol);
        if lChanged && rChanged {
          if !EntriesEqual(l, r, tol) {
            if l.modUnix >= r.modUnix {
              actions := actions + [Action(path, Conflict, Upload)];
            } else {
              actions := actions + [Action(path, Conflict, Download)];
            }
          }
        } else if lChanged {
          actions := actions + [Action(path, Upload, Upload)];
        } else if rChanged {
          actions := actions + [Action(path, Download, Download)];
        }
      } else if base.Some? {
        actions := actions + [Action(path, DeleteLocal, DeleteLocal)];
      } else {
        actions := actions + [Action(path, Upload, Upload)];
      }
      assert actions == if sc.VerdictAt(path).Do? then before + [sc.ActionAt(path)] else before;
    }
  }

  /** The second loop: paths of the guest snapshot that the first loop has not seen. */
  method PlanRemotePaths(local: Snapshot, remote: Snapshot, manifest: Snapshot, tol: Int64,
                         seen: set<Path>, planned: seq<Action>) returns (actions: seq<Action>)
    requires seen == local.Keys
    requires Covers(Scene(local, remote, manifest, tol), seen, planned)
    ensures Covers(Scene(local, remote, manifest, tol), local.Keys + remote.Keys, actions)
  {
    ghost var sc := Scene(local, remote, manifest, tol);
    ghost var done := seen;
    actions := planned;
    var todo := remote.Keys;
    while todo != {}
      invariant todo <= remote.Keys
      invariant forall p :: p in done <==> p in seen || (p in remote && p !in todo)
      invariant Covers(sc, done, actions)
      decreases |todo|
    {
      var path :| path in todo;
      todo := todo - {path};
      if path !in seen {
        CoverStep(sc, done, actions, path);
        var op := if path in manifest then DeleteRemote else Download;
        assert sc.ActionAt(path) == Action(path, op, op);
        actions := actions + [Action(path, op, op)];
      }
      assert path in seen ==> done + {path} == done;
      done := done + {path};
    }
    assert done == local.Keys + remote.Keys;
  }

  /**
   Two passes over the snapshots, visiting paths in an arbitrary order, then a sort.
   The outcome is the one plan the decision matrix allows.
   */
  method Plan(local: Snapshot, remote: Snapshot, manifest: Snapshot, tolSec: Int64) returns (actions: seq<Action>)
    ensures actions == PlanOf(Scene(local, remote, manifest, if tolSec < 0 then 0 else tolSec))
  {
    var tol := tolSec;
    if tol < 0 {
      tol := 0;
    }
    var seen, fromLocal := PlanLocalPaths(local, remote, manifest, tol);
    var unsorted := PlanRemotePaths(local, remote, manifest, tol, seen, fromLocal);
    actions := SortByPath(unsorted);
    SortedCoverIsPlan(Scene(local, remote, manifest, tol), unsorted, actions);
  }

  /** Within half the int64 range the code's comparisons are the mathematical ones. */
  ghost predicate InRange(e: Entry) {
    -0x4000_0000_0000_0000 < e.modUnix < 0x4000_0000_0000_0000
  }

  lemma ComparisonsAreExact(a: Entry, b: Entry, tol: Int64)
    requires InRange(a) && InRange(b) && tol >= 0
    ensures Changed(a, None, tol)
    ensures Changed(a, Some(b), tol) <==> a.size != b.size || Abs(a.modUnix - b.modUnix) > tol
    ensures EntriesEqual(a, b, tol) <==> a.size == b.size && Abs(a.modUnix - b.modUnix) <= tol
  {
    FarExactlyWhen(a.modUnix, b.modUnix, tol);
  }

  /** Far outside the range a changed file is taken for an unchanged one. */
  lemma WrapHidesAChange()
    ensures !Changed(Entry(1, MAX), Some(Entry(1, -1)), 2)
  {
  }

  function Flip(op: Op): Op {
    match op
    case Upload => Download
    case Download => Upload
    case DeleteLocal => DeleteRemote
    case DeleteRemote => DeleteLocal
    case Conflict => Conflict
  }

  /** A conflict between versions of equal mtime. */
  predicate Tie(sc: Scene, p: Path) {
    && p in sc.local && p in sc.remote
    && sc.VerdictAt(p).Do? && sc.VerdictAt(p).op == Conflict
    && sc.local[p].modUnix == sc.remote[p].modUnix
  }

  function Swap(sc: Scene): Scene {
    Scene(sc.remote, sc.local, sc.manifest, sc.tol)
  }

  lemma VerdictSymmetric(sc: Scene, p: Path)
    ensures Swap(sc).VerdictAt(p) ==
      match sc.VerdictAt(p)
      case Keep => Keep
      case Do(op, res) => if Tie(sc, p) then Do(op, res) else Do(Flip(op), Flip(res))
  {
    if p in sc.local && p in sc.remote {
      DistanceSymmetric(sc.local[p].modUnix, sc.remote[p].modUnix);
    }
  }

  /** What swapping the two sides makes of an action of the plan. */
  function Mirror(sc: Scene, a: Action): Action {
    if Tie(sc, a.path) then a.(resolution := Upload) else Action(a.path, Flip(a.op), Flip(a.resolution))
  }

  lemma MirrorAsked(sc: Scene, p: Path)
    requires sc.VerdictAt(p).Do?
    ensures Swap(sc).VerdictAt(p).Do? && Swap(sc).ActionAt(p) == Mirror(sc, sc.ActionAt(p))
  {
    VerdictSymmetric(sc, p);
  }

  /** Swapping the two sides mirrors the plan action by action; only ties still go to upload. */
  lemma PlanSymmetric(sc: Scene)
    ensures |PlanOf(Swap(sc))| == |PlanOf(sc)|
    ensures forall i :: 0 <= i < |PlanOf(sc)| ==> PlanOf(Swap(sc))[i] == Mirror(sc, PlanOf(sc)[i])
  {
    forall p ensures p in sc.Planned() <==> p in Swap(sc).Planned() {
      VerdictSymmetric(sc, p);
    }
    assert sc.Planned() == Swap(sc).Planned();
    var ks := Sorted(sc.Planned());
    SortedFacts(sc.Planned());
    forall i | 0 <= i < |ks| ensures PlanOf(Swap(sc))[i] == Mirror(sc, PlanOf(sc)[i]) {
      assert ks[i] in ks;
      MirrorAsked(sc, ks[i]);
    }
  }
}
