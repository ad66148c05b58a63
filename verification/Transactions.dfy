// The update transaction of scripts/updater.py as a machine of durable writes.

module Transactions {
  import opened Options

  type Dir = string
  type Id = string

  // versions/<version>-<first eight digits of the digest>
  function DirName(version: string, digest: string): Dir {
    version + "-" + if |digest| <= 8 then digest else digest[..8]
  }

  datatype Target = Target(version: string, digest: string) {
    function Dir(): Dir {
      DirName(version, digest)
    }
  }

  // Two targets have the same directory if and only if their versions and the first eight digits of their
  // digests agree.
  lemma SameDir(a: Target, b: Target)
    requires |a.digest| >= 8 && |b.digest| >= 8
    ensures a.Dir() == b.Dir() <==> a.version == b.version && a.digest[..8] == b.digest[..8]
  {
    var x, y := a.Dir(), b.Dir();
    assert x[|x| - 8..] == a.digest[..8] && y[|y| - 8..] == b.digest[..8];
    assert x[..|x| - 9] == a.version && y[..|y| - 9] == b.version;
  }

  datatype State =
    | Checking | Downloading | Verified | Staged | WaitingForIdle | Activating | Healthy
    | Committed | Failed | RolledBack | NeedsReview

  // `dirname` is written once, when the transaction is created; `target` is rewritten by every run
  // that resumes it.
  datatype Txn =
    | Update(state: State, digest: string, dirname: Dir, target: Target, rollbackTo: Option<Dir>)
    | Rollback(state: State, to: Dir)

  function InState(t: Txn, s: State): Txn {
    t.(state := s)
  }

  // What is written once, when a transaction is created or activated, and used by its rollback.
  predicate SameRecord(a: Txn, b: Txn) {
    a.Update? && b.Update? && a.dirname == b.dirname && a.rollbackTo == b.rollbackTo
  }

  datatype Pointer = Pointer(current: Dir, previous: Option<Dir>)

  // An unpacked package becomes accepted when verify_package has passed it.
  datatype Package = Missing | Unpacked | Accepted

  datatype Stage = Stage(archive: bool, package: Package)

  // What survives a crash. `verified` and `probed` are history: the directories whose present content
  // verify_package has accepted, and those whose program has answered the probe.
  datatype Disk = Disk(
    pointer: Option<Pointer>,
    versions: set<Dir>,
    txns: map<Id, Txn>,
    stages: map<Id, Stage>,
    verified: set<Dir>,
    probed: set<Dir>)

  predicate Finished(t: Txn) {
    t.state.Committed? || t.state.Failed? || t.state.RolledBack?
  }

  predicate Open(d: Disk, id: Id) {
    id in d.txns && d.txns[id].Update? && !Finished(d.txns[id])
  }

  function StageOf(d: Disk, id: Id): Stage {
    if id in d.stages then d.stages[id] else Stage(false, Missing)
  }

  // The versions gc must not touch: both ends of the pointer, and the directories of transactions
  // under way (one that waits for review is not counted).
  function Kept(d: Disk): set<Dir> {
    (if d.pointer.Some? then {d.pointer.value.current} else {})
    + (if d.pointer.Some? && d.pointer.value.previous.Some? then {d.pointer.value.previous.value} else {})
  }

  function Pending(d: Disk): set<Dir> {
    set id | id in d.txns && d.txns[id].Update? && !Finished(d.txns[id]) && !d.txns[id].state.NeedsReview? ::
        d.txns[id].dirname
  }

  // What gc keeps, beside what is running: the versions current.json names, and the directories of updates
  // under way.
  ghost predicate IsWanted(d: Disk, v: Dir) {
    || (d.pointer.Some? && (d.pointer.value.current == v || d.pointer.value.previous == Some(v)))
    || exists id :: IsUnderWay(d, id) && d.txns[id].dirname == v
  }

  ghost predicate IsUnderWay(d: Disk, id: Id) {
    && id in d.txns && d.txns[id].Update?
    && d.txns[id].state !in {RolledBack, Committed, Failed, NeedsReview}
  }

  lemma WantedIff(d: Disk, v: Dir)
    ensures v in Kept(d) + Pending(d) <==> IsWanted(d, v)
  {
    if id :| IsUnderWay(d, id) && d.txns[id].dirname == v {
      assert v in Pending(d);
    }
  }

  // ---- Durable writes -----------------------------------------------------------------------

  datatype Action =
    | Create(id: Id, target: Target)
    | Retarget(id: Id, target: Target)
    | Move(id: Id, to: State)
    | Abandon(id: Id)
    | MarkIdle(id: Id)
    | FetchArchive(id: Id)
    | Unpack(id: Id)
    | AcceptPackage(id: Id)
    | DropStage(id: Id)
    | AcceptVersion(dir: Dir)
    | ProbeVersion(dir: Dir)
    | Promote(id: Id)
    | Point(id: Id)
    | Restore(id: Id)
    | Unpoint(id: Id)
    | FinishRollback(id: Id)
    | Commit(id: Id)
    | OpenRollback(id: Id)
    | SwapBack(id: Id)
    | CloseRollback(id: Id)
    | Collect(dir: Dir)

  predicate TouchesPointer(a: Action) {
    a.Point? || a.Restore? || a.Unpoint? || a.SwapBack?
  }

  // States a transaction passes through without finishing.
  predicate Passing(s: State) {
    s.Downloading? || s.Verified? || s.Staged? || s.Activating? || s.Healthy? || s.NeedsReview?
  }

  predicate Enabled(d: Disk, a: Action) {
    match a
    case Create(id, target) => id !in d.txns && forall other | other in d.txns :: !Open(d, other)
    case Retarget(id, target) => Open(d, id) && d.txns[id].digest == target.digest
    case Move(id, to) => Open(d, id) && Passing(to) && (to.Healthy? ==> d.txns[id].target.Dir() in d.probed)
    case Abandon(id) => Open(d, id)
    case MarkIdle(id) => Open(d, id)
    case FetchArchive(id) => Open(d, id)
    case Unpack(id) => Open(d, id) && StageOf(d, id).archive
    case AcceptPackage(id) => Open(d, id) && StageOf(d, id).package.Unpacked?
    case DropStage(id) => true
    case AcceptVersion(dir) => dir in d.versions
    case ProbeVersion(dir) => dir in d.versions
    case Promote(id) => Open(d, id) && StageOf(d, id).package.Accepted? && d.txns[id].target.Dir() !in d.versions
    case Point(id) => Open(d, id) && d.txns[id].state.Activating? && d.txns[id].target.Dir() in d.verified
    case Restore(id) =>
      && Open(d, id) && d.txns[id].rollbackTo.Some? && d.txns[id].rollbackTo.value in d.probed
      && d.txns[id].target.Dir() in d.versions
    case Unpoint(id) => Open(d, id)
    case FinishRollback(id) => Open(d, id)
    case Commit(id) =>
      && Open(d, id) && d.txns[id].state.Healthy?
      && d.pointer.Some? && d.pointer.value.current == d.txns[id].target.Dir()
      && d.pointer.value.current in d.verified && d.pointer.value.current in d.probed
    case OpenRollback(id) =>
      id !in d.txns && d.pointer.Some? && d.pointer.value.previous.Some? && d.pointer.value.previous.value in d.probed
    case SwapBack(id) =>
      && id in d.txns && d.txns[id].Rollback? && d.txns[id].state.Activating?
      && d.pointer.Some? && d.pointer.value.previous == Some(d.txns[id].to) && d.txns[id].to in d.probed
    case CloseRollback(id) => id in d.txns && d.txns[id].Rollback? && !Finished(d.txns[id])
    case Collect(dir) => dir in d.versions && dir !in Kept(d) && dir !in Pending(d)
  }

  function WithState(d: Disk, id: Id, s: State): Disk
    requires id in d.txns
  {
    d.(txns := d.txns[id := InState(d.txns[id], s)])
  }

  function Current(p: Option<Pointer>): Option<Dir> {
    if p.Some? then Some(p.value.current) else None
  }

  function Apply(d: Disk, a: Action): Disk
    requires Enabled(d, a)
  {
    match a
    case Create(id, target) => d.(txns := d.txns[id := Update(Checking, target.digest, target.Dir(), target, None)])
    case Retarget(id, target) => d.(txns := d.txns[id := d.txns[id].(target := target)])
    case Move(id, to) => WithState(d, id, to)
    case Abandon(id) => WithState(d, id, Failed)
    case MarkIdle(id) =>
      d.(txns := d.txns[id := d.txns[id].(state := WaitingForIdle, rollbackTo := Current(d.pointer))])
    case FetchArchive(id) => d.(stages := d.stages[id := StageOf(d, id).(archive := true)])
    case Unpack(id) => d.(stages := d.stages[id := StageOf(d, id).(package := Unpacked)])
    case AcceptPackage(id) => d.(stages := d.stages[id := StageOf(d, id).(package := Accepted)])
    case DropStage(id) => d.(stages := d.stages - {id})
    case AcceptVersion(dir) => d.(verified := d.verified + {dir})
    case ProbeVersion(dir) => d.(probed := d.probed + {dir})
    case Promote(id) =>
      var dir := d.txns[id].target.Dir();
      d.(versions := d.versions + {dir}, verified := d.verified + {dir},
         stages := d.stages[id := StageOf(d, id).(package := Missing)])
    case Point(id) => d.(pointer := Some(Pointer(d.txns[id].target.Dir(), Current(d.pointer))))
    case Restore(id) => d.(pointer := Some(Pointer(d.txns[id].rollbackTo.value, Some(d.txns[id].dirname))))
    case Unpoint(id) => d.(pointer := None)
    case FinishRollback(id) => WithState(d, id, RolledBack)
    case Commit(id) => WithState(d, id, Committed)
    case OpenRollback(id) => d.(txns := d.txns[id := Rollback(Activating, d.pointer.value.previous.value)])
    case SwapBack(id) => d.(pointer := Some(Pointer(d.txns[id].to, Current(d.pointer))))
    case CloseRollback(id) => WithState(d, id, Committed)
    case Collect(dir) => d.(versions := d.versions - {dir}, verified := d.verified - {dir}, probed := d.probed - {dir})
  }

  // The first `n` writes of any sequence, whatever processes made them and wherever they crashed.
  ghost predicate Legal(d: Disk, acts: seq<Action>, n: nat)
    requires n <= |acts|
    decreases n, 0
  {
    n == 0 || (Legal(d, acts, n - 1) && Enabled(After(d, acts, n - 1), acts[n - 1]))
  }

  ghost function After(d: Disk, acts: seq<Action>, n: nat): Disk
    requires n <= |acts| && Legal(d, acts, n)
    decreases n, 1
  {
    if n == 0 then d else Apply(After(d, acts, n - 1), acts[n - 1])
  }

  // The disks one passes through.
  ghost predicate Trace(disks: seq<Disk>, acts: seq<Action>) {
    && |disks| == |acts| + 1
    && forall i | 0 <= i < |acts| :: Enabled(disks[i], acts[i]) && disks[i + 1] == Apply(disks[i], acts[i])
  }

  ghost predicate Reachable(d: Disk, e: Disk) {
    exists disks, acts :: Trace(disks, acts) && disks[0] == d && disks[|acts|] == e
  }

  lemma ReachableNow(d: Disk)
    ensures Reachable(d, d)
  {
    assert Trace([d], []);
  }

  lemma ReachableNext(d: Disk, e: Disk, a: Action)
    requires Reachable(d, e) && Enabled(e, a)
    ensures Reachable(d, Apply(e, a))
  {
    var disks, acts :| Trace(disks, acts) && disks[0] == d && disks[|acts|] == e;
    assert Trace(disks + [Apply(e, a)], acts + [a]);
  }

  lemma {:induction false} TraceIsLegal(disks: seq<Disk>, acts: seq<Action>, n: nat)
    requires Trace(disks, acts) && n <= |acts|
    ensures Legal(disks[0], acts, n) && After(disks[0], acts, n) == disks[n]
  {
    if n > 0 {
      TraceIsLegal(disks, acts, n - 1);
    }
  }

  // ---- Invariants over every run ------------------------------------------------------------

  ghost predicate Safe(d: Disk) {
    && d.verified <= d.versions && d.probed <= d.versions
    && (d.pointer.Some? ==>
          && d.pointer.value.current in d.versions
          && d.pointer.value.current in d.verified + d.probed)
    && forall i, j | Open(d, i) && Open(d, j) :: i == j
  }

  lemma StepStaysSafe(d: Disk, a: Action)
    requires Safe(d) && Enabled(d, a)
    ensures Safe(Apply(d, a))
  {
    forall i | Open(Apply(d, a), i) ensures Open(d, i) || (a.Create? && i == a.id) {
    }
  }

  // Whatever was interrupted, current.json names an existing version directory that verify_package or
  // a probe has accepted, and at most one update is unfinished.
  lemma {:induction false} RunsStaySafe(d: Disk, acts: seq<Action>, n: nat)
    requires n <= |acts| && Safe(d) && Legal(d, acts, n)
    ensures Safe(After(d, acts, n))
  {
    if n > 0 {
      RunsStaySafe(d, acts, n - 1);
      StepStaysSafe(After(d, acts, n - 1), acts[n - 1]);
    }
  }

  lemma FinishedStep(d: Disk, a: Action, id: Id)
    requires Enabled(d, a) && id in d.txns && Finished(d.txns[id])
    ensures id in Apply(d, a).txns && Apply(d, a).txns[id] == d.txns[id]
  {
  }

  // Finished transactions are never touched again.
  lemma {:induction false} FinishedStays(d: Disk, acts: seq<Action>, k: nat, n: nat, id: Id)
    requires k <= n <= |acts| && Legal(d, acts, n) && Legal(d, acts, k)
    requires id in After(d, acts, k).txns && Finished(After(d, acts, k).txns[id])
    ensures id in After(d, acts, n).txns && After(d, acts, n).txns[id] == After(d, acts, k).txns[id]
    decreases n
  {
    if k < n {
      FinishedStays(d, acts, k, n - 1, id);
      FinishedStep(After(d, acts, n - 1), acts[n - 1], id);
    }
  }

  // Writes that do not touch the pointer leave it alone, so a crash among them is harmless.
  lemma {:induction false} PointerStays(d: Disk, acts: seq<Action>, k: nat, n: nat)
    requires k <= n <= |acts| && Legal(d, acts, n) && Legal(d, acts, k)
    requires forall i | k <= i < n :: !TouchesPointer(acts[i])
    ensures After(d, acts, n).pointer == After(d, acts, k).pointer
    decreases n
  {
    if k < n {
      PointerStays(d, acts, k, n - 1);
    }
  }

  ghost predicate IsCommitted(d: Disk, id: Id) {
    id in d.txns && d.txns[id].Update? && d.txns[id].state.Committed?
  }

  // The write that commits: it finds the version pointer on the verified and probed target.
  lemma CommitStep(d: Disk, a: Action, id: Id)
    requires Enabled(d, a) && IsCommitted(Apply(d, a), id) && !(id in d.txns && Finished(d.txns[id]))
    ensures a == Commit(id) && d.pointer.Some?
    ensures
      var target := Apply(d, a).txns[id].target.Dir();
      d.pointer.value.current == target && target in d.verified && target in d.probed
  {
  }

  // The target of a transaction that is committed at some point of a run was, when it was committed,
  // what the pointer named, verified and probed.
  lemma {:induction false} CommittedWasCurrent(d: Disk, acts: seq<Action>, n: nat, id: Id) returns (k: nat)
    requires n <= |acts| && Legal(d, acts, n)
    requires IsCommitted(After(d, acts, n), id) && !(id in d.txns && Finished(d.txns[id]))
    ensures k < n && Legal(d, acts, k) && acts[k] == Commit(id)
    ensures
      var moment, target := After(d, acts, k), After(d, acts, n).txns[id].target.Dir();
      && moment.pointer.Some? && moment.pointer.value.current == target
      && target in moment.verified && target in moment.probed
  {
    var before := After(d, acts, n - 1);
    if id in before.txns && Finished(before.txns[id]) {
      FinishedStep(before, acts[n - 1], id);
      k := CommittedWasCurrent(d, acts, n - 1, id);
    } else {
      CommitStep(before, acts[n - 1], id);
      k := n - 1;
    }
  }

  // ---- The previous version -----------------------------------------------------------------

  ghost predicate PreviousExists(d: Disk) {
    d.pointer.Some? && d.pointer.value.previous.Some? ==> d.pointer.value.previous.value in d.versions
  }

  // Resuming a transaction under the version it was created for. The digest alone decides which
  // transaction is resumed, so nothing in the code enforces this.
  ghost predicate SameVersion(d: Disk, a: Action) {
    a.Retarget? && Open(d, a.id) ==> a.target.Dir() == d.txns[a.id].dirname
  }

  ghost predicate Named(d: Disk) {
    forall id | Open(d, id) :: d.txns[id].target.Dir() == d.txns[id].dirname
  }

  // The one write that can leave a dangling previous version is the restore after a failed
  // activation, and it does so exactly when the directory recorded at creation does not exist.
  lemma RestoreKeepsPreviousIff(d: Disk, a: Action)
    requires Safe(d) && PreviousExists(d) && Enabled(d, a)
    ensures PreviousExists(Apply(d, a)) <==> !(a.Restore? && d.txns[a.id].dirname !in d.versions)
  {
  }

  ghost predicate PreviousAt(d: Disk, acts: seq<Action>, k: nat)
    requires k <= |acts|
  {
    Legal(d, acts, k) && PreviousExists(After(d, acts, k))
  }

  // No restore meets a transaction whose directory does not exist.
  ghost predicate RestoresFind(d: Disk, acts: seq<Action>, n: nat)
    requires n <= |acts| && Legal(d, acts, n)
  {
    n == 0 ||
    var before, last := After(d, acts, n - 1), acts[n - 1];
    RestoresFind(d, acts, n - 1) && (last.Restore? ==> before.txns[last.id].dirname in before.versions)
  }

  // The previous version exists at every point of a run if and only if every restore of the run finds
  // the directory its transaction was created for.
  lemma {:induction false} PreviousAlwaysIff(d: Disk, acts: seq<Action>, n: nat)
    requires n <= |acts| && Safe(d) && PreviousExists(d) && Legal(d, acts, n)
    ensures (forall k | 0 <= k <= n :: PreviousAt(d, acts, k)) <==> RestoresFind(d, acts, n)
  {
    if n > 0 {
      var before, last := After(d, acts, n - 1), acts[n - 1];
      PreviousAlwaysIff(d, acts, n - 1);
      RunsStaySafe(d, acts, n - 1);
      if forall k | 0 <= k <= n - 1 :: PreviousAt(d, acts, k) {
        assert PreviousAt(d, acts, n - 1);
        RestoreKeepsPreviousIff(before, last);
        assert PreviousAt(d, acts, n) <==> PreviousExists(Apply(before, last));
      }
    } else {
      assert PreviousAt(d, acts, 0);
    }
  }

  ghost predicate AlwaysSameVersion(d: Disk, acts: seq<Action>, n: nat)
    requires n <= |acts| && Legal(d, acts, n)
  {
    n == 0 || (AlwaysSameVersion(d, acts, n - 1) && SameVersion(After(d, acts, n - 1), acts[n - 1]))
  }

  // When every resume names the version the transaction was created for, the previous version exists
  // too, all along every run.
  lemma {:induction false} PreviousStays(d: Disk, acts: seq<Action>, n: nat)
    requires n <= |acts| && Safe(d) && PreviousExists(d) && Named(d) && Legal(d, acts, n)
    requires AlwaysSameVersion(d, acts, n)
    ensures PreviousExists(After(d, acts, n)) && Named(After(d, acts, n))
  {
    if n > 0 {
      var before, last := After(d, acts, n - 1), acts[n - 1];
      PreviousStays(d, acts, n - 1);
      RunsStaySafe(d, acts, n - 1);
      RestoreKeepsPreviousIff(before, last);
      forall id | Open(Apply(before, last), id)
        ensures Apply(before, last).txns[id].target.Dir() == Apply(before, last).txns[id].dirname
      {
        assert Open(before, id) || last.Create?;
      }
    }
  }

  function Holding(d: Disk, id: Id, t: Txn): Disk {
    d.(txns := d.txns[id := t])
  }

  lemma HoldingAgain(d: Disk, id: Id, t: Txn, u: Txn)
    ensures Holding(Holding(d, id, t), id, u) == Holding(d, id, u)
  {
  }

  // An update created under one version string and resumed under another one with the same digest.
  lemma ResumedElsewhere(d: Disk, id: Id, first: Target, second: Target) returns (t: Txn)
    requires d.pointer.Some? && id !in d.txns && forall other :: !Open(d, other)
    requires first.digest == second.digest && second.Dir() in d.versions
    ensures t == Update(Activating, first.digest, first.Dir(), second, Some(d.pointer.value.current))
    ensures Reachable(d, Holding(d.(verified := d.verified + {second.Dir()}), id, t))
  {
    var t1 := Update(Checking, first.digest, first.Dir(), first, None);
    var t2 := t1.(target := second);
    var t3 := t2.(state := WaitingForIdle, rollbackTo := Some(d.pointer.value.current));
    t := InState(t3, Activating);
    var e := d.(verified := d.verified + {second.Dir()});
    ReachableNow(d);
    ReachableNext(d, d, Create(id, first));
    ReachableNext(d, Holding(d, id, t1), Retarget(id, second));
    HoldingAgain(d, id, t1, t2);
    ReachableNext(d, Holding(d, id, t2), AcceptVersion(second.Dir()));
    ReachableNext(d, Holding(e, id, t2), MarkIdle(id));
    HoldingAgain(e, id, t2, t3);
    ReachableNext(d, Holding(e, id, t3), Move(id, Activating));
    HoldingAgain(e, id, t3, t);
  }

  // Without that condition it fails: such an update records the wrong directory, and its rollback makes
  // that one the previous version.
  lemma DanglingPrevious(d: Disk, id: Id, first: Target, second: Target) returns (after: Disk)
    requires Safe(d) && PreviousExists(d) && d.pointer.Some? && id !in d.txns && forall other :: !Open(d, other)
    requires first.digest == second.digest && first.Dir() !in d.versions && second.Dir() in d.versions
    ensures Reachable(d, after) && !PreviousExists(after)
  {
    var t := ResumedElsewhere(d, id, first, second);
    var current := d.pointer.value.current;
    var e := d.(verified := d.verified + {second.Dir()});
    var f := e.(pointer := Some(Pointer(second.Dir(), Some(current))));
    var g := f.(probed := f.probed + {current});
    ReachableNext(d, Holding(e, id, t), Point(id));
    ReachableNext(d, Holding(f, id, t), ProbeVersion(current));
    ReachableNext(d, Holding(g, id, t), Restore(id));
    after := Apply(Holding(g, id, t), Restore(id));
  }
}
