// What is counted of the cache, in terms of the samples of one run before each sample.

module CacheWatch {
  import opened Options
  import opened Reorder
  import opened UsageAggregate

  // ---- the past of a run --------------------------------------------------------------------

  ghost predicate Labels(samples: seq<Sample>, i: int, run: string) {
    0 <= i < |samples| && samples[i].runId == run && samples[i].cacheEpoch.Some?
  }

  ghost predicate Uses(samples: seq<Sample>, i: int, run: string) {
    0 <= i < |samples| && samples[i].runId == run && samples[i].usage.Some?
  }

  // The last sample of the run, among the first `n`, that names its epoch; and the last with usage.
  ghost predicate LastLabel(samples: seq<Sample>, n: nat, run: string, j: int) {
    j < n && Labels(samples, j, run) && forall k | j < k < n :: !Labels(samples, k, run)
  }

  ghost predicate LastUse(samples: seq<Sample>, n: nat, run: string, j: int) {
    j < n && Uses(samples, j, run) && forall k | j < k < n :: !Uses(samples, k, run)
  }

  ghost predicate EpochIs(samples: seq<Sample>, n: nat, run: string, epoch: Option<int>) {
    match epoch
    case None => forall k | 0 <= k < n :: !Labels(samples, k, run)
    case Some(_) => exists j :: LastLabel(samples, n, run, j) && samples[j].cacheEpoch == epoch
  }

  // The sample names another epoch than the one its run was in.
  ghost predicate Changes(samples: seq<Sample>, i: nat, run: string) {
    Labels(samples, i, run) && !EpochIs(samples, i, run, samples[i].cacheEpoch)
  }

  // The last usage of the run still counts: its epoch has not changed since.
  ghost predicate Remembered(samples: seq<Sample>, n: nat, run: string, j: int) {
    LastUse(samples, n, run, j) && forall k: nat | j < k < n :: !Changes(samples, k, run)
  }

  // ---- what is counted ----------------------------------------------------------------------

  datatype Sight = Rebuild | Break | Miss | Unlabeled

  ghost predicate Seen(samples: seq<Sample>, i: nat, sight: Sight)
    requires i < |samples|
  {
    var s := samples[i];
    match sight
    // The run was in another epoch.
    case Rebuild =>
      s.cacheEpoch.Some? && exists j :: LastLabel(samples, i, s.runId, j) && samples[j].cacheEpoch != s.cacheEpoch
    case Break => s.appendOnly.Some? && !s.appendOnly.value
    // In the same epoch, with a prefix only appended to, the last usage read from the cache and this one
    // does not.
    case Miss =>
      && s.usage.Some? && s.cacheEpoch.Some? && EpochIs(samples, i, s.runId, s.cacheEpoch)
      && (s.appendOnly.Some? ==> s.appendOnly.value)
      && s.usage.value.cacheRead == 0 && s.usage.value.input >= 1
      && exists j :: Remembered(samples, i, s.runId, j) && samples[j].usage.value.cacheRead >= 1
    case Unlabeled => s.cacheEpoch.None?
  }

  ghost function Sights(samples: seq<Sample>, n: nat, sight: Sight): nat
    requires n <= |samples|
  {
    if n == 0 then 0 else Sights(samples, n - 1, sight) + if Seen(samples, n - 1, sight) then 1 else 0
  }

  function CountOf(b: Behavior, sight: Sight): int {
    match sight
    case Rebuild => b.rebuilds
    case Break => b.breaks
    case Miss => b.misses
    case Unlabeled => b.unlabeled
  }

  // ---- the books say what the past was ------------------------------------------------------

  ghost predicate Tells(run: RunCache, samples: seq<Sample>, n: nat, id: string) {
    && EpochIs(samples, n, id, run.epoch)
    && (run.reported <==> exists j :: Remembered(samples, n, id, j))
    && (forall j | Remembered(samples, n, id, j) :: run.read == samples[j].usage.value.cacheRead)
  }

  lemma OneEpoch(samples: seq<Sample>, n: nat, run: string, a: Option<int>, b: Option<int>)
    requires EpochIs(samples, n, run, a) && EpochIs(samples, n, run, b)
    ensures a == b
  {
    if a.Some? && b.Some? {
      var i :| LastLabel(samples, n, run, i) && samples[i].cacheEpoch == a;
      var j :| LastLabel(samples, n, run, j) && samples[j].cacheEpoch == b;
      assert i == j;
    }
  }

  lemma EpochNext(samples: seq<Sample>, n: nat, run: string, epoch: Option<int>)
    requires n < |samples| && EpochIs(samples, n, run, epoch)
    ensures EpochIs(samples, n + 1, run, if Labels(samples, n, run) then samples[n].cacheEpoch else epoch)
  {
    if Labels(samples, n, run) {
      assert LastLabel(samples, n + 1, run, n);
    } else if epoch.Some? {
      var j :| LastLabel(samples, n, run, j) && samples[j].cacheEpoch == epoch;
      assert LastLabel(samples, n + 1, run, j);
    }
  }

  lemma RememberedNext(samples: seq<Sample>, n: nat, run: string, j: int)
    requires n < |samples|
    ensures Remembered(samples, n + 1, run, j) <==>
      if Uses(samples, n, run) then j == n else Remembered(samples, n, run, j) && !Changes(samples, n, run)
  {
  }

  lemma TellsNext(before: RunCache, samples: seq<Sample>, n: nat, id: string)
    requires n < |samples| && Tells(before, samples, n, id)
    ensures Tells(if samples[n].runId == id then NextRun(before, samples[n]) else before, samples, n + 1, id)
  {
    var s := samples[n];
    var after := if s.runId == id then NextRun(before, s) else before;
    EpochNext(samples, n, id, before.epoch);
    forall j ensures Remembered(samples, n + 1, id, j) <==>
      if Uses(samples, n, id) then j == n else Remembered(samples, n, id, j) && !Changes(samples, n, id)
    {
      RememberedNext(samples, n, id, j);
    }
    if s.runId == id {
      ChangesIff(before, samples, n, id);
    }
    if Uses(samples, n, id) {
      assert Remembered(samples, n + 1, id, n);
    } else if after.reported {
      var j :| Remembered(samples, n, id, j);
      assert Remembered(samples, n + 1, id, j);
    } else {
      var m := n + 1;
      forall j ensures !Remembered(samples, m, id, j) {
        RememberedNext(samples, n, id, j);
      }
    }
  }

  lemma ChangesIff(before: RunCache, samples: seq<Sample>, n: nat, id: string)
    requires n < |samples| && Tells(before, samples, n, id) && samples[n].runId == id
    ensures Changes(samples, n, id) <==> !SameEpoch(before, samples[n])
  {
    if EpochIs(samples, n, id, samples[n].cacheEpoch) {
      OneEpoch(samples, n, id, before.epoch, samples[n].cacheEpoch);
    }
  }

  lemma ObservedIsSeen(before: RunCache, samples: seq<Sample>, n: nat, sight: Sight)
    requires n < |samples| && Tells(before, samples, n, samples[n].runId)
    ensures CountOf(Observed(before, samples[n]), sight) == if Seen(samples, n, sight) then 1 else 0
  {
    var s := samples[n];
    ChangesIff(before, samples, n, s.runId);
    match sight
    case Rebuild =>
      if before.epoch.Some? {
        var j :| LastLabel(samples, n, s.runId, j) && samples[j].cacheEpoch == before.epoch;
        assert forall i | LastLabel(samples, n, s.runId, i) :: i == j;
      }
    case Break =>
    case Miss =>
      if before.reported {
        var j :| Remembered(samples, n, s.runId, j);
        assert before.read == samples[j].usage.value.cacheRead;
      }
    case Unlabeled =>
  }

  // ---- the whole watch ----------------------------------------------------------------------

  function WatchOf(start: Watch, samples: seq<Sample>, n: nat): Watch
    requires n <= |samples|
  {
    if n == 0 then start else Watched(WatchOf(start, samples, n - 1), samples[n - 1])
  }

  function StateOf(w: Watch, id: string): RunCache {
    Get(w.runs, id, UNSEEN)
  }

  lemma NextWatch(start: Aggregate, samples: seq<Sample>, n: nat)
    requires n < |samples|
    ensures Fold(Step, start, samples[..n + 1]).watch == Watched(Fold(Step, start, samples[..n]).watch, samples[n])
  {
    assert samples[..n + 1][..n] == samples[..n];
  }

  lemma {:induction false} WatchIsFolded(start: Aggregate, samples: seq<Sample>, n: nat)
    requires n <= |samples|
    ensures Fold(Step, start, samples[..n]).watch == WatchOf(start.watch, samples, n)
  {
    if n > 0 {
      WatchIsFolded(start, samples, n - 1);
      NextWatch(start, samples, n - 1);
    }
  }

  lemma NextState(w: Watch, s: Sample, id: string)
    ensures StateOf(Watched(w, s), id) == if s.runId == id then NextRun(StateOf(w, id), s) else StateOf(w, id)
  {
  }

  lemma {:induction false} RunsAreTold(start: Watch, samples: seq<Sample>, n: nat, id: string)
    requires n <= |samples| && start.runs == map[]
    ensures Tells(StateOf(WatchOf(start, samples, n), id), samples, n, id)
  {
    if n > 0 {
      var before := WatchOf(start, samples, n - 1);
      RunsAreTold(start, samples, n - 1, id);
      TellsNext(StateOf(before, id), samples, n - 1, id);
      NextState(before, samples[n - 1], id);
    }
  }

  lemma NextCounts(w: Watch, s: Sample, sight: Sight)
    ensures CountOf(Watched(w, s).cache, sight)
         == CountOf(w.cache, sight) + CountOf(Observed(StateOf(w, s.runId), s), sight)
  {
  }

  lemma {:induction false} WatchCounts(start: Watch, samples: seq<Sample>, n: nat, sight: Sight)
    requires n <= |samples| && start.runs == map[]
    ensures CountOf(WatchOf(start, samples, n).cache, sight) == CountOf(start.cache, sight) + Sights(samples, n, sight)
  {
    if n > 0 {
      var before, s := WatchOf(start, samples, n - 1), samples[n - 1];
      WatchCounts(start, samples, n - 1, sight);
      RunsAreTold(start, samples, n - 1, s.runId);
      ObservedIsSeen(StateOf(before, s.runId), samples, n - 1, sight);
      NextCounts(before, s, sight);
    }
  }

  // Rebuilds, breaks, misses and unlabelled requests are counted exactly where they are in the samples.
  lemma CacheIsCounted(samples: seq<Sample>, sight: Sight)
    ensures CountOf(Aggregated(samples).watch.cache, sight) == Sights(samples, |samples|, sight)
  {
    assert samples[..|samples|] == samples;
    WatchIsFolded(EMPTY, samples, |samples|);
    WatchCounts(EMPTY.watch, samples, |samples|, sight);
  }
}
