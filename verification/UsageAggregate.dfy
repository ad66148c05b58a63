// The usage totals of src/accounting/usage_aggregate.cpp. Counters are unbounded integers.

module UsageAggregate {
  import opened Arithmetic
  import opened Collections
  import opened Options
  import opened Reorder

  datatype Usage = Usage(input: int, cacheRead: int, cacheCreation: int, output: int, reasoning: int)

  // `priced` holds the micros of an estimated cost; `anomaly` is empty when nothing is wrong.
  datatype Sample = Sample(
    runId: string, runKind: string, purpose: Option<string>, provider: string, model: string,
    attempt: int, outcome: string, priced: Option<int>,
    usage: Option<Usage>, totalInput: int, totalBilled: int,
    legacy: bool, incomplete: bool, anomaly: string,
    cacheEpoch: Option<int>, appendOnly: Option<bool>, readReported: bool)

  // ---- totals -------------------------------------------------------------------------------

  datatype Totals = Totals(
    requests: int, withUsage: int, unknown: int, retries: int,
    input: int, cacheRead: int, cacheCreation: int, output: int, reasoning: int,
    totalInput: int, totalBilled: int, micros: int, priced: int,
    byOutcome: map<string, int>)

  const ZERO := Totals(0, 0, 0, 0, 0, 0, 0, 0, 0, 0, 0, 0, 0, map[])

  function Count(m: map<string, int>, k: string): int {
    if k in m then m[k] else 0
  }

  function PlusCounts(m: map<string, int>, n: map<string, int>): map<string, int> {
    map k | k in m.Keys + n.Keys :: Count(m, k) + Count(n, k)
  }

  function Plus(a: Totals, b: Totals): Totals {
    Totals(
      a.requests + b.requests, a.withUsage + b.withUsage, a.unknown + b.unknown, a.retries + b.retries,
      a.input + b.input, a.cacheRead + b.cacheRead, a.cacheCreation + b.cacheCreation,
      a.output + b.output, a.reasoning + b.reasoning,
      a.totalInput + b.totalInput, a.totalBilled + b.totalBilled, a.micros + b.micros, a.priced + b.priced,
      PlusCounts(a.byOutcome, b.byOutcome))
  }

  function One(condition: bool): int {
    if condition then 1 else 0
  }

  function OutcomeLabel(s: Sample): string {
    if s.outcome == "" then "unclosed" else s.outcome
  }

  // What one sample contributes: tokens only where the provider reported usage.
  function Share(s: Sample): Totals {
    var known := s.usage.Some?;
    var u := if known then s.usage.value else Usage(0, 0, 0, 0, 0);
    Totals(
      1, One(known), One(!known), One(s.attempt > 1),
      u.input, u.cacheRead, u.cacheCreation, u.output, u.reasoning,
      if known then s.totalInput else 0, if known then s.totalBilled else 0,
      if s.priced.Some? then s.priced.value else 0, One(s.priced.Some?),
      map[OutcomeLabel(s) := 1])
  }

  lemma PlusCountsOrder(a: map<string, int>, b: map<string, int>, c: map<string, int>)
    ensures PlusCounts(PlusCounts(a, b), c) == PlusCounts(PlusCounts(a, c), b)
  {
    var l, r := PlusCounts(PlusCounts(a, b), c), PlusCounts(PlusCounts(a, c), b);
    assert l.Keys == r.Keys;
    forall k | k in l.Keys ensures l[k] == r[k] {
      assert l[k] == Count(a, k) + Count(b, k) + Count(c, k);
    }
  }

  lemma PlusCountsNests(a: map<string, int>, b: map<string, int>, c: map<string, int>)
    ensures PlusCounts(PlusCounts(a, b), c) == PlusCounts(a, PlusCounts(b, c))
  {
    var l, r := PlusCounts(PlusCounts(a, b), c), PlusCounts(a, PlusCounts(b, c));
    assert l.Keys == r.Keys;
    forall k | k in l.Keys ensures l[k] == r[k] {
      assert l[k] == Count(a, k) + Count(b, k) + Count(c, k);
    }
  }

  lemma PlusNoCounts(a: map<string, int>)
    ensures PlusCounts(a, map[]) == a
  {
  }

  lemma CountOneMore(a: map<string, int>, k: string)
    ensures a[k := Count(a, k) + 1] == PlusCounts(a, map[k := 1])
  {
    var l, r := a[k := Count(a, k) + 1], PlusCounts(a, map[k := 1]);
    assert l.Keys == r.Keys;
    forall i | i in l.Keys ensures l[i] == r[i] {
    }
  }

  lemma TotalsAdd()
    ensures Adds(ZERO, Plus)
  {
    forall x: Totals ensures Plus(x, ZERO) == x {
      PlusNoCounts(x.byOutcome);
    }
    forall x: Totals, y: Totals, z: Totals ensures Plus(Plus(x, y), z) == Plus(Plus(x, z), y) {
      PlusCountsOrder(x.byOutcome, y.byOutcome, z.byOutcome);
    }
    forall x: Totals, y: Totals, z: Totals ensures Plus(Plus(x, y), z) == Plus(x, Plus(y, z)) {
      PlusCountsNests(x.byOutcome, y.byOutcome, z.byOutcome);
    }
  }

  class UsageTotals {
    var requests: int
    var withUsage: int
    var unknown: int
    var retries: int
    var input: int
    var cacheRead: int
    var cacheCreation: int
    var output: int
    var reasoning: int
    var totalInput: int
    var totalBilled: int
    var micros: int
    var priced: int
    var byOutcome: map<string, int>

    function Value(): Totals
      reads this
    {
      Totals(requests, withUsage, unknown, retries, input, cacheRead, cacheCreation, output, reasoning,
             totalInput, totalBilled, micros, priced, byOutcome)
    }

    constructor ()
      ensures Value() == ZERO
    {
      requests, withUsage, unknown, retries := 0, 0, 0, 0;
      input, cacheRead, cacheCreation, output, reasoning := 0, 0, 0, 0, 0;
      totalInput, totalBilled, micros, priced := 0, 0, 0, 0;
      byOutcome := map[];
    }

    method Add(s: Sample)
      modifies this
      ensures Value() == Plus(old(Value()), Share(s))
    {
      AddRequest(s);
      AddUsage(s);
    }

    method AddUsage(s: Sample)
      modifies `withUsage, `unknown, `input, `cacheRead, `cacheCreation, `output, `reasoning, `totalInput, `totalBilled
      ensures
        var share := Share(s);
        && withUsage == old(withUsage) + share.withUsage && unknown == old(unknown) + share.unknown
        && input == old(input) + share.input && cacheRead == old(cacheRead) + share.cacheRead
        && cacheCreation == old(cacheCreation) + share.cacheCreation
        && output == old(output) + share.output && reasoning == old(reasoning) + share.reasoning
        && totalInput == old(totalInput) + share.totalInput && totalBilled == old(totalBilled) + share.totalBilled
    {
      if s.usage.None? {
        unknown := unknown + 1;
        return;
      }
      withUsage := withUsage + 1;
      var u := s.usage.value;
      input := input + u.input;
      cacheRead := cacheRead + u.cacheRead;
      cacheCreation := cacheCreation + u.cacheCreation;
      output := output + u.output;
      reasoning := reasoning + u.reasoning;
      totalInput := totalInput + s.totalInput;
      totalBilled := totalBilled + s.totalBilled;
    }

    method AddRequest(s: Sample)
      modifies `requests, `retries, `byOutcome, `micros, `priced
      ensures requests == old(requests) + 1 && retries == old(retries) + One(s.attempt > 1)
      ensures byOutcome == PlusCounts(old(byOutcome), map[OutcomeLabel(s) := 1])
      ensures micros == old(micros) + (if s.priced.Some? then s.priced.value else 0)
      ensures priced == old(priced) + One(s.priced.Some?)
    {
      requests := requests + 1;
      if s.attempt > 1 {
        retries := retries + 1;
      }
      CountOutcome(OutcomeLabel(s));
      if s.priced.Some? {
        micros := micros + s.priced.value;
        priced := priced + 1;
      }
    }

    method CountOutcome(key: string)
      modifies `byOutcome
      ensures byOutcome == PlusCounts(old(byOutcome), map[key := 1])
    {
      byOutcome := byOutcome[key := Count(byOutcome, key) + 1];
      CountOneMore(old(byOutcome), key);
    }
  }

  // ---- cache rows and cache behaviour -------------------------------------------------------

  datatype CacheCounts = CacheCounts(
    reported: int, unknown: int, input: int, read: int, creation: int, anomalous: int)

  function PlusCache(a: CacheCounts, b: CacheCounts): CacheCounts {
    CacheCounts(a.reported + b.reported, a.unknown + b.unknown, a.input + b.input, a.read + b.read,
                a.creation + b.creation, a.anomalous + b.anomalous)
  }

  function CacheShare(s: Sample): CacheCounts {
    var reported := s.readReported && s.anomaly == "";
    var u := if reported && s.usage.Some? then s.usage.value else Usage(0, 0, 0, 0, 0);
    CacheCounts(One(reported), One(!reported), u.input, u.cacheRead, u.cacheCreation, One(s.anomaly != ""))
  }

  datatype Behavior = Behavior(rebuilds: int, breaks: int, misses: int, unlabeled: int)

  function PlusBehavior(a: Behavior, b: Behavior): Behavior {
    Behavior(a.rebuilds + b.rebuilds, a.breaks + b.breaks, a.misses + b.misses, a.unlabeled + b.unlabeled)
  }

  // What is remembered of one run.
  datatype RunCache = RunCache(epoch: Option<int>, read: int, reported: bool)

  const UNSEEN := RunCache(None, -1, false)

  // The run goes on in the epoch it was in, or says nothing about its epoch.
  predicate SameEpoch(run: RunCache, s: Sample) {
    s.cacheEpoch.None? || run.epoch == s.cacheEpoch
  }

  function NextRun(run: RunCache, s: Sample): RunCache {
    RunCache(
      if s.cacheEpoch.Some? then s.cacheEpoch else run.epoch,
      if s.usage.Some? then s.usage.value.cacheRead else if SameEpoch(run, s) then run.read else -1,
      s.usage.Some? || (run.reported && SameEpoch(run, s)))
  }

  function Observed(run: RunCache, s: Sample): Behavior {
    Behavior(
      One(run.epoch.Some? && !SameEpoch(run, s)),
      One(s.appendOnly == Some(false)),
      One(&& s.usage.Some? && s.cacheEpoch.Some? && SameEpoch(run, s) && run.reported && s.appendOnly != Some(false)
          && run.read > 0 && s.usage.value.cacheRead == 0 && s.usage.value.input > 0),
      One(s.cacheEpoch.None?))
  }

  method ObserveCache(run: RunCache, cache: Behavior, s: Sample) returns (run': RunCache, cache': Behavior)
    ensures run' == NextRun(run, s) && cache' == PlusBehavior(cache, Observed(run, s))
  {
    run', cache' := run, cache;
    if s.cacheEpoch.None? {
      cache' := cache'.(unlabeled := cache'.unlabeled + 1);
    } else {
      if run'.epoch.Some? && run'.epoch.value != s.cacheEpoch.value {
        cache' := cache'.(rebuilds := cache'.rebuilds + 1);
      }
      if run'.epoch.None? || run'.epoch.value != s.cacheEpoch.value {
        run' := run'.(read := -1, reported := false);
      }
      run' := run'.(epoch := s.cacheEpoch);
    }
    if s.appendOnly == Some(false) {
      cache' := cache'.(breaks := cache'.breaks + 1);
    }
    if s.usage.Some? {
      var read := s.usage.value.cacheRead;
      var claimed := s.appendOnly.None? || s.appendOnly.value;
      var known := s.cacheEpoch.Some? && run'.epoch.Some? && run'.reported;
      if known && claimed && run'.read > 0 && read == 0 && s.usage.value.input > 0 {
        cache' := cache'.(misses := cache'.misses + 1);
      }
      run' := run'.(read := read, reported := true);
    }
  }

  // ---- the aggregate ------------------------------------------------------------------------

  datatype EpochRow = EpochRow(totals: Totals, cache: CacheCounts)

  const NOTHING := EpochRow(ZERO, CacheCounts(0, 0, 0, 0, 0, 0))

  function PlusRow(a: EpochRow, b: EpochRow): EpochRow {
    EpochRow(Plus(a.totals, b.totals), PlusCache(a.cache, b.cache))
  }

  function RowShare(s: Sample): EpochRow {
    EpochRow(Share(s), CacheShare(s))
  }

  lemma RowOrder(x: EpochRow, y: EpochRow, z: EpochRow)
    ensures PlusRow(PlusRow(x, y), z) == PlusRow(PlusRow(x, z), y)
    ensures PlusRow(PlusRow(x, y), z) == PlusRow(x, PlusRow(y, z))
  {
    PlusCountsOrder(x.totals.byOutcome, y.totals.byOutcome, z.totals.byOutcome);
    PlusCountsNests(x.totals.byOutcome, y.totals.byOutcome, z.totals.byOutcome);
  }

  lemma RowsAdd()
    ensures Adds(NOTHING, PlusRow)
  {
    forall x: EpochRow ensures PlusRow(x, NOTHING) == x {
      PlusNoCounts(x.totals.byOutcome);
    }
    forall x: EpochRow, y: EpochRow, z: EpochRow ensures PlusRow(PlusRow(x, y), z) == PlusRow(PlusRow(x, z), y) {
      RowOrder(x, y, z);
    }
    forall x: EpochRow, y: EpochRow, z: EpochRow ensures PlusRow(PlusRow(x, y), z) == PlusRow(x, PlusRow(y, z)) {
      RowOrder(x, y, z);
    }
  }

  function PurposeLabel(s: Sample): string {
    if s.purpose.Some? then s.purpose.value else "unknown"
  }

  function ModelLabel(s: Sample): string {
    if s.provider == "" then "unknown/" + s.model else s.provider + "/" + s.model
  }

  function KindLabel(s: Sample): string {
    s.runKind
  }

  function EpochLabel(s: Sample): (string, int) {
    (s.runId, if s.cacheEpoch.Some? then s.cacheEpoch.value else 0)
  }

  datatype Breakdowns = Breakdowns(
    byPurpose: map<string, Totals>, byModel: map<string, Totals>, byRun: map<string, Totals>,
    byOutcome: map<string, Totals>)

  function AddTo(rows: map<string, Totals>, name: string, s: Sample): map<string, Totals> {
    Put(rows, name, ZERO, Plus, Share(s))
  }

  function AddBreakdowns(rows: Breakdowns, s: Sample): Breakdowns {
    Breakdowns(
      AddTo(rows.byPurpose, PurposeLabel(s), s), AddTo(rows.byModel, ModelLabel(s), s),
      AddTo(rows.byRun, KindLabel(s), s), AddTo(rows.byOutcome, OutcomeLabel(s), s))
  }

  datatype Watch = Watch(cache: Behavior, runs: map<string, RunCache>)

  function Watched(w: Watch, s: Sample): Watch {
    var run := Get(w.runs, s.runId, UNSEEN);
    Watch(PlusBehavior(w.cache, Observed(run, s)), w.runs[s.runId := NextRun(run, s)])
  }

  datatype Marks = Marks(legacy: int, incomplete: int, anomalous: int)

  function Marked(m: Marks, s: Sample): Marks {
    Marks(m.legacy + One(s.legacy), m.incomplete + One(s.incomplete), m.anomalous + One(s.anomaly != ""))
  }

  datatype Aggregate = Aggregate(
    totals: Totals, rows: Breakdowns, byEpoch: map<(string, int), EpochRow>, watch: Watch, marks: Marks)

  const EMPTY := Aggregate(
    ZERO, Breakdowns(map[], map[], map[], map[]), map[], Watch(Behavior(0, 0, 0, 0), map[]), Marks(0, 0, 0))

  function Step(a: Aggregate, s: Sample): Aggregate {
    Aggregate(
      Plus(a.totals, Share(s)), AddBreakdowns(a.rows, s),
      Put(a.byEpoch, EpochLabel(s), NOTHING, PlusRow, RowShare(s)),
      Watched(a.watch, s), Marked(a.marks, s))
  }

  function Aggregated(samples: seq<Sample>): Aggregate {
    Fold(Step, EMPTY, samples)
  }

  function RunId(s: Sample): string {
    s.runId
  }

  lemma BreakdownsOrder(rows: Breakdowns, s: Sample, t: Sample)
    ensures AddBreakdowns(AddBreakdowns(rows, s), t) == AddBreakdowns(AddBreakdowns(rows, t), s)
  {
    TotalsAdd();
    PutOrder(rows.byPurpose, ZERO, Plus, PurposeLabel(s), Share(s), PurposeLabel(t), Share(t));
    PutOrder(rows.byModel, ZERO, Plus, ModelLabel(s), Share(s), ModelLabel(t), Share(t));
    PutOrder(rows.byRun, ZERO, Plus, KindLabel(s), Share(s), KindLabel(t), Share(t));
    PutOrder(rows.byOutcome, ZERO, Plus, OutcomeLabel(s), Share(s), OutcomeLabel(t), Share(t));
  }

  lemma WatchOrder(w: Watch, s: Sample, t: Sample)
    requires s.runId != t.runId
    ensures Watched(Watched(w, s), t) == Watched(Watched(w, t), s)
  {
    assert Watched(Watched(w, s), t).runs == Watched(Watched(w, t), s).runs;
  }

  lemma TotalsOrder(x: Totals, s: Sample, t: Sample)
    ensures Plus(Plus(x, Share(s)), Share(t)) == Plus(Plus(x, Share(t)), Share(s))
  {
    TotalsAdd();
  }

  lemma EpochsOrder(rows: map<(string, int), EpochRow>, s: Sample, t: Sample)
    ensures
      Put(Put(rows, EpochLabel(s), NOTHING, PlusRow, RowShare(s)), EpochLabel(t), NOTHING, PlusRow, RowShare(t)) ==
      Put(Put(rows, EpochLabel(t), NOTHING, PlusRow, RowShare(t)), EpochLabel(s), NOTHING, PlusRow, RowShare(s))
  {
    RowsAdd();
    PutOrder(rows, NOTHING, PlusRow, EpochLabel(s), RowShare(s), EpochLabel(t), RowShare(t));
  }

  lemma MarksOrder(m: Marks, s: Sample, t: Sample)
    ensures Marked(Marked(m, s), t) == Marked(Marked(m, t), s)
  {
  }

  lemma StepOrder(a: Aggregate, s: Sample, t: Sample)
    requires s.runId != t.runId
    ensures Step(Step(a, s), t) == Step(Step(a, t), s)
  {
    TotalsOrder(a.totals, s, t);
    BreakdownsOrder(a.rows, s, t);
    EpochsOrder(a.byEpoch, s, t);
    WatchOrder(a.watch, s, t);
    MarksOrder(a.marks, s, t);
  }

  lemma StepsCommute()
    ensures Commutes(Step, RunId)
  {
    forall s: Sample, t: Sample | RunId(s) != RunId(t) ensures Swaps(Step, s, t) {
      forall a: Aggregate ensures Step(Step(a, s), t) == Step(Step(a, t), s) {
        StepOrder(a, s, t);
      }
    }
  }

  // Any reordering that keeps each run's own order gives the same totals, rows and cache counts.
  lemma OrderOfRunsIsFree(a: seq<Sample>, b: seq<Sample>)
    requires SameOwn(RunId, a, b)
    ensures Aggregated(a) == Aggregated(b)
  {
    StepsCommute();
    OrderOfKeysIsFree(Step, EMPTY, RunId, a, b);
  }

  // Everything but the observation of the cache.
  datatype Sums = Sums(totals: Totals, rows: Breakdowns, byEpoch: map<(string, int), EpochRow>, marks: Marks)

  function SumsOf(a: Aggregate): Sums {
    Sums(a.totals, a.rows, a.byEpoch, a.marks)
  }

  function SumStep(x: Sums, s: Sample): Sums {
    Sums(Plus(x.totals, Share(s)), AddBreakdowns(x.rows, s),
         Put(x.byEpoch, EpochLabel(s), NOTHING, PlusRow, RowShare(s)), Marked(x.marks, s))
  }

  lemma {:induction false} SumsAreFolded(samples: seq<Sample>)
    ensures SumsOf(Aggregated(samples)) == Fold(SumStep, SumsOf(EMPTY), samples)
  {
    if samples != [] {
      SumsAreFolded(samples[..|samples| - 1]);
    }
  }

  lemma SumStepOrder(x: Sums, s: Sample, t: Sample)
    ensures SumStep(SumStep(x, s), t) == SumStep(SumStep(x, t), s)
  {
    TotalsOrder(x.totals, s, t);
    BreakdownsOrder(x.rows, s, t);
    EpochsOrder(x.byEpoch, s, t);
    MarksOrder(x.marks, s, t);
  }

  // Totals, rows, epoch rows and marks are the same in any order of the samples; only what is observed
  // of the cache needs the order within each run.
  lemma SumsIgnoreOrder(a: seq<Sample>, b: seq<Sample>)
    requires multiset(a) == multiset(b)
    ensures SumsOf(Aggregated(a)) == SumsOf(Aggregated(b))
  {
    forall s: Sample, t: Sample ensures Swaps(SumStep, s, t) {
      forall x: Sums ensures SumStep(SumStep(x, s), t) == SumStep(SumStep(x, t), s) {
        SumStepOrder(x, s, t);
      }
    }
    SumsAreFolded(a);
    SumsAreFolded(b);
    OrderIsFree(SumStep, SumsOf(EMPTY), a, b);
  }

  // ---- rows add up to totals ----------------------------------------------------------------

  lemma {:induction false} Parts(samples: seq<Sample>)
    ensures
      var a := Aggregated(samples);
      && a.totals == Total(Share, ZERO, Plus, samples)
      && a.rows.byPurpose == Grouped(PurposeLabel, Share, ZERO, Plus, samples)
      && a.rows.byModel == Grouped(ModelLabel, Share, ZERO, Plus, samples)
      && a.rows.byRun == Grouped(KindLabel, Share, ZERO, Plus, samples)
      && a.rows.byOutcome == Grouped(OutcomeLabel, Share, ZERO, Plus, samples)
      && a.byEpoch == Grouped(EpochLabel, RowShare, NOTHING, PlusRow, samples)
  {
    if samples != [] {
      Parts(samples[..|samples| - 1]);
    }
  }

  ghost predicate Lists<K(!new)>(keys: seq<K>, ks: set<K>) {
    Distinct(keys) && forall k :: k in keys <==> k in ks
  }

  // For each breakdown, the rows in any listing of their labels add up to the totals.
  lemma RowsAddUpToTotals(samples: seq<Sample>, keys: seq<string>)
    ensures
      var a := Aggregated(samples);
      && (Lists(keys, a.rows.byPurpose.Keys) ==> Sum(a.rows.byPurpose, keys, |keys|, ZERO, Plus) == a.totals)
      && (Lists(keys, a.rows.byModel.Keys) ==> Sum(a.rows.byModel, keys, |keys|, ZERO, Plus) == a.totals)
      && (Lists(keys, a.rows.byRun.Keys) ==> Sum(a.rows.byRun, keys, |keys|, ZERO, Plus) == a.totals)
      && (Lists(keys, a.rows.byOutcome.Keys) ==> Sum(a.rows.byOutcome, keys, |keys|, ZERO, Plus) == a.totals)
  {
    var rows := Aggregated(samples).rows;
    TotalsAdd();
    Parts(samples);
    if Lists(keys, rows.byPurpose.Keys) {
      RowsAddUp(PurposeLabel, Share, ZERO, Plus, samples, keys);
    }
    if Lists(keys, rows.byModel.Keys) {
      RowsAddUp(ModelLabel, Share, ZERO, Plus, samples, keys);
    }
    if Lists(keys, rows.byRun.Keys) {
      RowsAddUp(KindLabel, Share, ZERO, Plus, samples, keys);
    }
    if Lists(keys, rows.byOutcome.Keys) {
      RowsAddUp(OutcomeLabel, Share, ZERO, Plus, samples, keys);
    }
  }

  lemma {:induction false} TotalRowParts(samples: seq<Sample>)
    ensures Total(RowShare, NOTHING, PlusRow, samples).totals == Total(Share, ZERO, Plus, samples)
    ensures var c := Total(RowShare, NOTHING, PlusRow, samples).cache; c.reported + c.unknown == |samples|
  {
    if samples != [] {
      TotalRowParts(samples[..|samples| - 1]);
    }
  }

  // So do the rows of the cache epochs, whose reported and unknown requests add up to all requests.
  lemma EpochRowsAddUp(samples: seq<Sample>, keys: seq<(string, int)>)
    requires Lists(keys, Aggregated(samples).byEpoch.Keys)
    ensures
      var all := Sum(Aggregated(samples).byEpoch, keys, |keys|, NOTHING, PlusRow);
      all.totals == Aggregated(samples).totals && all.cache.reported + all.cache.unknown == |samples|
  {
    RowsAdd();
    Parts(samples);
    RowsAddUp(EpochLabel, RowShare, NOTHING, PlusRow, samples, keys);
    TotalRowParts(samples);
  }

  // Every request is counted once, as one with usage or as one without.
  lemma {:induction false} EveryRequestCounts(samples: seq<Sample>)
    ensures var t := Aggregated(samples).totals; t.requests == |samples| == t.withUsage + t.unknown
  {
    if samples != [] {
      EveryRequestCounts(samples[..|samples| - 1]);
    }
  }

  // The count of an outcome in the totals is that of the requests in its row.
  lemma {:induction false} OutcomesAgree(samples: seq<Sample>, outcome: string)
    ensures
      var a := Aggregated(samples);
      Count(a.totals.byOutcome, outcome) == Get(a.rows.byOutcome, outcome, ZERO).requests
  {
    if samples != [] {
      OutcomesAgree(samples[..|samples| - 1], outcome);
    }
  }

  // A request that reads nothing from the cache is suspicious after one that did, and not before it.
  lemma MissAfterHit(w: Watch, s: Sample, t: Sample)
    requires s.runId == t.runId && s.runId !in w.runs
    requires s.cacheEpoch == t.cacheEpoch && s.cacheEpoch.Some? && t.appendOnly == None
    requires s.usage.Some? && s.usage.value.cacheRead > 0
    requires t.usage.Some? && t.usage.value.cacheRead == 0 && t.usage.value.input > 0
    ensures Watched(Watched(w, s), t).cache.misses == w.cache.misses + 1
    ensures Watched(Watched(w, t), s).cache.misses == w.cache.misses
  {
    var afterS, afterT := NextRun(UNSEEN, s), NextRun(UNSEEN, t);
    assert Get(Watched(w, s).runs, t.runId, UNSEEN) == afterS && Get(Watched(w, t).runs, s.runId, UNSEEN) == afterT;
    assert Observed(UNSEEN, s).misses == 0 && Observed(afterS, t).misses == 1;
    assert Observed(UNSEEN, t).misses == 0 && Observed(afterT, s).misses == 0;
  }

  lemma OrderWithinRunMatters(s: Sample, t: Sample)
    requires s.runId == t.runId
    requires s.cacheEpoch == t.cacheEpoch && s.cacheEpoch.Some? && t.appendOnly == None
    requires s.usage.Some? && s.usage.value.cacheRead > 0
    requires t.usage.Some? && t.usage.value.cacheRead == 0 && t.usage.value.input > 0
    ensures Aggregated([s, t]) != Aggregated([t, s])
  {
    FoldTwo(Step, EMPTY, s, t);
    FoldTwo(Step, EMPTY, t, s);
    MissAfterHit(EMPTY.watch, s, t);
    assert Step(Step(EMPTY, s), t).watch == Watched(Watched(EMPTY.watch, s), t);
    assert Step(Step(EMPTY, t), s).watch == Watched(Watched(EMPTY.watch, t), s);
  }

  // ---- the loop -----------------------------------------------------------------------------

  // The runs in the order of their first sample.
  function RunIds(samples: seq<Sample>): seq<string> {
    if samples == [] then []
    else
      var n := |samples| - 1;
      var before, id := RunIds(samples[..n]), samples[n].runId;
      if id in before then before else before + [id]
  }

  lemma AppendNew(ids: seq<string>, ks: set<string>, id: string)
    requires Lists(ids, ks)
    ensures Lists(if id in ids then ids else ids + [id], ks + {id})
  {
    assert forall k :: k in ids + [id] <==> k in ids || k == id;
  }

  // The listed runs are those the samples come from, each once.
  lemma {:induction false} RunIdsListRuns(samples: seq<Sample>)
    ensures Lists(RunIds(samples), set i | 0 <= i < |samples| :: samples[i].runId)
  {
    if samples != [] {
      var n := |samples| - 1;
      RunIdsListRuns(samples[..n]);
      var before, all := set i | 0 <= i < n :: samples[..n][i].runId, set i | 0 <= i < |samples| :: samples[i].runId;
      assert all == before + {samples[n].runId};
      AppendNew(RunIds(samples[..n]), before, samples[n].runId);
    }
  }

  method AggregateUsage(samples: seq<Sample>) returns (a: Aggregate, runIds: seq<string>)
    ensures a == Aggregated(samples) && runIds == RunIds(samples)
  {
    var totals := new UsageTotals();
    var rows, byEpoch, watch, marks := EMPTY.rows, EMPTY.byEpoch, EMPTY.watch, EMPTY.marks;
    runIds := [];
    for i := 0 to |samples|
      invariant fresh(totals)
      invariant Aggregate(totals.Value(), rows, byEpoch, watch, marks) == Aggregated(samples[..i])
      invariant runIds == RunIds(samples[..i])
    {
      var s := samples[i];
      assert samples[..i + 1][..i] == samples[..i];
      totals.Add(s);
      rows := AddBreakdowns(rows, s);
      byEpoch := Put(byEpoch, EpochLabel(s), NOTHING, PlusRow, RowShare(s));
      if s.runId !in runIds {
        runIds := runIds + [s.runId];
      }
      var run, cache := ObserveCache(Get(watch.runs, s.runId, UNSEEN), watch.cache, s);
      watch := Watch(cache, watch.runs[s.runId := run]);
      marks := CountMarks(marks, s);
    }
    assert samples[..|samples|] == samples;
    a := Aggregate(totals.Value(), rows, byEpoch, watch, marks);
  }

  method CountMarks(marks: Marks, s: Sample) returns (marks': Marks)
    ensures marks' == Marked(marks, s)
  {
    marks' := marks;
    if s.legacy {
      marks' := marks'.(legacy := marks'.legacy + 1);
    }
    if s.incomplete {
      marks' := marks'.(incomplete := marks'.incomplete + 1);
    }
    if s.anomaly != "" {
      marks' := marks'.(anomalous := marks'.anomalous + 1);
    }
  }

  // ---- ratios -------------------------------------------------------------------------------

  // Division of C++, towards zero.
  function Truncated(a: int, b: int): int
    requires b > 0
  {
    if a >= 0 then a / b else -(-a / b)
  }

  // The percentage nearest to part / whole, halves going up.
  function RatioPercent(part: int, whole: int): (percent: int)
    ensures whole <= 0 ==> percent == 0
    ensures 0 <= part <= whole && whole > 0 ==> 0 <= percent <= 100
    ensures 0 <= part && whole > 0 ==> -whole < 2 * (percent * whole - 100 * part) <= whole
  {
    if whole <= 0 then 0
    else
      var scaled := part * 200 + whole;
      NearestPercent(part, whole);
      Truncated(scaled, whole * 2)
  }

  lemma NearestPercent(part: int, whole: int)
    requires whole > 0
    ensures
      var percent := (part * 200 + whole) / (whole * 2);
      && -whole < 2 * (percent * whole - 100 * part) <= whole
      && (0 <= part <= whole ==> 0 <= percent <= 100)
  {
    var scaled, double := part * 200 + whole, whole * 2;
    Floor(scaled, double);
    TimesNests(scaled / double, 2, whole);
    if part <= whole {
      QuotientAtMost(scaled, double, 100);
    }
  }

  // Unknown rather than zero when nothing was measured.
  function CacheReadRatio(t: Totals): (ratio: Option<int>)
    ensures ratio.Some? <==> t.withUsage > 0 && t.input + t.cacheRead + t.cacheCreation > 0
    ensures ratio.Some? && t.input >= 0 && t.cacheRead >= 0 && t.cacheCreation >= 0 ==> 0 <= ratio.value <= 100
  {
    var base := t.input + t.cacheRead + t.cacheCreation;
    if t.withUsage <= 0 || base <= 0 then None else Some(RatioPercent(t.cacheRead, base))
  }
}
