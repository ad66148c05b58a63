// What the counters of an aggregate say about its samples: how many have a property, and what a quantity
// adds up to over them.

module UsageCounts {
  import opened Collections
  import opened Options
  import opened Reorder
  import opened UsageAggregate

  function Many(p: Sample -> bool, samples: seq<Sample>): nat {
    if samples == [] then 0
    else
      var n := |samples| - 1;
      Many(p, samples[..n]) + if p(samples[n]) then 1 else 0
  }

  function SumOver(q: Sample -> int, samples: seq<Sample>): int {
    if samples == [] then 0
    else
      var n := |samples| - 1;
      SumOver(q, samples[..n]) + q(samples[n])
  }

  // ---- totals -------------------------------------------------------------------------------

  predicate HasUsage(s: Sample) {
    s.usage.Some?
  }

  predicate NoUsage(s: Sample) {
    s.usage.None?
  }

  predicate IsRetry(s: Sample) {
    s.attempt >= 2
  }

  predicate IsPriced(s: Sample) {
    s.priced.Some?
  }

  // The fields of the usage object, and the two totals that come with it.
  datatype Kind = Input | CacheRead | CacheCreation | Output | Reasoning | AllInput | AllBilled

  function TokensOf(s: Sample, kind: Kind): int {
    match s.usage
    case None => 0
    case Some(u) =>
      match kind
      case Input => u.input
      case CacheRead => u.cacheRead
      case CacheCreation => u.cacheCreation
      case Output => u.output
      case Reasoning => u.reasoning
      case AllInput => s.totalInput
      case AllBilled => s.totalBilled
  }

  function Tokens(kind: Kind): Sample -> int {
    (s: Sample) => TokensOf(s, kind)
  }

  function Counter(t: Totals, kind: Kind): int {
    match kind
    case Input => t.input
    case CacheRead => t.cacheRead
    case CacheCreation => t.cacheCreation
    case Output => t.output
    case Reasoning => t.reasoning
    case AllInput => t.totalInput
    case AllBilled => t.totalBilled
  }

  function Micros(s: Sample): int {
    match s.priced
    case None => 0
    case Some(micros) => micros
  }

  // A request without an outcome was never closed.
  function EndedAs(outcome: string): Sample -> bool {
    (s: Sample) => s.outcome == outcome || (s.outcome == "" && outcome == "unclosed")
  }

  ghost predicate Describes(t: Totals, samples: seq<Sample>) {
    && t.requests == |samples|
    && t.withUsage == Many(HasUsage, samples) && t.unknown == Many(NoUsage, samples)
    && t.retries == Many(IsRetry, samples) && t.priced == Many(IsPriced, samples)
    && t.micros == SumOver(Micros, samples)
    && (forall kind :: Counter(t, kind) == SumOver(Tokens(kind), samples))
  }

  lemma {:induction false} TotalsDescribe(samples: seq<Sample>)
    ensures Describes(Total(Share, ZERO, Plus, samples), samples)
  {
    if samples != [] {
      var n := |samples| - 1;
      var s := samples[n];
      TotalsDescribe(samples[..n]);
      forall kind ensures Counter(Share(s), kind) == TokensOf(s, kind) {
      }
      forall kind
        ensures Counter(Total(Share, ZERO, Plus, samples), kind)
             == Counter(Total(Share, ZERO, Plus, samples[..n]), kind) + Counter(Share(s), kind)
      {
      }
    }
  }

  lemma {:induction false} OutcomesCount(samples: seq<Sample>, outcome: string)
    requires outcome != ""
    ensures Count(Total(Share, ZERO, Plus, samples).byOutcome, outcome) == Many(EndedAs(outcome), samples)
  {
    if samples != [] {
      OutcomesCount(samples[..|samples| - 1], outcome);
    }
  }

  // Every counter of the totals is what its name says.
  lemma TotalsAreCounts(samples: seq<Sample>, outcome: string)
    ensures Describes(Aggregated(samples).totals, samples)
    ensures outcome != "" ==> Count(Aggregated(samples).totals.byOutcome, outcome) == Many(EndedAs(outcome), samples)
  {
    Parts(samples);
    TotalsDescribe(samples);
    if outcome != "" {
      OutcomesCount(samples, outcome);
    }
  }

  // ---- rows ---------------------------------------------------------------------------------

  function Labelled<K(==)>(name: Sample -> K, k: K, samples: seq<Sample>): seq<Sample> {
    if samples == [] then []
    else
      var n := |samples| - 1;
      Labelled(name, k, samples[..n]) + if name(samples[n]) == k then [samples[n]] else []
  }

  // A row holds the shares of the samples with its label.
  lemma {:induction false} RowIsTotal<K, V(!new)>(
      name: Sample -> K, share: Sample -> V, zero: V, plus: (V, V) -> V, samples: seq<Sample>, k: K)
    ensures Get(Grouped(name, share, zero, plus, samples), k, zero)
         == Total(share, zero, plus, Labelled(name, k, samples))
  {
    if samples != [] {
      var n := |samples| - 1;
      var before := Labelled(name, k, samples[..n]);
      RowIsTotal(name, share, zero, plus, samples[..n], k);
      if name(samples[n]) == k {
        assert (before + [samples[n]])[..|before|] == before;
      } else {
        assert before + [] == before;
      }
    }
  }

  // So every counter of every row is what its name says about the samples with its label.
  lemma RowsAreCounts(samples: seq<Sample>, k: string)
    ensures
      var rows := Aggregated(samples).rows;
      && Describes(Get(rows.byPurpose, k, ZERO), Labelled(PurposeLabel, k, samples))
      && Describes(Get(rows.byModel, k, ZERO), Labelled(ModelLabel, k, samples))
      && Describes(Get(rows.byRun, k, ZERO), Labelled(KindLabel, k, samples))
      && Describes(Get(rows.byOutcome, k, ZERO), Labelled(OutcomeLabel, k, samples))
  {
    Parts(samples);
    RowIsTotal(PurposeLabel, Share, ZERO, Plus, samples, k);
    RowIsTotal(ModelLabel, Share, ZERO, Plus, samples, k);
    RowIsTotal(KindLabel, Share, ZERO, Plus, samples, k);
    RowIsTotal(OutcomeLabel, Share, ZERO, Plus, samples, k);
    TotalsDescribe(Labelled(PurposeLabel, k, samples));
    TotalsDescribe(Labelled(ModelLabel, k, samples));
    TotalsDescribe(Labelled(KindLabel, k, samples));
    TotalsDescribe(Labelled(OutcomeLabel, k, samples));
  }

  // Which samples a label is for.
  lemma LabelsMean(s: Sample, k: string)
    ensures PurposeLabel(s) == k <==> s.purpose == Some(k) || (s.purpose.None? && k == "unknown")
    ensures KindLabel(s) == k <==> s.runKind == k
    ensures OutcomeLabel(s) == k <==> (s.outcome == k && k != "") || (s.outcome == "" && k == "unclosed")
  {
  }

  ghost predicate NoSlash(s: string) {
    '/' !in s
  }

  // Requests share a row of the models if and only if model and provider agree, a missing provider being
  // the same as one called unknown.
  lemma SameModelRow(s: Sample, t: Sample)
    requires NoSlash(s.provider) && NoSlash(t.provider)
    ensures ModelLabel(s) == ModelLabel(t) <==>
      && s.model == t.model
      && (s.provider == t.provider || {s.provider, t.provider} == {"", "unknown"})
    ensures ModelLabel(s) == (if s.provider != "" then s.provider else "unknown") + "/" + s.model
  {
    var p, q := if s.provider == "" then "unknown" else s.provider, if t.provider == "" then "unknown" else t.provider;
    assert NoSlash("unknown");
    assert ModelLabel(s) == p + "/" + s.model && ModelLabel(t) == q + "/" + t.model;
    if ModelLabel(s) == ModelLabel(t) {
      SlashDecides(p, s.model, q, t.model);
    }
  }

  lemma SlashDecides(a: string, x: string, b: string, y: string)
    requires NoSlash(a) && NoSlash(b) && a + "/" + x == b + "/" + y
    ensures a == b && x == y
  {
    var s := a + "/" + x;
    assert s[|a|] == '/' && s[|b|] == '/';
    assert forall i | 0 <= i < |a| :: s[i] == a[i];
    assert forall i | 0 <= i < |b| :: s[i] == b[i];
    assert |a| == |b|;
    assert s[..|a|] == a && s[..|b|] == b && s[|a| + 1..] == x && s[|b| + 1..] == y;
  }

  // ---- cache epochs -------------------------------------------------------------------------

  // What a sample says of the cache counts only where the provider reported it and nothing is wrong.
  predicate Trusted(s: Sample) {
    s.readReported && |s.anomaly| == 0
  }

  predicate Untrusted(s: Sample) {
    !s.readReported || |s.anomaly| > 0
  }

  predicate Anomalous(s: Sample) {
    |s.anomaly| > 0
  }

  function TrustedTokens(kind: Kind): Sample -> int {
    (s: Sample) => if Trusted(s) then TokensOf(s, kind) else 0
  }

  ghost predicate DescribesCache(c: CacheCounts, samples: seq<Sample>) {
    && c.reported == Many(Trusted, samples) && c.unknown == Many(Untrusted, samples)
    && c.anomalous == Many(Anomalous, samples)
    && c.input == SumOver(TrustedTokens(Input), samples)
    && c.read == SumOver(TrustedTokens(CacheRead), samples)
    && c.creation == SumOver(TrustedTokens(CacheCreation), samples)
  }

  lemma OneCacheShare(s: Sample)
    ensures
      var c := CacheShare(s);
      && c.reported == (if Trusted(s) then 1 else 0) && c.unknown == (if Untrusted(s) then 1 else 0)
      && c.anomalous == (if Anomalous(s) then 1 else 0)
      && c.input == TrustedTokens(Input)(s) && c.read == TrustedTokens(CacheRead)(s)
      && c.creation == TrustedTokens(CacheCreation)(s)
  {
  }

  lemma {:induction false} CacheDescribes(samples: seq<Sample>)
    ensures DescribesCache(Total(RowShare, NOTHING, PlusRow, samples).cache, samples)
  {
    if samples != [] {
      var n := |samples| - 1;
      CacheDescribes(samples[..n]);
      OneCacheShare(samples[n]);
      var before, share := Total(RowShare, NOTHING, PlusRow, samples[..n]), RowShare(samples[n]);
      assert Total(RowShare, NOTHING, PlusRow, samples) == PlusRow(before, share);
      assert share.cache == CacheShare(samples[n]);
    }
  }

  // The row of one epoch of one run is about the samples with that label; one without an epoch is taken
  // to be in epoch 0.
  lemma EpochRowsAreCounts(samples: seq<Sample>, run: string, epoch: int)
    ensures
      var row := Get(Aggregated(samples).byEpoch, (run, epoch), NOTHING);
      var own := Labelled(EpochLabel, (run, epoch), samples);
      Describes(row.totals, own) && DescribesCache(row.cache, own)
    ensures forall s: Sample ::
              EpochLabel(s) == (run, epoch) <==>
              s.runId == run && (s.cacheEpoch == Some(epoch) || (s.cacheEpoch.None? && epoch == 0))
  {
    var own := Labelled(EpochLabel, (run, epoch), samples);
    Parts(samples);
    RowIsTotal(EpochLabel, RowShare, NOTHING, PlusRow, samples, (run, epoch));
    TotalRowParts(own);
    TotalsDescribe(own);
    CacheDescribes(own);
  }

  // ---- marks --------------------------------------------------------------------------------

  predicate IsLegacy(s: Sample) {
    s.legacy
  }

  predicate IsIncomplete(s: Sample) {
    s.incomplete
  }

  function MarksOf(samples: seq<Sample>): Marks {
    if samples == [] then Marks(0, 0, 0)
    else
      var n := |samples| - 1;
      Marked(MarksOf(samples[..n]), samples[n])
  }

  lemma {:induction false} MarksAreFolded(samples: seq<Sample>)
    ensures Aggregated(samples).marks == MarksOf(samples)
  {
    if samples != [] {
      MarksAreFolded(samples[..|samples| - 1]);
    }
  }

  lemma {:induction false} MarksDescribe(samples: seq<Sample>)
    ensures
      var m := MarksOf(samples);
      && m.legacy == Many(IsLegacy, samples) && m.incomplete == Many(IsIncomplete, samples)
      && m.anomalous == Many(Anomalous, samples)
  {
    if samples != [] {
      MarksDescribe(samples[..|samples| - 1]);
    }
  }

  lemma MarksAreCounts(samples: seq<Sample>)
    ensures
      var m := Aggregated(samples).marks;
      && m.legacy == Many(IsLegacy, samples) && m.incomplete == Many(IsIncomplete, samples)
      && m.anomalous == Many(Anomalous, samples)
  {
    MarksAreFolded(samples);
    MarksDescribe(samples);
  }
}
