// Whole runs of one cache epoch: what a request has already sent is never rewritten.

module RequestRuns {
  import opened Options
  import opened Collections
  import opened Utf8
  import opened Tokens
  import opened Messages
  import opened Shrink
  import opened Compress
  import opened ContextView
  import opened References

  // A message is pushed, a block is appended to the last message, the last message is taken back, or a
  // request view is built under whatever correction factor holds at that moment.
  datatype Step = Push(message: Message) | Append(block: Block) | Pop | View(factor: Factor)

  function Next(c: Context, step: Step, window: nat, env: Env): Context {
    match step
    case Push(message) => c.(history := c.history + [message])
    case Append(block) => c.(history := AppendToMessage(c.history, block))
    case Pop => c.(history := DropLast(c.history))
    case View(factor) => Build(c, window, factor, env).next
  }

  function Advance(c: Context, steps: seq<Step>, n: nat, window: nat, env: Env): Context
    requires n <= |steps|
  {
    if n == 0 then c else Next(Advance(c, steps, n - 1, window, env), steps[n - 1], window, env)
  }

  lemma NextExtends(c: Context, step: Step, window: nat, env: Env)
    requires !step.Pop? && (step.Append? ==> !step.block.ResultBlock?)
    ensures Extends(c.history, Next(c, step, window, env).history)
  {
  }

  // One epoch: fixed window and options, empty books at the start, and the contexts it passes through.
  datatype Trail = Trail(steps: seq<Step>, window: nat, env: Env, contexts: seq<Context>) {

    ghost predicate Follows(n: nat) {
      n < |steps| && n + 1 < |contexts| && contexts[n + 1] == Next(contexts[n], steps[n], window, env)
    }

    ghost predicate Real() {
      && |contexts| == |steps| + 1
      && contexts[0] == Context(contexts[0].history, map[], map[], map[])
      && forall n | 0 <= n < |steps| :: Follows(n)
    }

    function At(n: nat): Context
      requires n < |contexts|
    {
      contexts[n]
    }

    predicate Views(n: nat) {
      n < |steps| && steps[n].View?
    }

    // The request sent at step `n`.
    function Sent(n: nat): History
      requires Views(n) && n < |contexts|
    {
      Build(At(n), window, steps[n].factor, env).view
    }

    function Line(): nat {
      Shrink.Line(window)
    }

    // The history shown by the last view before step `n`.
    function Viewed(n: nat): History
      requires n <= |steps| && n < |contexts|
    {
      if n == 0 then [] else if steps[n - 1].View? then At(n - 1).history else Viewed(n - 1)
    }

    // Only a message that no view has shown is ever taken back.
    predicate UnseenAt(n: nat)
      requires n < |steps| && n < |contexts|
    {
      steps[n].Pop? ==> |Viewed(n)| < |At(n).history|
    }

    ghost predicate PairedAt(n: nat) {
      n < |contexts| && WellPaired(At(n).history)
    }

    // Results arrive as whole messages, and identities are unique up to step `n`.
    ghost predicate WellFormed(n: nat)
      requires n < |contexts|
    {
      && (forall k | 0 <= k < |steps| :: steps[k].Append? ==> !steps[k].block.ResultBlock?)
      && WellPaired(At(n).history)
      && (forall k | 0 <= k < n && k < |steps| :: PairedAt(k) && UnseenAt(k))
    }

    // The text behind the block at (m, b) once step `n` is reached.
    function Source(n: nat, m: nat, b: nat): Block
      requires n < |contexts| && m < |At(n).history| && b < |At(n).history[m].content|
    {
      SourceBlock(At(n).history, env, m, b)
    }
  }

  const QUIET := Env(t => t, (b, s) => [], Wording([], [], [], [], [], [], [], [], [], [], [], [], []), 0, 0, 0, false)

  type Run = r: Trail | r.Real() witness Trail([], 0, QUIET, [Context([], map[], map[], map[])])

  lemma OneMore(steps: seq<Step>, before: seq<Context>, window: nat, env: Env)
    requires 0 < |before| <= |steps|
    requires forall k | 0 <= k < |before| - 1 :: Trail(steps, window, env, before).Follows(k)
    ensures
      var n := |before|;
      var after := before + [Next(before[n - 1], steps[n - 1], window, env)];
      forall k | 0 <= k < n :: Trail(steps, window, env, after).Follows(k)
  {
    var n := |before|;
    var after := before + [Next(before[n - 1], steps[n - 1], window, env)];
    forall k | 0 <= k < n ensures Trail(steps, window, env, after).Follows(k) {
      assert after[k] == before[k];
      if k < n - 1 {
        assert Trail(steps, window, env, before).Follows(k) && after[k + 1] == before[k + 1];
      }
    }
  }

  // From any history any steps make a run.
  function Contexts(start: History, steps: seq<Step>, n: nat, window: nat, env: Env): (contexts: seq<Context>)
    requires n <= |steps|
    ensures |contexts| == n + 1 && contexts[0] == Context(start, map[], map[], map[])
    ensures forall k | 0 <= k < n :: Trail(steps, window, env, contexts).Follows(k)
  {
    if n == 0 then [Context(start, map[], map[], map[])]
    else
      var before := Contexts(start, steps, n - 1, window, env);
      OneMore(steps, before, window, env);
      before + [Next(before[n - 1], steps[n - 1], window, env)]
  }

  function RunOf(start: History, steps: seq<Step>, window: nat, env: Env): (r: Run)
    ensures r.steps == steps && r.window == window && r.env == env && r.At(0).history == start
  {
    Trail(steps, window, env, Contexts(start, steps, |steps|, window, env))
  }

  lemma EarlierIsWellFormed(r: Run, i: nat, j: nat)
    requires i <= j <= |r.steps| && r.WellFormed(j)
    ensures r.WellFormed(i)
  {
    assert i < j ==> r.PairedAt(i) && r.UnseenAt(i);
  }

  lemma ViewStaysWellFormed(r: Run, n: nat)
    requires r.Views(n) && r.WellFormed(n)
    ensures r.WellFormed(n + 1)
  {
    assert r.Follows(n) && r.PairedAt(n) && r.UnseenAt(n);
  }

  lemma StepGrows(r: Run, n: nat)
    requires n < |r.steps| && !r.steps[n].Pop? && (r.steps[n].Append? ==> !r.steps[n].block.ResultBlock?)
    ensures Extends(r.At(n).history, r.At(n + 1).history)
  {
    assert r.Follows(n);
    NextExtends(r.At(n), r.steps[n], r.window, r.env);
  }

  // Where nothing is taken back, identities that are unique at the end were unique all along.
  lemma {:induction false} WithoutPops(r: Run, n: nat)
    requires n <= |r.steps| && WellPaired(r.At(n).history)
    requires forall k | 0 <= k < |r.steps| ::
               && !r.steps[k].Pop?
               && (r.steps[k].Append? ==> !r.steps[k].block.ResultBlock?)
    ensures r.WellFormed(n)
  {
    if n > 0 {
      StepGrows(r, n - 1);
      ExtendsWellPaired(r.At(n - 1).history, r.At(n).history);
      WithoutPops(r, n - 1);
      assert r.PairedAt(n - 1) && r.UnseenAt(n - 1);
    }
  }

  lemma HistoryKeepsConsistent(c: Context, d: Context, viewed: History, line: nat, env: Env)
    requires Consistent(c, viewed, line, env) && d == c.(history := d.history) && Extends(viewed, d.history)
    ensures Consistent(d, viewed, line, env)
  {
    forall m, b | ResultAt(viewed, m, b) ensures Booked(d, viewed, m, b, line, env) {
      assert Booked(c, viewed, m, b, line, env);
    }
  }

  // The books match the last view all along the run.
  lemma {:induction false} BooksStayConsistent(r: Run, n: nat)
    requires n <= |r.steps| && r.WellFormed(n)
    ensures Consistent(r.At(n), r.Viewed(n), r.Line(), r.env)
  {
    if n > 0 {
      EarlierIsWellFormed(r, n - 1, n);
      BooksStayConsistent(r, n - 1);
      assert r.Follows(n - 1) && r.PairedAt(n - 1) && r.UnseenAt(n - 1);
      if r.steps[n - 1].View? {
        BuildKeepsConsistent(r.At(n - 1), r.Viewed(n - 1), r.window, r.steps[n - 1].factor, r.env);
      } else if r.steps[n - 1].Pop? {
        ExtendsDropLast(r.Viewed(n - 1), r.At(n - 1).history);
        HistoryKeepsConsistent(r.At(n - 1), r.At(n), r.Viewed(n - 1), r.Line(), r.env);
      } else {
        StepGrows(r, n - 1);
        ExtendsTransitive(r.Viewed(n - 1), r.At(n - 1).history, r.At(n).history);
        HistoryKeepsConsistent(r.At(n - 1), r.At(n), r.Viewed(n - 1), r.Line(), r.env);
      }
    }
  }

  // What has been viewed is never taken back: it only grows at its end.
  lemma {:induction false} ViewedGrows(r: Run, i: nat, j: nat)
    requires i <= j <= |r.steps| && r.WellFormed(j)
    ensures Extends(r.Viewed(i), r.Viewed(j))
    decreases j
  {
    if i == j {
      ExtendsReflexive(r.Viewed(i));
    } else {
      EarlierIsWellFormed(r, j - 1, j);
      ViewedGrows(r, i, j - 1);
      if r.steps[j - 1].View? {
        BooksStayConsistent(r, j - 1);
        ExtendsTransitive(r.Viewed(i), r.Viewed(j - 1), r.At(j - 1).history);
      }
    }
  }

  lemma ShownHistoryGrows(r: Run, i: nat, j: nat)
    requires i < j <= |r.steps| && r.Views(i) && r.WellFormed(j)
    ensures Extends(r.At(i).history, r.At(j).history) && r.WellFormed(i)
  {
    EarlierIsWellFormed(r, i, j);
    ViewedGrows(r, i + 1, j);
    BooksStayConsistent(r, j);
    ExtendsTransitive(r.At(i).history, r.Viewed(j), r.At(j).history);
  }

  // ---- What compression saves over an epoch -------------------------------------------------

  // The savings reported by the views among the first `n` steps, added up.
  function SavedSoFar(r: Run, n: nat): Savings
    requires n <= |r.steps|
  {
    if n == 0 then NOTHING
    else if !r.steps[n - 1].View? then SavedSoFar(r, n - 1)
    else SavedSoFar(r, n - 1).Plus(SavedIn(r.At(n - 1).history, r.At(n - 1).decisions, r.env))
  }

  // Every decision is counted once in an epoch: the reports add up to what compressing the history
  // last viewed from scratch would report.
  lemma {:induction false} SavingsAreCountedOnce(r: Run, n: nat)
    requires n <= |r.steps| && r.WellFormed(n) && r.env.compression
    ensures SavedSoFar(r, n) == SavedIn(r.Viewed(n), map[], r.env)
  {
    if n == 0 {
      assert LedgerOf(r.Viewed(0)) == [];
    } else {
      EarlierIsWellFormed(r, n - 1, n);
      SavingsAreCountedOnce(r, n - 1);
      if r.steps[n - 1].View? {
        BooksStayConsistent(r, n - 1);
        assert r.PairedAt(n - 1);
        SavingsAddUp(r.Viewed(n - 1), r.At(n - 1).history, r.env);
      }
    }
  }

  // ---- The pin of one result over time ------------------------------------------------------

  // A result the run has shown by step `n`, and its source.
  ghost predicate Shown(r: Run, n: nat, m: nat, b: nat, source: ToolResult)
    requires n <= |r.steps|
  {
    && ResultAt(r.Viewed(n), m, b)
    && SourceBlock(r.Viewed(n), r.env, m, b) == ResultBlock(source)
  }

  function PinAt(r: Run, n: nat, id: Text): Option<Pinned>
    requires n <= |r.steps|
  {
    Find(r.At(n).pins, id)
  }

  // The shape the hard gate cuts with the plain ruler.
  function HardPin(r: Run, source: ToolResult): Pinned {
    PinFor(source, r.Line(), 1.0, r.env)
  }

  lemma ShownIsPinned(r: Run, n: nat, m: nat, b: nat, source: ToolResult)
    requires n <= |r.steps| && r.WellFormed(n) && Shown(r, n, m, b, source)
    ensures
      var pin := PinAt(r, n, source.id);
      && source.id != []
      && pin.Some? && PinnedFrom(pin.value, source, r.Line(), r.env)
      && (pin.value.shape.Some? ==>
            Find(r.At(n).announced, source.id) == Some(SourceFingerprint(pin.value.shape.value, r.env)))
      && ResultAt(r.At(n).history, m, b) && r.Source(n, m, b) == ResultBlock(source)
  {
    BooksStayConsistent(r, n);
    assert Booked(r.At(n), r.Viewed(n), m, b, r.Line(), r.env);
    SourceBlockStable(r.Viewed(n), r.At(n).history, r.env, m, b);
    assert ResultAt(r.At(n).history, m, b);
  }

  // A view shows exactly the shape it leaves pinned.
  lemma ViewShowsPin(r: Run, n: nat, m: nat, b: nat)
    requires r.Views(n) && r.WellFormed(n) && ResultAt(r.At(n).history, m, b)
    ensures
      var source := r.Source(n, m, b).result;
      var pin := PinAt(r, n + 1, source.id);
      && m < |r.Sent(n)| && b < |r.Sent(n)[m].content|
      && pin.Some? && r.Sent(n)[m].content[b] == ResultBlock(ShapeOf(pin.value, source))
      && Shown(r, n + 1, m, b, source)
      && pin.value == NextPin(source, PinAt(r, n, source.id), r.Line(), r.steps[n].factor, r.env)
      && NoticeAt(r, n, source.id) == NoticeFor(source, PinAt(r, n, source.id), r.Line(), r.steps[n].factor, r.env)
  {
    BooksStayConsistent(r, n);
    BuildPointwise(r.At(n), r.Viewed(n), r.window, r.steps[n].factor, r.env);
    assert r.Follows(n);
  }

  // A view keeps the form of the history and everything that is not a result.
  lemma ViewKeepsForm(r: Run, n: nat)
    requires r.Views(n) && r.WellFormed(n)
    ensures
      var h, v := r.At(n).history, r.Sent(n);
      && |v| == |h|
      && (forall m | 0 <= m < |h| :: v[m].role == h[m].role && |v[m].content| == |h[m].content|)
      && (forall m, b | 0 <= m < |h| && 0 <= b < |h[m].content| && !h[m].content[b].ResultBlock? ::
            v[m].content[b] == h[m].content[b])
  {
    BooksStayConsistent(r, n);
    BuildPointwise(r.At(n), r.Viewed(n), r.window, r.steps[n].factor, r.env);
    forall m, b | && 0 <= m < |r.At(n).history| && 0 <= b < |r.At(n).history[m].content|
                  && !r.At(n).history[m].content[b].ResultBlock?
      ensures SourceBlock(r.At(n).history, r.env, m, b) == r.At(n).history[m].content[b]
    {
    }
  }

  // The same pin, or the hard one in its place because the old shape broke the plain line.
  ghost predicate Evolved(p: Option<Pinned>, q: Option<Pinned>, r: Run, source: ToolResult) {
    && p.Some? && q.Some?
    && (q == p || (q.value == HardPin(r, source) && ResultTokens(ShapeOf(p.value, source), 1.0) > r.Line()))
  }

  lemma PinStep(r: Run, n: nat, m: nat, b: nat, source: ToolResult)
    requires n < |r.steps| && r.WellFormed(n) && Shown(r, n, m, b, source)
    ensures Shown(r, n + 1, m, b, source)
    ensures Evolved(PinAt(r, n, source.id), PinAt(r, n + 1, source.id), r, source)
  {
    ShownIsPinned(r, n, m, b, source);
    assert r.Follows(n);
    if r.steps[n].View? {
      ViewShowsPin(r, n, m, b);
      NextPinIsPinned(source, PinAt(r, n, source.id), r.Line(), r.steps[n].factor, r.env);
    }
  }

  // Once shown, a result keeps its shape, or the hard gate replaces it for good.
  lemma {:induction false} PinEvolves(r: Run, i: nat, j: nat, m: nat, b: nat, source: ToolResult)
    requires i <= j <= |r.steps| && r.WellFormed(j) && Shown(r, i, m, b, source)
    ensures Shown(r, j, m, b, source)
    ensures Evolved(PinAt(r, i, source.id), PinAt(r, j, source.id), r, source)
    decreases j
  {
    if i == j {
      ShownIsPinned(r, i, m, b, source);
    } else {
      EarlierIsWellFormed(r, j - 1, j);
      PinEvolves(r, i, j - 1, m, b, source);
      PinStep(r, j - 1, m, b, source);
    }
  }

  // ---- The request prefix -------------------------------------------------------------------

  // The hard gate has replaced one block by another: the old shape exceeded the plain 25% line, the
  // new one is the source cut with the plain ruler.
  ghost predicate Recut(old': Block, new': Block, source: Block, line: nat, env: Env) {
    && old'.ResultBlock? && new'.ResultBlock? && source.ResultBlock?
    && ResultTokens(old'.result, 1.0) > line
    && new'.result == Cut(source.result, line, 1.0, env)
  }

  lemma ResultIsKept(r: Run, i: nat, j: nat, m: nat, b: nat)
    requires i < j && r.Views(i) && r.Views(j) && r.WellFormed(j) && r.WellFormed(i) && ResultAt(r.At(i).history, m, b)
    ensures m < |r.Sent(i)| && b < |r.Sent(i)[m].content| && m < |r.Sent(j)| && b < |r.Sent(j)[m].content|
    ensures
      var v, w := r.Sent(i)[m].content[b], r.Sent(j)[m].content[b];
      w == v || Recut(v, w, r.Source(i, m, b), r.Line(), r.env)
  {
    var source := r.Source(i, m, b).result;
    ViewShowsPin(r, i, m, b);
    PinEvolves(r, i + 1, j, m, b, source);
    ShownIsPinned(r, j, m, b, source);
    ViewShowsPin(r, j, m, b);
    PinStep(r, j, m, b, source);
    var p, q := PinAt(r, i + 1, source.id), PinAt(r, j + 1, source.id);
    assert q == p || (q.value == HardPin(r, source) && ResultTokens(ShapeOf(p.value, source), 1.0) > r.Line());
    assert r.Sent(i)[m].content[b] == ResultBlock(ShapeOf(p.value, source));
    assert r.Sent(j)[m].content[b] == ResultBlock(ShapeOf(q.value, source));
  }

  lemma BlockIsKept(r: Run, i: nat, j: nat, m: nat, b: nat)
    requires i < j && r.Views(i) && r.Views(j) && r.WellFormed(j)
    requires m < |r.At(i).history| && b < |r.At(i).history[m].content|
    ensures Extends(r.At(i).history, r.At(j).history)
    ensures m < |r.Sent(i)| && b < |r.Sent(i)[m].content| && m < |r.Sent(j)| && b < |r.Sent(j)[m].content|
    ensures
      var v, w := r.Sent(i)[m].content[b], r.Sent(j)[m].content[b];
      w == v || Recut(v, w, r.Source(i, m, b), r.Line(), r.env)
  {
    ShownHistoryGrows(r, i, j);
    ExtendsKeepsBlocks(r.At(i).history, r.At(j).history, m, b);
    ViewKeepsForm(r, i);
    ViewKeepsForm(r, j);
    if ResultAt(r.At(i).history, m, b) {
      ResultIsKept(r, i, j, m, b);
    }
  }

  // The last message of an earlier request may have grown at its end; everything else keeps its form.
  ghost predicate FormKept(v: History, w: History) {
    && |v| <= |w|
    && forall m | 0 <= m < |v| ::
         && w[m].role == v[m].role
         && |v[m].content| <= |w[m].content|
         && (m < |v| - 1 ==> |v[m].content| == |w[m].content|)
  }

  ghost predicate SameForm(v: History, h: History) {
    && |v| == |h|
    && forall m | 0 <= m < |h| :: v[m].role == h[m].role && |v[m].content| == |h[m].content|
  }

  lemma ExtendsKeepsForm(v: History, w: History, h: History, g: History)
    requires SameForm(v, h) && SameForm(w, g) && Extends(h, g)
    ensures FormKept(v, w)
  {
  }

  lemma SentFormIsKept(r: Run, i: nat, j: nat)
    requires i < j && r.Views(i) && r.Views(j) && r.WellFormed(j)
    ensures FormKept(r.Sent(i), r.Sent(j)) && SameForm(r.Sent(i), r.At(i).history)
  {
    ShownHistoryGrows(r, i, j);
    ViewKeepsForm(r, i);
    ViewKeepsForm(r, j);
    ExtendsKeepsForm(r.Sent(i), r.Sent(j), r.At(i).history, r.At(j).history);
  }

  // The append-only law: a later request of the epoch reproduces every message of an earlier one,
  // block for block, whatever the correction factors were; only the hard gate ever replaces a block.
  lemma SentPrefixIsKept(r: Run, i: nat, j: nat)
    requires i < j && r.Views(i) && r.Views(j) && r.WellFormed(j)
    ensures FormKept(r.Sent(i), r.Sent(j)) && |r.Sent(i)| == |r.At(i).history|
    ensures forall m, b | 0 <= m < |r.Sent(i)| && 0 <= b < |r.Sent(i)[m].content| ::
              && b < |r.At(i).history[m].content|
              && var v, w := r.Sent(i)[m].content[b], r.Sent(j)[m].content[b];
                 w == v || Recut(v, w, r.Source(i, m, b), r.Line(), r.env)
  {
    SentFormIsKept(r, i, j);
    forall m, b | 0 <= m < |r.Sent(i)| && 0 <= b < |r.Sent(i)[m].content|
      ensures
        var v, w := r.Sent(i)[m].content[b], r.Sent(j)[m].content[b];
        w == v || Recut(v, w, r.Source(i, m, b), r.Line(), r.env)
    {
      BlockIsKept(r, i, j, m, b);
    }
  }

  lemma NextPinFits(source: ToolResult, pin: Pinned, line: nat, factor: Factor, env: Env)
    requires source.id != [] && pin.sourceHash == SourceFingerprint(source, env)
    ensures
      var next := ShapeOf(NextPin(source, Some(pin), line, factor, env), source);
      ResultTokens(next, 1.0) <= line || Reduce(next, line, 1.0, env).None?
  {
  }

  // From its second view on a result is inside the plain 25% line or cannot be cut any further.
  lemma ResentFitsOrIsMinimal(r: Run, i: nat, j: nat, m: nat, b: nat)
    requires i < j && r.Views(i) && r.Views(j) && r.WellFormed(j) && ResultAt(r.At(i).history, m, b)
    ensures m < |r.Sent(j)| && b < |r.Sent(j)[m].content| && r.Sent(j)[m].content[b].ResultBlock?
    ensures
      var w := r.Sent(j)[m].content[b].result;
      ResultTokens(w, 1.0) <= r.Line() || Reduce(w, r.Line(), 1.0, r.env).None?
  {
    ShownHistoryGrows(r, i, j);
    var source := r.Source(i, m, b).result;
    ViewShowsPin(r, i, m, b);
    PinEvolves(r, i + 1, j, m, b, source);
    ShownIsPinned(r, j, m, b, source);
    ViewShowsPin(r, j, m, b);
    NextPinFits(source, PinAt(r, j, source.id).value, r.Line(), r.steps[j].factor, r.env);
  }

  lemma SourceValid(r: Run, n: nat, m: nat, b: nat)
    requires n <= |r.steps| && ValidHistory(r.At(n).history) && ValidEnv(r.env) && ResultAt(r.At(n).history, m, b)
    ensures ValidResult(r.Source(n, m, b).result)
  {
    var h := r.At(n).history;
    if r.env.compression {
      FoldValid(h, |LedgerOf(h)|, r.env);
      RewriteValid(h[m].content[b], FoldHistory(h, map[], r.env).rendered, r.env);
    }
  }

  lemma PinnedStaysValid(pin: Pinned, source: ToolResult, line: nat, env: Env)
    requires PinnedFrom(pin, source, line, env) && ValidResult(source) && ValidEnv(env)
    ensures ValidResult(ShapeOf(pin, source))
  {
    var factor: Factor :| pin == PinFor(source, line, factor, env);
    CutStaysValid(source, line, factor, env);
  }

  lemma SentResultValid(r: Run, n: nat, m: nat, b: nat)
    requires r.Views(n) && r.WellFormed(n) && ValidHistory(r.At(n).history) && ValidEnv(r.env)
    requires ResultAt(r.At(n).history, m, b)
    ensures m < |r.Sent(n)| && b < |r.Sent(n)[m].content| && r.Sent(n)[m].content[b].ResultBlock?
    ensures ValidResult(r.Sent(n)[m].content[b].result)
  {
    var source := r.Source(n, m, b).result;
    SourceValid(r, n, m, b);
    ViewShowsPin(r, n, m, b);
    var pin := PinAt(r, n + 1, source.id).value;
    assert PinnedFrom(pin, source, r.Line(), r.env) by {
      ViewStaysWellFormed(r, n);
      ShownIsPinned(r, n + 1, m, b, source);
    }
    PinnedStaysValid(pin, source, r.Line(), r.env);
  }

  // No request carries half a code point when the history does not.
  lemma SentStaysValid(r: Run, n: nat)
    requires r.Views(n) && r.WellFormed(n) && ValidHistory(r.At(n).history) && ValidEnv(r.env)
    ensures ValidHistory(r.Sent(n))
  {
    var h, v := r.At(n).history, r.Sent(n);
    ViewKeepsForm(r, n);
    forall m, b | ResultAt(v, m, b) ensures ValidResult(v[m].content[b].result) {
      assert h[m].content[b].ResultBlock?;
      assert ResultAt(h, m, b);
      SentResultValid(r, n, m, b);
    }
  }

  // A block that has changed once never changes again: no result takes more than two shapes in an
  // epoch, and only one when its first shape fits the plain 25% line.
  lemma AtMostTwoShapes(r: Run, i: nat, j: nat, k: nat, m: nat, b: nat)
    requires i < j < k && r.Views(i) && r.Views(j) && r.Views(k) && r.WellFormed(k)
    requires m < |r.At(i).history| && b < |r.At(i).history[m].content|
    ensures m < |r.Sent(i)| && b < |r.Sent(i)[m].content| && m < |r.Sent(j)| && b < |r.Sent(j)[m].content|
    ensures m < |r.Sent(k)| && b < |r.Sent(k)[m].content|
    ensures
      var v, w, x := r.Sent(i)[m].content[b], r.Sent(j)[m].content[b], r.Sent(k)[m].content[b];
      && (w != v ==> x == w)
      && (v.ResultBlock? && ResultTokens(v.result, 1.0) <= r.Line() ==> w == v && x == v)
  {
    ShownHistoryGrows(r, j, k);
    BlockIsKept(r, i, j, m, b);
    BlockIsKept(r, i, k, m, b);
    ExtendsKeepsBlocks(r.At(i).history, r.At(j).history, m, b);
    SourceBlockStable(r.At(i).history, r.At(j).history, r.env, m, b);
    BlockIsKept(r, j, k, m, b);
  }

  // ---- Announcements ------------------------------------------------------------------------

  function NoticeAt(r: Run, n: nat, id: Text): Option<Text>
    requires r.Views(n)
  {
    var notices := Build(r.At(n), r.window, r.steps[n].factor, r.env).notices;
    NoticeOf(notices, |notices|, id)
  }

  // Step `n` announces a truncation of this result.
  predicate AnnouncedAt(r: Run, n: nat, id: Text)
    requires r.Views(n)
  {
    NoticeAt(r, n, id).Some? && NoticeAt(r, n, id) != Find(r.At(n).announced, id)
  }

  // The report flag of a view is set exactly when some result is announced.
  lemma ReportedIffAnnounced(r: Run, n: nat)
    requires r.Views(n) && r.WellFormed(n)
    ensures Build(r.At(n), r.window, r.steps[n].factor, r.env).newly <==> exists id :: AnnouncedAt(r, n, id)
  {
    BooksStayConsistent(r, n);
    BuildPointwise(r.At(n), r.Viewed(n), r.window, r.steps[n].factor, r.env);
    var built := Build(r.At(n), r.window, r.steps[n].factor, r.env);
    AnnounceNewly(built.notices, |built.notices|, r.At(n).announced);
    forall id ensures AnnouncedAt(r, n, id) <==>
                      NoticeOf(built.notices, |built.notices|, id).Some?
                      && NoticeOf(built.notices, |built.notices|, id) != Find(r.At(n).announced, id)
    {
    }
  }

  lemma AnnouncedIsResult(r: Run, n: nat, id: Text) returns (m: nat, b: nat)
    requires r.Views(n) && r.WellFormed(n) && AnnouncedAt(r, n, id)
    ensures ResultAt(r.At(n).history, m, b) && r.Source(n, m, b).result.id == id
  {
    BooksStayConsistent(r, n);
    BuildPointwise(r.At(n), r.Viewed(n), r.window, r.steps[n].factor, r.env);
    var h := r.At(n).history;
    assert MentionedIn(h, |h|, id);
    m, b :| 0 <= m < |h| && ResultAt(h, m, b) && ResultId(h, m, b) == id;
  }

  // An announcement of a result shown before means the hard gate has just replaced its shape.
  lemma AnnouncedAgain(r: Run, n: nat, m: nat, b: nat, source: ToolResult)
    requires r.Views(n) && r.WellFormed(n) && Shown(r, n, m, b, source) && AnnouncedAt(r, n, source.id)
    ensures PinAt(r, n, source.id) != PinAt(r, n + 1, source.id) == Some(HardPin(r, source))
    ensures Shown(r, n + 1, m, b, source)
  {
    ShownIsPinned(r, n, m, b, source);
    ViewShowsPin(r, n, m, b);
    PinStep(r, n, m, b, source);
  }

  // What a first announcement leaves behind: the announced shape is the pinned one.
  lemma AnnouncedShape(r: Run, n: nat, id: Text) returns (m: nat, b: nat, source: ToolResult)
    requires r.Views(n) && r.WellFormed(n) && AnnouncedAt(r, n, id)
    ensures source.id == id && Shown(r, n + 1, m, b, source)
    ensures
      var pin := PinAt(r, n + 1, id);
      && pin.Some? && pin.value.shape.Some?
      && NoticeAt(r, n, id) == Some(SourceFingerprint(pin.value.shape.value, r.env))
  {
    m, b := AnnouncedIsResult(r, n, id);
    source := r.Source(n, m, b).result;
    ViewShowsPin(r, n, m, b);
  }

  // A truncation is announced at most once per shape: two announcements of a result name different
  // shapes.
  lemma AnnouncedOncePerShape(r: Run, i: nat, j: nat, id: Text)
    requires i < j && r.Views(i) && r.Views(j) && r.WellFormed(j)
    requires AnnouncedAt(r, i, id) && AnnouncedAt(r, j, id)
    ensures NoticeAt(r, i, id) != NoticeAt(r, j, id)
  {
    ShownHistoryGrows(r, i, j);
    var m, b, source := AnnouncedShape(r, i, id);
    PinEvolves(r, i + 1, j, m, b, source);
    AnnouncedAgain(r, j, m, b, source);
    ShownIsPinned(r, j, m, b, source);
  }

  // By step `n` the result `id` has been shown; and the hard gate has cut it.
  ghost predicate Seen(r: Run, n: nat, id: Text) {
    n <= |r.steps| && exists m: nat, b: nat, source: ToolResult :: Shown(r, n, m, b, source) && source.id == id
  }

  ghost predicate HardCut(r: Run, n: nat, id: Text) {
    n <= |r.steps| && exists m: nat, b: nat, source: ToolResult ::
      Shown(r, n, m, b, source) && source.id == id && PinAt(r, n, id) == Some(HardPin(r, source))
  }

  // A hard cut stays, and is not announced again.
  lemma HardCutStays(r: Run, n: nat, id: Text)
    requires n < |r.steps| && r.WellFormed(n) && HardCut(r, n, id)
    ensures HardCut(r, n + 1, id) && !(r.Views(n) && AnnouncedAt(r, n, id))
  {
    var m: nat, b: nat, source: ToolResult :|
      Shown(r, n, m, b, source) && source.id == id && PinAt(r, n, id) == Some(HardPin(r, source));
    PinStep(r, n, m, b, source);
    if r.Views(n) && AnnouncedAt(r, n, id) {
      AnnouncedAgain(r, n, m, b, source);
      assert false;
    }
  }

  lemma SeenStays(r: Run, n: nat, id: Text)
    requires n < |r.steps| && r.WellFormed(n) && Seen(r, n, id)
    ensures if r.Views(n) && AnnouncedAt(r, n, id) then HardCut(r, n + 1, id) else Seen(r, n + 1, id)
  {
    var m: nat, b: nat, source: ToolResult :| Shown(r, n, m, b, source) && source.id == id;
    if r.Views(n) && AnnouncedAt(r, n, id) {
      AnnouncedAgain(r, n, m, b, source);
    } else {
      PinStep(r, n, m, b, source);
    }
  }

  lemma FirstAnnouncement(r: Run, n: nat, id: Text)
    requires r.Views(n) && r.WellFormed(n) && AnnouncedAt(r, n, id)
    ensures Seen(r, n + 1, id)
  {
    var m, b, source := AnnouncedShape(r, n, id);
  }

  function Once(r: Run, n: nat, id: Text): nat
    requires n < |r.steps|
  {
    if r.Views(n) && AnnouncedAt(r, n, id) then 1 else 0
  }

  // How often the first `n` steps announce a result.
  function Announcements(r: Run, n: nat, id: Text): nat
    requires n <= |r.steps|
  {
    if n == 0 then 0 else Announcements(r, n - 1, id) + Once(r, n - 1, id)
  }

  // What has become of a result that was announced `count` times.
  ghost predicate Announced(r: Run, n: nat, id: Text, count: nat)
    requires n <= |r.steps|
  {
    && count <= 2
    && (count == 1 ==> Seen(r, n, id))
    && (count == 2 ==> HardCut(r, n, id))
  }

  lemma AnnouncedStep(r: Run, n: nat, id: Text, count: nat)
    requires n < |r.steps| && r.WellFormed(n) && Announced(r, n, id, count)
    ensures Announced(r, n + 1, id, count + Once(r, n, id))
  {
    if count == 2 {
      HardCutStays(r, n, id);
    } else if count == 1 {
      SeenStays(r, n, id);
    } else if r.Views(n) && AnnouncedAt(r, n, id) {
      FirstAnnouncement(r, n, id);
    }
  }

  lemma AnnouncedLater(r: Run, n: nat, last: nat, id: Text, count: nat)
    requires n < last <= |r.steps| && r.WellFormed(last) && Announced(r, n, id, count)
    ensures Announced(r, n + 1, id, count + Once(r, n, id))
  {
    EarlierIsWellFormed(r, n, last);
    AnnouncedStep(r, n, id, count);
  }

  lemma {:induction false} AnnouncedAlways(r: Run, n: nat, last: nat, id: Text)
    requires n <= last <= |r.steps| && r.WellFormed(last)
    ensures Announced(r, n, id, Announcements(r, n, id))
    decreases n
  {
    if n > 0 {
      AnnouncedAlways(r, n - 1, last, id);
      AnnouncedLater(r, n - 1, last, id, Announcements(r, n - 1, id));
    }
  }

  // As a result takes two shapes at most, it is announced at most twice in an epoch; and after the
  // second time its shape is the hard cut.
  lemma AnnouncedAtMostTwice(r: Run, n: nat, id: Text)
    requires n <= |r.steps| && r.WellFormed(n)
    ensures Announcements(r, n, id) <= 2
    ensures Announcements(r, n, id) == 1 ==> Seen(r, n, id)
    ensures Announcements(r, n, id) == 2 ==> HardCut(r, n, id)
  {
    AnnouncedAlways(r, n, n, id);
  }
}
