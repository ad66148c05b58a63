// The event ledger and the lossless structural compression of src/agent/context_events.cpp.

module Compress {
  import opened Options
  import opened Utf8
  import opened Messages

  // ---- Event ledger -------------------------------------------------------------------------

  // The position of an event in the ledger is its id. An exchange without an answer keeps an
  // empty text.
  datatype Event =
    | UserText(message: nat)
    | AssistantText(message: nat)
    | Exchange(message: nat, name: string, id: Text, key: string, paired: bool, content: Text, isError: bool)

  predicate Answered(e: Event) {
    e.Exchange? && e.paired
  }

  function Field(input: map<string, Json>, name: string): string {
    if name !in input then ""
    else match input[name]
      case JString(s) => s
      case JInteger(n) => if n < 0 then "-" + Decimal(-n) else Decimal(n)
      case JOther => ""
  }

  // Only read-only tools are ever deduplicated; an empty key keeps an event out.
  function BuildDedupKey(name: string, input: map<string, Json>): string {
    if name == "read_file" then
      "read|" + Field(input, "path") + "|" + Field(input, "offset") + "|" + Field(input, "limit")
    else if name == "search" || name == "tool_search" then
      "search|" + name + "|" + Field(input, "mode") + "|" + Field(input, "pattern") + "|" + Field(input, "path")
      + "|" + Field(input, "glob") + "|" + Field(input, "query")
    else ""
  }

  // The first result for `id` among the blocks from `b` on.
  function FirstResult(blocks: seq<Block>, b: nat, id: Text): (r: Option<ToolResult>)
    ensures r.Some? ==> exists c :: b <= c < |blocks| && blocks[c] == ResultBlock(r.value) && r.value.id == id
    decreases |blocks| - b
  {
    if b >= |blocks| then None
    else if blocks[b].ResultBlock? && blocks[b].result.id == id then Some(blocks[b].result)
    else FirstResult(blocks, b + 1, id)
  }

  // The answer to a call of message `i` stands in the user message right after it.
  function AnswerTo(h: History, i: nat, id: Text): Option<ToolResult> {
    if i + 1 < |h| && h[i + 1].role == User then FirstResult(h[i + 1].content, 0, id) else None
  }

  function ExchangeOf(h: History, i: nat, call: Block): Event
    requires call.CallBlock?
  {
    var key := BuildDedupKey(call.name, call.input);
    match AnswerTo(h, i, call.id)
    case None => Exchange(i, call.name, call.id, key, false, [], false)
    case Some(r) => Exchange(i, call.name, call.id, key, true, r.content, r.isError)
  }

  function CallEvents(h: History, i: nat, b: nat): seq<Event>
    requires i < |h| && b <= |h[i].content|
  {
    if b == 0 then []
    else
      var rest := CallEvents(h, i, b - 1);
      var block := h[i].content[b - 1];
      if block.CallBlock? then rest + [ExchangeOf(h, i, block)] else rest
  }

  function MessageEvents(h: History, i: nat): seq<Event>
    requires i < |h|
  {
    if IsUserTurnStart(h[i]) then [UserText(i)]
    else
      var calls := CallEvents(h, i, |h[i].content|);
      if calls != [] then calls else if h[i].role == Assistant then [AssistantText(i)] else []
  }

  function Ledger(h: History, n: nat): seq<Event>
    requires n <= |h|
  {
    if n == 0 then [] else Ledger(h, n - 1) + MessageEvents(h, n - 1)
  }

  // The ledger of the whole history.
  function LedgerOf(h: History): seq<Event> {
    Ledger(h, |h|)
  }

  // The pairing loop: the first matching result of the next message, if that is a user message.
  method PairResult(h: History, i: nat, id: Text) returns (answer: Option<ToolResult>)
    requires i < |h|
    ensures answer == AnswerTo(h, i, id)
  {
    if i + 1 >= |h| || h[i + 1].role != User {
      return None;
    }
    var blocks := h[i + 1].content;
    for c := 0 to |blocks|
      invariant FirstResult(blocks, 0, id) == FirstResult(blocks, c, id)
    {
      if blocks[c].ResultBlock? && blocks[c].result.id == id {
        return Some(blocks[c].result);
      }
    }
    return None;
  }

  method BuildEventLedger(h: History) returns (events: seq<Event>)
    ensures events == LedgerOf(h)
  {
    events := [];
    for i := 0 to |h|
      invariant events == Ledger(h, i)
    {
      var message := h[i];
      if IsUserTurnStart(message) {
        events := events + [UserText(i)];
        continue;
      }
      ghost var before := events;
      var hasToolUse := false;
      for b := 0 to |message.content|
        invariant events == before + CallEvents(h, i, b)
        invariant hasToolUse <==> CallEvents(h, i, b) != []
      {
        var block := message.content[b];
        if block.CallBlock? {
          hasToolUse := true;
          var event := Exchange(i, block.name, block.id, BuildDedupKey(block.name, block.input), false, [], false);
          var answer := PairResult(h, i, block.id);
          if answer.Some? {
            event := event.(paired := true, content := answer.value.content, isError := answer.value.isError);
          }
          assert event == ExchangeOf(h, i, block);
          events := events + [event];
        }
      }
      if !hasToolUse && message.role == Assistant {
        events := events + [AssistantText(i)];
      }
    }
  }

  // ---- Decisions ----------------------------------------------------------------------------

  datatype Decision = Full | Artifact | DuplicateRef(ref: nat, seen: nat) | NewVersion(ref: nat)

  type Decisions = map<Text, Decision>

  // The latest fact known for a dedup key.
  datatype KeyState = KeyState(kept: nat, hash: Text, seen: nat)

  type KeyStates = map<string, KeyState>

  function NextState(states: KeyStates, key: string, index: nat, hash: Text): KeyState {
    if key !in states then KeyState(index, hash, 1)
    else if hash == states[key].hash then states[key].(seen := states[key].seen + 1)
    else KeyState(index, hash, 1)
  }

  function Decide(states: KeyStates, e: Event, env: Env): Decision
    requires e.Exchange?
  {
    var size := |e.content|;
    if e.key == "" then Full
    else if e.key !in states then if size > env.longResultBytes then Artifact else Full
    else if size < env.minCompressibleBytes then Full
    else if env.fingerprint(e.content) == states[e.key].hash
      then DuplicateRef(states[e.key].kept, states[e.key].seen + 1)
    else NewVersion(states[e.key].kept)
  }

  function EventId(index: nat): Text {
    Encode("e" + Decimal(index))
  }

  function Join(parts: seq<Text>): Text {
    if parts == [] then [] else parts[0] + Join(parts[1..])
  }

  // A preview of both ends, cut at code point boundaries.
  function Head(content: Text, previewBytes: nat): Text {
    content[..PrefixBoundary(content, if previewBytes < |content| then previewBytes else |content|)]
  }

  function Tail(content: Text, previewBytes: nat): Text {
    content[SuffixBoundary(content, if |content| > previewBytes then |content| - previewBytes else 0)..]
  }

  function RenderArtifact(e: Event, index: nat, env: Env): Text
    requires e.Exchange?
  {
    var w := env.wording;
    Join([w.artifact, EventId(index), w.sha, env.fingerprint(e.content)])
    + Join([w.size, Encode(Decimal(|e.content|)), w.head, Head(e.content, env.previewBytes)])
    + Join([w.tail, Tail(e.content, env.previewBytes), w.archived])
  }

  function RenderNewVersion(ref: nat, body: Text, w: Wording): Text {
    Join([w.newVersion, EventId(ref), w.oldVersion, body])
  }

  // How an event reads in the view.
  function RenderResultView(e: Event, index: nat, decision: Decision, env: Env): Text
    requires e.Exchange?
  {
    var w := env.wording;
    match decision
    case Full => e.content
    case Artifact => RenderArtifact(e, index, env)
    case DuplicateRef(ref, seen) =>
      Join([w.duplicate, EventId(ref), w.sameResult, Encode(e.name)]) + Join([w.seen, Encode(Decimal(seen)), w.times])
    case NewVersion(ref) =>
      RenderNewVersion(ref, if |e.content| > env.longResultBytes then RenderArtifact(e, index, env) else e.content, w)
  }

  // ---- Compression --------------------------------------------------------------------------

  datatype Fold = Fold(states: KeyStates, memo: Decisions, rendered: map<Text, Text>)

  // A pinned decision is replayed; the key states advance either way.
  function Settle(f: Fold, e: Event, index: nat, env: Env): Fold {
    if !Answered(e) then f
    else
      var decision := if e.id in f.memo then f.memo[e.id] else Decide(f.states, e, env);
      Fold(
        if e.key == "" then f.states
        else f.states[e.key := NextState(f.states, e.key, index, env.fingerprint(e.content))],
        f.memo[e.id := decision],
        f.rendered[e.id := RenderResultView(e, index, decision, env)])
  }

  function FoldEvents(events: seq<Event>, n: nat, memo: Decisions, env: Env): Fold
    requires n <= |events|
  {
    if n == 0 then Fold(map[], memo, map[])
    else Settle(FoldEvents(events, n - 1, memo, env), events[n - 1], n - 1, env)
  }

  // What new decisions take out of a view, and how many of each kind there are.
  datatype Savings = Savings(
    duplicates: nat, duplicateBytes: nat, superseded: nat, offloaded: nat, offloadedBytes: nat)
  {
    function Plus(other: Savings): Savings {
      Savings(
        duplicates + other.duplicates, duplicateBytes + other.duplicateBytes, superseded + other.superseded,
        offloaded + other.offloaded, offloadedBytes + other.offloadedBytes)
    }
  }

  const NOTHING := Savings(0, 0, 0, 0, 0)

  // The counters of one compression: its new decisions, and the events of the whole ledger.
  datatype Stats = Stats(savings: Savings, events: nat)

  function Shorter(e: Event, text: Text): nat
    requires e.Exchange?
  {
    if |e.content| > |text| then |e.content| - |text| else 0
  }

  function SavedBy(e: Event, index: nat, decision: Decision, env: Env): Savings
    requires e.Exchange?
  {
    var saved := Shorter(e, RenderResultView(e, index, decision, env));
    match decision
    case Full => NOTHING
    case Artifact => NOTHING.(offloaded := 1, offloadedBytes := saved)
    case DuplicateRef(_, _) => NOTHING.(duplicates := 1, duplicateBytes := saved)
    case NewVersion(ref) => if ref != index then NOTHING.(superseded := 1) else NOTHING
  }

  // A replayed decision was counted when it was made.
  function SavedAt(f: Fold, e: Event, index: nat, env: Env): Savings {
    if !Answered(e) || e.id in f.memo then NOTHING else SavedBy(e, index, Decide(f.states, e, env), env)
  }

  function SavedOver(events: seq<Event>, n: nat, memo: Decisions, env: Env): Savings
    requires n <= |events|
  {
    if n == 0 then NOTHING
    else SavedOver(events, n - 1, memo, env).Plus(
           SavedAt(FoldEvents(events, n - 1, memo, env), events[n - 1], n - 1, env))
  }

  function KeepNonText(blocks: seq<Rich>, n: nat): (kept: seq<Rich>)
    requires n <= |blocks|
    ensures forall k :: 0 <= k < |kept| ==> !kept[k].RichText?
  {
    if n == 0 then []
    else
      var rest := KeepNonText(blocks, n - 1);
      if blocks[n - 1].RichText? then rest else rest + [blocks[n - 1]]
  }

  // Only the text of a rendered result changes; images and structured content stay.
  function Rewrite(b: Block, rendered: map<Text, Text>, env: Env): Block {
    if !b.ResultBlock? || b.result.id !in rendered then b
    else if b.result.blocks == [] then ResultBlock(b.result.(content := rendered[b.result.id]))
    else
      var blocks := [RichText(rendered[b.result.id])] + KeepNonText(b.result.blocks, |b.result.blocks|);
      ResultBlock(b.result.(blocks := blocks, content := env.project(blocks, b.result.structured)))
  }

  ghost predicate Rewritten(view: History, h: History, rendered: map<Text, Text>, env: Env) {
    && |view| == |h|
    && (forall m | 0 <= m < |h| :: view[m].role == h[m].role && |view[m].content| == |h[m].content|)
    && (forall m, b | 0 <= m < |h| && 0 <= b < |h[m].content| ::
        view[m].content[b] == Rewrite(h[m].content[b], rendered, env))
  }

  function RewriteAll(h: History, rendered: map<Text, Text>, env: Env): (view: History)
    ensures Rewritten(view, h, rendered, env)
  {
    seq(|h|, m requires 0 <= m < |h| =>
      h[m].(content :=
        seq(|h[m].content|, b requires 0 <= b < |h[m].content| => Rewrite(h[m].content[b], rendered, env))))
  }

  lemma RewrittenUnique(view: History, h: History, rendered: map<Text, Text>, env: Env)
    requires Rewritten(view, h, rendered, env)
    ensures view == RewriteAll(h, rendered, env)
  {
    var all := RewriteAll(h, rendered, env);
    forall m | 0 <= m < |h| ensures view[m] == all[m] {
      assert view[m].content == all[m].content;
    }
  }

  // The first decision on an event, and the key states after it.
  method DecideEvent(states: KeyStates, event: Event, i: nat, env: Env) returns (decision: Decision, states': KeyStates)
    requires event.Exchange?
    ensures decision == Decide(states, event, env)
    ensures states' == if event.key == "" then states
                       else states[event.key := NextState(states, event.key, i, env.fingerprint(event.content))]
  {
    var hash := env.fingerprint(event.content);
    decision, states' := Full, states;
    if event.key != "" {
      if event.key !in states {
        decision := if |event.content| > env.longResultBytes then Artifact else Full;
        states' := states[event.key := KeyState(i, hash, 1)];
      } else {
        var state := states[event.key];
        if hash == state.hash {
          state := state.(seen := state.seen + 1);
          states' := states[event.key := state];
          var worthwhile := |event.content| >= env.minCompressibleBytes;
          decision := if worthwhile then DuplicateRef(state.kept, state.seen) else Full;
        } else {
          decision := if |event.content| >= env.minCompressibleBytes then NewVersion(state.kept) else Full;
          states' := states[event.key := KeyState(i, hash, 1)];
        }
      }
    }
  }

  // One turn of the loop over the ledger.
  method SettleEvent(states: KeyStates, memo: Decisions, rendered: map<Text, Text>, event: Event, i: nat, env: Env)
    returns (states': KeyStates, memo': Decisions, rendered': map<Text, Text>, saved: Savings)
    ensures Fold(states', memo', rendered') == Settle(Fold(states, memo, rendered), event, i, env)
    ensures saved == SavedAt(Fold(states, memo, rendered), event, i, env)
  {
    states', memo', rendered', saved := states, memo, rendered, NOTHING;
    if !Answered(event) {
      return;
    }
    if event.id in memo {
      rendered' := rendered[event.id := RenderResultView(event, i, memo[event.id], env)];
      assert memo == memo[event.id := memo[event.id]];
      if event.key != "" {
        states' := states[event.key := NextState(states, event.key, i, env.fingerprint(event.content))];
      }
      return;
    }
    var decision;
    decision, states' := DecideEvent(states, event, i, env);
    var text := RenderResultView(event, i, decision, env);
    match decision {
      case Full =>
      case Artifact => saved := NOTHING.(offloaded := 1, offloadedBytes := Shorter(event, text));
      case DuplicateRef(_, _) => saved := NOTHING.(duplicates := 1, duplicateBytes := Shorter(event, text));
      case NewVersion(ref) =>
        if ref != i {
          saved := NOTHING.(superseded := 1);
        }
    }
    memo' := memo[event.id := decision];
    rendered' := rendered[event.id := text];
  }

  // The double loop over messages and blocks.
  method RewriteResults(h: History, rendered: map<Text, Text>, env: Env) returns (view: History)
    ensures view == RewriteAll(h, rendered, env)
  {
    view := h;
    for m := 0 to |h|
      invariant |view| == |h|
      invariant forall n | 0 <= n < |h| :: view[n].role == h[n].role && |view[n].content| == |h[n].content|
      invariant forall n | m <= n < |h| :: view[n] == h[n]
      invariant forall n, b | 0 <= n < m && 0 <= b < |h[n].content| ::
          view[n].content[b] == Rewrite(h[n].content[b], rendered, env)
    {
      var content := h[m].content;
      for b := 0 to |content|
        invariant |content| == |h[m].content|
        invariant forall c | 0 <= c < b :: content[c] == Rewrite(h[m].content[c], rendered, env)
        invariant forall c | b <= c < |content| :: content[c] == h[m].content[c]
      {
        content := content[b := Rewrite(content[b], rendered, env)];
      }
      view := view[m := h[m].(content := content)];
    }
    RewrittenUnique(view, h, rendered, env);
  }

  method CompressWorkingView(h: History, memo: Decisions, env: Env)
    returns (view: History, newMemo: Decisions, stats: Stats)
    ensures
      var f := FoldEvents(LedgerOf(h), |LedgerOf(h)|, memo, env);
      newMemo == f.memo && view == RewriteAll(h, f.rendered, env)
    ensures stats == Stats(SavedOver(LedgerOf(h), |LedgerOf(h)|, memo, env), |LedgerOf(h)|)
  {
    var ledger := BuildEventLedger(h);
    stats := Stats(NOTHING, |ledger|);
    var states: KeyStates := map[];
    var rendered: map<Text, Text> := map[];
    newMemo := memo;
    for i := 0 to |ledger|
      invariant Fold(states, newMemo, rendered) == FoldEvents(ledger, i, memo, env)
      invariant stats == Stats(SavedOver(ledger, i, memo, env), |ledger|)
    {
      var saved;
      states, newMemo, rendered, saved := SettleEvent(states, newMemo, rendered, ledger[i], i, env);
      stats := stats.(savings := stats.savings.Plus(saved));
    }
    view := RewriteResults(h, rendered, env);
  }

  // ---- Stability of the ledger --------------------------------------------------------------

  lemma {:induction false} FirstResultGrown(a: seq<Block>, b: seq<Block>, c: nat, id: Text)
    requires a <= b && c <= |b| && forall k | |a| <= k < |b| :: !b[k].ResultBlock?
    ensures FirstResult(b, c, id) == FirstResult(a, c, id)
    decreases |b| - c
  {
    if c < |b| {
      FirstResultGrown(a, b, c + 1, id);
    }
  }

  lemma {:induction false} CallEventsStable(h: History, g: History, i: nat, b: nat)
    requires Extends(h, g) && i + 1 < |h| && b <= |h[i].content|
    ensures CallEvents(g, i, b) == CallEvents(h, i, b)
  {
    if b > 0 {
      CallEventsStable(h, g, i, b - 1);
      var block := h[i].content[b - 1];
      if block.CallBlock? {
        FirstResultGrown(h[i + 1].content, g[i + 1].content, 0, block.id);
      }
    }
  }

  // Everything before the last message keeps its place in the ledger.
  lemma {:induction false} LedgerStable(h: History, g: History, n: nat)
    requires Extends(h, g) && (n < |h| || n == 0)
    ensures Ledger(g, n) == Ledger(h, n)
  {
    if n > 0 {
      LedgerStable(h, g, n - 1);
      CallEventsStable(h, g, n - 1, |h[n - 1].content|);
    }
  }

  // An exchange comes from a call of its message and carries the answer given to it.
  ghost predicate FromCall(h: History, e: Event) {
    e.Exchange? ==> exists b :: CallAt(h, e.message, b) && e == ExchangeOf(h, e.message, h[e.message].content[b])
  }

  lemma {:induction false} CallEventsFrom(h: History, i: nat, b: nat)
    requires i < |h| && b <= |h[i].content|
    ensures forall e | e in CallEvents(h, i, b) ::
              && e.Exchange? && e.message == i
              && exists c :: 0 <= c < b && CallAt(h, i, c) && e == ExchangeOf(h, i, h[i].content[c])
  {
    if b > 0 {
      CallEventsFrom(h, i, b - 1);
      if h[i].content[b - 1].CallBlock? {
        assert CallAt(h, i, b - 1);
      }
    }
  }

  lemma MessageEventsFrom(h: History, i: nat)
    requires i < |h|
    ensures forall e | e in MessageEvents(h, i) :: e.message == i && FromCall(h, e)
  {
    CallEventsFrom(h, i, |h[i].content|);
  }

  lemma {:induction false} LedgerFrom(h: History, n: nat)
    requires n <= |h|
    ensures forall e | e in Ledger(h, n) :: e.message < n && FromCall(h, e)
  {
    if n > 0 {
      LedgerFrom(h, n - 1);
      MessageEventsFrom(h, n - 1);
    }
  }

  // A longer ledger adds the events of later messages at its end.
  lemma {:induction false} LedgerPrefix(h: History, k: nat, n: nat)
    requires k <= n <= |h|
    ensures Ledger(h, k) <= Ledger(h, n)
    ensures forall j | |Ledger(h, k)| <= j < |Ledger(h, n)| :: Ledger(h, n)[j].message >= k
    decreases n
  {
    if k < n {
      LedgerPrefix(h, k, n - 1);
      MessageEventsFrom(h, n - 1);
    }
  }

  ghost predicate DistinctIds(events: seq<Event>) {
    forall i, j | 0 <= i < j < |events| && events[i].Exchange? && events[j].Exchange? :: events[i].id != events[j].id
  }

  lemma {:induction false} CallEventsDistinct(h: History, i: nat, b: nat)
    requires WellPaired(h) && i < |h| && b <= |h[i].content|
    ensures DistinctIds(CallEvents(h, i, b))
  {
    if b > 0 {
      CallEventsDistinct(h, i, b - 1);
      var rest := CallEvents(h, i, b - 1);
      CallEventsFrom(h, i, b - 1);
      if CallAt(h, i, b - 1) {
        forall k | 0 <= k < |rest| ensures rest[k].id != CallId(h, i, b - 1) {
          assert rest[k] in rest;
          var c :| 0 <= c < b - 1 && CallAt(h, i, c) && rest[k] == ExchangeOf(h, i, h[i].content[c]);
          assert CallId(h, i, c) != CallId(h, i, b - 1);
        }
      }
    }
  }

  // Calls of different messages differ.
  lemma CallsDiffer(h: History, e: Event, f: Event)
    requires WellPaired(h) && FromCall(h, e) && FromCall(h, f) && e.message != f.message && e.Exchange? && f.Exchange?
    ensures e.id != f.id
  {
    var b :| CallAt(h, e.message, b) && e == ExchangeOf(h, e.message, h[e.message].content[b]);
    var c :| CallAt(h, f.message, c) && f == ExchangeOf(h, f.message, h[f.message].content[c]);
    assert CallId(h, e.message, b) != CallId(h, f.message, c);
  }

  ghost predicate Apart(a: seq<Event>, b: seq<Event>) {
    forall i, j | 0 <= i < |a| && 0 <= j < |b| && a[i].Exchange? && b[j].Exchange? :: a[i].id != b[j].id
  }

  lemma DistinctConcat(a: seq<Event>, b: seq<Event>)
    requires DistinctIds(a) && DistinctIds(b) && Apart(a, b)
    ensures DistinctIds(a + b)
  {
  }

  lemma MessagesApart(h: History, n: nat)
    requires WellPaired(h) && n < |h|
    ensures Apart(Ledger(h, n), MessageEvents(h, n))
  {
    LedgerFrom(h, n);
    MessageEventsFrom(h, n);
    var before, last := Ledger(h, n), MessageEvents(h, n);
    forall i, j | 0 <= i < |before| && 0 <= j < |last| && before[i].Exchange? && last[j].Exchange?
      ensures before[i].id != last[j].id
    {
      assert before[i] in before && last[j] in last;
      CallsDiffer(h, before[i], last[j]);
    }
  }

  lemma {:induction false} LedgerDistinct(h: History, n: nat)
    requires WellPaired(h) && n <= |h|
    ensures DistinctIds(Ledger(h, n))
  {
    if n > 0 {
      LedgerDistinct(h, n - 1);
      CallEventsDistinct(h, n - 1, |h[n - 1].content|);
      MessagesApart(h, n - 1);
      DistinctConcat(Ledger(h, n - 1), MessageEvents(h, n - 1));
    }
  }

  // ---- What is answered ---------------------------------------------------------------------

  lemma {:induction false} FirstResultFinds(blocks: seq<Block>, b: nat, c: nat, id: Text)
    requires b <= c < |blocks| && blocks[c].ResultBlock? && blocks[c].result.id == id
    ensures FirstResult(blocks, b, id).Some?
    decreases |blocks| - b
  {
    if b < c {
      FirstResultFinds(blocks, b + 1, c, id);
    }
  }

  // In a well-paired history a call is answered by the one result with its id, if there is one.
  lemma AnswerIsTheResult(h: History, m: nat, b: nat)
    requires WellPaired(h) && CallAt(h, m, b)
    ensures AnswerTo(h, m, CallId(h, m, b)).Some? <==> exists n, c :: Answers(h, m, b, n, c)
    ensures forall n, c | Answers(h, m, b, n, c) :: AnswerTo(h, m, CallId(h, m, b)) == Some(h[n].content[c].result)
  {
    var id := CallId(h, m, b);
    var answer := AnswerTo(h, m, id);
    if answer.Some? {
      var c :| 0 <= c < |h[m + 1].content| && h[m + 1].content[c] == ResultBlock(answer.value) && answer.value.id == id;
      assert Answers(h, m, b, m + 1, c);
    }
    forall n, c | Answers(h, m, b, n, c) ensures answer == Some(h[n].content[c].result) {
      assert n == m + 1;
      FirstResultFinds(h[n].content, 0, c, id);
    }
  }

  ghost predicate Answers(h: History, m: int, b: int, n: int, c: int) {
    CallAt(h, m, b) && ResultAt(h, n, c) && ResultId(h, n, c) == CallId(h, m, b)
  }

  lemma {:induction false} CallIsExchange(h: History, i: nat, c: nat, b: nat)
    requires c < b && i < |h| && b <= |h[i].content| && CallAt(h, i, c)
    ensures ExchangeOf(h, i, h[i].content[c]) in CallEvents(h, i, b)
  {
    if c < b - 1 {
      CallIsExchange(h, i, c, b - 1);
    }
  }

  lemma {:induction false} MessageEventsStand(h: History, i: nat, n: nat, e: Event)
    requires i < n <= |h| && e in MessageEvents(h, i)
    ensures e in Ledger(h, n)
  {
    if i < n - 1 {
      MessageEventsStand(h, i, n - 1, e);
    }
  }

  // Every call outside the user's own input has its exchange in the ledger. It is answered if and only
  // if the history holds a result with its id, and holds what that result says.
  lemma CallsAreAnswered(h: History, m: nat, b: nat) returns (e: Event)
    requires WellPaired(h) && CallAt(h, m, b) && !IsUserTurnStart(h[m])
    ensures e in LedgerOf(h) && e.Exchange? && e.message == m && e.id == CallId(h, m, b)
    ensures e.name == h[m].content[b].name && e.key == BuildDedupKey(h[m].content[b].name, h[m].content[b].input)
    ensures Answered(e) <==> exists n, c :: Answers(h, m, b, n, c)
    ensures !Answered(e) ==> e.content == [] && !e.isError
    ensures forall n, c | Answers(h, m, b, n, c) ::
              e.content == h[n].content[c].result.content && e.isError == h[n].content[c].result.isError
  {
    e := ExchangeOf(h, m, h[m].content[b]);
    CallIsExchange(h, m, b, |h[m].content|);
    MessageEventsStand(h, m, |h|, e);
    AnswerIsTheResult(h, m, b);
  }

  // ---- Dedup keys ---------------------------------------------------------------------------

  ghost predicate NoBar(s: string) {
    '|' !in s
  }

  // Only the read-only tools have keys.
  lemma KeyedTools(name: string, input: map<string, Json>)
    ensures BuildDedupKey(name, input) != "" <==> name == "read_file" || name == "search" || name == "tool_search"
  {
  }

  lemma FirstFieldDecides(a: string, x: string, b: string, y: string)
    requires NoBar(a) && NoBar(b) && a + "|" + x == b + "|" + y
    ensures a == b && x == y
  {
    var s := a + "|" + x;
    assert s[|a|] == '|' && s[|b|] == '|';
    assert forall i | 0 <= i < |a| :: s[i] == a[i];
    assert forall i | 0 <= i < |b| :: s[i] == b[i];
    assert |a| == |b|;
    assert s[..|a|] == a && s[..|b|] == b && s[|a| + 1..] == x && s[|b| + 1..] == y;
  }

  lemma LastFieldDecides(x: string, a: string, y: string, b: string)
    requires NoBar(a) && NoBar(b) && x + "|" + a == y + "|" + b
    ensures a == b && x == y
  {
    var s := x + "|" + a;
    assert s[|x|] == '|' && s[|y|] == '|';
    assert forall i | |x| < i < |s| :: s[i] == a[i - |x| - 1];
    assert forall i | |y| < i < |s| :: s[i] == b[i - |y| - 1];
    assert |x| == |y|;
    assert s[..|x|] == x && s[..|y|] == y && s[|x| + 1..] == a && s[|y| + 1..] == b;
  }

  // Two file reads have the same key if and only if they read the same part of the same file, unless a
  // bar stands in an offset or a limit.
  lemma ReadKeys(i: map<string, Json>, j: map<string, Json>)
    requires NoBar(Field(i, "offset")) && NoBar(Field(i, "limit"))
    requires NoBar(Field(j, "offset")) && NoBar(Field(j, "limit"))
    ensures BuildDedupKey("read_file", i) == BuildDedupKey("read_file", j) <==>
      && Field(i, "path") == Field(j, "path")
      && Field(i, "offset") == Field(j, "offset") && Field(i, "limit") == Field(j, "limit")
  {
    if BuildDedupKey("read_file", i) == BuildDedupKey("read_file", j) {
      var p, q := "read|" + Field(i, "path"), "read|" + Field(j, "path");
      LastFieldDecides(
        p + "|" + Field(i, "offset"), Field(i, "limit"), q + "|" + Field(j, "offset"), Field(j, "limit"));
      LastFieldDecides(p, Field(i, "offset"), q, Field(j, "offset"));
      assert p[5..] == Field(i, "path") && q[5..] == Field(j, "path");
    }
  }

  ghost predicate SearchTool(name: string) {
    name == "search" || name == "tool_search"
  }

  // A bar may stand in the pattern of a search, where it is common.
  ghost predicate BarsInPattern(i: map<string, Json>) {
    NoBar(Field(i, "mode")) && NoBar(Field(i, "path")) && NoBar(Field(i, "glob")) && NoBar(Field(i, "query"))
  }

  ghost predicate SameSearch(i: map<string, Json>, j: map<string, Json>) {
    && Field(i, "mode") == Field(j, "mode") && Field(i, "pattern") == Field(j, "pattern")
    && Field(i, "path") == Field(j, "path") && Field(i, "glob") == Field(j, "glob")
    && Field(i, "query") == Field(j, "query")
  }

  lemma SearchKeys(m: string, i: map<string, Json>, n: string, j: map<string, Json>)
    requires SearchTool(m) && SearchTool(n) && BarsInPattern(i) && BarsInPattern(j)
    ensures BuildDedupKey(m, i) == BuildDedupKey(n, j) <==> m == n && SameSearch(i, j)
  {
    if BuildDedupKey(m, i) == BuildDedupKey(n, j) {
      var a, b := "search|" + m + "|" + Field(i, "mode"), "search|" + n + "|" + Field(j, "mode");
      var c, d := a + "|" + Field(i, "pattern"), b + "|" + Field(j, "pattern");
      var e, f := c + "|" + Field(i, "path"), d + "|" + Field(j, "path");
      LastFieldDecides(e + "|" + Field(i, "glob"), Field(i, "query"), f + "|" + Field(j, "glob"), Field(j, "query"));
      LastFieldDecides(e, Field(i, "glob"), f, Field(j, "glob"));
      LastFieldDecides(c, Field(i, "path"), d, Field(j, "path"));
      HeadFieldsDecide(m, Field(i, "mode"), Field(i, "pattern"), n, Field(j, "mode"), Field(j, "pattern"));
    }
  }

  lemma HeadFieldsDecide(m: string, a: string, x: string, n: string, b: string, y: string)
    requires NoBar(m) && NoBar(n) && NoBar(a) && NoBar(b)
    requires "search|" + m + "|" + a + "|" + x == "search|" + n + "|" + b + "|" + y
    ensures m == n && a == b && x == y
  {
    var s, t := m + "|" + (a + "|" + x), n + "|" + (b + "|" + y);
    assert "search|" + m + "|" + a + "|" + x == "search|" + s && "search|" + n + "|" + b + "|" + y == "search|" + t;
    assert ("search|" + s)[7..] == s && ("search|" + t)[7..] == t;
    FirstFieldDecides(m, a + "|" + x, n, b + "|" + y);
    FirstFieldDecides(a, x, b, y);
  }

  // ---- Memo and scratch agree ---------------------------------------------------------------

  lemma {:induction false} FoldAgrees(a: seq<Event>, b: seq<Event>, n: nat, memo: Decisions, env: Env)
    requires n <= |a| && n <= |b| && forall j | 0 <= j < n :: a[j] == b[j]
    ensures FoldEvents(a, n, memo, env) == FoldEvents(b, n, memo, env)
  {
    if n > 0 {
      FoldAgrees(a, b, n - 1, memo, env);
    }
  }

  lemma {:induction false} FoldSkips(events: seq<Event>, k: nat, n: nat, memo: Decisions, env: Env)
    requires k <= n <= |events| && forall j | k <= j < n :: !Answered(events[j])
    ensures FoldEvents(events, n, memo, env) == FoldEvents(events, k, memo, env)
    decreases n
  {
    if k < n {
      FoldSkips(events, k, n - 1, memo, env);
    }
  }

  // From scratch exactly the answered events are decided and rendered.
  lemma {:induction false} FoldKeys(events: seq<Event>, n: nat, env: Env, id: Text)
    requires n <= |events|
    ensures
      var f := FoldEvents(events, n, map[], env);
      && (id in f.memo <==> exists j :: 0 <= j < n && Answered(events[j]) && events[j].id == id)
      && (id in f.rendered <==> id in f.memo)
  {
    if n > 0 {
      FoldKeys(events, n - 1, env, id);
    }
  }

  // The decision an event gets from scratch.
  function DecisionAt(events: seq<Event>, j: nat, env: Env): Decision
    requires j < |events| && events[j].Exchange?
  {
    Decide(FoldEvents(events, j, map[], env).states, events[j], env)
  }

  lemma {:induction false} FoldDecides(events: seq<Event>, j: nat, n: nat, env: Env)
    requires j < n <= |events| && DistinctIds(events) && Answered(events[j])
    ensures
      var f := FoldEvents(events, n, map[], env);
      && events[j].id in f.memo && f.memo[events[j].id] == DecisionAt(events, j, env)
      && events[j].id in f.rendered
      && f.rendered[events[j].id] == RenderResultView(events[j], j, DecisionAt(events, j, env), env)
    decreases n
  {
    if j == n - 1 {
      FoldKeys(events, j, env, events[j].id);
    } else {
      FoldDecides(events, j, n - 1, env);
    }
  }

  // A fold that replays `memo`, beside one from scratch.
  ghost predicate Replayed(replayed: Fold, scratch: Fold, memo: Decisions) {
    replayed.states == scratch.states && replayed.rendered == scratch.rendered && replayed.memo == memo + scratch.memo
  }

  lemma PinnedEvent(replayed: Fold, scratch: Fold, memo: Decisions, e: Event, i: nat, env: Env)
    requires Replayed(replayed, scratch, memo) && Answered(e) && e.id !in scratch.memo
    requires e.id in memo && memo[e.id] == Decide(scratch.states, e, env)
    ensures Replayed(Settle(replayed, e, i, env), Settle(scratch, e, i, env), memo)
  {
    var decision := memo[e.id];
    assert replayed.memo[e.id] == decision;
    assert (memo + scratch.memo)[e.id := decision] == memo + scratch.memo[e.id := decision];
  }

  lemma FirstSeenEvent(replayed: Fold, scratch: Fold, memo: Decisions, e: Event, i: nat, env: Env)
    requires Replayed(replayed, scratch, memo) && Answered(e) && e.id !in scratch.memo && e.id !in memo
    ensures Replayed(Settle(replayed, e, i, env), Settle(scratch, e, i, env), memo)
  {
    var decision := Decide(scratch.states, e, env);
    assert (memo + scratch.memo)[e.id := decision] == memo + scratch.memo[e.id := decision];
  }

  // The decision of an answered event is made once, from scratch, and never found made before.
  lemma OwnDecision(events: seq<Event>, j: nat, k: nat, env: Env)
    requires j < |events| && k <= |events| && DistinctIds(events) && Answered(events[j])
    ensures events[j].id !in FoldEvents(events, j, map[], env).memo
    ensures
      var memo := FoldEvents(events, k, map[], env).memo;
      events[j].id in memo ==> memo[events[j].id] == DecisionAt(events, j, env)
  {
    FoldKeys(events, j, env, events[j].id);
    FoldKeys(events, k, env, events[j].id);
    if j < k {
      FoldDecides(events, j, k, env);
    }
  }

  // Replaying the decisions of the first `k` events changes nothing.
  lemma {:induction false} OwnMemo(events: seq<Event>, k: nat, n: nat, env: Env)
    requires k <= |events| && n <= |events| && DistinctIds(events)
    ensures
      var memo := FoldEvents(events, k, map[], env).memo;
      Replayed(FoldEvents(events, n, memo, env), FoldEvents(events, n, map[], env), memo)
  {
    var memo := FoldEvents(events, k, map[], env).memo;
    if n > 0 {
      OwnMemo(events, k, n - 1, env);
      var e := events[n - 1];
      var replayed, scratch := FoldEvents(events, n - 1, memo, env), FoldEvents(events, n - 1, map[], env);
      if Answered(e) {
        OwnDecision(events, n - 1, k, env);
        if e.id in memo {
          PinnedEvent(replayed, scratch, memo, e, n - 1, env);
        } else {
          FirstSeenEvent(replayed, scratch, memo, e, n - 1, env);
        }
      }
    }
  }

  function FoldHistory(h: History, memo: Decisions, env: Env): Fold {
    FoldEvents(LedgerOf(h), |LedgerOf(h)|, memo, env)
  }

  // Only exchanges before the last message can have been answered.
  lemma AnsweredEarly(h: History)
    requires h != []
    ensures Ledger(h, |h| - 1) <= LedgerOf(h)
    ensures forall j | |Ledger(h, |h| - 1)| <= j < |LedgerOf(h)| :: !Answered(LedgerOf(h)[j])
  {
    var all, before := LedgerOf(h), Ledger(h, |h| - 1);
    CallEventsFrom(h, |h| - 1, |h[|h| - 1].content|);
    forall j | |before| <= j < |all| ensures !Answered(all[j]) {
      assert all[j] in MessageEvents(h, |h| - 1);
    }
  }

  lemma LastUnanswered(h: History, memo: Decisions, env: Env)
    requires h != []
    ensures FoldHistory(h, memo, env) == FoldEvents(Ledger(h, |h| - 1), |Ledger(h, |h| - 1)|, memo, env)
  {
    var all, before := LedgerOf(h), Ledger(h, |h| - 1);
    AnsweredEarly(h);
    FoldSkips(all, |before|, |all|, memo, env);
    FoldAgrees(all, before, |before|, memo, env);
  }

  // How much of the ledger of a longer history was settled at the time of `h`.
  function SettledEvents(h: History): nat {
    if h == [] then 0 else |Ledger(h, |h| - 1)|
  }

  lemma {:induction false} SettledEventsStay(h: History, g: History)
    requires Extends(h, g)
    ensures SettledEvents(h) <= |LedgerOf(g)|
    ensures h != [] ==> Ledger(h, |h| - 1) == LedgerOf(g)[..SettledEvents(h)]
    ensures forall j | SettledEvents(h) <= j < |LedgerOf(g)| :: LedgerOf(g)[j].message >= |h| - 1
  {
    if h != [] {
      LedgerStable(h, g, |h| - 1);
      LedgerPrefix(g, |h| - 1, |g|);
    }
  }

  lemma SettledPrefix(h: History, g: History, env: Env)
    requires Extends(h, g)
    ensures SettledEvents(h) <= |LedgerOf(g)|
    ensures FoldHistory(h, map[], env) == FoldEvents(LedgerOf(g), SettledEvents(h), map[], env)
  {
    SettledEventsStay(h, g);
    if h != [] {
      var early, all, k := Ledger(h, |h| - 1), LedgerOf(g), SettledEvents(h);
      LastUnanswered(h, map[], env);
      assert forall j | 0 <= j < k :: early[j] == all[..k][j];
      FoldAgrees(early, all, k, map[], env);
    }
  }

  lemma FoldGrows(events: seq<Event>, k: nat, n: nat, env: Env, id: Text)
    requires k <= n <= |events| && DistinctIds(events)
    ensures
      var early, late := FoldEvents(events, k, map[], env), FoldEvents(events, n, map[], env);
      && (id in early.rendered <==> id in early.memo)
      && (id in early.memo ==>
            && id in late.memo && late.memo[id] == early.memo[id]
            && id in late.rendered && late.rendered[id] == early.rendered[id])
  {
    FoldKeys(events, k, env, id);
    if j :| 0 <= j < k && Answered(events[j]) && events[j].id == id {
      FoldDecides(events, j, k, env);
      FoldDecides(events, j, n, env);
    }
  }

  // Carrying the memo of an earlier view into a longer history gives exactly what compressing that
  // history from scratch gives: same texts, same decisions.
  lemma MemoAgreesWithScratch(h: History, g: History, env: Env)
    requires Extends(h, g) && WellPaired(g)
    ensures FoldHistory(g, FoldHistory(h, map[], env).memo, env) == FoldHistory(g, map[], env)
  {
    var all, k := LedgerOf(g), SettledEvents(h);
    SettledPrefix(h, g, env);
    LedgerDistinct(g, |g|);
    OwnMemo(all, k, |all|, env);
    var memo, scratch := FoldEvents(all, k, map[], env).memo, FoldEvents(all, |all|, map[], env).memo;
    forall id | id in memo ensures id in scratch && scratch[id] == memo[id] {
      FoldGrows(all, k, |all|, env, id);
    }
    assert memo + scratch == scratch;
  }

  // ---- Nothing is counted twice -------------------------------------------------------------

  lemma SavedNext(events: seq<Event>, n: nat, memo: Decisions, env: Env)
    requires 0 < n <= |events|
    ensures SavedOver(events, n, memo, env)
         == SavedOver(events, n - 1, memo, env).Plus(
              SavedAt(FoldEvents(events, n - 1, memo, env), events[n - 1], n - 1, env))
  {
  }

  lemma SavedStays(events: seq<Event>, n: nat, memo: Decisions, env: Env)
    requires 0 < n <= |events|
    requires SavedAt(FoldEvents(events, n - 1, memo, env), events[n - 1], n - 1, env) == NOTHING
    ensures SavedOver(events, n, memo, env) == SavedOver(events, n - 1, memo, env)
  {
    SavedNext(events, n, memo, env);
    PlusAssociates(SavedOver(events, n - 1, memo, env), NOTHING, NOTHING);
  }

  lemma {:induction false} SavedAgrees(a: seq<Event>, b: seq<Event>, n: nat, env: Env)
    requires n <= |a| && n <= |b| && forall j | 0 <= j < n :: a[j] == b[j]
    ensures SavedOver(a, n, map[], env) == SavedOver(b, n, map[], env)
  {
    if n > 0 {
      SavedAgrees(a, b, n - 1, env);
      FoldAgrees(a, b, n - 1, map[], env);
      SavedNext(a, n, map[], env);
      SavedNext(b, n, map[], env);
    }
  }

  lemma {:induction false} SavedSkips(events: seq<Event>, k: nat, n: nat, env: Env)
    requires k <= n <= |events| && forall j | k <= j < n :: !Answered(events[j])
    ensures SavedOver(events, n, map[], env) == SavedOver(events, k, map[], env)
    decreases n
  {
    if k < n {
      SavedSkips(events, k, n - 1, env);
      SavedStays(events, n, map[], env);
    }
  }

  // Under the decisions of the first `k` events the others are counted as from scratch.
  lemma SavedStep(events: seq<Event>, k: nat, j: nat, env: Env)
    requires k <= |events| && j < |events| && DistinctIds(events)
    ensures
      var memo := FoldEvents(events, k, map[], env).memo;
      SavedAt(FoldEvents(events, j, memo, env), events[j], j, env)
      == if j < k then NOTHING else SavedAt(FoldEvents(events, j, map[], env), events[j], j, env)
  {
    if Answered(events[j]) {
      OwnMemo(events, k, j, env);
      OwnDecision(events, j, k, env);
      FoldKeys(events, k, env, events[j].id);
    }
  }

  lemma PlusAssociates(a: Savings, b: Savings, c: Savings)
    ensures a.Plus(b).Plus(c) == a.Plus(b.Plus(c)) && a.Plus(NOTHING) == a && NOTHING.Plus(a) == a
  {
  }

  // The first of the sums grows up to `k`, the second after it.
  ghost predicate Splits(first: Savings, second: Savings, whole: Savings) {
    first.Plus(second) == whole
  }

  lemma OneMoreSaved(first: Savings, second: Savings, whole: Savings, more: Savings)
    requires Splits(first, second, whole)
    ensures Splits(first, second.Plus(more), whole.Plus(more))
  {
    PlusAssociates(first, second, more);
  }

  ghost predicate SavesNothing(events: seq<Event>, j: nat, memo: Decisions, env: Env) {
    j < |events| && SavedAt(FoldEvents(events, j, memo, env), events[j], j, env) == NOTHING
  }

  lemma {:induction false} NothingOver(events: seq<Event>, n: nat, memo: Decisions, env: Env)
    requires n <= |events| && forall j | 0 <= j < n :: SavesNothing(events, j, memo, env)
    ensures SavedOver(events, n, memo, env) == NOTHING
  {
    if n > 0 {
      NothingOver(events, n - 1, memo, env);
      assert SavesNothing(events, n - 1, memo, env);
      SavedStays(events, n, memo, env);
    }
  }

  lemma NothingBefore(events: seq<Event>, k: nat, env: Env)
    requires k <= |events| && DistinctIds(events)
    ensures SavedOver(events, k, FoldEvents(events, k, map[], env).memo, env) == NOTHING
  {
    var memo := FoldEvents(events, k, map[], env).memo;
    forall j | 0 <= j < k ensures SavesNothing(events, j, memo, env) {
      SavedStep(events, k, j, env);
    }
    NothingOver(events, k, memo, env);
  }

  // What the first `k` events saved, and what the next ones up to `n` save under their decisions, is what
  // the first `n` save.
  ghost predicate SplitsAt(events: seq<Event>, k: nat, n: nat, env: Env)
    requires k <= n <= |events|
  {
    Splits(
      SavedOver(events, k, map[], env), SavedOver(events, n, FoldEvents(events, k, map[], env).memo, env),
      SavedOver(events, n, map[], env))
  }

  lemma SplitNext(events: seq<Event>, k: nat, n: nat, env: Env)
    requires k < n <= |events| && DistinctIds(events) && SplitsAt(events, k, n - 1, env)
    ensures SplitsAt(events, k, n, env)
  {
    var memo, first, j := FoldEvents(events, k, map[], env).memo, SavedOver(events, k, map[], env), n - 1;
    var more := SavedAt(FoldEvents(events, j, map[], env), events[j], j, env);
    SavedStep(events, k, j, env);
    SavedNext(events, n, memo, env);
    SavedNext(events, n, map[], env);
    OneMoreSaved(first, SavedOver(events, j, memo, env), SavedOver(events, j, map[], env), more);
  }

  lemma SplitFirst(events: seq<Event>, k: nat, env: Env)
    requires k <= |events| && DistinctIds(events)
    ensures SplitsAt(events, k, k, env)
  {
    NothingBefore(events, k, env);
    PlusAssociates(SavedOver(events, k, map[], env), NOTHING, NOTHING);
  }

  lemma {:induction false} SavedSplits(events: seq<Event>, k: nat, n: nat, env: Env)
    requires k <= n <= |events| && DistinctIds(events)
    ensures SplitsAt(events, k, n, env)
    decreases n
  {
    if n == k {
      SplitFirst(events, k, env);
    } else {
      SavedSplits(events, k, n - 1, env);
      SplitNext(events, k, n, env);
    }
  }

  function SavedIn(h: History, memo: Decisions, env: Env): Savings {
    SavedOver(LedgerOf(h), |LedgerOf(h)|, memo, env)
  }

  lemma SavedPrefix(h: History, g: History, env: Env)
    requires Extends(h, g)
    ensures SettledEvents(h) <= |LedgerOf(g)|
    ensures SavedIn(h, map[], env) == SavedOver(LedgerOf(g), SettledEvents(h), map[], env)
  {
    SettledEventsStay(h, g);
    if h != [] {
      var early, mine, all, k := Ledger(h, |h| - 1), LedgerOf(h), LedgerOf(g), SettledEvents(h);
      AnsweredEarly(h);
      SavedSkips(mine, k, |mine|, env);
      assert forall j | 0 <= j < k :: early[j] == all[..k][j];
      SavedAgrees(mine, early, k, env);
      SavedAgrees(early, all, k, env);
    }
  }

  // What compressing a history saved, and what compressing a continuation with the decisions made then
  // saves, add up to what compressing the continuation from scratch saves.
  lemma SavingsAddUp(h: History, g: History, env: Env)
    requires Extends(h, g) && WellPaired(g)
    ensures SavedIn(h, map[], env).Plus(SavedIn(g, FoldHistory(h, map[], env).memo, env)) == SavedIn(g, map[], env)
  {
    var all, k := LedgerOf(g), SettledEvents(h);
    SettledPrefix(h, g, env);
    SavedPrefix(h, g, env);
    LedgerDistinct(g, |g|);
    SavedSplits(all, k, |all|, env);
    assert Splits(
      SavedIn(h, map[], env), SavedIn(g, FoldHistory(h, map[], env).memo, env), SavedIn(g, map[], env));
  }

  // ---- What the savings count ---------------------------------------------------------------

  // The answered events, among the first `n`, whose decision from scratch is of some kind.
  function Decided(kind: Decision -> bool, events: seq<Event>, n: nat, env: Env): nat
    requires n <= |events|
  {
    if n == 0 then 0
    else
      var hit := Answered(events[n - 1]) && kind(DecisionAt(events, n - 1, env));
      Decided(kind, events, n - 1, env) + if hit then 1 else 0
  }

  // The bytes by which their texts became shorter.
  function Trimmed(kind: Decision -> bool, events: seq<Event>, n: nat, env: Env): nat
    requires n <= |events|
  {
    if n == 0 then 0
    else
      var j := n - 1;
      var hit := Answered(events[j]) && kind(DecisionAt(events, j, env));
      Trimmed(kind, events, j, env) + if hit then ByteGain(events, j, env) else 0
  }

  function ByteGain(events: seq<Event>, j: nat, env: Env): nat
    requires j < |events| && events[j].Exchange?
  {
    var before, after := |events[j].content|, |RenderResultView(events[j], j, DecisionAt(events, j, env), env)|;
    if after <= before then before - after else 0
  }

  predicate IsDuplicate(d: Decision) {
    d.DuplicateRef?
  }

  predicate IsNewVersion(d: Decision) {
    d.NewVersion?
  }

  predicate IsArtifact(d: Decision) {
    d.Artifact?
  }

  lemma {:induction false} KeptIsEarlier(events: seq<Event>, n: nat, env: Env, key: string)
    requires n <= |events|
    ensures var states := FoldEvents(events, n, map[], env).states; key in states ==> states[key].kept < n
  {
    if n > 0 {
      KeptIsEarlier(events, n - 1, env, key);
    }
  }

  ghost predicate CountedOnce(saved: Savings, events: seq<Event>, j: nat, env: Env)
    requires j < |events|
  {
    if !Answered(events[j]) then saved == Savings(0, 0, 0, 0, 0)
    else
      var d, gain := DecisionAt(events, j, env), ByteGain(events, j, env);
      && saved.duplicates == (if d.DuplicateRef? then 1 else 0)
      && saved.superseded == (if d.NewVersion? then 1 else 0)
      && saved.offloaded == (if d.Artifact? then 1 else 0)
      && saved.duplicateBytes == (if d.DuplicateRef? then gain else 0)
      && saved.offloadedBytes == (if d.Artifact? then gain else 0)
  }

  lemma SavedFirst(events: seq<Event>, j: nat, env: Env)
    requires j < |events| && DistinctIds(events)
    ensures CountedOnce(SavedAt(FoldEvents(events, j, map[], env), events[j], j, env), events, j, env)
  {
    if Answered(events[j]) {
      OwnDecision(events, j, j, env);
      KeptIsEarlier(events, j, env, events[j].key);
    }
  }

  ghost predicate Tallied(saved: Savings, events: seq<Event>, n: nat, env: Env)
    requires n <= |events|
  {
    && saved.duplicates == Decided(IsDuplicate, events, n, env)
    && saved.superseded == Decided(IsNewVersion, events, n, env)
    && saved.offloaded == Decided(IsArtifact, events, n, env)
    && saved.duplicateBytes == Trimmed(IsDuplicate, events, n, env)
    && saved.offloadedBytes == Trimmed(IsArtifact, events, n, env)
  }

  lemma NextTally(saved: Savings, more: Savings, events: seq<Event>, j: nat, env: Env)
    requires j < |events| && Tallied(saved, events, j, env) && CountedOnce(more, events, j, env)
    ensures Tallied(saved.Plus(more), events, j + 1, env)
  {
  }

  // From scratch the counters are the numbers of duplicates, new versions and previews, and the bytes these
  // are shorter by.
  lemma {:induction false} SavingsMean(events: seq<Event>, n: nat, env: Env)
    requires n <= |events| && DistinctIds(events)
    ensures Tallied(SavedOver(events, n, map[], env), events, n, env)
  {
    if n > 0 {
      var j := n - 1;
      SavingsMean(events, j, env);
      SavedNext(events, n, map[], env);
      SavedFirst(events, j, env);
      NextTally(
        SavedOver(events, j, map[], env), SavedAt(FoldEvents(events, j, map[], env), events[j], j, env), events, j,
        env);
    }
  }

  // A block that has been rendered once is rendered the same way in every continuation.
  lemma ScratchStable(h: History, g: History, env: Env, m: nat, b: nat)
    requires Extends(h, g) && WellPaired(g) && m < |h| && b < |h[m].content|
    ensures b < |g[m].content|
    ensures Rewrite(g[m].content[b], FoldHistory(g, map[], env).rendered, env)
         == Rewrite(h[m].content[b], FoldHistory(h, map[], env).rendered, env)
  {
    ExtendsKeepsBlocks(h, g, m, b);
    if h[m].content[b].ResultBlock? {
      var id := h[m].content[b].result.id;
      var all, k := LedgerOf(g), SettledEvents(h);
      SettledEventsStay(h, g);
      SettledPrefix(h, g, env);
      LedgerDistinct(g, |g|);
      FoldGrows(all, k, |all|, env, id);
      FoldKeys(all, |all|, env, id);
      if j :| 0 <= j < |all| && Answered(all[j]) && all[j].id == id {
        AnswerBelongs(g, m, b, j);
        FoldKeys(all, k, env, id);
      }
    }
  }

  // A result is the answer of an exchange of the message before it.
  lemma AnswerBelongs(g: History, m: nat, b: nat, j: nat)
    requires WellPaired(g) && ResultAt(g, m, b) && j < |LedgerOf(g)|
    requires Answered(LedgerOf(g)[j]) && LedgerOf(g)[j].id == ResultId(g, m, b)
    ensures LedgerOf(g)[j].message == m - 1
  {
    var e := LedgerOf(g)[j];
    LedgerFrom(g, |g|);
    assert e in LedgerOf(g);
    var c :| CallAt(g, e.message, c) && e == ExchangeOf(g, e.message, g[e.message].content[c]);
    assert CallId(g, e.message, c) == ResultId(g, m, b);
  }
}
