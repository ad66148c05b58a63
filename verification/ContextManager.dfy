// The class of src/agent/context_manager.hpp: two histories and the books of the current epoch.

module ContextManager {
  import opened Options
  import opened Utf8
  import opened Tokens
  import opened Messages
  import opened Shrink
  import opened Compress
  import opened ContextView
  import RequestRuns

  // A letter joins a trailing user message, so that user and assistant keep alternating; otherwise it
  // opens a message of its own. Anything but a non-empty user message is ignored.
  function Inject(h: History, incoming: Message): History {
    if incoming.role != User || incoming.content == [] then h
    else if h != [] && h[|h| - 1].role == User then
      h[|h| - 1 := h[|h| - 1].(content := h[|h| - 1].content + incoming.content)]
    else h + [incoming]
  }

  method InjectIncomingMessage(h: History, incoming: Message) returns (out: History)
    ensures out == Inject(h, incoming)
  {
    out := h;
    if incoming.role != User || incoming.content == [] {
      return;
    }
    if out != [] && out[|out| - 1].role == User {
      var last := |out| - 1;
      for i := 0 to |incoming.content|
        invariant |out| == |h| && out[..last] == h[..last]
        invariant out[last] == h[last].(content := h[last].content + incoming.content[..i])
      {
        assert incoming.content[..i + 1] == incoming.content[..i] + [incoming.content[i]];
        out := out[last := out[last].(content := out[last].content + [incoming.content[i]])];
      }
      assert incoming.content[..|incoming.content|] == incoming.content;
      assert out == out[..last] + [out[last]] && h[..last] + [h[last]] == h;
      return;
    }
    out := out + [incoming];
  }

  // A letter only ever continues a history: nothing already there is touched.
  lemma InjectContinues(h: History, incoming: Message)
    requires forall c | 0 <= c < |incoming.content| :: !incoming.content[c].ResultBlock?
    ensures Extends(h, Inject(h, incoming))
    ensures h != [] && h[|h| - 1].role == User && incoming.role == User ==> |Inject(h, incoming)| == |h|
  {
    ExtendsReflexive(h);
  }

  // The steps of a run that a letter amounts to.
  function LetterSteps(h: History, incoming: Message): seq<RequestRuns.Step> {
    if incoming.role != User || incoming.content == [] then []
    else if h != [] && h[|h| - 1].role == User then Appends(incoming.content)
    else [RequestRuns.Push(incoming)]
  }

  function Appends(blocks: seq<Block>): seq<RequestRuns.Step> {
    seq(|blocks|, i requires 0 <= i < |blocks| => RequestRuns.Append(blocks[i]))
  }

  lemma {:induction false} AppendsAdvance(c: Context, blocks: seq<Block>, n: nat, window: nat, env: Env)
    requires c.history != [] && n <= |blocks|
    ensures
      var last := |c.history| - 1;
      RequestRuns.Advance(c, Appends(blocks), n, window, env)
      == c.(history := c.history[last := c.history[last].(content := c.history[last].content + blocks[..n])])
  {
    if n == 0 {
      var last := c.history[|c.history| - 1];
      assert last.content + blocks[..0] == last.content;
    } else {
      AppendsAdvance(c, blocks, n - 1, window, env);
      var last := c.history[|c.history| - 1];
      assert last.content + blocks[..n] == last.content + blocks[..n - 1] + [blocks[n - 1]];
    }
  }

  // A letter is nothing, one push, or one append for each of its blocks.
  lemma InjectIsSteps(c: Context, incoming: Message, window: nat, env: Env)
    ensures
      var steps := LetterSteps(c.history, incoming);
      RequestRuns.Advance(c, steps, |steps|, window, env) == c.(history := Inject(c.history, incoming))
  {
    var steps := LetterSteps(c.history, incoming);
    if incoming.role != User || incoming.content == [] {
    } else if c.history != [] && c.history[|c.history| - 1].role == User {
      AppendsAdvance(c, incoming.content, |incoming.content|, window, env);
      assert incoming.content[..|incoming.content|] == incoming.content;
    } else {
      assert RequestRuns.Advance(c, steps, 0, window, env) == c;
    }
  }

  class ContextManager {
    const env: Env
    var history: History
    var requestHistory: History
    var cacheEpoch: nat
    var pendingEpochBreakReason: string
    var decisions: Decisions
    var pins: Pins
    var announced: map<Text, Text>
    // The counters of the last compressed view.
    var structuralStats: Stats

    ghost function Books(): Context
      reads this
    {
      Context(requestHistory, decisions, pins, announced)
    }

    constructor (env: Env)
      ensures this.env == env && history == [] && cacheEpoch == 1 && pendingEpochBreakReason == ""
      ensures Books() == Context([], map[], map[], map[])
    {
      this.env := env;
      history, requestHistory := [], [];
      cacheEpoch, pendingEpochBreakReason := 1, "";
      decisions, pins, announced := map[], map[], map[];
      structuralStats := Stats(NOTHING, 0);
    }

    method PushUserTurn(durable: Message, requestView: Message)
      modifies `history, `requestHistory
      ensures history == old(history) + [durable]
      ensures Books() == old(Books()).(history := old(requestHistory) + [requestView])
    {
      history := history + [durable];
      requestHistory := requestHistory + [requestView];
    }

    method PushMessage(message: Message)
      modifies `history, `requestHistory
      ensures history == old(history) + [message]
      ensures Books() == old(Books()).(history := old(requestHistory) + [message])
    {
      history := history + [message];
      requestHistory := requestHistory + [message];
    }

    method PopMessageBack()
      modifies `history, `requestHistory
      ensures history == DropLast(old(history)) && Books() == old(Books()).(history := DropLast(old(requestHistory)))
    {
      if history != [] {
        history := history[..|history| - 1];
      }
      if requestHistory != [] {
        requestHistory := requestHistory[..|requestHistory| - 1];
      }
    }

    method InjectIncoming(incoming: Message)
      modifies `history, `requestHistory
      ensures history == Inject(old(history), incoming)
      ensures Books() == old(Books()).(history := Inject(old(requestHistory), incoming))
    {
      history := InjectIncomingMessage(history, incoming);
      requestHistory := InjectIncomingMessage(requestHistory, incoming);
    }

    method AppendToLast(block: Block)
      modifies `history, `requestHistory
      ensures history == AppendToMessage(old(history), block)
      ensures Books() == old(Books()).(history := AppendToMessage(old(requestHistory), block))
    {
      if history != [] {
        var last := |history| - 1;
        history := history[last := history[last].(content := history[last].content + [block])];
      }
      AppendToLastRequest(block);
    }

    method AppendToLastRequest(block: Block)
      modifies `requestHistory
      ensures Books() == old(Books()).(history := AppendToMessage(old(requestHistory), block))
    {
      if requestHistory != [] {
        var last := |requestHistory| - 1;
        var grown := requestHistory[last].content + [block];
        requestHistory := requestHistory[last := requestHistory[last].(content := grown)];
      }
    }

    // A new epoch: the whole history is replaced and every book starts empty again.
    method ReplaceHistory(newHistory: History)
      modifies this
      ensures history == newHistory && Books() == Context(newHistory, map[], map[], map[])
      ensures cacheEpoch == old(cacheEpoch) + 1 && pendingEpochBreakReason == "history_compacted"
      ensures structuralStats == old(structuralStats)
    {
      history := newHistory;
      requestHistory := history;
      cacheEpoch := cacheEpoch + 1;
      pendingEpochBreakReason := "history_compacted";
      decisions := map[];
      pins := map[];
      announced := map[];
    }

    // The view of the next request. Committed previews are sent as they are.
    method BuildWorkingView(windowTokens: nat, tokenCalibration: Factor, preserveCommittedPreviews: bool)
      returns (messages: History, notices: seq<Notice>, newlyTruncated: bool)
      modifies `decisions, `pins, `announced, `structuralStats
      ensures preserveCommittedPreviews ==>
        messages == requestHistory && notices == [] && !newlyTruncated && Books() == old(Books())
      ensures !preserveCommittedPreviews ==>
        Built(messages, Books(), notices, newlyTruncated) == Build(old(Books()), windowTokens, tokenCalibration, env)
      ensures structuralStats ==
        if preserveCommittedPreviews || !env.compression then old(structuralStats)
        else Stats(SavedIn(requestHistory, old(decisions), env), |LedgerOf(requestHistory)|)
    {
      if preserveCommittedPreviews {
        return requestHistory, [], false;
      }
      var viewSource := requestHistory;
      if env.compression {
        viewSource, decisions, structuralStats := CompressWorkingView(requestHistory, decisions, env);
      }
      messages, pins, notices := ShrinkOversizedToolResults(viewSource, windowTokens, tokenCalibration, pins, env);
      newlyTruncated := AnnounceTruncations(notices);
    }

    // The loop over the notices of a view.
    method AnnounceTruncations(notices: seq<Notice>) returns (newlyTruncated: bool)
      modifies `announced
      ensures Announcement(announced, newlyTruncated) == Announce(notices, |notices|, old(announced))
    {
      newlyTruncated := false;
      for i := 0 to |notices|
        modifies `announced
        invariant Announcement(announced, newlyTruncated) == Announce(notices, i, old(announced))
      {
        var notice := notices[i];
        if notice.id !in announced {
          announced := announced[notice.id := notice.shapeHash];
          newlyTruncated := true;
        } else if announced[notice.id] != notice.shapeHash {
          announced := announced[notice.id := notice.shapeHash];
          newlyTruncated := true;
        }
      }
    }

    // What the next view would be compressed to from scratch; no book is touched.
    method BuildPressureDryRunView() returns (view: History)
      ensures view == SourceView(Books().(decisions := map[]), env)
    {
      if !env.compression {
        return requestHistory;
      }
      var scratchMemo, scratchStats;
      view, scratchMemo, scratchStats := CompressWorkingView(requestHistory, map[], env);
    }
  }
}
