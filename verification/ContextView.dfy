// The request view of src/agent/context_manager.cpp.

module ContextView {
  import opened Options
  import opened Collections
  import opened Utf8
  import opened Tokens
  import opened Messages
  import opened Shrink
  import opened Compress

  // What decides the next request: the request history and the books kept since the epoch began.
  datatype Context = Context(
    history: History, decisions: Decisions, pins: Pins, announced: map<Text, Text>)

  // The block joins the last message of a non-empty history.
  function AppendToMessage(h: History, block: Block): History {
    if h == [] then h else h[|h| - 1 := h[|h| - 1].(content := h[|h| - 1].content + [block])]
  }

  // ---- Announcements ------------------------------------------------------------------------

  datatype Announcement = Announcement(announced: map<Text, Text>, newly: bool)

  // A truncation is announced when its shape is not the one announced last for that result.
  function Announce(notices: seq<Notice>, n: nat, announced: map<Text, Text>): Announcement
    requires n <= |notices|
  {
    if n == 0 then Announcement(announced, false)
    else
      var before := Announce(notices, n - 1, announced);
      var notice := notices[n - 1];
      if Find(before.announced, notice.id) == Some(notice.shapeHash) then before
      else Announcement(before.announced[notice.id := notice.shapeHash], true)
  }

  lemma {:induction false} AnnouncePointwise(notices: seq<Notice>, n: nat, announced: map<Text, Text>, id: Text)
    requires n <= |notices| && OncePerId(notices)
    ensures
      var after := Announce(notices, n, announced).announced;
      Find(after, id) == if NoticeOf(notices, n, id).Some? then NoticeOf(notices, n, id) else Find(announced, id)
  {
    if n > 0 {
      AnnouncePointwise(notices, n - 1, announced, id);
      NoticeAbsent(notices, n - 1, notices[n - 1].id);
      AnnouncePointwise(notices, n - 1, announced, notices[n - 1].id);
    }
  }

  lemma {:induction false} AnnounceNewly(notices: seq<Notice>, n: nat, announced: map<Text, Text>)
    requires n <= |notices| && OncePerId(notices)
    ensures Announce(notices, n, announced).newly
       <==> exists id :: NoticeOf(notices, n, id).Some? && NoticeOf(notices, n, id) != Find(announced, id)
  {
    if n > 0 {
      var last := notices[n - 1];
      AnnounceNewly(notices, n - 1, announced);
      AnnouncePointwise(notices, n - 1, announced, last.id);
      NoticeAbsent(notices, n - 1, last.id);
      forall id | id != last.id ensures NoticeOf(notices, n, id) == NoticeOf(notices, n - 1, id) {
      }
      assert NoticeOf(notices, n, last.id) == Some(last.shapeHash);
    }
  }

  // ---- One view -----------------------------------------------------------------------------

  datatype Built = Built(view: History, next: Context, notices: seq<Notice>, newly: bool)

  function SourceView(c: Context, env: Env): History {
    if env.compression then RewriteAll(c.history, FoldHistory(c.history, c.decisions, env).rendered, env) else c.history
  }

  function Build(c: Context, window: nat, factor: Factor, env: Env): Built {
    var source := SourceView(c, env);
    var s := ShrinkMessages(source, |source|, Books(c.pins, []), Line(window), factor, env);
    var a := Announce(s.books.notices, |s.books.notices|, c.announced);
    Built(
      s.messages,
      Context(c.history,
              if env.compression then FoldHistory(c.history, c.decisions, env).memo else c.decisions,
              s.books.pins, a.announced),
      s.books.notices, a.newly)
  }

  // The text a block is cut from: what compressing the history from scratch makes of it.
  function SourceBlock(h: History, env: Env, m: nat, b: nat): (source: Block)
    requires m < |h| && b < |h[m].content|
    ensures source.ResultBlock? == h[m].content[b].ResultBlock?
    ensures source.ResultBlock? ==> source.result.id == h[m].content[b].result.id
  {
    if env.compression then Rewrite(h[m].content[b], FoldHistory(h, map[], env).rendered, env) else h[m].content[b]
  }

  lemma SourceBlockStable(h: History, g: History, env: Env, m: nat, b: nat)
    requires Extends(h, g) && WellPaired(g) && m < |h| && b < |h[m].content|
    ensures b < |g[m].content| && SourceBlock(g, env, m, b) == SourceBlock(h, env, m, b)
  {
    ExtendsKeepsBlocks(h, g, m, b);
    if env.compression {
      ScratchStable(h, g, env, m, b);
    }
  }

  // A pin taken for this source, in this window, under some factor.
  ghost predicate PinnedFrom(pin: Pinned, source: ToolResult, line: nat, env: Env) {
    exists factor: Factor :: pin == PinFor(source, line, factor, env)
  }

  // What the books say about the result at (m, b) of the history last viewed.
  ghost predicate Booked(c: Context, h: History, m: int, b: int, line: nat, env: Env)
    requires ResultAt(h, m, b)
  {
    var source := SourceBlock(h, env, m, b).result;
    var pin := Find(c.pins, source.id);
    && pin.Some? && PinnedFrom(pin.value, source, line, env)
    && (pin.value.shape.Some? ==> Find(c.announced, source.id) == Some(SourceFingerprint(pin.value.shape.value, env)))
  }

  // The books match the history `viewed` at the last view.
  ghost predicate Consistent(c: Context, viewed: History, line: nat, env: Env) {
    && Extends(viewed, c.history)
    && (env.compression ==> c.decisions == FoldHistory(viewed, map[], env).memo)
    && (forall m, b | ResultAt(viewed, m, b) :: Booked(c, viewed, m, b, line, env))
    && (forall id | !MentionedIn(viewed, |viewed|, id) :: Find(c.pins, id).None? && Find(c.announced, id).None?)
  }

  lemma SourceKeepsIdentities(c: Context, viewed: History, line: nat, env: Env)
    requires Consistent(c, viewed, line, env) && WellPaired(c.history)
    ensures
      var source := SourceView(c, env);
      && |source| == |c.history|
      && (forall m | 0 <= m < |source| ::
            source[m].role == c.history[m].role && |source[m].content| == |c.history[m].content|)
      && (forall m, b | 0 <= m < |source| && 0 <= b < |source[m].content| ::
            source[m].content[b] == SourceBlock(c.history, env, m, b))
      && DistinctResults(source)
  {
    if env.compression {
      MemoAgreesWithScratch(viewed, c.history, env);
    }
    var source := SourceView(c, env);
    forall m, b | 0 <= m < |source| && 0 <= b < |source[m].content|
      ensures source[m].content[b] == SourceBlock(c.history, env, m, b)
    {
    }
    forall m, b | ResultAt(source, m, b)
      ensures ResultAt(c.history, m, b) && ResultId(source, m, b) == ResultId(c.history, m, b)
    {
    }
  }

  // The dry run, which starts from no decisions at all, shows exactly what the next request is built
  // from.
  lemma DryRunIsExact(c: Context, viewed: History, line: nat, env: Env)
    requires Consistent(c, viewed, line, env) && WellPaired(c.history)
    ensures SourceView(c.(decisions := map[]), env) == SourceView(c, env)
  {
    if env.compression {
      MemoAgreesWithScratch(viewed, c.history, env);
    }
  }

  // Blockwise meaning of one view: each result is its source, shaped by its own pin.
  lemma BuildPointwise(c: Context, viewed: History, window: nat, factor: Factor, env: Env)
    requires Consistent(c, viewed, Line(window), env) && WellPaired(c.history)
    ensures
      var built := Build(c, window, factor, env);
      && |built.view| == |c.history|
      && (forall m | 0 <= m < |c.history| ::
            built.view[m].role == c.history[m].role && |built.view[m].content| == |c.history[m].content|)
      && (forall m, b | 0 <= m < |c.history| && 0 <= b < |c.history[m].content| ::
            built.view[m].content[b] == Shaped(SourceBlock(c.history, env, m, b), c.pins, Line(window), factor, env))
      && OncePerId(built.notices)
      && (forall m, b | ResultAt(c.history, m, b) ::
            var source := SourceBlock(c.history, env, m, b).result;
            var pin := Find(c.pins, source.id);
            && Find(built.next.pins, source.id) == Some(NextPin(source, pin, Line(window), factor, env))
            && NoticeOf(built.notices, |built.notices|, source.id) == NoticeFor(source, pin, Line(window), factor, env))
      && (forall id | !MentionedIn(c.history, |c.history|, id) ::
            Find(built.next.pins, id) == Find(c.pins, id) && NoticeOf(built.notices, |built.notices|, id).None?)
  {
    SourceKeepsIdentities(c, viewed, Line(window), env);
    var source := SourceView(c, env);
    ShrinkPointwise(source, c.pins, Line(window), factor, env);
    forall m, b | ResultAt(c.history, m, b)
      ensures ResultAt(source, m, b) && source[m].content[b] == SourceBlock(c.history, env, m, b)
    {
    }
    forall id | !MentionedIn(c.history, |c.history|, id) ensures !MentionedIn(source, |source|, id) {
      forall m, b | ResultAt(source, m, b) ensures ResultId(source, m, b) != id {
        assert ResultAt(c.history, m, b);
      }
    }
    forall id | !MentionedIn(c.history, |c.history|, id)
      ensures
        var built := Build(c, window, factor, env);
        Find(built.next.pins, id) == Find(c.pins, id) && NoticeOf(built.notices, |built.notices|, id).None?
    {
      MessagesLeaveOthers(source, |source|, Books(c.pins, []), Line(window), factor, env, id);
    }
  }

  lemma NextPinIsPinned(source: ToolResult, pin: Option<Pinned>, line: nat, factor: Factor, env: Env)
    requires source.id != [] && (pin.Some? ==> PinnedFrom(pin.value, source, line, env))
    ensures
      var next := NextPin(source, pin, line, factor, env);
      && PinnedFrom(next, source, line, env)
      && (pin.Some? ==> next == if ResultTokens(ShapeOf(pin.value, source), 1.0) <= line then pin.value
                                else PinFor(source, line, 1.0, env))
      && (pin.None? ==> next == PinFor(source, line, factor, env))
  {
  }

  lemma UnseenPin(c: Context, viewed: History, line: nat, env: Env, m: nat, b: nat)
    requires Consistent(c, viewed, line, env) && WellPaired(c.history) && ResultAt(c.history, m, b)
    ensures
      var source := SourceBlock(c.history, env, m, b).result;
      var pin := Find(c.pins, source.id);
      && source.id != []
      && (if ResultAt(viewed, m, b)
          then Booked(c, viewed, m, b, line, env) && SourceBlock(viewed, env, m, b).result == source
          else pin.None? && Find(c.announced, source.id).None?)
  {
    if ResultAt(viewed, m, b) {
      SourceBlockStable(viewed, c.history, env, m, b);
    } else {
      forall n, d | ResultAt(viewed, n, d) ensures ResultId(viewed, n, d) != ResultId(c.history, m, b) {
        ExtendsKeepsBlocks(viewed, c.history, n, d);
        assert ResultAt(c.history, n, d);
      }
    }
  }

  // Every view leaves the books matching the history it has just shown.
  lemma BuildKeepsConsistent(c: Context, viewed: History, window: nat, factor: Factor, env: Env)
    requires Consistent(c, viewed, Line(window), env) && WellPaired(c.history)
    ensures Consistent(Build(c, window, factor, env).next, c.history, Line(window), env)
  {
    var line, built := Line(window), Build(c, window, factor, env);
    BuildPointwise(c, viewed, window, factor, env);
    if env.compression {
      MemoAgreesWithScratch(viewed, c.history, env);
    }
    forall m, b | ResultAt(c.history, m, b) ensures Booked(built.next, c.history, m, b, line, env) {
      var source := SourceBlock(c.history, env, m, b).result;
      UnseenPin(c, viewed, line, env, m, b);
      NextPinIsPinned(source, Find(c.pins, source.id), line, factor, env);
      AnnouncePointwise(built.notices, |built.notices|, c.announced, source.id);
    }
    forall id | !MentionedIn(c.history, |c.history|, id)
      ensures Find(built.next.pins, id).None? && Find(built.next.announced, id).None?
    {
      forall m, b | ResultAt(viewed, m, b) ensures ResultId(viewed, m, b) != id {
        ExtendsKeepsBlocks(viewed, c.history, m, b);
        assert ResultAt(c.history, m, b);
      }
      assert !MentionedIn(viewed, |viewed|, id);
      AnnouncePointwise(built.notices, |built.notices|, c.announced, id);
    }
  }
}
