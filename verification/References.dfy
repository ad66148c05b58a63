// What the compressed view says about itself: references lead to real earlier answers, and only
// the text of a result is ever replaced.

module References {
  import opened Options
  import opened Utf8
  import opened Messages
  import opened Compress

  // An answered event that takes part in deduplication under `key`.
  predicate Keyed(e: Event, key: string) {
    Answered(e) && e.key == key
  }

  // How often `key` was answered among events[from..n].
  function Occurrences(events: seq<Event>, key: string, from: nat, n: nat): nat
    requires n <= |events|
  {
    if n <= from then 0 else Occurrences(events, key, from, n - 1) + if Keyed(events[n - 1], key) then 1 else 0
  }

  // From events[kept] on the content under `key` has not changed.
  ghost predicate Unchanged(events: seq<Event>, key: string, kept: nat, n: nat, hash: Text, env: Env)
    requires n <= |events|
  {
    forall j | kept <= j < n && Keyed(events[j], key) :: env.fingerprint(events[j].content) == hash
  }

  // events[kept] is an answer under `key` that speaks for itself, and nothing answered under `key`
  // since then differs from it.
  ghost predicate StandsFor(events: seq<Event>, key: string, kept: nat, n: nat, hash: Text, env: Env)
    requires n <= |events|
  {
    && key != ""
    && kept < n && Keyed(events[kept], key)
    && env.fingerprint(events[kept].content) == hash
    && !DecisionAt(events, kept, env).DuplicateRef?
    && Unchanged(events, key, kept, n, hash, env)
  }

  lemma {:induction false} KeyStatesMean(events: seq<Event>, n: nat, env: Env, key: string)
    requires n <= |events|
    ensures
      var states := FoldEvents(events, n, map[], env).states;
      if key in states then
        && StandsFor(events, key, states[key].kept, n, states[key].hash, env)
        && states[key].seen == Occurrences(events, key, states[key].kept, n)
      else key != "" ==> forall j | 0 <= j < n :: !Keyed(events[j], key)
  {
    if n > 0 {
      KeyStatesMean(events, n - 1, env, key);
      var states := FoldEvents(events, n - 1, map[], env).states;
      if key != "" && Keyed(events[n - 1], key)
        && (key !in states || env.fingerprint(events[n - 1].content) != states[key].hash) {
        assert Occurrences(events, key, n - 1, n - 1) == 0;
        assert !DecisionAt(events, n - 1, env).DuplicateRef?;
      }
    }
  }

  // A view that says "same as event e, seen n times" is right: e is strictly earlier, was answered
  // under the same key with the same content hash, is not itself such a reference, nothing answered
  // in between differs, and n counts every occurrence.
  lemma DuplicateRefIsTrue(events: seq<Event>, j: nat, env: Env)
    requires j < |events| && Answered(events[j]) && DecisionAt(events, j, env).DuplicateRef?
    ensures
      var d, key := DecisionAt(events, j, env), events[j].key;
      && StandsFor(events, key, d.ref, j, env.fingerprint(events[j].content), env)
      && d.seen == Occurrences(events, key, d.ref, j + 1)
      && |events[j].content| >= env.minCompressibleBytes
  {
    KeyStatesMean(events, j, env, events[j].key);
  }

  // A view that says "replaces event e" is right too: e stands for the latest different content.
  lemma NewVersionIsTrue(events: seq<Event>, j: nat, env: Env)
    requires j < |events| && Answered(events[j]) && DecisionAt(events, j, env).NewVersion?
    ensures
      var ref, key := DecisionAt(events, j, env).ref, events[j].key;
      && ref < j && Keyed(events[ref], key)
      && StandsFor(events, key, ref, j, env.fingerprint(events[ref].content), env)
      && env.fingerprint(events[ref].content) != env.fingerprint(events[j].content)
  {
    KeyStatesMean(events, j, env, events[j].key);
  }

  // Conversely, what is not deduplicated is shown: an event is decided Full or Artifact only when its
  // tool never takes part, when it is the first answer under its key, or when it is short.
  lemma ShownInFull(events: seq<Event>, j: nat, env: Env)
    requires j < |events| && Answered(events[j])
    ensures
      var e, d := events[j], DecisionAt(events, j, env);
      var first := forall i | 0 <= i < j :: !Keyed(events[i], e.key);
      && (d.Full? || d.Artifact? <==> e.key == "" || first || |e.content| < env.minCompressibleBytes)
      && (d.Artifact? <==> e.key != "" && first && |e.content| > env.longResultBytes)
  {
    KeyStatesMean(events, j, env, events[j].key);
  }

  // ---- What a rewritten block keeps ---------------------------------------------------------

  lemma {:induction false} NonTextKept(blocks: seq<Rich>, kept: seq<Rich>, text: Text, n: nat)
    requires n <= |kept| && forall k :: 0 <= k < |kept| ==> !kept[k].RichText?
    ensures KeepNonText([RichText(text)] + kept, n + 1) == kept[..n]
  {
    if n > 0 {
      NonTextKept(blocks, kept, text, n - 1);
    } else {
      assert KeepNonText([RichText(text)] + kept, 0) == [];
    }
  }

  // Compression rewrites text only: the block keeps its kind, its identity (so every call keeps its
  // answer), its error flag, its structured content and, in order, everything that is not text.
  lemma RewriteKeepsTheRest(b: Block, rendered: map<Text, Text>, env: Env)
    ensures
      var out := Rewrite(b, rendered, env);
      if b.ResultBlock? then
        && out.ResultBlock?
        && out.result.id == b.result.id && out.result.isError == b.result.isError
        && out.result.structured == b.result.structured
        && KeepNonText(out.result.blocks, |out.result.blocks|) == KeepNonText(b.result.blocks, |b.result.blocks|)
        && (b.result.blocks != [] ==> out.result.content != b.result.content ==>
              out.result.content == env.project(out.result.blocks, out.result.structured))
      else out == b
  {
    if b.ResultBlock? && b.result.id in rendered && b.result.blocks != [] {
      var kept := KeepNonText(b.result.blocks, |b.result.blocks|);
      NonTextKept(b.result.blocks, kept, rendered[b.result.id], |kept|);
      assert kept[..|kept|] == kept;
    }
  }

  // ---- Well-formed text ---------------------------------------------------------------------

  lemma {:induction false} JoinValid(parts: seq<Text>)
    requires forall i | 0 <= i < |parts| :: Valid(parts[i])
    ensures Valid(Join(parts))
  {
    if parts != [] {
      JoinValid(parts[1..]);
      ValidConcat(parts[0], Join(parts[1..]));
    }
  }

  lemma PreviewValid(content: Text, previewBytes: nat)
    requires Valid(content)
    ensures Valid(Head(content, previewBytes)) && Valid(Tail(content, previewBytes))
  {
    var head, tail := Head(content, previewBytes), Tail(content, previewBytes);
    ValidCut(content, |content| - |tail|);
    if head != [] {
      ValidCut(content, |head|);
    }
  }

  lemma JoinFour(a: Text, b: Text, c: Text, d: Text)
    requires Valid(a) && Valid(b) && Valid(c) && Valid(d)
    ensures Valid(Join([a, b, c, d])) && Valid(Join([a, b, c]))
  {
    JoinValid([a, b, c, d]);
    JoinValid([a, b, c]);
  }

  lemma ConcatThree(a: Text, b: Text, c: Text)
    requires Valid(a) && Valid(b) && Valid(c)
    ensures Valid(a + b + c)
  {
    ValidConcat(a, b);
    ValidConcat(a + b, c);
  }

  lemma ArtifactPartsValid(w: Wording, id: Text, sha: Text, size: Text, head: Text, tail: Text)
    requires ValidWording(w) && Valid(id) && Valid(sha) && Valid(size) && Valid(head) && Valid(tail)
    ensures Valid(
      Join([w.artifact, id, w.sha, sha]) + Join([w.size, size, w.head, head]) + Join([w.tail, tail, w.archived]))
  {
    JoinFour(w.artifact, id, w.sha, sha);
    JoinFour(w.size, size, w.head, head);
    JoinFour(w.tail, tail, w.archived, tail);
    ConcatThree(
      Join([w.artifact, id, w.sha, sha]), Join([w.size, size, w.head, head]), Join([w.tail, tail, w.archived]));
  }

  lemma ArtifactValid(e: Event, index: nat, env: Env)
    requires e.Exchange? && Valid(e.content) && ValidEnv(env)
    ensures Valid(RenderArtifact(e, index, env))
  {
    var w, id, sha, size := env.wording, EventId(index), env.fingerprint(e.content), Encode(Decimal(|e.content|));
    var head, tail := Head(e.content, env.previewBytes), Tail(e.content, env.previewBytes);
    PreviewValid(e.content, env.previewBytes);
    ArtifactPartsValid(w, id, sha, size, head, tail);
    assert RenderArtifact(e, index, env)
        == Join([w.artifact, id, w.sha, sha]) + Join([w.size, size, w.head, head]) + Join([w.tail, tail, w.archived]);
  }

  lemma DuplicateValid(e: Event, index: nat, ref: nat, seen: nat, env: Env)
    requires e.Exchange? && ValidEnv(env)
    ensures Valid(RenderResultView(e, index, DuplicateRef(ref, seen), env))
  {
    var w := env.wording;
    JoinFour(w.duplicate, EventId(ref), w.sameResult, Encode(e.name));
    JoinFour(w.seen, Encode(Decimal(seen)), w.times, w.times);
    ValidConcat(
      Join([w.duplicate, EventId(ref), w.sameResult, Encode(e.name)]),
      Join([w.seen, Encode(Decimal(seen)), w.times]));
  }

  lemma NewVersionValid(ref: nat, body: Text, env: Env)
    requires Valid(body) && ValidEnv(env)
    ensures Valid(RenderNewVersion(ref, body, env.wording))
  {
    JoinValid([env.wording.newVersion, EventId(ref), env.wording.oldVersion, body]);
  }

  // A preview is cut at code point boundaries, so no rendering of well-formed content is malformed.
  lemma RenderValid(e: Event, index: nat, decision: Decision, env: Env)
    requires e.Exchange? && Valid(e.content) && ValidEnv(env)
    ensures Valid(RenderResultView(e, index, decision, env))
  {
    match decision
    case Full =>
    case Artifact => ArtifactValid(e, index, env);
    case DuplicateRef(ref, seen) => DuplicateValid(e, index, ref, seen, env);
    case NewVersion(ref) =>
      ArtifactValid(e, index, env);
      NewVersionValid(ref, RenderArtifact(e, index, env), env);
      NewVersionValid(ref, e.content, env);
  }

  lemma AnswerValid(h: History, e: Event)
    requires ValidHistory(h) && FromCall(h, e) && Answered(e)
    ensures Valid(e.content)
  {
    var b :| CallAt(h, e.message, b) && e == ExchangeOf(h, e.message, h[e.message].content[b]);
    var answer := AnswerTo(h, e.message, e.id).value;
    var c :| 0 <= c < |h[e.message + 1].content| && h[e.message + 1].content[c] == ResultBlock(answer);
    assert ResultAt(h, e.message + 1, c);
  }

  ghost predicate RendersValid(rendered: map<Text, Text>) {
    forall id | id in rendered :: Valid(rendered[id])
  }

  lemma SettleValid(f: Fold, e: Event, index: nat, env: Env)
    requires RendersValid(f.rendered) && ValidEnv(env) && (Answered(e) ==> Valid(e.content))
    ensures RendersValid(Settle(f, e, index, env).rendered)
  {
    if Answered(e) {
      RenderValid(e, index, if e.id in f.memo then f.memo[e.id] else Decide(f.states, e, env), env);
    }
  }

  lemma LedgerAnswerValid(h: History, j: nat)
    requires ValidHistory(h) && j < |LedgerOf(h)| && Answered(LedgerOf(h)[j])
    ensures Valid(LedgerOf(h)[j].content)
  {
    LedgerFrom(h, |h|);
    assert LedgerOf(h)[j] in LedgerOf(h);
    AnswerValid(h, LedgerOf(h)[j]);
  }

  lemma {:induction false} EventsFoldValid(events: seq<Event>, n: nat, env: Env)
    requires n <= |events| && ValidEnv(env)
    requires forall j | 0 <= j < |events| && Answered(events[j]) :: Valid(events[j].content)
    ensures RendersValid(FoldEvents(events, n, map[], env).rendered)
  {
    if n > 0 {
      EventsFoldValid(events, n - 1, env);
      SettleValid(FoldEvents(events, n - 1, map[], env), events[n - 1], n - 1, env);
    }
  }

  lemma FoldValid(h: History, n: nat, env: Env)
    requires n <= |LedgerOf(h)| && ValidHistory(h) && ValidEnv(env)
    ensures RendersValid(FoldEvents(LedgerOf(h), n, map[], env).rendered)
  {
    forall j | 0 <= j < |LedgerOf(h)| && Answered(LedgerOf(h)[j]) ensures Valid(LedgerOf(h)[j].content) {
      LedgerAnswerValid(h, j);
    }
    EventsFoldValid(LedgerOf(h), n, env);
  }

  lemma RewriteValid(b: Block, rendered: map<Text, Text>, env: Env)
    requires b.ResultBlock? && ValidResult(b.result) && ValidEnv(env)
    requires RendersValid(rendered)
    ensures ValidResult(Rewrite(b, rendered, env).result)
  {
    if b.result.id in rendered && b.result.blocks != [] {
      var blocks := [RichText(rendered[b.result.id])] + KeepNonText(b.result.blocks, |b.result.blocks|);
      assert ValidTexts(blocks);
    }
  }
}
