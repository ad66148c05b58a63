// ShrinkOversizedToolResults of src/agent/context.cpp: one oversized tool result is cut down to a
// quarter of the window, and the shape it is first sent in is pinned.

module Shrink {
  import opened Options
  import opened Collections
  import opened Utf8
  import opened Tokens
  import opened Messages

  const WINDOW_PERCENT := 25
  const FALLBACK_WINDOW_TOKENS := 128000

  // The 25% line. An unknown window (0) falls back to a default one.
  function Line(windowTokens: nat): nat {
    (if windowTokens == 0 then FALLBACK_WINDOW_TOKENS else windowTokens) * WINDOW_PERCENT / 100
  }

  // A quarter of the window, rounded down; of a default window when it is not known.
  lemma LineIsQuarter(windowTokens: nat)
    ensures windowTokens > 0 ==> Line(windowTokens) * 4 <= windowTokens < Line(windowTokens) * 4 + 4
    ensures Line(0) * 4 == 128000
  {
  }

  function ImageTokens(blocks: seq<Rich>, n: nat): nat
    requires n <= |blocks|
  {
    if n == 0 then 0
    else ImageTokens(blocks, n - 1) + if blocks[n - 1].RichImage? then blocks[n - 1].tokens else 0
  }

  // Only images cost tokens, each its own number.
  lemma {:induction false} ImagesCost(blocks: seq<Rich>, i: nat, n: nat)
    requires i < n <= |blocks| && forall j | 0 <= j < n && j != i :: !blocks[j].RichImage?
    ensures ImageTokens(blocks, n) == if blocks[i].RichImage? then blocks[i].tokens else 0
  {
    if i == n - 1 {
      NoImagesNoCost(blocks, i);
    } else {
      ImagesCost(blocks, i, n - 1);
    }
  }

  lemma {:induction false} NoImagesNoCost(blocks: seq<Rich>, n: nat)
    requires n <= |blocks| && forall j | 0 <= j < n :: !blocks[j].RichImage?
    ensures ImageTokens(blocks, n) == 0
  {
    if n > 0 {
      NoImagesNoCost(blocks, n - 1);
    }
  }

  lemma {:induction false} ImagesAddUp(a: seq<Rich>, b: seq<Rich>, n: nat)
    requires n <= |b|
    ensures ImageTokens(a + b, |a| + n) == ImageTokens(a, |a|) + ImageTokens(b, n)
  {
    if n == 0 {
      ImagesAgree(a, a + b, |a|);
    } else {
      ImagesAddUp(a, b, n - 1);
    }
  }

  lemma {:induction false} ImagesAgree(a: seq<Rich>, b: seq<Rich>, n: nat)
    requires n <= |a| && n <= |b| && forall j | 0 <= j < n :: a[j] == b[j]
    ensures ImageTokens(a, n) == ImageTokens(b, n)
  {
    if n > 0 {
      ImagesAgree(a, b, n - 1);
    }
  }

  function RawTokens(r: ToolResult): nat {
    Count(r.id).Tokens() + Count(r.content).Tokens() + ImageTokens(r.blocks, |r.blocks|)
  }

  function ResultTokens(r: ToolResult, factor: Factor): nat {
    Calibrated(RawTokens(r), factor)
  }

  // The bytes a cut can take away.
  function RichBytes(blocks: seq<Rich>, n: nat): nat
    requires n <= |blocks|
  {
    if n == 0 then 0
    else RichBytes(blocks, n - 1) + if blocks[n - 1].RichText? then |blocks[n - 1].text| else 0
  }

  function TextBytes(r: ToolResult): nat {
    if r.blocks == [] then |r.content| else RichBytes(r.blocks, |r.blocks|)
  }

  function Minus(a: nat, b: nat): nat {
    if a > b then a - b else 0
  }

  // The budget left to one text once everything else in the result is paid for.
  function Target(r: ToolResult, text: Text, line: nat, factor: Factor): nat {
    Minus(line, Minus(ResultTokens(r, factor), Estimate(text, factor)))
  }

  // Text `i` of a rich result, cut.
  function TextCut(r: ToolResult, i: nat, line: nat, factor: Factor, env: Env): Option<Text>
    requires i < |r.blocks| && r.blocks[i].RichText?
  {
    Truncation(r.blocks[i].text, env.wording.truncateMark, Target(r, r.blocks[i].text, line, factor), factor)
  }

  function WithText(r: ToolResult, k: nat, t: Text, env: Env): ToolResult
    requires k < |r.blocks|
  {
    var blocks := r.blocks[k := RichText(t)];
    r.(blocks := blocks, content := env.project(blocks, r.structured))
  }

  // Cut the last rich text among blocks[..i] that can still be cut.
  function ReduceRich(r: ToolResult, i: nat, line: nat, factor: Factor, env: Env): (out: Option<ToolResult>)
    requires i <= |r.blocks|
  {
    if i == 0 then None
    else if !r.blocks[i - 1].RichText? then ReduceRich(r, i - 1, line, factor, env)
    else
      match TextCut(r, i - 1, line, factor, env)
      case None => ReduceRich(r, i - 1, line, factor, env)
      case Some(t) => Some(WithText(r, i - 1, t, env))
  }

  function Reduce(r: ToolResult, line: nat, factor: Factor, env: Env): (out: Option<ToolResult>)
    ensures out.Some? ==> TextBytes(out.value) < TextBytes(r) && out.value.id == r.id
  {
    if r.blocks != [] then
      ReduceRichShrinks(r, |r.blocks|, line, factor, env);
      ReduceRich(r, |r.blocks|, line, factor, env)
    else
      match Truncation(r.content, env.wording.truncateMark, Minus(line, Estimate(r.id, factor)), factor)
      case None => None
      case Some(t) => Some(r.(content := t))
  }

  lemma {:induction false} RichBytesUpdate(blocks: seq<Rich>, i: nat, t: Text, n: nat)
    requires i < |blocks| && blocks[i].RichText? && n <= |blocks|
    ensures RichBytes(blocks[i := RichText(t)], n) == RichBytes(blocks, n) + if i < n then |t| - |blocks[i].text| else 0
  {
    if n > 0 {
      RichBytesUpdate(blocks, i, t, n - 1);
    }
  }

  lemma {:induction false} ReduceRichShrinks(r: ToolResult, i: nat, line: nat, factor: Factor, env: Env)
    requires i <= |r.blocks| && r.blocks != []
    ensures
      var out := ReduceRich(r, i, line, factor, env);
      out.Some? ==> TextBytes(out.value) < TextBytes(r) && out.value.id == r.id
  {
    if i > 0 {
      if r.blocks[i - 1].RichText? {
        match TextCut(r, i - 1, line, factor, env)
        case None => ReduceRichShrinks(r, i - 1, line, factor, env);
        case Some(t) => RichBytesUpdate(r.blocks, i - 1, t, |r.blocks|);
      } else {
        ReduceRichShrinks(r, i - 1, line, factor, env);
      }
    }
  }

  // Cut until the result is inside the line or nothing more can be cut.
  function Cut(r: ToolResult, line: nat, factor: Factor, env: Env): (out: ToolResult)
    ensures out.id == r.id
    ensures out != r ==> TextBytes(out) < TextBytes(r)
    ensures ResultTokens(out, factor) <= line || Reduce(out, line, factor, env).None?
    decreases TextBytes(r)
  {
    if ResultTokens(r, factor) <= line then r
    else
      match Reduce(r, line, factor, env)
      case None => r
      case Some(smaller) => Cut(smaller, line, factor, env)
  }

  // One pass over a rich result, last text first.
  method ReduceLastText(r: ToolResult, line: nat, factor: Factor, env: Env)
    returns (out: ToolResult, reduced: bool)
    ensures (if reduced then Some(out) else None) == ReduceRich(r, |r.blocks|, line, factor, env)
  {
    var i := |r.blocks|;
    while i > 0
      invariant 0 <= i <= |r.blocks|
      invariant ReduceRich(r, |r.blocks|, line, factor, env) == ReduceRich(r, i, line, factor, env)
    {
      i := i - 1;
      if r.blocks[i].RichText? {
        var text := r.blocks[i].text;
        var totalTokens := ResultTokens(r, factor);
        var blockTokens := EstimateUtf8Tokens(text, factor);
        var others := if totalTokens > blockTokens then totalTokens - blockTokens else 0;
        var target := if line > others then line - others else 0;
        assert target == Target(r, text, line, factor);
        var cut, ok := TruncateTextToTokenBudget(text, env.wording.truncateMark, target, factor);
        if ok {
          var blocks := r.blocks[i := RichText(cut)];
          return r.(blocks := blocks, content := env.project(blocks, r.structured)), true;
        }
      }
    }
    return r, false;
  }

  // The loop of ShrinkOversizedToolResults over one result; it ends because every pass leaves
  // strictly fewer text bytes.
  method CutToLine(r: ToolResult, line: nat, factor: Factor, env: Env) returns (out: ToolResult, wasTruncated: bool)
    ensures out == Cut(r, line, factor, env)
    ensures wasTruncated <==> out != r
  {
    out, wasTruncated := r, false;
    while ResultTokens(out, factor) > line
      invariant Cut(out, line, factor, env) == Cut(r, line, factor, env)
      invariant if wasTruncated then TextBytes(out) < TextBytes(r) else out == r
      decreases TextBytes(out)
    {
      var smaller, reduced;
      if out.blocks != [] {
        smaller, reduced := ReduceLastText(out, line, factor, env);
      } else {
        var idTokens := EstimateUtf8Tokens(out.id, factor);
        var target := if line > idTokens then line - idTokens else 0;
        assert target == Minus(line, Estimate(out.id, factor));
        var cut;
        cut, reduced := TruncateTextToTokenBudget(out.content, env.wording.truncateMark, target, factor);
        smaller := out.(content := cut);
      }
      assert (if reduced then Some(smaller) else None) == Reduce(out, line, factor, env);
      if !reduced {
        break;
      }
      out := smaller;
      wasTruncated := true;
    }
  }

  // Does a plain result, cut to `content` with `kept` bytes of its own, have room for what it shows?
  ghost predicate HasRoom(id: Text, content: Text, kept: nat, line: nat, factor: Factor, env: Env)
    requires kept <= |content|
  {
    && Estimate(id, factor) <= line
    && (!Stray(content, 0, kept) || Estimate(env.wording.truncateMark, factor) <= line - Estimate(id, factor))
  }

  // By the plain ruler a cut result is inside the line if and only if it has room; by any other factor
  // it is at most one token over it then.
  ghost predicate RoomDecides(cut: ToolResult, line: nat, factor: Factor, env: Env)
    requires |cut.content| >= |env.wording.truncateMark|
  {
    var room := HasRoom(cut.id, cut.content, |cut.content| - |env.wording.truncateMark|, line, factor, env);
    && (room ==> ResultTokens(cut, factor) <= line + if factor == 1.0 then 0 else 1)
    && (factor == 1.0 && !room ==> ResultTokens(cut, factor) > line)
  }

  lemma LongIdentityNeverFits(r: ToolResult, line: nat, factor: Factor)
    requires Estimate(r.id, factor) > line
    ensures ResultTokens(r, factor) > line
  {
    CalibratedMonotone(Count(r.id).Tokens(), RawTokens(r), factor);
  }

  lemma LastCutFits(r: ToolResult, smaller: ToolResult, line: nat, factor: Factor, env: Env)
    requires r.blocks == [] && Reduce(r, line, factor, env) == Some(smaller)
    requires |smaller.content| > MIN_KEEP_BYTES + |env.wording.truncateMark|
    ensures RoomDecides(smaller, line, factor, env)
  {
    var mark, target := env.wording.truncateMark, Minus(line, Estimate(r.id, factor));
    var keep := Kept(r.content, mark, target, factor);
    TruncationFits(r.content, mark, target, factor);
    assert Stray(smaller.content, 0, keep) <==> Stray(r.content, 0, keep) by {
      assert forall m | 0 <= m < keep :: smaller.content[m] == r.content[m];
    }
    CalibratedSplit(Count(r.id).Tokens(), Count(smaller.content).Tokens(), factor);
    if Estimate(r.id, factor) > line {
      LongIdentityNeverFits(smaller, line, factor);
    }
  }

  // A plain result cut above the floor is inside the line if its identity leaves room for what it shows:
  // the mark, when all the bytes kept are stray continuation bytes, and otherwise anything. The hard
  // gate, which uses the plain ruler, has it inside the line only then. Under any other factor identity
  // and content are estimated apart and rounded together.
  lemma {:induction false} CutFits(r: ToolResult, line: nat, factor: Factor, env: Env)
    requires r.blocks == [] && Cut(r, line, factor, env) != r
    requires |Cut(r, line, factor, env).content| > MIN_KEEP_BYTES + |env.wording.truncateMark|
    ensures RoomDecides(Cut(r, line, factor, env), line, factor, env)
    decreases TextBytes(r)
  {
    var smaller := Reduce(r, line, factor, env).value;
    if Cut(smaller, line, factor, env) == smaller {
      LastCutFits(r, smaller, line, factor, env);
    } else {
      CutFits(smaller, line, factor, env);
    }
  }

  lemma ReplaceValid(blocks: seq<Rich>, i: nat, t: Text)
    requires i < |blocks| && ValidTexts(blocks) && Valid(t)
    ensures ValidTexts(blocks[i := RichText(t)])
  {
  }

  lemma ReplaceText(r: ToolResult, i: nat, t: Text, env: Env)
    requires ValidResult(r) && ValidEnv(env) && i < |r.blocks| && Valid(t)
    ensures ValidResult(WithText(r, i, t, env))
  {
    ReplaceValid(r.blocks, i, t);
  }

  lemma TextCutValid(r: ToolResult, i: nat, line: nat, factor: Factor, env: Env)
    requires i < |r.blocks| && r.blocks[i].RichText? && ValidResult(r) && ValidEnv(env)
    requires TextCut(r, i, line, factor, env).Some?
    ensures Valid(TextCut(r, i, line, factor, env).value)
  {
    TruncationStaysValid(r.blocks[i].text, env.wording.truncateMark, Target(r, r.blocks[i].text, line, factor), factor);
  }

  // Exactly one text is replaced by its cut, the last one that can be.
  lemma {:induction false} ReduceRichCutsOne(
    r: ToolResult, i: nat, line: nat, factor: Factor, env: Env)
    returns (k: nat)
    requires i <= |r.blocks| && ReduceRich(r, i, line, factor, env).Some?
    ensures k < i && r.blocks[k].RichText? && TextCut(r, k, line, factor, env).Some?
    ensures ReduceRich(r, i, line, factor, env).value == WithText(r, k, TextCut(r, k, line, factor, env).value, env)
    ensures forall j | k < j < i && r.blocks[j].RichText? :: TextCut(r, j, line, factor, env).None?
  {
    if r.blocks[i - 1].RichText? && TextCut(r, i - 1, line, factor, env).Some? {
      k := i - 1;
    } else {
      k := ReduceRichCutsOne(r, i - 1, line, factor, env);
    }
  }

  lemma {:induction false} ReduceRichFails(r: ToolResult, i: nat, line: nat, factor: Factor, env: Env)
    requires i <= |r.blocks|
    ensures ReduceRich(r, i, line, factor, env).None?
       <==> forall j | 0 <= j < i && r.blocks[j].RichText? :: TextCut(r, j, line, factor, env).None?
  {
    if i > 0 {
      ReduceRichFails(r, i - 1, line, factor, env);
    }
  }

  // Nothing of the text can be cut away for this budget.
  ghost predicate Uncuttable(text: Text, budget: nat, factor: Factor, env: Env) {
    || |text| <= MIN_KEEP_BYTES + |env.wording.truncateMark|
    || exists j :: Spares(text, env.wording.truncateMark, budget, factor, j)
  }

  // A result goes out whole if and only if it is inside the line or none of its texts can be cut.
  lemma WholeIff(r: ToolResult, line: nat, factor: Factor, env: Env)
    ensures Cut(r, line, factor, env) == r <==>
      || ResultTokens(r, factor) <= line
      || (r.blocks == [] && Uncuttable(r.content, Minus(line, Estimate(r.id, factor)), factor, env))
      || (&& r.blocks != []
          && forall i | 0 <= i < |r.blocks| && r.blocks[i].RichText? ::
               Uncuttable(r.blocks[i].text, Target(r, r.blocks[i].text, line, factor), factor, env))
  {
    var mark := env.wording.truncateMark;
    TruncationIff(r.content, mark, Minus(line, Estimate(r.id, factor)), factor);
    ReduceRichFails(r, |r.blocks|, line, factor, env);
    forall i | 0 <= i < |r.blocks| && r.blocks[i].RichText?
      ensures TextCut(r, i, line, factor, env).None?
         <==> Uncuttable(r.blocks[i].text, Target(r, r.blocks[i].text, line, factor), factor, env)
    {
      TruncationIff(r.blocks[i].text, mark, Target(r, r.blocks[i].text, line, factor), factor);
    }
    if ResultTokens(r, factor) > line && Reduce(r, line, factor, env).Some? {
      assert TextBytes(Cut(r, line, factor, env)) <= TextBytes(Reduce(r, line, factor, env).value) < TextBytes(r);
    }
  }

  lemma ReduceRichStaysValid(r: ToolResult, i: nat, line: nat, factor: Factor, env: Env)
    requires i <= |r.blocks| && ValidResult(r) && ValidEnv(env)
    requires ReduceRich(r, i, line, factor, env).Some?
    ensures ValidResult(ReduceRich(r, i, line, factor, env).value)
  {
    var k := ReduceRichCutsOne(r, i, line, factor, env);
    TextCutValid(r, k, line, factor, env);
    ReplaceText(r, k, TextCut(r, k, line, factor, env).value, env);
  }

  // A part from the front and the mark, once however often it was cut.
  ghost predicate CutFrom(t: Text, u: Text, mark: Text) {
    u == t || exists k: nat :: CutAt(t, u, mark, k)
  }

  ghost predicate CutAt(t: Text, u: Text, mark: Text, k: nat) {
    k + |mark| < |t| && u == t[..k] + mark
  }

  lemma CutAgain(t: Text, u: Text, w: Text, mark: Text)
    requires CutFrom(t, u, mark) && CutFrom(u, w, mark)
    ensures CutFrom(t, w, mark)
  {
    if w != u && u != t {
      var i: nat :| CutAt(t, u, mark, i);
      var k: nat :| CutAt(u, w, mark, k);
      assert u[..k] == t[..k];
      assert CutAt(t, w, mark, k);
    }
  }

  lemma TruncationIsCut(t: Text, mark: Text, budget: nat, factor: Factor)
    requires Truncation(t, mark, budget, factor).Some?
    ensures CutFrom(t, Truncation(t, mark, budget, factor).value, mark)
  {
    assert CutAt(t, Truncation(t, mark, budget, factor).value, mark, Kept(t, mark, budget, factor));
  }

  // Only texts are cut, each from its end: images and other blocks, the structured content, the flag
  // and the identity stay.
  ghost predicate KeepsTheRest(r: ToolResult, out: ToolResult, mark: Text) {
    && out.id == r.id && out.isError == r.isError && out.structured == r.structured
    && |out.blocks| == |r.blocks|
    && (r.blocks == [] ==> CutFrom(r.content, out.content, mark))
    && forall i | 0 <= i < |r.blocks| :: BlockKept(r.blocks[i], out.blocks[i], mark)
  }

  ghost predicate BlockKept(before: Rich, after: Rich, mark: Text) {
    if before.RichText? then after.RichText? && CutFrom(before.text, after.text, mark) else after == before
  }

  lemma ReduceKeepsTheRest(r: ToolResult, line: nat, factor: Factor, env: Env)
    requires Reduce(r, line, factor, env).Some?
    ensures KeepsTheRest(r, Reduce(r, line, factor, env).value, env.wording.truncateMark)
    ensures
      var out := Reduce(r, line, factor, env).value;
      r.blocks != [] ==> out.content == env.project(out.blocks, out.structured)
  {
    var mark := env.wording.truncateMark;
    if r.blocks == [] {
      TruncationIsCut(r.content, mark, Minus(line, Estimate(r.id, factor)), factor);
    } else {
      var k := ReduceRichCutsOne(r, |r.blocks|, line, factor, env);
      TruncationIsCut(r.blocks[k].text, mark, Target(r, r.blocks[k].text, line, factor), factor);
    }
  }

  // And the content of a rich result is always the projection of what it now holds.
  lemma {:induction false} CutKeepsTheRest(r: ToolResult, line: nat, factor: Factor, env: Env)
    ensures KeepsTheRest(r, Cut(r, line, factor, env), env.wording.truncateMark)
    ensures
      var out := Cut(r, line, factor, env);
      r.blocks != [] && out != r ==> out.content == env.project(out.blocks, out.structured)
    decreases TextBytes(r)
  {
    if ResultTokens(r, factor) > line && Reduce(r, line, factor, env).Some? {
      var mark, smaller, out := env.wording.truncateMark, Reduce(r, line, factor, env).value, Cut(r, line, factor, env);
      ReduceKeepsTheRest(r, line, factor, env);
      CutKeepsTheRest(smaller, line, factor, env);
      if r.blocks == [] {
        CutAgain(r.content, smaller.content, out.content, mark);
      }
      forall i | 0 <= i < |r.blocks| ensures BlockKept(r.blocks[i], out.blocks[i], mark) {
        assert BlockKept(r.blocks[i], smaller.blocks[i], mark) && BlockKept(smaller.blocks[i], out.blocks[i], mark);
        if r.blocks[i].RichText? {
          CutAgain(r.blocks[i].text, smaller.blocks[i].text, out.blocks[i].text, mark);
        }
      }
    }
  }

  // No cut, plain or rich, ever turns well-formed UTF-8 into a malformed request.
  lemma {:induction false} CutStaysValid(r: ToolResult, line: nat, factor: Factor, env: Env)
    requires ValidResult(r) && ValidEnv(env)
    ensures ValidResult(Cut(r, line, factor, env))
    decreases TextBytes(r)
  {
    if ResultTokens(r, factor) > line && Reduce(r, line, factor, env).Some? {
      if r.blocks != [] {
        ReduceRichStaysValid(r, |r.blocks|, line, factor, env);
      } else {
        TruncationStaysValid(r.content, env.wording.truncateMark, Minus(line, Estimate(r.id, factor)), factor);
      }
      CutStaysValid(Reduce(r, line, factor, env).value, line, factor, env);
    }
  }

  // ---- Pinned shapes ------------------------------------------------------------------------

  datatype Pinned = Pinned(sourceHash: Text, shape: Option<ToolResult>)

  type Pins = map<Text, Pinned>

  datatype Notice = Notice(id: Text, shapeHash: Text)

  const UNIT_SEPARATOR: Byte := 0x1f

  // Every text a cut may touch, separated by 0x1f.
  function Material(content: Text, blocks: seq<Rich>, n: nat): Text
    requires n <= |blocks|
  {
    if n == 0 then content
    else
      var rest := Material(content, blocks, n - 1);
      if blocks[n - 1].RichText? then rest + [UNIT_SEPARATOR] + blocks[n - 1].text else rest
  }

  function SourceFingerprint(r: ToolResult, env: Env): Text {
    env.fingerprint(Material(r.content, r.blocks, |r.blocks|))
  }

  // The form in which a pinned result is replayed.
  function ShapeOf(pin: Pinned, source: ToolResult): ToolResult {
    if pin.shape.Some? then pin.shape.value else source
  }

  // The pin taken when `source` is shaped with `factor`.
  function PinFor(source: ToolResult, line: nat, factor: Factor, env: Env): (pin: Pinned)
    ensures ShapeOf(pin, source) == Cut(source, line, factor, env)
  {
    var shape := Cut(source, line, factor, env);
    Pinned(SourceFingerprint(source, env), if shape != source then Some(shape) else None)
  }

  // Is the pinned shape still good? It is checked against the plain ruler, whatever the factor.
  predicate Replays(source: ToolResult, pin: Option<Pinned>, line: nat, env: Env) {
    && source.id != []
    && pin.Some?
    && pin.value.sourceHash == SourceFingerprint(source, env)
    && ResultTokens(ShapeOf(pin.value, source), 1.0) <= line
  }

  // A pin of the same source that no longer fits is recut with the plain ruler.
  function RulerFor(source: ToolResult, pin: Option<Pinned>, factor: Factor, env: Env): Factor {
    if source.id != [] && pin.Some? && pin.value.sourceHash == SourceFingerprint(source, env) then 1.0 else factor
  }

  function NextPin(source: ToolResult, pin: Option<Pinned>, line: nat, factor: Factor, env: Env): Pinned {
    if Replays(source, pin, line, env) then pin.value
    else PinFor(source, line, RulerFor(source, pin, factor, env), env)
  }

  predicate Announces(source: ToolResult, pin: Option<Pinned>, line: nat, factor: Factor, env: Env) {
    !Replays(source, pin, line, env) && NextPin(source, pin, line, factor, env).shape.Some?
  }

  datatype Books = Books(pins: Pins, notices: seq<Notice>)

  function Shaped(b: Block, pins: Pins, line: nat, factor: Factor, env: Env): Block {
    if b.ResultBlock? then
      ResultBlock(ShapeOf(NextPin(b.result, Find(pins, b.result.id), line, factor, env), b.result))
    else b
  }

  function Record(b: Block, books: Books, line: nat, factor: Factor, env: Env): Books {
    if !b.ResultBlock? then books
    else
      var source := b.result;
      var pin := Find(books.pins, source.id);
      var next := NextPin(source, pin, line, factor, env);
      Books(
        if source.id == [] then books.pins else books.pins[source.id := next],
        if Announces(source, pin, line, factor, env)
        then books.notices + [Notice(source.id, SourceFingerprint(ShapeOf(next, source), env))]
        else books.notices)
  }

  // What is shaped how. A result that was shaped before, with the same text, keeps its shape while that is
  // inside the plain line and is cut by the plain ruler otherwise; any other one, a nameless one included,
  // is cut by the ruler of the day. Something is announced only when a new shape differs from the source.
  lemma ShapingRules(source: ToolResult, books: Books, line: nat, factor: Factor, env: Env)
    ensures
      var out := Shaped(ResultBlock(source), books.pins, line, factor, env);
      var after := Record(ResultBlock(source), books, line, factor, env);
      var known := |source.id| > 0 && source.id in books.pins
                   && books.pins[source.id].sourceHash == SourceFingerprint(source, env);
      var kept := if known then ShapeOf(books.pins[source.id], source) else source;
      && out.ResultBlock?
      && (known && ResultTokens(kept, 1.0) <= line ==> out.result == kept && after == books)
      && (known && ResultTokens(kept, 1.0) > line ==> out.result == Cut(source, line, 1.0, env))
      && (!known ==> out.result == Cut(source, line, factor, env))
      && ((known && ResultTokens(kept, 1.0) <= line) || out.result == source ==> after.notices == books.notices)
      && (source.id == [] ==> after.pins == books.pins)
  {
    if source.id in books.pins {
      assert books.pins[source.id := books.pins[source.id]] == books.pins;
    }
  }

  datatype ShrunkBlocks = ShrunkBlocks(blocks: seq<Block>, books: Books)

  // The first `n` blocks of one message.
  function ShrinkBlocks(
    blocks: seq<Block>, n: nat, books: Books, line: nat, factor: Factor, env: Env): (s: ShrunkBlocks)
    requires n <= |blocks|
    ensures |s.blocks| == n
  {
    if n == 0 then ShrunkBlocks([], books)
    else
      var done := ShrinkBlocks(blocks, n - 1, books, line, factor, env);
      ShrunkBlocks(done.blocks + [Shaped(blocks[n - 1], done.books.pins, line, factor, env)],
                   Record(blocks[n - 1], done.books, line, factor, env))
  }

  datatype Shrunk = Shrunk(messages: History, books: Books)

  // The first `n` messages.
  function ShrinkMessages(h: History, n: nat, books: Books, line: nat, factor: Factor, env: Env): (s: Shrunk)
    requires n <= |h|
    ensures |s.messages| == n
  {
    if n == 0 then Shrunk([], books)
    else
      var done := ShrinkMessages(h, n - 1, books, line, factor, env);
      var last := ShrinkBlocks(h[n - 1].content, |h[n - 1].content|, done.books, line, factor, env);
      Shrunk(done.messages + [h[n - 1].(content := last.blocks)], last.books)
  }

  method ShrinkOversizedToolResults(source: History, windowTokens: nat, factor: Factor, pins: Pins, env: Env)
    returns (messages: History, newPins: Pins, notices: seq<Notice>)
    ensures Shrunk(messages, Books(newPins, notices))
         == ShrinkMessages(source, |source|, Books(pins, []), Line(windowTokens), factor, env)
  {
    var window := if windowTokens == 0 then FALLBACK_WINDOW_TOKENS else windowTokens;
    var line := window * WINDOW_PERCENT / 100;
    messages, newPins, notices := [], pins, [];
    for i := 0 to |source|
      invariant Shrunk(messages, Books(newPins, notices))
             == ShrinkMessages(source, i, Books(pins, []), line, factor, env)
    {
      var content := source[i].content;
      var blocks: seq<Block> := [];
      ghost var books := Books(newPins, notices);
      for j := 0 to |content|
        invariant ShrunkBlocks(blocks, Books(newPins, notices)) == ShrinkBlocks(content, j, books, line, factor, env)
      {
        var block := content[j];
        if block.ResultBlock? {
          var result := block.result;
          var effective := factor;
          var replay := false;
          if result.id != [] && result.id in newPins
            && newPins[result.id].sourceHash == SourceFingerprint(result, env) {
            var shaped := ShapeOf(newPins[result.id], result);
            if ResultTokens(shaped, 1.0) <= line {
              block := ResultBlock(shaped);
              replay := true;
              assert newPins == newPins[result.id := newPins[result.id]];
            } else {
              effective := 1.0;
            }
          }
          if !replay {
            var sourceHash := SourceFingerprint(result, env);
            var shape, wasTruncated := CutToLine(result, line, effective, env);
            if result.id != [] {
              newPins := newPins[result.id := Pinned(sourceHash, if wasTruncated then Some(shape) else None)];
            }
            if wasTruncated {
              notices := notices + [Notice(shape.id, SourceFingerprint(shape, env))];
            }
            block := ResultBlock(shape);
          }
        }
        blocks := blocks + [block];
      }
      messages := messages + [source[i].(content := blocks)];
    }
  }

  // ---- What one pass does to each result ----------------------------------------------------

  // Is there a result with this identity among the first `n` blocks?
  ghost predicate Mentions(blocks: seq<Block>, n: nat, id: Text)
    requires n <= |blocks|
  {
    exists b :: 0 <= b < n && blocks[b].ResultBlock? && blocks[b].result.id == id
  }

  ghost predicate MentionedIn(h: History, n: nat, id: Text)
    requires n <= |h|
  {
    exists m, b :: 0 <= m < n && ResultAt(h, m, b) && ResultId(h, m, b) == id
  }

  // The last shape hash noticed for a result among the first `n` notices.
  function NoticeOf(notices: seq<Notice>, n: nat, id: Text): Option<Text>
    requires n <= |notices|
  {
    if n == 0 then None
    else if notices[n - 1].id == id then Some(notices[n - 1].shapeHash)
    else NoticeOf(notices, n - 1, id)
  }

  function Noticed(books: Books, id: Text): Option<Text> {
    NoticeOf(books.notices, |books.notices|, id)
  }

  ghost predicate OncePerId(notices: seq<Notice>) {
    forall i, j | 0 <= i < j < |notices| :: notices[i].id != notices[j].id
  }

  lemma {:induction false} NoticeAgrees(a: seq<Notice>, b: seq<Notice>, n: nat, id: Text)
    requires n <= |a| && n <= |b| && forall i | 0 <= i < n :: a[i] == b[i]
    ensures NoticeOf(a, n, id) == NoticeOf(b, n, id)
  {
    if n > 0 {
      NoticeAgrees(a, b, n - 1, id);
    }
  }

  lemma {:induction false} NoticeAbsent(notices: seq<Notice>, n: nat, id: Text)
    requires n <= |notices|
    ensures NoticeOf(notices, n, id).None? <==> forall i | 0 <= i < n :: notices[i].id != id
  {
    if n > 0 {
      NoticeAbsent(notices, n - 1, id);
    }
  }

  // What a pass leaves behind for one result, given what was pinned for it before.
  function NoticeFor(source: ToolResult, pin: Option<Pinned>, line: nat, factor: Factor, env: Env): Option<Text> {
    if Announces(source, pin, line, factor, env)
    then Some(SourceFingerprint(ShapeOf(NextPin(source, pin, line, factor, env), source), env)) else None
  }

  lemma RecordOne(b: Block, books: Books, line: nat, factor: Factor, env: Env, id: Text)
    ensures
      var after := Record(b, books, line, factor, env);
      if b.ResultBlock? && b.result.id == id then
        && (id != [] ==> Find(after.pins, id) == Some(NextPin(b.result, Find(books.pins, id), line, factor, env)))
        && (Noticed(books, id).None? ==>
              Noticed(after, id) == NoticeFor(b.result, Find(books.pins, id), line, factor, env))
      else
        Find(after.pins, id) == Find(books.pins, id) && Noticed(after, id) == Noticed(books, id)
  {
    NoticeAgrees(Record(b, books, line, factor, env).notices, books.notices, |books.notices|, id);
  }

  lemma {:induction false} BlocksLeaveOthers(
    blocks: seq<Block>, n: nat, books: Books, line: nat, factor: Factor, env: Env, id: Text)
    requires n <= |blocks| && !Mentions(blocks, n, id)
    ensures
      var after := ShrinkBlocks(blocks, n, books, line, factor, env).books;
      Find(after.pins, id) == Find(books.pins, id) && Noticed(after, id) == Noticed(books, id)
  {
    if n > 0 {
      BlocksLeaveOthers(blocks, n - 1, books, line, factor, env, id);
      RecordOne(blocks[n - 1], ShrinkBlocks(blocks, n - 1, books, line, factor, env).books, line, factor, env, id);
    }
  }

  ghost predicate DistinctBlocks(blocks: seq<Block>) {
    && (forall b | 0 <= b < |blocks| && blocks[b].ResultBlock? :: blocks[b].result.id != [])
    && (forall b, c | 0 <= b < c < |blocks| && blocks[b].ResultBlock? && blocks[c].ResultBlock? ::
          blocks[b].result.id != blocks[c].result.id)
  }

  lemma {:induction false} BlocksPointwise(
    blocks: seq<Block>, n: nat, books: Books, line: nat, factor: Factor, env: Env, b: nat)
    requires DistinctBlocks(blocks) && b < n <= |blocks|
    ensures
      var s := ShrinkBlocks(blocks, n, books, line, factor, env);
      && s.blocks[b] == Shaped(blocks[b], books.pins, line, factor, env)
      && (blocks[b].ResultBlock? ==>
            var source := blocks[b].result;
            var pin := Find(books.pins, source.id);
            && Find(s.books.pins, source.id) == Some(NextPin(source, pin, line, factor, env))
            && (Noticed(books, source.id).None? ==>
                  Noticed(s.books, source.id) == NoticeFor(source, pin, line, factor, env)))
  {
    var done := ShrinkBlocks(blocks, n - 1, books, line, factor, env);
    if b < n - 1 {
      BlocksPointwise(blocks, n - 1, books, line, factor, env, b);
      if blocks[b].ResultBlock? {
        RecordOne(blocks[n - 1], done.books, line, factor, env, blocks[b].result.id);
      }
    } else if blocks[b].ResultBlock? {
      BlocksLeaveOthers(blocks, n - 1, books, line, factor, env, blocks[b].result.id);
      RecordOne(blocks[b], done.books, line, factor, env, blocks[b].result.id);
    }
  }

  lemma {:induction false} BlocksNoticeOnce(
    blocks: seq<Block>, n: nat, books: Books, line: nat, factor: Factor, env: Env)
    requires n <= |blocks| && DistinctBlocks(blocks) && OncePerId(books.notices)
    requires forall b | 0 <= b < |blocks| && blocks[b].ResultBlock? :: Noticed(books, blocks[b].result.id).None?
    ensures OncePerId(ShrinkBlocks(blocks, n, books, line, factor, env).books.notices)
  {
    if n > 0 {
      BlocksNoticeOnce(blocks, n - 1, books, line, factor, env);
      if blocks[n - 1].ResultBlock? {
        var id := blocks[n - 1].result.id;
        var done := ShrinkBlocks(blocks, n - 1, books, line, factor, env).books;
        BlocksLeaveOthers(blocks, n - 1, books, line, factor, env, id);
        NoticeAbsent(done.notices, |done.notices|, id);
      }
    }
  }

  lemma {:induction false} MessagesLeaveOthers(
    h: History, n: nat, books: Books, line: nat, factor: Factor, env: Env, id: Text)
    requires n <= |h| && !MentionedIn(h, n, id)
    ensures
      var after := ShrinkMessages(h, n, books, line, factor, env).books;
      Find(after.pins, id) == Find(books.pins, id) && Noticed(after, id) == Noticed(books, id)
  {
    if n > 0 {
      MessagesLeaveOthers(h, n - 1, books, line, factor, env, id);
      var content := h[n - 1].content;
      forall b | 0 <= b < |content| && content[b].ResultBlock? ensures content[b].result.id != id {
        assert ResultAt(h, n - 1, b);
      }
      var before := ShrinkMessages(h, n - 1, books, line, factor, env).books;
      BlocksLeaveOthers(content, |content|, before, line, factor, env, id);
    }
  }

  lemma DistinctContent(h: History, n: nat)
    requires DistinctResults(h) && n < |h|
    ensures DistinctBlocks(h[n].content)
    ensures forall b | 0 <= b < |h[n].content| && h[n].content[b].ResultBlock? ::
              !MentionedIn(h, n, h[n].content[b].result.id)
  {
    var content := h[n].content;
    forall b | 0 <= b < |content| && content[b].ResultBlock?
      ensures ResultAt(h, n, b) && ResultId(h, n, b) == content[b].result.id != []
    {
      assert ResultAt(h, n, b);
    }
  }

  // What one pass owes to the result at (m, b): shaped by its own pin alone; its new pin and its
  // notice depend on nothing else.
  ghost predicate Settled(h: History, m: int, b: int, pins: Pins, after: Books, line: nat, factor: Factor, env: Env)
    requires ResultAt(h, m, b)
  {
    var source := h[m].content[b].result;
    var pin := Find(pins, source.id);
    && Find(after.pins, source.id) == Some(NextPin(source, pin, line, factor, env))
    && Noticed(after, source.id) == NoticeFor(source, pin, line, factor, env)
  }

  lemma MessagePointwise(h: History, n: nat, pins: Pins, line: nat, factor: Factor, env: Env, b: nat)
    requires DistinctResults(h) && n < |h| && b < |h[n].content|
    ensures
      var s := ShrinkMessages(h, n + 1, Books(pins, []), line, factor, env);
      && |s.messages[n].content| == |h[n].content|
      && s.messages[n].content[b] == Shaped(h[n].content[b], pins, line, factor, env)
      && (ResultAt(h, n, b) ==> Settled(h, n, b, pins, s.books, line, factor, env))
  {
    var content := h[n].content;
    var done := ShrinkMessages(h, n, Books(pins, []), line, factor, env);
    DistinctContent(h, n);
    if content[b].ResultBlock? {
      MessagesLeaveOthers(h, n, Books(pins, []), line, factor, env, content[b].result.id);
    }
    BlocksPointwise(content, |content|, done.books, line, factor, env, b);
  }

  lemma {:induction false} SettledOnce(
    h: History, n: nat, pins: Pins, line: nat, factor: Factor, env: Env, m: nat, b: nat)
    requires DistinctResults(h) && m < n <= |h| && b < |h[m].content|
    ensures
      var s := ShrinkMessages(h, n, Books(pins, []), line, factor, env);
      && s.messages[m].role == h[m].role
      && |s.messages[m].content| == |h[m].content|
      && s.messages[m].content[b] == Shaped(h[m].content[b], pins, line, factor, env)
      && (ResultAt(h, m, b) ==> Settled(h, m, b, pins, s.books, line, factor, env))
    decreases n
  {
    if m == n - 1 {
      MessagePointwise(h, m, pins, line, factor, env, b);
    } else {
      SettledOnce(h, n - 1, pins, line, factor, env, m, b);
      if ResultAt(h, m, b) {
        var done := ShrinkMessages(h, n - 1, Books(pins, []), line, factor, env);
        var content := h[n - 1].content;
        forall c | 0 <= c < |content| && content[c].ResultBlock? ensures content[c].result.id != ResultId(h, m, b) {
          assert ResultAt(h, n - 1, c) && ResultId(h, n - 1, c) != ResultId(h, m, b);
        }
        BlocksLeaveOthers(content, |content|, done.books, line, factor, env, ResultId(h, m, b));
      }
    }
  }

  lemma {:induction false} NoticedOnce(h: History, n: nat, pins: Pins, line: nat, factor: Factor, env: Env)
    requires DistinctResults(h) && n <= |h|
    ensures OncePerId(ShrinkMessages(h, n, Books(pins, []), line, factor, env).books.notices)
  {
    if n > 0 {
      NoticedOnce(h, n - 1, pins, line, factor, env);
      DistinctContent(h, n - 1);
      var content := h[n - 1].content;
      forall b | 0 <= b < |content| && content[b].ResultBlock?
        ensures Noticed(ShrinkMessages(h, n - 1, Books(pins, []), line, factor, env).books, content[b].result.id).None?
      {
        MessagesLeaveOthers(h, n - 1, Books(pins, []), line, factor, env, content[b].result.id);
      }
      var before := ShrinkMessages(h, n - 1, Books(pins, []), line, factor, env).books;
      BlocksNoticeOnce(content, |content|, before, line, factor, env);
    }
  }

  // With distinct identities every result is shaped by its own pin alone, its new pin and its
  // notice depend on nothing else, and no result is noticed twice; all other blocks, the message
  // count and the roles stay.
  lemma ShrinkPointwise(h: History, pins: Pins, line: nat, factor: Factor, env: Env)
    requires DistinctResults(h)
    ensures
      var s := ShrinkMessages(h, |h|, Books(pins, []), line, factor, env);
      && OncePerId(s.books.notices)
      && (forall m, b | 0 <= m < |h| && 0 <= b < |h[m].content| ::
            && |s.messages[m].content| == |h[m].content|
            && s.messages[m].content[b] == Shaped(h[m].content[b], pins, line, factor, env))
      && (forall m, b | ResultAt(h, m, b) :: Settled(h, m, b, pins, s.books, line, factor, env))
    ensures ShrinkKeepsForm(h, ShrinkMessages(h, |h|, Books(pins, []), line, factor, env).messages)
  {
    forall m, b | 0 <= m < |h| && 0 <= b < |h[m].content|
      ensures
        var s := ShrinkMessages(h, |h|, Books(pins, []), line, factor, env);
        && |s.messages[m].content| == |h[m].content|
        && s.messages[m].content[b] == Shaped(h[m].content[b], pins, line, factor, env)
        && (ResultAt(h, m, b) ==> Settled(h, m, b, pins, s.books, line, factor, env))
    {
      SettledOnce(h, |h|, pins, line, factor, env, m, b);
    }
    NoticedOnce(h, |h|, pins, line, factor, env);
    ShrinkForm(h, |h|, Books(pins, []), line, factor, env);
  }

  // Same messages, same roles, same number of blocks.
  ghost predicate ShrinkKeepsForm(h: History, view: History) {
    && |view| == |h|
    && forall m | 0 <= m < |h| :: view[m].role == h[m].role && |view[m].content| == |h[m].content|
  }

  lemma {:induction false} ShrinkForm(h: History, n: nat, books: Books, line: nat, factor: Factor, env: Env)
    requires n <= |h|
    ensures ShrinkKeepsForm(h[..n], ShrinkMessages(h, n, books, line, factor, env).messages)
    ensures n == |h| ==> h[..n] == h
  {
    if n > 0 {
      ShrinkForm(h, n - 1, books, line, factor, env);
    }
  }
}
