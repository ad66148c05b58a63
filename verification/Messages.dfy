// The neutral message model of src/api/types.hpp, as far as the request view looks at it.

module Messages {
  import opened Options
  import opened Utf8

  datatype Role = User | Assistant | System | Tool

  // A scalar argument of a tool call; the dedup key reads strings and integers only.
  datatype Json = JString(s: string) | JInteger(n: int) | JOther

  // One block of a rich tool result. An image is worth a fixed number of tokens.
  datatype Rich = RichText(text: Text) | RichImage(tokens: nat, data: Text) | RichOther(data: Text)

  datatype ToolResult = ToolResult(
    id: Text, content: Text, isError: bool, blocks: seq<Rich>, structured: Option<Text>)

  datatype Block =
    | TextBlock(text: Text)
    | ImageBlock(data: Text)
    | CallBlock(id: Text, name: string, input: map<string, Json>)
    | ResultBlock(result: ToolResult)
    | OtherBlock(data: Text)

  datatype Message = Message(role: Role, content: seq<Block>)

  type History = seq<Message>

  // The fixed texts a view is assembled from.
  datatype Wording = Wording(
    truncateMark: Text,
    artifact: Text, sha: Text, size: Text, head: Text, tail: Text, archived: Text,
    duplicate: Text, sameResult: Text, seen: Text, times: Text,
    newVersion: Text, oldVersion: Text)

  // The texts the program ships with.
  const WORDING := Wording(
    Encode("\n[内容过长已截断]"),
    Encode("[artifact "), Encode(" · sha="), Encode(" · "), Encode(" 字节 · 头部:\n"), Encode("\n…尾部:\n"),
    Encode("\n全文在会话存档,可用 /export 查看]"),
    Encode("[已收敛:与事件 "), Encode(" 的结果完全相同("), Encode("),累计出现 "), Encode(" 次;全文在会话存档]"),
    Encode("[此读取替代事件 "), Encode(" 的旧版本]\n"))

  // What the view depends on besides the history: the content fingerprint, the text projection
  // of rich results, the wording, and the structural options.
  datatype Env = Env(
    fingerprint: Text -> Text,
    project: (seq<Rich>, Option<Text>) -> Text,
    wording: Wording,
    longResultBytes: nat,
    previewBytes: nat,
    minCompressibleBytes: nat,
    compression: bool)

  predicate ResultAt(h: History, m: int, b: int) {
    0 <= m < |h| && 0 <= b < |h[m].content| && h[m].content[b].ResultBlock?
  }

  predicate CallAt(h: History, m: int, b: int) {
    0 <= m < |h| && 0 <= b < |h[m].content| && h[m].content[b].CallBlock?
  }

  function ResultId(h: History, m: int, b: int): Text
    requires ResultAt(h, m, b)
  {
    h[m].content[b].result.id
  }

  function CallId(h: History, m: int, b: int): Text
    requires CallAt(h, m, b)
  {
    h[m].content[b].id
  }

  // Every tool result has an identity of its own.
  ghost predicate DistinctResults(h: History) {
    && (forall m, b | ResultAt(h, m, b) :: ResultId(h, m, b) != [])
    && (forall m, b, n, c | ResultAt(h, m, b) && ResultAt(h, n, c) && ResultId(h, m, b) == ResultId(h, n, c) ::
          m == n && b == c)
  }

  // The calls have identities of their own too, and a result that answers a call stands in the
  // user message right after it.
  ghost predicate WellPaired(h: History) {
    && DistinctResults(h)
    && (forall m, b, n, c | CallAt(h, m, b) && CallAt(h, n, c) && CallId(h, m, b) == CallId(h, n, c) ::
          m == n && b == c)
    && (forall m, b, n, c | CallAt(h, m, b) && ResultAt(h, n, c) && CallId(h, m, b) == ResultId(h, n, c) ::
          n == m + 1 && h[n].role == User)
  }

  // ---- Growth -------------------------------------------------------------------------------

  // Blocks are only ever appended to a message, and never results: a batch of results is pushed
  // as one message.
  ghost predicate Grown(a: Message, b: Message) {
    && a.role == b.role
    && a.content <= b.content
    && forall c | |a.content| <= c < |b.content| :: !b.content[c].ResultBlock?
  }

  // `g` continues `h`: only the last message of `h` may have grown.
  ghost predicate Extends(h: History, g: History) {
    && |h| <= |g|
    && (forall m | 0 <= m < |h| - 1 :: g[m] == h[m])
    && (h != [] ==> Grown(h[|h| - 1], g[|h| - 1]))
  }

  function DropLast(h: History): History {
    if h == [] then h else h[..|h| - 1]
  }

  // Taking back a message that came after `h`.
  lemma ExtendsDropLast(h: History, g: History)
    requires Extends(h, g) && |h| < |g|
    ensures Extends(h, DropLast(g))
  {
  }

  lemma ExtendsReflexive(h: History)
    ensures Extends(h, h)
  {
  }

  lemma ExtendsTransitive(h: History, g: History, k: History)
    requires Extends(h, g) && Extends(g, k)
    ensures Extends(h, k)
  {
    if h != [] && |h| == |g| {
      var a, c := h[|h| - 1], k[|h| - 1];
      assert forall i | |a.content| <= i < |c.content| :: !c.content[i].ResultBlock?;
    }
  }

  lemma ExtendsKeepsBlocks(h: History, g: History, m: nat, b: nat)
    requires Extends(h, g) && m < |h| && b < |h[m].content|
    ensures b < |g[m].content| && g[m].content[b] == h[m].content[b] && g[m].role == h[m].role
  {
  }

  lemma ExtendsWellPaired(h: History, g: History)
    requires Extends(h, g) && WellPaired(g)
    ensures WellPaired(h)
  {
    forall m, b | ResultAt(h, m, b) ensures ResultAt(g, m, b) && ResultId(g, m, b) == ResultId(h, m, b) {
      ExtendsKeepsBlocks(h, g, m, b);
    }
    forall m, b | CallAt(h, m, b) ensures CallAt(g, m, b) && CallId(g, m, b) == CallId(h, m, b) {
      ExtendsKeepsBlocks(h, g, m, b);
    }
    forall n, c | ResultAt(h, n, c) ensures h[n].role == g[n].role {
      ExtendsKeepsBlocks(h, g, n, c);
    }
  }

  // ---- Well-formed text ---------------------------------------------------------------------

  ghost predicate ValidTexts(blocks: seq<Rich>) {
    forall i | 0 <= i < |blocks| && blocks[i].RichText? :: Valid(blocks[i].text)
  }

  ghost predicate ValidResult(r: ToolResult) {
    Valid(r.content) && ValidTexts(r.blocks)
  }

  ghost predicate ValidHistory(h: History) {
    forall m, b | ResultAt(h, m, b) :: ValidResult(h[m].content[b].result)
  }

  // Fingerprints, projections of well-formed blocks and the wording are well-formed UTF-8.
  ghost predicate ValidWording(w: Wording) {
    && Valid(w.truncateMark) && Valid(w.artifact) && Valid(w.sha) && Valid(w.size) && Valid(w.head) && Valid(w.tail)
    && Valid(w.archived) && Valid(w.duplicate) && Valid(w.sameResult) && Valid(w.seen) && Valid(w.times)
    && Valid(w.newVersion) && Valid(w.oldVersion)
  }

  lemma ShippedWordingIsValid()
    ensures ValidWording(WORDING)
  {
  }

  ghost predicate ValidEnv(env: Env) {
    && (forall t: Text :: Valid(env.fingerprint(t)))
    && (forall blocks: seq<Rich>, structured: Option<Text> | ValidTexts(blocks) ::
        Valid(env.project(blocks, structured)))
    && ValidWording(env.wording)
  }

  // A real outer user input: it opens a turn.
  predicate IsUserTurnStart(message: Message) {
    message.role == User && exists b :: 0 <= b < |message.content|
                                        && (message.content[b].TextBlock? || message.content[b].ImageBlock?)
  }
}
