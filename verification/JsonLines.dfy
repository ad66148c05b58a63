// A form of trajectory lines that has the properties the hash-chain results ask of JSON, and with it a
// file that --rehash of scripts/validate_trajectory_v3.py accepts, but writes so that it cannot be read.
// A line is an object of quoted strings. Quotes, backslashes and control characters are escaped; the
// three line breaks above U+0080 may be, and are not in the canonical form.

module JsonLines {
  import opened Options
  import Goals
  import ContextChain
  import opened Trajectory

  // ---- a line as a list of strings ----------------------------------------------------------

  function Ones(n: nat): (s: string)
    ensures |s| == n
  {
    seq(n, _ => '1')
  }

  function OfInt(n: int): string {
    if n >= 0 then "+" + Ones(n) else "-" + Ones(-n)
  }

  function OfDigest(d: Digest): string {
    match d
    case Hex64(n) => "h" + Ones(n)
    case Placeholder(text) => "p" + text
  }

  function OfLifecycle(l: Goals.Lifecycle): string {
    match l
    case Achieved => "a"
    case Cleared => "c"
    case Failed => "f"
    case Ongoing(name) => "o" + name
  }

  function OfNode(node: ContextChain.Node): seq<string> {
    [node.ref, if node.prev.None? then "" else "=" + node.prev.value]
  }

  function OfNodes(nodes: seq<ContextChain.Node>): seq<string> {
    if nodes == [] then [] else OfNode(nodes[0]) + OfNodes(nodes[1..])
  }

  function OfOpener(opener: ContextChain.Opener): string {
    match opener
    case Start => "0"
    case Started => "1"
    case System => "2"
    case Reduced => "3"
    case Compacted(identified) => if identified then "4" else "5"
  }

  function OfEntry(entry: ContextChain.Entry): seq<string> {
    match entry
    case Opens(opener, chain) => [OfOpener(opener)] + OfNodes(chain)
    case Extends(nodes) => ["+"] + OfNodes(nodes)
    case Other => ["-"]
  }

  function OfEvent(e: Goals.Event): seq<string> {
    match e
    case Other => []
    case GoalApplied(goal, from, to, lifecycle) => [goal, OfInt(from), OfInt(to), OfLifecycle(lifecycle)]
  }

  function OfFact(fact: Fact): seq<string> {
    match fact
    case Goal(event) => ["g"] + OfEvent(event)
    case Context(entry) => ["c"] + OfEntry(entry)
    case Workflow(opening) => [if opening then "o" else "w"]
    case Plain => ["p"]
  }

  function Fields(l: Line): seq<string> {
    [OfDigest(l.prevHash), OfDigest(l.lineHash)]
    + [OfInt(l.body.seqNo), if l.body.wellFormed then "t" else "f", l.body.rest]
    + OfFact(l.body.fact)
  }

  lemma IntsDiffer(m: int, n: int)
    requires OfInt(m) == OfInt(n)
    ensures m == n
  {
    assert OfInt(m)[0] == OfInt(n)[0] && |OfInt(m)| == |OfInt(n)|;
  }

  lemma DigestsDiffer(d: Digest, e: Digest)
    requires OfDigest(d) == OfDigest(e)
    ensures d == e
  {
    assert OfDigest(d)[0] == OfDigest(e)[0] && OfDigest(d)[1..] == OfDigest(e)[1..];
  }

  lemma LifecyclesDiffer(l: Goals.Lifecycle, m: Goals.Lifecycle)
    requires OfLifecycle(l) == OfLifecycle(m)
    ensures l == m
  {
    assert OfLifecycle(l)[0] == OfLifecycle(m)[0] && OfLifecycle(l)[1..] == OfLifecycle(m)[1..];
  }

  lemma {:induction false} NodesDiffer(x: seq<ContextChain.Node>, y: seq<ContextChain.Node>)
    requires OfNodes(x) == OfNodes(y)
    ensures x == y
  {
    if x != [] && y != [] {
      var p, q := OfNode(x[0]), OfNode(y[0]);
      assert OfNodes(x)[0] == p[0] && OfNodes(x)[1] == p[1] && OfNodes(y)[0] == q[0] && OfNodes(y)[1] == q[1];
      assert p[1] == q[1] && |p[1]| == |q[1]| && (p[1] != [] ==> p[1][1..] == q[1][1..]);
      assert OfNodes(x)[2..] == OfNodes(x[1..]) && OfNodes(y)[2..] == OfNodes(y[1..]);
      NodesDiffer(x[1..], y[1..]);
      assert x == [x[0]] + x[1..] && y == [y[0]] + y[1..];
    }
  }

  lemma EntriesDiffer(e: ContextChain.Entry, f: ContextChain.Entry)
    requires OfEntry(e) == OfEntry(f)
    ensures e == f
  {
    assert OfEntry(e)[0][0] == OfEntry(f)[0][0];
    assert OfEntry(e)[1..] == OfEntry(f)[1..];
    match e
    case Opens(_, chain) => NodesDiffer(chain, f.chain);
    case Extends(nodes) => NodesDiffer(nodes, f.nodes);
    case Other =>
  }

  lemma EventsDiffer(e: Goals.Event, f: Goals.Event)
    requires OfEvent(e) == OfEvent(f)
    ensures e == f
  {
    assert |OfEvent(e)| == |OfEvent(f)|;
    if e.GoalApplied? {
      assert OfEvent(e)[0] == OfEvent(f)[0] && OfEvent(e)[1] == OfEvent(f)[1];
      assert OfEvent(e)[2] == OfEvent(f)[2] && OfEvent(e)[3] == OfEvent(f)[3];
      IntsDiffer(e.from, f.from);
      IntsDiffer(e.to, f.to);
      LifecyclesDiffer(e.lifecycle, f.lifecycle);
    }
  }

  lemma FactsDiffer(x: Fact, y: Fact)
    requires OfFact(x) == OfFact(y)
    ensures x == y
  {
    assert OfFact(x)[0][0] == OfFact(y)[0][0];
    assert OfFact(x)[1..] == OfFact(y)[1..];
    match x
    case Goal(event) => EventsDiffer(event, y.event);
    case Context(entry) => EntriesDiffer(entry, y.entry);
    case Workflow(_) =>
    case Plain =>
  }

  lemma FieldsDiffer(l: Line, m: Line)
    requires Fields(l) == Fields(m)
    ensures l == m
  {
    var f, g := Fields(l), Fields(m);
    assert f[0] == g[0] && f[1] == g[1] && f[2] == g[2] && f[3] == g[3] && f[4] == g[4] && f[5..] == g[5..];
    DigestsDiffer(l.prevHash, m.prevHash);
    DigestsDiffer(l.lineHash, m.lineHash);
    IntsDiffer(l.body.seqNo, m.body.seqNo);
    assert f[5..] == OfFact(l.body.fact) && g[5..] == OfFact(m.body.fact);
    FactsDiffer(l.body.fact, m.body.fact);
    assert "t"[0] != "f"[0];
  }

  // ---- quoting ------------------------------------------------------------------------------

  // One character; `ascii` escapes the raw line breaks too.
  function Escaped(c: char, ascii: bool): (s: string)
    ensures 1 <= |s| <= 2 && s[0] != '\"'
  {
    if c == '\"' || c == '\\' then ['\\', c]
    else if c < ' ' then ['\\', (c as int + 0x60) as char]
    else if ascii && c as int == 0x85 then ['\\', 'N']
    else if ascii && c as int == 0x2028 then ['\\', 'L']
    else if ascii && c as int == 0x2029 then ['\\', 'P']
    else [c]
  }

  function Chars(s: string, ascii: bool): string {
    if s == [] then [] else Escaped(s[0], ascii) + Chars(s[1..], ascii)
  }

  // The quoted fields, and the brace that ends the object.
  function Quoted(fields: seq<string>, ascii: bool): (t: string)
    ensures t != []
  {
    if fields == [] then ['}'] else ['\"'] + (Chars(fields[0], ascii) + ['\"'] + Quoted(fields[1..], ascii))
  }

  function Object(l: Line, ascii: bool): (t: string)
    ensures t != [] && t[0] == '{'
  {
    ['{'] + Quoted(Fields(l), ascii)
  }

  // No control character, and in the escaped form no line break either.
  predicate Plain(t: string, ascii: bool) {
    forall i | 0 <= i < |t| :: t[i] >= ' ' && (ascii ==> !IsBreak(t[i]))
  }

  lemma {:induction false} CharsArePlain(s: string, ascii: bool)
    ensures Plain(Chars(s, ascii), ascii)
  {
    if s != [] {
      CharsArePlain(s[1..], ascii);
      assert Plain(Escaped(s[0], ascii), ascii);
    }
  }

  lemma {:induction false} QuotedIsPlain(fields: seq<string>, ascii: bool)
    ensures Plain(Quoted(fields, ascii), ascii)
  {
    if fields != [] {
      CharsArePlain(fields[0], ascii);
      QuotedIsPlain(fields[1..], ascii);
    }
  }

  // Hashes are written without a line break, so they do not decide whether the object holds one.
  ghost predicate Ascii(t: string) {
    forall i | 0 <= i < |t| :: t[i] < 0x80 as char
  }

  lemma {:induction false} CharsAreAscii(s: string)
    requires Ascii(s)
    ensures Ascii(Chars(s, false))
  {
    if s != [] {
      CharsAreAscii(s[1..]);
      assert Ascii(Escaped(s[0], false));
    }
  }

  lemma BreakInTail(s: string, t: string)
    requires Ascii(s)
    ensures HoldsRawBreak(s + t) <==> HoldsRawBreak(t)
  {
    if i :| 0 <= i < |s + t| && (s + t)[i] as int in {0x85, 0x2028, 0x2029} {
      assert i >= |s| && (s + t)[i] == t[i - |s|];
    }
    if i :| 0 <= i < |t| && t[i] as int in {0x85, 0x2028, 0x2029} {
      assert (s + t)[|s| + i] == t[i];
    }
  }

  lemma BreakInTailFields(fields: seq<string>)
    requires fields != [] && Ascii(fields[0])
    ensures HoldsRawBreak(Quoted(fields, false)) <==> HoldsRawBreak(Quoted(fields[1..], false))
  {
    CharsAreAscii(fields[0]);
    var head, tail := ['\"'] + (Chars(fields[0], false) + ['\"']), Quoted(fields[1..], false);
    assert Quoted(fields, false) == head + tail;
    BreakInTail(head, tail);
  }

  lemma HashesHoldNoBreak(p: nat, h: nat, body: Body)
    ensures HoldsRawBreak(Object(Line(Hex64(p), Hex64(h), body), false))
       <==> HoldsRawBreak(Quoted(Fields(Line(GENESIS, GENESIS, body))[2..], false))
  {
    var fields := Fields(Line(Hex64(p), Hex64(h), body));
    BreakInTail(['{'], Quoted(fields, false));
    BreakInTailFields(fields);
    BreakInTailFields(fields[1..]);
    assert fields[1..][1..] == Fields(Line(GENESIS, GENESIS, body))[2..];
  }

  // No text is the beginning of another one: what one character, one string and one list of strings
  // read as is decided by the text alone, in either form.
  lemma EscapesDiffer(c: char, a: bool, x: string, d: char, b: bool, y: string)
    requires Escaped(c, a) + x <= Escaped(d, b) + y
    ensures c == d && Escaped(c, a) == Escaped(d, b) && x <= y
  {
    var p, q := Escaped(c, a), Escaped(d, b);
    assert (p + x)[0] == p[0] && (q + y)[0] == q[0];
    if |p| == 2 {
      assert (p + x)[1] == p[1];
    }
    if |q| == 2 && |p| == 2 {
      assert (q + y)[1] == q[1];
    }
    assert p == q;
    assert x == (p + x)[|p|..] && y == (q + y)[|p|..];
  }

  function Closed(s: string, ascii: bool, rest: string): (t: string)
    ensures t != []
  {
    Chars(s, ascii) + ['\"'] + rest
  }

  lemma ClosedEmpty(ascii: bool, rest: string)
    ensures Closed([], ascii, rest) == ['\"'] + rest && Closed([], ascii, rest)[0] == '\"'
    ensures Closed([], ascii, rest)[1..] == rest
  {
    var t := ['\"'] + rest;
    assert t[1..] == rest;
  }

  lemma ClosedChar(s: string, ascii: bool, rest: string)
    requires s != []
    ensures Closed(s, ascii, rest) == Escaped(s[0], ascii) + Closed(s[1..], ascii, rest)
    ensures Closed(s, ascii, rest)[0] != '\"'
  {
    var e, tail := Escaped(s[0], ascii), Chars(s[1..], ascii);
    assert (e + tail) + ['\"'] + rest == e + (tail + ['\"'] + rest);
  }

  lemma {:induction false} CharsDiffer(s: string, a: bool, x: string, t: string, b: bool, y: string)
    requires Closed(s, a, x) <= Closed(t, b, y)
    ensures s == t && Chars(s, a) == Chars(t, b) && x <= y
  {
    assert Closed(s, a, x)[0] == Closed(t, b, y)[0];
    if s == [] {
      ClosedEmpty(a, x);
    } else {
      ClosedChar(s, a, x);
    }
    if t == [] {
      ClosedEmpty(b, y);
    } else {
      ClosedChar(t, b, y);
    }
    if s != [] {
      EscapesDiffer(s[0], a, Closed(s[1..], a, x), t[0], b, Closed(t[1..], b, y));
      CharsDiffer(s[1..], a, x, t[1..], b, y);
      assert s == [s[0]] + s[1..] && t == [t[0]] + t[1..];
    }
  }

  lemma TailsPrefix(c: char, s: string, d: char, t: string)
    requires [c] + s <= [d] + t
    ensures c == d && s <= t
  {
    var p, q := [c] + s, [d] + t;
    assert p[0] == q[0] && p[1..] == s && q[1..] == t;
  }

  lemma {:induction false} QuotedDiffer(f: seq<string>, a: bool, g: seq<string>, b: bool)
    requires Quoted(f, a) <= Quoted(g, b)
    ensures f == g && Quoted(f, a) == Quoted(g, b)
  {
    assert Quoted(f, a)[0] == Quoted(g, b)[0];
    assert (f == [] <==> Quoted(f, a)[0] == '}') && (g == [] <==> Quoted(g, b)[0] == '}');
    if f != [] {
      var x, y := Quoted(f[1..], a), Quoted(g[1..], b);
      TailsPrefix('\"', Closed(f[0], a, x), '\"', Closed(g[0], b, y));
      CharsDiffer(f[0], a, x, g[0], b, y);
      QuotedDiffer(f[1..], a, g[1..], b);
      assert f == [f[0]] + f[1..] && g == [g[0]] + g[1..];
    }
  }

  lemma ObjectsDiffer(l: Line, a: bool, m: Line, b: bool)
    requires Object(l, a) <= Object(m, b)
    ensures l == m && Object(l, a) == Object(m, b)
  {
    assert Object(l, a)[1..] == Quoted(Fields(l), a) && Object(m, b)[1..] == Quoted(Fields(m), b);
    QuotedDiffer(Fields(l), a, Fields(m), b);
    FieldsDiffer(l, m);
  }

  // ---- an environment -----------------------------------------------------------------------

  ghost predicate IsObject(l: Line, s: string) {
    exists ascii :: Object(l, ascii) == s
  }

  ghost function Read(s: string): Option<Line> {
    if exists l :: IsObject(l, s) then
      var l :| IsObject(l, s);
      Some(l)
    else None
  }

  ghost const QUOTING := Env((prev, body) => 0, l => Object(l, false), s => Read(s), bodies => 0)

  lemma ReadsObjects(l: Line, ascii: bool)
    ensures Read(Object(l, ascii)) == Some(l)
  {
    assert IsObject(l, Object(l, ascii));
    var m := Read(Object(l, ascii)).value;
    var a :| Object(m, a) == Object(l, ascii);
    ObjectsDiffer(m, a, l, ascii);
  }

  lemma QuotingIsFaithful()
    ensures FaithfulJson(QUOTING)
  {
    forall l: Line ensures Plain(Object(l, false), false) {
      QuotedIsPlain(Fields(l), false);
    }
    forall l: Line ensures QUOTING.parse(QUOTING.canonical(l)) == Some(l) {
      ReadsObjects(l, false);
    }
    forall p: nat, h: nat, body: Body
      ensures HoldsRawBreak(QUOTING.canonical(Line(Hex64(p), Hex64(h), body))) <==> !CleanBody(body, QUOTING)
    {
      HashesHoldNoBreak(p, h, body);
      HashesHoldNoBreak(0, 0, body);
    }
    forall l: Line, k: nat | 0 < k < |QUOTING.canonical(l)| ensures QUOTING.parse(QUOTING.canonical(l)[..k]) == None {
      NoPrefixIsObject(l, k);
    }
  }

  lemma NoPrefixIsObject(l: Line, k: nat)
    requires 0 < k < |Object(l, false)|
    ensures Read(Object(l, false)[..k]) == None
  {
    var s := Object(l, false)[..k];
    forall m, a ensures Object(m, a) != s {
      if Object(m, a) <= Object(l, false) {
        ObjectsDiffer(m, a, l, false);
      }
    }
  }

  // ---- a file that rehash accepts and breaks ------------------------------------------------

  // A workflow ledger of one line that holds U+2028, escaped, under placeholder hashes.
  const SEPARATOR := Line(Placeholder("0"), Placeholder("0"), Body(1, true, Workflow(true), [0x2028 as char]))

  lemma {:induction false} NoBreak(s: string, i: nat)
    requires i <= |s| && forall j | i <= j < |s| :: !IsBreak(s[j])
    ensures FirstBreak(s, i) == |s|
    decreases |s| - i
  {
    if i < |s| {
      NoBreak(s, i + 1);
    }
  }

  lemma SeparatorIsRead()
    ensures
      var text := Object(SEPARATOR, true);
      SplitLines(text) == [text] && !Blank(text) && QUOTING.parse(text) == Some(SEPARATOR)
  {
    var text := Object(SEPARATOR, true);
    QuotedIsPlain(Fields(SEPARATOR), true);
    assert forall j | 0 <= j < |text| :: !IsBreak(text[j]);
    NoBreak(text, 0);
    assert !IsSpace(text[0]);
    ReadsObjects(SEPARATOR, true);
  }

  lemma RawSeparator(l: Line)
    requires l.body == SEPARATOR.body
    ensures HoldsRawBreak(Object(l, false))
  {
    var c := 0x2028 as char;
    var fields := Fields(l);
    assert fields[4] == l.body.rest == [c];
    FieldStands(fields, 4, c, false);
    var text := Quoted(fields, false);
    var i :| 0 <= i < |text| && text[i] == c;
    assert Object(l, false)[i + 1] as int == 0x2028;
  }

  // A character that needs no escape stands in the text.
  lemma {:induction false} FieldStands(fields: seq<string>, k: nat, c: char, ascii: bool)
    requires k < |fields| && fields[k] == [c] && Escaped(c, ascii) == [c]
    ensures c in Quoted(fields, ascii)
  {
    var text, rest := Chars(fields[0], ascii), Quoted(fields[1..], ascii);
    if k > 0 {
      assert fields[1..][k - 1] == fields[k];
      FieldStands(fields[1..], k - 1, c, ascii);
      StandsWithin('\"', text, '\"', rest, c);
    } else {
      assert fields[0][1..] == [] && text == [c] + Chars([], ascii);
      StandsWithin('\"', text, '\"', rest, c);
    }
  }

  lemma StandsWithin(open: char, s: string, close: char, t: string, c: char)
    requires c in s || c in t
    ensures c in [open] + (s + [close] + t)
  {
    var all := [open] + (s + [close] + t);
    if c in s {
      var i :| 0 <= i < |s| && s[i] == c;
      assert all[i + 1] == c;
    } else {
      var i :| 0 <= i < |t| && t[i] == c;
      assert all[i + |s| + 2] == c;
    }
  }

  // The file is accepted and rewritten, and neither the strict check nor a second rehash can read it.
  lemma RehashCanBreakAFile()
    ensures FaithfulJson(QUOTING)
    ensures
      var text := Object(SEPARATOR, true);
      var first := Judge(text, true, QUOTING);
      && first.Verdict? && first.ok && !CleanText(SplitLines(text), QUOTING)
      && Judge(first.written.value, false, QUOTING).Crash? && Judge(first.written.value, true, QUOTING).Crash?
  {
    QuotingIsFaithful();
    SeparatorIsRead();
    var text := Object(SEPARATOR, true);
    var sealed := SEPARATOR.(prevHash := GENESIS, lineHash := LineHash(GENESIS, SEPARATOR.body, QUOTING));
    var raws := SplitLines(text);
    assert ScanAll(raws, 0, true, QUOTING) == Scan([], GENESIS, true);
    assert ScanAll(raws, 1, true, QUOTING) == Scan([sealed], sealed.lineHash, true);
    assert IsWorkflow([sealed]);
    RawSeparator(SEPARATOR.(prevHash := GENESIS, lineHash := GENESIS));
    assert NonBlank(raws, 0) == [] && NonBlank(raws, 1) == raws;
    assert !CleanBody(QUOTING.parse(raws[0]).value.body, QUOTING);
    RehashRoundTrip(text, QUOTING);
  }
}
