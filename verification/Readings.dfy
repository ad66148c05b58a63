// What can be read off a compressed result: the numbers it names and the ends of the text it stands for.

module Readings {
  import opened Options
  import opened Utf8
  import opened Messages
  import opened Compress

  // ---- numbers in a text --------------------------------------------------------------------

  predicate Digit(b: Byte) {
    0x30 <= b <= 0x39
  }

  function Value(digits: Text): int {
    if digits == [] then 0 else Value(digits[..|digits| - 1]) * 10 + digits[|digits| - 1] - 0x30
  }

  // The decimal number that starts at `i` and goes on as far as there are digits; the one that ends at `j`.
  ghost predicate Says(t: Text, i: nat, n: nat) {
    exists j :: i < j <= |t| && DigitsOnly(t, i, j) && (j == |t| || !Digit(t[j])) && Value(t[i..j]) == n
  }

  ghost predicate SaysBefore(t: Text, j: nat, n: nat) {
    exists i :: 0 <= i < j <= |t| && DigitsOnly(t, i, j) && (i == 0 || !Digit(t[i - 1])) && Value(t[i..j]) == n
  }

  ghost predicate DigitsOnly(t: Text, i: int, j: int) {
    forall k | i <= k < j :: 0 <= k < |t| && Digit(t[k])
  }

  // A text says one number at a place.
  lemma SaysOne(t: Text, i: nat, m: nat, n: nat)
    requires Says(t, i, m) && Says(t, i, n)
    ensures m == n
  {
    var j :| i < j <= |t| && DigitsOnly(t, i, j) && (j == |t| || !Digit(t[j])) && Value(t[i..j]) == m;
    var k :| i < k <= |t| && DigitsOnly(t, i, k) && (k == |t| || !Digit(t[k])) && Value(t[i..k]) == n;
    assert j == k;
  }

  function Spelled(f: char -> Text, s: string): Text {
    if s == [] then [] else f(s[0]) + Spelled(f, s[1..])
  }

  lemma {:induction false} SpelledConcat(f: char -> Text, a: string, b: string)
    ensures Spelled(f, a + b) == Spelled(f, a) + Spelled(f, b)
  {
    if a == [] {
      assert a + b == b;
    } else {
      SpelledConcat(f, a[1..], b);
      SpelledStep(f, a + b);
      assert (a + b)[1..] == a[1..] + b;
      OneOver(f(a[0]), Spelled(f, a[1..]), Spelled(f, b));
    }
  }

  lemma SpelledStep(f: char -> Text, s: string)
    requires s != []
    ensures Spelled(f, s) == f(s[0]) + Spelled(f, s[1..])
  {
  }

  lemma {:induction false} EncodeSpells(s: string)
    ensures Encode(s) == Spelled(EncodeChar, s)
  {
    if s != [] {
      EncodeSpells(s[1..]);
    }
  }

  ghost predicate IsNumber(t: Text, n: nat) {
    t != [] && DigitsOnly(t, 0, |t|) && Value(t) == n
  }

  lemma OneMoreDigit(t: Text, n: nat, d: nat)
    requires IsNumber(t, n) && d < 10
    ensures IsNumber(t + [0x30 + d], n * 10 + d)
  {
    var u := t + [0x30 + d];
    assert u[..|t|] == t;
    assert forall k | 0 <= k < |t| :: u[k] == t[k];
  }

  lemma OneDigit(d: nat)
    requires d < 10
    ensures IsNumber([0x30 + d], d)
  {
    var u: Text := [0x30 + d];
    assert u[..0] == [] && Value(u[..0]) == 0;
  }

  lemma SpellsDigit(d: nat)
    requires d < 10
    ensures Spelled(EncodeChar, [('0' as int + d) as char]) == [0x30 + d]
  {
    var c := ('0' as int + d) as char;
    assert EncodeChar(c) == [c as int] && [c][1..] == [] && Spelled(EncodeChar, []) == [];
  }

  lemma {:induction false} SpelledDecimal(n: nat)
    ensures IsNumber(Spelled(EncodeChar, Decimal(n)), n)
  {
    var last := [('0' as int + n % 10) as char];
    SpellsDigit(n % 10);
    if n < 10 {
      OneDigit(n);
    } else {
      SpelledDecimal(n / 10);
      SpelledConcat(EncodeChar, Decimal(n / 10), last);
      OneMoreDigit(Spelled(EncodeChar, Decimal(n / 10)), n / 10, n % 10);
    }
  }

  lemma DecimalReads(n: nat)
    ensures IsNumber(Encode(Decimal(n)), n)
  {
    EncodeSpells(Decimal(n));
    SpelledDecimal(n);
  }

  predicate StartsWord(t: Text) {
    t != [] && !Digit(t[0])
  }

  predicate EndsWord(t: Text) {
    t != [] && !Digit(t[|t| - 1])
  }

  lemma NumberStands(before: Text, d: Text, after: Text, n: nat)
    requires IsNumber(d, n) && StartsWord(after)
    ensures Says(before + d + after, |before|, n)
  {
    var t, i, j := before + d + after, |before|, |before| + |d|;
    assert t[i..j] == d && t[j] == after[0];
    assert forall k | i <= k < j :: t[k] == d[k - i];
    assert DigitsOnly(t, i, j);
  }

  lemma NumberStandsBefore(before: Text, d: Text, after: Text, n: nat)
    requires IsNumber(d, n) && EndsWord(before)
    ensures SaysBefore(before + d + after, |before| + |d|, n)
  {
    var t, i, j := before + d + after, |before|, |before| + |d|;
    assert t[i..j] == d && t[i - 1] == before[|before| - 1];
    assert forall k | i <= k < j :: t[k] == d[k - i];
    assert DigitsOnly(t, i, j);
  }

  lemma EventIdIs(n: nat)
    ensures EventId(n) == [0x65] + Encode(Decimal(n))
  {
    EncodeSpells("e" + Decimal(n));
    EncodeSpells(Decimal(n));
    SpelledConcat(EncodeChar, "e", Decimal(n));
    assert "e"[0] == 'e' && "e"[1..] == [] && Spelled(EncodeChar, []) == [];
    assert EncodeChar('e') == [0x65];
    assert Spelled(EncodeChar, "e") == [0x65];
  }

  // ---- fields of a tool call ----------------------------------------------------------------

  function Read(s: string): int {
    if s != [] && s[0] == '-' then -ReadDigits(s[1..]) else ReadDigits(s)
  }

  function ReadDigits(s: string): int {
    if s == [] then 0 else ReadDigits(s[..|s| - 1]) * 10 + (s[|s| - 1] as int - '0' as int)
  }

  lemma {:induction false} DecimalIsRead(n: nat)
    ensures Decimal(n) != [] && '0' <= Decimal(n)[0] <= '9' && ReadDigits(Decimal(n)) == n
  {
    var last := [('0' as int + n % 10) as char];
    if n < 10 {
      assert last[..0] == [] && ReadDigits([]) == 0;
    } else {
      DecimalIsRead(n / 10);
      assert (Decimal(n / 10) + last)[..|Decimal(n / 10)|] == Decimal(n / 10);
    }
  }

  // An integer field is written so that it is read back, a string field as it is, and anything else is empty.
  lemma FieldsMean(input: map<string, Json>, name: string)
    ensures name in input && input[name].JInteger? ==>
              && Read(Field(input, name)) == input[name].n && NoBar(Field(input, name))
              && (Field(input, name)[..1] == "-" <==> input[name].n < 0)
    ensures name in input && input[name].JString? ==> Field(input, name) == input[name].s
    ensures name !in input || input[name].JOther? ==> Field(input, name) == []
  {
    if name in input && input[name].JInteger? {
      var n := input[name].n;
      var d := Decimal(if n < 0 then -n else n);
      DecimalIsRead(if n < 0 then -n else n);
      DecimalHasNoBar(if n < 0 then -n else n);
      if n < 0 {
        assert ("-" + d)[1..] == d;
      }
    }
  }

  lemma {:induction false} DecimalHasNoBar(n: nat)
    ensures NoBar(Decimal(n))
  {
    if n >= 10 {
      DecimalHasNoBar(n / 10);
    }
  }

  // ---- references ---------------------------------------------------------------------------

  // Numbers are told from the words around them.
  ghost predicate Readable(w: Wording) {
    && StartsWord(w.sameResult) && StartsWord(w.oldVersion) && StartsWord(w.sha)
    && StartsWord(w.head) && EndsWord(w.seen)
  }

  lemma {:induction false} EncodeEnds(s: string)
    requires s != []
    ensures Encode(s) != [] && Encode(s)[0] == EncodeChar(s[0])[0]
    ensures
      var last := EncodeChar(s[|s| - 1]);
      Encode(s)[|Encode(s)| - 1] == last[|last| - 1]
  {
    var n := |s| - 1;
    EncodeSpells(s);
    SpelledConcat(EncodeChar, s[..n], [s[n]]);
    assert s == s[..n] + [s[n]] && [s[n]][1..] == [] && Spelled(EncodeChar, []) == [];
  }

  lemma SpaceFirst(s: string)
    requires s != [] && s[0] == ' '
    ensures StartsWord(Encode(s))
  {
    EncodeEnds(s);
    assert EncodeChar(' ') == [0x20];
  }

  lemma SpaceLast(s: string)
    requires s != [] && s[|s| - 1] == ' '
    ensures EndsWord(Encode(s))
  {
    EncodeEnds(s);
    assert EncodeChar(' ') == [0x20];
  }

  lemma ShippedWordingIsReadable()
    ensures Readable(WORDING)
  {
    SpaceFirst(" · sha=");
    SpaceFirst(" 字节 · 头部:\n");
    SpaceFirst(" 的结果完全相同(");
    SpaceLast("),累计出现 ");
    SpaceFirst(" 的旧版本]\n");
  }

  lemma JoinFour(a: Text, b: Text, c: Text, d: Text)
    ensures Join([a, b, c, d]) == a + b + c + d
  {
    JoinThree(b, c, d);
    assert [a, b, c, d][1..] == [b, c, d];
  }

  lemma JoinThree(a: Text, b: Text, c: Text)
    ensures Join([a, b, c]) == a + b + c
  {
    assert [a, b, c][1..] == [b, c] && [b, c][1..] == [c] && [c][1..] == [];
    assert Join([]) == [] && Join([c]) == c + Join([]) && Join([b, c]) == b + Join([c]);
  }

  // Opening words, an event, other words.
  lemma ReferenceText(v: Text, opening: Text, id: Text, ref: nat, rest: Text)
    requires v == opening + (id + rest) && id == EventId(ref) && StartsWord(rest)
    ensures opening + [0x65] <= v && Says(v, |opening| + 1, ref)
  {
    var d := Encode(Decimal(ref));
    EventIdIs(ref);
    DecimalReads(ref);
    OneByteOver(opening, 0x65, d, rest);
    NumberStands(opening + [0x65], d, rest, ref);
  }

  lemma OneByteOver(opening: Text, b: Byte, d: Text, rest: Text)
    ensures opening + ([b] + d + rest) == (opening + [b]) + d + rest
    ensures opening + [b] <= opening + ([b] + d + rest)
  {
  }

  // Words, a number, closing words.
  lemma CountText(v: Text, front: Text, n: nat, closing: Text)
    requires v == front + (Encode(Decimal(n)) + closing) && EndsWord(front)
    ensures |closing| <= |v| && v[|v| - |closing|..] == closing && SaysBefore(v, |v| - |closing|, n)
  {
    var d := Encode(Decimal(n));
    DecimalReads(n);
    OneOver(front, d, closing);
    NumberStandsBefore(front, d, closing, n);
  }

  lemma OneOver(a: Text, b: Text, c: Text)
    ensures a + (b + c) == a + b + c
  {
  }

  lemma Regroup(a: Text, b: Text, c: Text, d: Text, rest: Text)
    ensures a + b + c + d + rest == a + (b + (c + (d + rest)))
  {
  }

  lemma RegroupThree(front: Text, a: Text, b: Text, c: Text)
    ensures front + (a + b + c) == (front + a) + (b + c)
  {
  }

  lemma StartsWordConcat(a: Text, b: Text)
    requires StartsWord(a)
    ensures StartsWord(a + b)
  {
  }

  lemma EndsWordConcat(a: Text, b: Text)
    requires EndsWord(b)
    ensures EndsWord(a + b)
  {
  }

  lemma DuplicateIs(e: Event, index: nat, ref: nat, seen: nat, env: Env)
    requires e.Exchange?
    ensures
      var w := env.wording;
      RenderResultView(e, index, DuplicateRef(ref, seen), env) ==
      w.duplicate + EventId(ref) + w.sameResult + Encode(e.name) + (w.seen + Encode(Decimal(seen)) + w.times)
  {
    JoinFour(env.wording.duplicate, EventId(ref), env.wording.sameResult, Encode(e.name));
    JoinThree(env.wording.seen, Encode(Decimal(seen)), env.wording.times);
  }

  // A duplicate names, after its opening words, the event it refers to, and before its closing words how
  // often the content has been seen.
  lemma DuplicateSays(e: Event, index: nat, ref: nat, seen: nat, env: Env)
    requires e.Exchange? && Readable(env.wording)
    ensures
      var v, w := RenderResultView(e, index, DuplicateRef(ref, seen), env), env.wording;
      && w.duplicate + [0x65] <= v && Says(v, |w.duplicate| + 1, ref)
      && |w.times| <= |v| && v[|v| - |w.times|..] == w.times && SaysBefore(v, |v| - |w.times|, seen)
  {
    var w, id, name, s := env.wording, EventId(ref), Encode(e.name), Encode(Decimal(seen));
    DuplicateIs(e, index, ref, seen, env);
    NamedFirst(w.duplicate, id, ref, w.sameResult, name, w.seen + s + w.times);
    CountedLast(w.duplicate + id + w.sameResult + name, w.seen, s, seen, w.times);
  }

  lemma NamedFirst(opening: Text, id: Text, n: nat, words: Text, more: Text, rest: Text)
    requires id == EventId(n) && StartsWord(words)
    ensures
      var v := opening + id + words + more + rest;
      opening + [0x65] <= v && Says(v, |opening| + 1, n)
  {
    Regroup(opening, id, words, more, rest);
    StartsWordConcat(words, more + rest);
    ReferenceText(opening + id + words + more + rest, opening, id, n, words + (more + rest));
  }

  lemma CountedLast(front: Text, words: Text, s: Text, n: nat, closing: Text)
    requires s == Encode(Decimal(n)) && EndsWord(words)
    ensures
      var v := front + (words + s + closing);
      |closing| <= |v| && v[|v| - |closing|..] == closing && SaysBefore(v, |v| - |closing|, n)
  {
    RegroupThree(front, words, s, closing);
    EndsWordConcat(front, words);
    CountText(front + (words + s + closing), front + words, n, closing);
  }

  lemma NewVersionText(w: Wording, id: Text, ref: nat, body: Text)
    requires id == EventId(ref) && Readable(w)
    ensures
      var v := w.newVersion + id + w.oldVersion + body;
      && w.newVersion + [0x65] <= v && Says(v, |w.newVersion| + 1, ref)
      && |body| <= |v| && v[|v| - |body|..] == body
  {
    var v := w.newVersion + id + w.oldVersion + body;
    Regroup(w.newVersion, id, w.oldVersion, body, []);
    assert v + [] == v && body + [] == body;
    StartsWordConcat(w.oldVersion, body);
    ReferenceText(v, w.newVersion, id, ref, w.oldVersion + body);
  }

  function Body(e: Event, index: nat, env: Env): Text
    requires e.Exchange?
  {
    if |e.content| > env.longResultBytes then RenderResultView(e, index, Artifact, env)
    else RenderResultView(e, index, Full, env)
  }

  lemma NewVersionIs(e: Event, index: nat, ref: nat, env: Env)
    requires e.Exchange?
    ensures
      var w := env.wording;
      RenderResultView(e, index, NewVersion(ref), env) ==
      w.newVersion + EventId(ref) + w.oldVersion + Body(e, index, env)
  {
    JoinFour(env.wording.newVersion, EventId(ref), env.wording.oldVersion, Body(e, index, env));
  }

  // A new version names the event it replaces, and goes on with its content, word for word, or with its
  // preview when that is long.
  lemma NewVersionSays(e: Event, index: nat, ref: nat, env: Env)
    requires e.Exchange? && Readable(env.wording)
    ensures
      var v, w, body := RenderResultView(e, index, NewVersion(ref), env), env.wording, Body(e, index, env);
      && w.newVersion + [0x65] <= v && Says(v, |w.newVersion| + 1, ref)
      && |body| <= |v| && v[|v| - |body|..] == body
    ensures |e.content| <= env.longResultBytes ==> Body(e, index, env) == e.content
  {
    NewVersionIs(e, index, ref, env);
    NewVersionText(env.wording, EventId(ref), ref, Body(e, index, env));
  }

  // ---- previews -----------------------------------------------------------------------------

  // The longest beginning and the longest end of a text that have at most so many bytes and keep its code
  // points whole.
  ghost predicate LongestHead(content: Text, head: Text, bytes: nat) {
    && head <= content && |head| <= bytes && (head == [] || Aligned(content, |head|))
    && forall k | |head| < k <= |content| && k <= bytes :: !Aligned(content, k)
  }

  ghost predicate LongestTail(content: Text, tail: Text, bytes: nat) {
    && |tail| <= |content| && tail == content[|content| - |tail|..] && |tail| <= bytes
    && Aligned(content, |content| - |tail|)
    && forall start | 0 <= start < |content| - |tail| && |content| - start <= bytes :: !Aligned(content, start)
  }

  lemma {:induction false} SuffixBoundaryIsFirst(s: Text, offset: nat, k: nat)
    requires offset <= k < SuffixBoundary(s, offset)
    ensures !Aligned(s, k)
    decreases k - offset
  {
    if offset < k {
      SuffixBoundaryIsFirst(s, offset + 1, k);
    }
  }

  lemma {:induction false} SuffixBoundaryLater(s: Text, offset: nat)
    requires offset <= |s|
    ensures SuffixBoundary(s, offset) >= offset
    decreases |s| - offset
  {
    if offset < |s| && Continuation(s[offset]) {
      SuffixBoundaryLater(s, offset + 1);
    }
  }

  lemma PreviewsAreLongest(content: Text, bytes: nat)
    ensures LongestHead(content, Head(content, bytes), bytes) && LongestTail(content, Tail(content, bytes), bytes)
  {
    var from := if |content| > bytes then |content| - bytes else 0;
    var start := SuffixBoundary(content, from);
    SuffixBoundaryLater(content, from);
    assert |Tail(content, bytes)| == |content| - start;
    forall k | 0 <= k < start && |content| - k <= bytes ensures !Aligned(content, k) {
      SuffixBoundaryIsFirst(content, from, k);
    }
  }

  lemma SizedNext(front: Text, words: Text, s: Text, size: nat, next: Text, more: Text, back: Text)
    requires s == Encode(Decimal(size)) && StartsWord(next)
    ensures SizeAt(front + (words + s + next + more + back), |front| + |words|, words, size)
  {
    Regroup(words, s, next, more, back);
    StartsWordConcat(next, more + back);
    SizeText(front + (words + s + next + more + back), front, words, size, next + (more + back));
  }

  ghost predicate ShowsEnds(v: Text, a: Text, w: Wording, head: Text, tail: Text, b: Text) {
    v == a + (w.head + (head + (w.tail + tail + b)))
  }

  lemma EndsLast(front: Text, w: Wording, s: Text, head: Text, tail: Text)
    ensures ShowsEnds(front + (w.size + s + w.head + head + (w.tail + tail + w.archived)),
                      front + (w.size + s), w, head, tail, w.archived)
  {
    var back := w.tail + tail + w.archived;
    Regroup(w.size, s, w.head, head, back);
    OneOver(w.size, s, w.head + (head + back));
    OneOver(front, w.size + s, w.head + (head + back));
  }

  lemma SizeText(v: Text, front: Text, words: Text, size: nat, back: Text)
    requires v == front + (words + (Encode(Decimal(size)) + back)) && StartsWord(back)
    ensures SizeAt(v, |front| + |words|, words, size)
  {
    var d := Encode(Decimal(size));
    DecimalReads(size);
    OneOver(words, d, back);
    OneOver(front, words + d, back);
    OneOver(front, words, d);
    NumberStands(front + words, d, back, size);
    assert v[|front|..|front| + |words|] == words;
  }

  // The number after these words.
  ghost predicate SizeAt(v: Text, k: nat, words: Text, size: nat) {
    |words| <= k <= |v| && v[k - |words|..k] == words && Says(v, k, size)
  }

  // An artifact names itself, tells the size of its content, and shows both ends of it.
  lemma ArtifactSays(e: Event, index: nat, env: Env)
    requires e.Exchange? && Readable(env.wording)
    ensures
      var v, w := RenderResultView(e, index, Artifact, env), env.wording;
      var head, tail := Head(e.content, env.previewBytes), Tail(e.content, env.previewBytes);
      && w.artifact + [0x65] <= v && Says(v, |w.artifact| + 1, index)
      && (exists k: nat :: SizeAt(v, k, w.size, |e.content|))
      && (exists a: Text, b: Text :: ShowsEnds(v, a, w, head, tail, b))
      && LongestHead(e.content, head, env.previewBytes) && LongestTail(e.content, tail, env.previewBytes)
  {
    var w := env.wording;
    var head, tail := Head(e.content, env.previewBytes), Tail(e.content, env.previewBytes);
    var sha, s := env.fingerprint(e.content), Encode(Decimal(|e.content|));
    PreviewsAreLongest(e.content, env.previewBytes);
    JoinFour(w.artifact, EventId(index), w.sha, sha);
    JoinFour(w.size, s, w.head, head);
    JoinThree(w.tail, tail, w.archived);
    var front, middle, back :=
      w.artifact + EventId(index) + w.sha + sha, w.size + s + w.head + head, w.tail + tail + w.archived;
    OneOver(front, middle, back);
    NamedFirst(w.artifact, EventId(index), index, w.sha, sha, middle + back);
    SizedNext(front, w.size, s, |e.content|, w.head, head, back);
    EndsLast(front, w, s, head, tail);
  }
}
