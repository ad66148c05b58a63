// The strict decoder of src/agent/model_image_store.cpp, against section 4 of RFC 4648. Joining disjoint
// bits is written as addition, taking bits out as division and remainder.

module Base64 {
  import opened Collections

  type Byte = x: int | 0 <= x < 256
  type Sextet = x: int | 0 <= x < 64

  datatype Flaw = BadLength | TooLarge | BadPadding | DataAfterPadding | BadCharacter(c: char)
  datatype Result = Ok(bytes: seq<Byte>) | Err(flaw: Flaw)

  // ---- the alphabet -------------------------------------------------------------------------

  function ValueOf(c: char): (v: int)
    ensures -1 <= v < 64
    ensures c == '=' ==> v == -1
    ensures v >= 0 ==> Letter(v) == c
  {
    if 'A' <= c <= 'Z' then c as int - 'A' as int
    else if 'a' <= c <= 'z' then c as int - 'a' as int + 26
    else if '0' <= c <= '9' then c as int - '0' as int + 52
    else if c == '+' then 62
    else if c == '/' then 63
    else -1
  }

  function Letter(v: Sextet): (c: char) {
    if v < 26 then (v + 'A' as int) as char
    else if v < 52 then (v - 26 + 'a' as int) as char
    else if v < 62 then (v - 52 + '0' as int) as char
    else if v == 62 then '+'
    else '/'
  }

  function Bits(c: char): Sextet {
    var v := ValueOf(c);
    if v < 0 then 0 else v
  }

  lemma LetterHasValue(v: Sextet)
    ensures ValueOf(Letter(v)) == v && Bits(Letter(v)) == v && Letter(v) != '='
  {
  }

  // ---- texts and the bytes they stand for ---------------------------------------------------

  // Four characters of the alphabet; at the end of the text the last one or two may be pad characters.
  ghost predicate QuadOk(a: char, b: char, c: char, d: char, last: bool) {
    && ValueOf(a) >= 0 && ValueOf(b) >= 0
    && (|| (ValueOf(c) >= 0 && ValueOf(d) >= 0)
        || (last && d == '=' && (ValueOf(c) >= 0 || c == '=')))
  }

  ghost predicate GroupOk(text: string, g: nat)
    requires 4 * g + 4 <= |text|
  {
    QuadOk(text[4 * g], text[4 * g + 1], text[4 * g + 2], text[4 * g + 3], 4 * g + 4 == |text|)
  }

  ghost predicate WellFormed(text: string) {
    |text| % 4 == 0 && forall g | 0 <= g < |text| / 4 :: GroupOk(text, g)
  }

  function QuadPads(c: char, d: char): (n: nat)
    ensures n <= 2
  {
    (if c == '=' then 1 else 0) + (if d == '=' then 1 else 0)
  }

  function Pads(text: string, g: nat): (n: nat)
    requires 4 * g + 4 <= |text|
    ensures n <= 2
  {
    QuadPads(text[4 * g + 2], text[4 * g + 3])
  }

  function DecodedLength(text: string): (n: nat) {
    if |text| < 4 then 0 else |text| / 4 * 3 - Pads(text, |text| / 4 - 1)
  }

  // Four values of six bits are three bytes.
  function Pack(v0: Sextet, v1: Sextet, v2: Sextet, v3: Sextet): (Byte, Byte, Byte) {
    (v0 * 4 + v1 / 16, v1 % 16 * 16 + v2 / 4, v2 % 4 * 64 + v3)
  }

  // The bytes that are left of three when the last ones are padding.
  function Unpadded(b: (Byte, Byte, Byte), padding: nat): (bytes: seq<Byte>)
    requires padding <= 2
    ensures |bytes| == 3 - padding
  {
    if padding == 0 then [b.0, b.1, b.2] else if padding == 1 then [b.0, b.1] else [b.0]
  }

  function QuadBytes(a: char, b: char, c: char, d: char): (bytes: seq<Byte>)
    ensures |bytes| == 3 - QuadPads(c, d)
  {
    Unpadded(Pack(Bits(a), Bits(b), Bits(c), Bits(d)), QuadPads(c, d))
  }

  function GroupBytes(text: string, g: nat): (bytes: seq<Byte>)
    requires 4 * g + 4 <= |text|
    ensures |bytes| == 3 - Pads(text, g)
  {
    QuadBytes(text[4 * g], text[4 * g + 1], text[4 * g + 2], text[4 * g + 3])
  }

  function Pieces(text: string): (pieces: seq<seq<Byte>>)
    ensures |pieces| == |text| / 4
  {
    seq(|text| / 4, g requires 0 <= g < |text| / 4 => GroupBytes(text, g))
  }

  // The bytes of all groups.
  function Decoded(text: string): seq<Byte> {
    Flat(Pieces(text), |text| / 4)
  }

  // Every piece but the last has three elements.
  ghost predicate Threes<T>(pieces: seq<seq<T>>) {
    forall i | 0 <= i < |pieces| - 1 :: |pieces[i]| == 3
  }

  lemma {:induction false} ThreesLength<T>(pieces: seq<seq<T>>, n: nat)
    requires Threes(pieces) && n <= |pieces|
    ensures |Flat(pieces, n)| == if 0 < n == |pieces| then 3 * n - 3 + |pieces[n - 1]| else 3 * n
  {
    if n > 0 {
      ThreesLength(pieces, n - 1);
    }
  }

  lemma {:induction false} ThreesAt<T>(pieces: seq<seq<T>>, n: nat, g: nat, k: nat)
    requires Threes(pieces) && g < n <= |pieces| && k < |pieces[g]|
    ensures 3 * g + k < |Flat(pieces, n)| && Flat(pieces, n)[3 * g + k] == pieces[g][k]
  {
    ThreesLength(pieces, n - 1);
    if g < n - 1 {
      ThreesAt(pieces, n - 1, g, k);
    }
  }

  lemma {:induction false} FoursLength<T>(pieces: seq<seq<T>>, n: nat)
    requires n <= |pieces| && forall i | 0 <= i < |pieces| :: |pieces[i]| == 4
    ensures |Flat(pieces, n)| == 4 * n
  {
    if n > 0 {
      FoursLength(pieces, n - 1);
    }
  }

  lemma {:induction false} FoursAt<T>(pieces: seq<seq<T>>, n: nat, g: nat)
    requires g < n <= |pieces| && forall i | 0 <= i < |pieces| :: |pieces[i]| == 4
    ensures 4 * g + 4 <= |Flat(pieces, n)| && Flat(pieces, n)[4 * g..4 * g + 4] == pieces[g]
  {
    FoursLength(pieces, n - 1);
    var before, last := Flat(pieces, n - 1), pieces[n - 1];
    if g < n - 1 {
      FoursAt(pieces, n - 1, g);
      assert (before + last)[4 * g..4 * g + 4] == before[4 * g..4 * g + 4];
    } else {
      assert (before + last)[4 * g..4 * g + 4] == last;
    }
  }

  lemma PiecesAreThrees(text: string)
    requires WellFormed(text)
    ensures Threes(Pieces(text)) && |Decoded(text)| == DecodedLength(text)
  {
    var pieces := Pieces(text);
    forall i | 0 <= i < |pieces| - 1 ensures |pieces[i]| == 3 {
      assert GroupOk(text, i);
    }
    ThreesLength(pieces, |pieces|);
  }

  // ---- the encoding -------------------------------------------------------------------------

  function Unpack(x: Byte, y: Byte, z: Byte): (Sextet, Sextet, Sextet, Sextet) {
    (x / 4, x % 4 * 16 + y / 16, y % 16 * 4 + z / 64, z % 64)
  }

  // The four characters for one, two or three bytes.
  function Quad(bytes: seq<Byte>): (text: string)
    requires 1 <= |bytes| <= 3
    ensures |text| == 4
  {
    if |bytes| == 3 then
      var v := Unpack(bytes[0], bytes[1], bytes[2]);
      [Letter(v.0), Letter(v.1), Letter(v.2), Letter(v.3)]
    else if |bytes| == 2 then
      var v := Unpack(bytes[0], bytes[1], 0);
      [Letter(v.0), Letter(v.1), Letter(v.2), '=']
    else
      var v := Unpack(bytes[0], 0, 0);
      [Letter(v.0), Letter(v.1), '=', '=']
  }

  function Groups(bytes: seq<Byte>): (n: nat)
    ensures 3 * n < |bytes| + 3 && |bytes| <= 3 * n
  {
    (|bytes| + 2) / 3
  }

  // Where group `g` begins: at the end for one past the last.
  function Start(bytes: seq<Byte>, g: nat): (i: nat)
    ensures i <= |bytes|
  {
    if 3 * g <= |bytes| then 3 * g else |bytes|
  }

  // The bytes of group `g`.
  function Chunk(bytes: seq<Byte>, g: nat): (chunk: seq<Byte>)
    requires g < Groups(bytes)
    ensures 1 <= |chunk| <= 3
    ensures |chunk| < 3 ==> g + 1 == Groups(bytes)
  {
    bytes[3 * g..Start(bytes, g + 1)]
  }

  function Quads(bytes: seq<Byte>): (quads: seq<string>)
    ensures |quads| == Groups(bytes) && forall g | 0 <= g < |quads| :: |quads[g]| == 4
  {
    seq(Groups(bytes), g requires 0 <= g < Groups(bytes) => Quad(Chunk(bytes, g)))
  }

  function Encode(bytes: seq<Byte>): (text: string)
    ensures |text| == 4 * Groups(bytes)
  {
    FoursLength(Quads(bytes), Groups(bytes));
    Flat(Quads(bytes), Groups(bytes))
  }

  // ---- the decoder --------------------------------------------------------------------------

  // What the decoder finds wrong at character `k` of group `g`, if it has come that far.
  function FlawAt(text: string, g: nat, k: nat): (r: Result)
    requires 4 * g + 4 <= |text| && k < 4
    ensures r.Err? ==> r.flaw != BadLength && r.flaw != TooLarge
  {
    var c := text[4 * g + k];
    if c == '=' then if 4 * g + 4 != |text| || k < 2 then Err(BadPadding) else Ok([])
    else if k == 3 && text[4 * g + 2] == '=' then Err(DataAfterPadding)
    else if ValueOf(c) < 0 then Err(BadCharacter(c))
    else Ok([])
  }

  // The first flaw among the first `k` characters of group `g`, and among the first `n` groups.
  function GroupFlaw(text: string, g: nat, k: nat): (r: Result)
    requires 4 * g + 4 <= |text| && k <= 4
    ensures r.Err? ==> r.flaw != BadLength && r.flaw != TooLarge
  {
    if k == 0 then Ok([])
    else if GroupFlaw(text, g, k - 1).Err? then GroupFlaw(text, g, k - 1)
    else FlawAt(text, g, k - 1)
  }

  function Verdicts(text: string): (verdicts: seq<Result>)
    ensures |verdicts| == |text| / 4
    ensures forall g | 0 <= g < |verdicts| && verdicts[g].Err? ::
        verdicts[g].flaw != BadLength && verdicts[g].flaw != TooLarge
  {
    seq(|text| / 4, g requires 0 <= g < |text| / 4 => GroupFlaw(text, g, 4))
  }

  function FirstOf(verdicts: seq<Result>, n: nat): (r: Result)
    requires n <= |verdicts|
    ensures r.Err? ==> r in verdicts
  {
    if n == 0 then Ok([]) else if FirstOf(verdicts, n - 1).Err? then FirstOf(verdicts, n - 1) else verdicts[n - 1]
  }

  function FirstFlaw(text: string): (r: Result)
    ensures r.Err? ==> r.flaw != BadLength && r.flaw != TooLarge
  {
    FirstOf(Verdicts(text), |text| / 4)
  }

  lemma GroupFlawMeans(text: string, g: nat)
    requires 4 * g + 4 <= |text|
    ensures GroupFlaw(text, g, 4).Ok? <==> GroupOk(text, g)
  {
    assert GroupFlaw(text, g, 1).Ok? <==> FlawAt(text, g, 0).Ok?;
    assert GroupFlaw(text, g, 2).Ok? <==> GroupFlaw(text, g, 1).Ok? && FlawAt(text, g, 1).Ok?;
    assert GroupFlaw(text, g, 4).Ok? <==> GroupFlaw(text, g, 2).Ok? && FlawAt(text, g, 2).Ok? && FlawAt(text, g, 3).Ok?;
  }

  lemma {:induction false} FirstOfMeans(verdicts: seq<Result>, n: nat)
    requires n <= |verdicts|
    ensures FirstOf(verdicts, n).Ok? <==> forall g | 0 <= g < n :: verdicts[g].Ok?
  {
    if n > 0 {
      FirstOfMeans(verdicts, n - 1);
    }
  }

  lemma {:induction false} FirstOfStays(verdicts: seq<Result>, n: nat, m: nat)
    requires n <= m <= |verdicts| && FirstOf(verdicts, n).Err?
    ensures FirstOf(verdicts, m) == FirstOf(verdicts, n)
  {
    if n < m {
      FirstOfStays(verdicts, n, m - 1);
    }
  }

  lemma FirstFlawMeans(text: string)
    requires |text| % 4 == 0
    ensures FirstFlaw(text).Ok? <==> WellFormed(text)
  {
    FirstOfMeans(Verdicts(text), |text| / 4);
    forall g | 0 <= g < |text| / 4 ensures Verdicts(text)[g].Ok? <==> GroupOk(text, g) {
      GroupFlawMeans(text, g);
    }
  }

  lemma {:induction false} GroupFlawStays(text: string, g: nat, k: nat, m: nat)
    requires 4 * g + 4 <= |text| && k <= m <= 4 && GroupFlaw(text, g, k).Err?
    ensures GroupFlaw(text, g, m) == GroupFlaw(text, g, k)
  {
    if k < m {
      GroupFlawStays(text, g, k, m - 1);
    }
  }

  lemma TripleDigits(x: Byte, y: Byte, z: Byte, triple: int)
    requires triple == x as int * 65536 + y as int * 256 + z as int
    ensures triple / 65536 % 256 == x && triple / 256 % 256 == y && triple % 256 == z
  {
    assert triple / 256 == x as int * 256 + y as int;
    assert triple / 65536 == x as int;
  }

  lemma TripleBytes(v0: Sextet, v1: Sextet, v2: Sextet, v3: Sextet)
    ensures
      var triple: int := v0 as int * 262144 + v1 as int * 4096 + v2 as int * 64 + v3 as int;
      (triple / 65536 % 256, triple / 256 % 256, triple % 256) == Pack(v0, v1, v2, v3)
  {
    var triple: int := v0 as int * 262144 + v1 as int * 4096 + v2 as int * 64 + v3 as int;
    TripleDigits(v0 as int * 4 + v1 / 16, v1 % 16 * 16 + v2 / 4, v2 % 4 * 64 + v3, triple);
  }

  // The inner loop: the four values of a group, and how many of its characters are padding.
  method ReadGroup(text: string, g: nat) returns (v: seq<Sextet>, padding: nat, r: Result)
    requires 4 * g + 4 <= |text|
    ensures r == GroupFlaw(text, g, 4)
    ensures r.Ok? ==> |v| == 4 && (forall k | 0 <= k < 4 :: v[k] == Bits(text[4 * g + k])) && padding == Pads(text, g)
  {
    v, padding := [], 0;
    for k := 0 to 4
      invariant GroupFlaw(text, g, k) == Ok([])
      invariant |v| == k && forall m | 0 <= m < k :: v[m] == Bits(text[4 * g + m])
      invariant padding == (if k > 2 && text[4 * g + 2] == '=' then 1 else 0)
        + (if k > 3 && text[4 * g + 3] == '=' then 1 else 0)
    {
      var c := text[4 * g + k];
      if FlawAt(text, g, k).Err? {
        GroupFlawStays(text, g, k + 1, 4);
      }
      if c == '=' {
        if 4 * g + 4 != |text| || k < 2 {
          r := Err(BadPadding);
          return;
        }
        padding := padding + 1;
        v := v + [0];
        continue;
      }
      if padding > 0 {
        r := Err(DataAfterPadding);
        return;
      }
      if ValueOf(c) < 0 {
        r := Err(BadCharacter(c));
        return;
      }
      v := v + [ValueOf(c)];
    }
    r := Ok([]);
  }

  // The bytes of a group, by way of one 24-bit number.
  method JoinGroup(v0: Sextet, v1: Sextet, v2: Sextet, v3: Sextet, padding: nat) returns (out: seq<Byte>)
    requires padding <= 2
    ensures out == Unpadded(Pack(v0, v1, v2, v3), padding)
  {
    TripleBytes(v0, v1, v2, v3);
    var triple: int := v0 as int * 262144 + v1 as int * 4096 + v2 as int * 64 + v3 as int;
    out := [triple / 65536 % 256];
    if padding < 2 {
      out := out + [triple / 256 % 256];
    }
    if padding < 1 {
      out := out + [triple % 256];
    }
  }

  // One turn of the outer loop.
  method DecodeGroup(text: string, g: nat) returns (r: Result)
    requires 4 * g + 4 <= |text| && FirstOf(Verdicts(text), g).Ok?
    ensures r.Err? ==> FirstFlaw(text) == r
    ensures r.Ok? ==> FirstOf(Verdicts(text), g + 1).Ok?
    ensures r.Ok? ==> Flat(Pieces(text), g + 1) == Flat(Pieces(text), g) + r.bytes
  {
    ghost var verdicts, pieces := Verdicts(text), Pieces(text);
    var v, padding, flaw := ReadGroup(text, g);
    assert flaw == verdicts[g] && FirstOf(verdicts, g + 1) == verdicts[g];
    if flaw.Err? {
      FirstOfStays(verdicts, g + 1, |verdicts|);
      return flaw;
    }
    var bytes := JoinGroup(v[0], v[1], v[2], v[3], padding);
    assert bytes == pieces[g];
    return Ok(bytes);
  }

  // The outer loop.
  method DecodeGroups(text: string) returns (r: Result)
    requires |text| % 4 == 0
    ensures r == if FirstFlaw(text).Err? then FirstFlaw(text) else Ok(Decoded(text))
  {
    var out: seq<Byte> := [];
    var g := 0;
    while 4 * g < |text|
      invariant 0 <= g <= |text| / 4
      invariant FirstOf(Verdicts(text), g).Ok? && out == Flat(Pieces(text), g)
    {
      var group := DecodeGroup(text, g);
      if group.Err? {
        return group;
      }
      out := out + group.bytes;
      g := g + 1;
    }
    assert g == |text| / 4;
    return Ok(out);
  }

  // Texts that are well formed and decode to at most `maxBytes` bytes are accepted, and no others; in
  // particular the early test on the length of the text turns none of them away.
  method DecodeBase64Strict(text: string, maxBytes: nat) returns (r: Result)
    ensures r.Ok? <==> WellFormed(text) && DecodedLength(text) <= maxBytes
    ensures r.Ok? ==> r.bytes == Decoded(text)
    ensures r == Err(BadLength) <==> |text| % 4 != 0
    ensures |text| % 4 == 0 && |text| / 4 * 3 > maxBytes + 2 ==> r == Err(TooLarge)
    ensures |text| % 4 == 0 && |text| / 4 * 3 <= maxBytes + 2 && !WellFormed(text) ==> r == FirstFlaw(text)
    ensures WellFormed(text) && DecodedLength(text) > maxBytes ==> r == Err(TooLarge)
  {
    if |text| % 4 != 0 {
      return Err(BadLength);
    }
    if |text| / 4 * 3 > maxBytes + 2 {
      return Err(TooLarge);
    }
    FirstFlawMeans(text);
    r := DecodeGroups(text);
    if r.Ok? {
      PiecesAreThrees(text);
      if |r.bytes| > maxBytes {
        return Err(TooLarge);
      }
    }
  }

  // ---- round trips --------------------------------------------------------------------------

  lemma PackUnpacked(x: Byte, y: Byte, z: Byte)
    ensures var v := Unpack(x, y, z); Pack(v.0, v.1, v.2, v.3) == (x, y, z)
  {
    var v := Unpack(x, y, z);
    assert v.1 / 16 == x % 4 && v.1 % 16 == y / 16;
    assert v.2 / 4 == y % 16 && v.2 % 4 == z / 64;
  }

  lemma ThreeBytesRoundTrip(x: Byte, y: Byte, z: Byte)
    ensures
      var q := Quad([x, y, z]);
      QuadOk(q[0], q[1], q[2], q[3], false) && QuadBytes(q[0], q[1], q[2], q[3]) == [x, y, z]
  {
    var v := Unpack(x, y, z);
    PackUnpacked(x, y, z);
    LetterHasValue(v.0);
    LetterHasValue(v.1);
    LetterHasValue(v.2);
    LetterHasValue(v.3);
  }

  lemma TwoBytesRoundTrip(x: Byte, y: Byte)
    ensures var q := Quad([x, y]); QuadOk(q[0], q[1], q[2], q[3], true) && QuadBytes(q[0], q[1], q[2], q[3]) == [x, y]
  {
    var v := Unpack(x, y, 0);
    PackUnpacked(x, y, 0);
    LetterHasValue(v.0);
    LetterHasValue(v.1);
    LetterHasValue(v.2);
  }

  lemma OneByteRoundTrip(x: Byte)
    ensures var q := Quad([x]); QuadOk(q[0], q[1], q[2], q[3], true) && QuadBytes(q[0], q[1], q[2], q[3]) == [x]
  {
    var v := Unpack(x, 0, 0);
    PackUnpacked(x, 0, 0);
    LetterHasValue(v.0);
    LetterHasValue(v.1);
  }

  lemma QuadRoundTrip(bytes: seq<Byte>)
    requires 1 <= |bytes| <= 3
    ensures
      var q := Quad(bytes);
      QuadOk(q[0], q[1], q[2], q[3], |bytes| < 3) && QuadBytes(q[0], q[1], q[2], q[3]) == bytes
  {
    if |bytes| == 3 {
      ThreeBytesRoundTrip(bytes[0], bytes[1], bytes[2]);
      assert bytes == [bytes[0], bytes[1], bytes[2]];
    } else if |bytes| == 2 {
      TwoBytesRoundTrip(bytes[0], bytes[1]);
      assert bytes == [bytes[0], bytes[1]];
    } else {
      OneByteRoundTrip(bytes[0]);
      assert bytes == [bytes[0]];
    }
  }

  // One group of an encoding is well formed, and stands for the bytes it was made from.
  lemma EncodedGroup(bytes: seq<Byte>, g: nat)
    requires g < Groups(bytes)
    ensures GroupOk(Encode(bytes), g) && GroupBytes(Encode(bytes), g) == Chunk(bytes, g)
  {
    var text, chunk := Encode(bytes), Chunk(bytes, g);
    FoursAt(Quads(bytes), Groups(bytes), g);
    QuadRoundTrip(chunk);
    var quad := text[4 * g..4 * g + 4];
    assert text[4 * g] == quad[0] && text[4 * g + 1] == quad[1];
    assert text[4 * g + 2] == quad[2] && text[4 * g + 3] == quad[3];
  }

  lemma DecodedGroups(text: string)
    requires WellFormed(text)
    ensures |Decoded(text)| == DecodedLength(text) && Groups(Decoded(text)) == |text| / 4
  {
    PiecesAreThrees(text);
  }

  // Group by group, the decoded bytes are those the text stands for.
  lemma DecodedChunk(text: string, g: nat)
    requires WellFormed(text) && g < |text| / 4
    ensures g < Groups(Decoded(text)) && Chunk(Decoded(text), g) == GroupBytes(text, g)
  {
    var bytes, group := Decoded(text), GroupBytes(text, g);
    DecodedGroups(text);
    PiecesAreThrees(text);
    assert GroupOk(text, g);
    assert |Chunk(bytes, g)| == |group|;
    forall k | 0 <= k < |group| ensures group[k] == bytes[3 * g + k] {
      ThreesAt(Pieces(text), |text| / 4, g, k);
    }
  }

  lemma ChunksDecide(x: seq<Byte>, y: seq<Byte>)
    requires Groups(x) == Groups(y) && forall g | 0 <= g < Groups(x) :: Chunk(x, g) == Chunk(y, g)
    ensures x == y
  {
    var n := Groups(x);
    if n > 0 {
      assert |Chunk(x, n - 1)| == |Chunk(y, n - 1)|;
    }
    forall i | 0 <= i < |x| ensures x[i] == y[i] {
      var g, k := i / 3, i % 3;
      assert Chunk(x, g)[k] == Chunk(y, g)[k];
    }
  }

  // Decoding an encoding gives the bytes back, and the limit counts exactly those bytes.
  lemma DecodeEncode(bytes: seq<Byte>)
    ensures WellFormed(Encode(bytes)) && Decoded(Encode(bytes)) == bytes && DecodedLength(Encode(bytes)) == |bytes|
  {
    var text := Encode(bytes);
    assert WellFormed(text) by {
      forall g | 0 <= g < Groups(bytes) ensures GroupOk(text, g) {
        EncodedGroup(bytes, g);
      }
    }
    DecodedGroups(text);
    forall g | 0 <= g < Groups(bytes) ensures Chunk(Decoded(text), g) == Chunk(bytes, g) {
      EncodedGroup(bytes, g);
      DecodedChunk(text, g);
    }
    ChunksDecide(Decoded(text), bytes);
  }

  // The bits that a padded group does not use (section 3.5 of RFC 4648).
  ghost predicate QuadBitsZero(b: char, c: char, d: char) {
    && (QuadPads(c, d) == 1 ==> Bits(c) % 4 == 0)
    && (QuadPads(c, d) == 2 ==> Bits(b) % 16 == 0)
  }

  ghost predicate PadBitsZero(text: string) {
    |text| >= 4 ==> QuadBitsZero(text[|text| - 3], text[|text| - 2], text[|text| - 1])
  }

  // What unpacking gives back, when one or two bytes are missing too.
  lemma UnpackPacked(v0: Sextet, v1: Sextet, v2: Sextet, v3: Sextet)
    ensures
      var b := Pack(v0, v1, v2, v3);
      && Unpack(b.0, b.1, b.2) == (v0, v1, v2, v3)
      && Unpack(b.0, b.1, 0) == (v0, v1, v2 / 4 * 4, 0)
      && Unpack(b.0, 0, 0) == (v0, v1 / 16 * 16, 0, 0)
  {
    var b := Pack(v0, v1, v2, v3);
    assert b.0 / 4 == v0 && b.0 % 4 == v1 / 16;
    assert b.1 / 16 == v1 % 16 && b.1 % 16 == v2 / 4;
    assert b.2 / 64 == v2 % 4 && b.2 % 64 == v3;
  }

  lemma LetterOfBits(c: char)
    requires ValueOf(c) >= 0
    ensures Letter(Bits(c)) == c && c != '='
  {
  }

  lemma LetterDecides(c: char, v: Sextet)
    requires ValueOf(c) >= 0
    ensures Letter(v) == c <==> v == Bits(c)
  {
    LetterHasValue(v);
  }

  lemma ThreeBytesBack(a: char, b: char, c: char, d: char)
    requires QuadOk(a, b, c, d, true) && d != '='
    ensures Quad(QuadBytes(a, b, c, d)) == [a, b, c, d]
  {
    UnpackPacked(Bits(a), Bits(b), Bits(c), Bits(d));
    LetterOfBits(a);
    LetterOfBits(b);
    LetterOfBits(c);
    LetterOfBits(d);
  }

  lemma TwoBytesBack(a: char, b: char, c: char, d: char)
    requires QuadOk(a, b, c, d, true) && d == '=' && c != '='
    ensures Quad(QuadBytes(a, b, c, d)) == [a, b, c, d] <==> Bits(c) % 4 == 0
  {
    UnpackPacked(Bits(a), Bits(b), Bits(c), Bits(d));
    LetterOfBits(a);
    LetterOfBits(b);
    LetterDecides(c, Bits(c) / 4 * 4);
    var q := Quad(QuadBytes(a, b, c, d));
    assert q == [a, b, Letter(Bits(c) / 4 * 4), d];
    assert q[2] == c <==> q == [a, b, c, d];
  }

  lemma OneByteBack(a: char, b: char, c: char, d: char)
    requires QuadOk(a, b, c, d, true) && d == '=' && c == '='
    ensures Quad(QuadBytes(a, b, c, d)) == [a, b, c, d] <==> Bits(b) % 16 == 0
  {
    UnpackPacked(Bits(a), Bits(b), Bits(c), Bits(d));
    LetterOfBits(a);
    LetterDecides(b, Bits(b) / 16 * 16);
    var q := Quad(QuadBytes(a, b, c, d));
    assert q == [a, Letter(Bits(b) / 16 * 16), c, d];
    assert q[1] == b <==> q == [a, b, c, d];
  }

  lemma QuadBack(a: char, b: char, c: char, d: char)
    requires QuadOk(a, b, c, d, true)
    ensures Quad(QuadBytes(a, b, c, d)) == [a, b, c, d] <==> QuadBitsZero(b, c, d)
  {
    if d != '=' {
      ThreeBytesBack(a, b, c, d);
    } else if c != '=' {
      TwoBytesBack(a, b, c, d);
    } else {
      OneByteBack(a, b, c, d);
    }
  }

  lemma QuadsDecide(s: string, t: string)
    requires |s| == |t| && |s| % 4 == 0
    ensures s == t <==> forall g | 0 <= g < |s| / 4 :: s[4 * g..4 * g + 4] == t[4 * g..4 * g + 4]
  {
    if forall g | 0 <= g < |s| / 4 :: s[4 * g..4 * g + 4] == t[4 * g..4 * g + 4] {
      forall i | 0 <= i < |s| ensures s[i] == t[i] {
        var g, k := i / 4, i % 4;
        assert s[4 * g..4 * g + 4][k] == t[4 * g..4 * g + 4][k];
      }
    }
  }

  ghost predicate GroupBitsZero(text: string, g: nat)
    requires 4 * g + 4 <= |text|
  {
    QuadBitsZero(text[4 * g + 1], text[4 * g + 2], text[4 * g + 3])
  }

  lemma QuadOfText(text: string, g: nat)
    requires 4 * g + 4 <= |text| && GroupOk(text, g)
    ensures Quad(GroupBytes(text, g)) == text[4 * g..4 * g + 4] <==> GroupBitsZero(text, g)
  {
    var a, b, c, d := text[4 * g], text[4 * g + 1], text[4 * g + 2], text[4 * g + 3];
    var back := Quad(GroupBytes(text, g));
    assert back == [a, b, c, d] <==> QuadBitsZero(b, c, d) by {
      QuadBack(a, b, c, d);
    }
    assert text[4 * g..4 * g + 4] == [a, b, c, d];
  }

  lemma GroupBack(text: string, g: nat)
    requires WellFormed(text) && g < |text| / 4
    ensures |Encode(Decoded(text))| == |text|
    ensures Encode(Decoded(text))[4 * g..4 * g + 4] == text[4 * g..4 * g + 4] <==> GroupBitsZero(text, g)
  {
    DecodedGroups(text);
    DecodedChunk(text, g);
    FoursAt(Quads(Decoded(text)), |text| / 4, g);
    QuadOfText(text, g);
  }

  lemma FullGroup(text: string, g: nat)
    requires WellFormed(text) && g < |text| / 4 - 1
    ensures GroupBitsZero(text, g)
  {
    assert GroupOk(text, g);
  }

  lemma GroupBackIff(text: string, g: nat)
    requires WellFormed(text) && g < |text| / 4
    ensures |Encode(Decoded(text))| == |text|
    ensures Encode(Decoded(text))[4 * g..4 * g + 4] == text[4 * g..4 * g + 4]
      <==> g < |text| / 4 - 1 || PadBitsZero(text)
  {
    GroupBack(text, g);
    if g < |text| / 4 - 1 {
      FullGroup(text, g);
    } else {
      assert 4 * g + 4 == |text|;
    }
  }

  // Encoding what was decoded gives the same text back exactly when the unused bits are zero: the decoder
  // accepts other texts, too, for the same bytes.
  lemma EncodeDecode(text: string)
    requires WellFormed(text)
    ensures Encode(Decoded(text)) == text <==> PadBitsZero(text)
  {
    DecodedGroups(text);
    var back, n := Encode(Decoded(text)), |text| / 4;
    QuadsDecide(back, text);
    forall g | 0 <= g < n ensures back[4 * g..4 * g + 4] == text[4 * g..4 * g + 4] <==> g < n - 1 || PadBitsZero(text) {
      GroupBackIff(text, g);
    }
    if n > 0 && back == text {
      assert back[4 * (n - 1)..4 * (n - 1) + 4] == text[4 * (n - 1)..4 * (n - 1) + 4];
    }
  }

  lemma OneGroup(text: string)
    requires |text| == 4 && QuadOk(text[0], text[1], text[2], text[3], true)
    ensures WellFormed(text) && Decoded(text) == QuadBytes(text[0], text[1], text[2], text[3])
  {
    assert GroupOk(text, 0);
    assert Flat(Pieces(text), 1) == Flat(Pieces(text), 0) + GroupBytes(text, 0);
  }

  // Of the second character only two bits are used.
  lemma ZeroByte(text: string, v: Sextet)
    requires |text| == 4 && ValueOf(text[0]) == 0 && ValueOf(text[1]) == v && v < 16 && text[2] == text[3] == '='
    ensures WellFormed(text) && Decoded(text) == [0] && (PadBitsZero(text) <==> v == 0)
  {
    OneGroup(text);
    assert Bits(text[0]) == 0 && Bits(text[1]) == v && QuadPads(text[2], text[3]) == 2;
    assert Pack(0, v, 0, 0).0 == 0;
    assert QuadBytes(text[0], text[1], text[2], text[3]) == [0];
    assert v % 16 == v;
  }

  // Two such texts for the one byte 0.
  lemma TwoTextsForOneByte()
    ensures WellFormed("AA==") && WellFormed("AB==") && Decoded("AA==") == Decoded("AB==") == [0]
    ensures !PadBitsZero("AB==") && Encode(Decoded("AB==")) == "AA=="
  {
    ZeroByte("AA==", 0);
    ZeroByte("AB==", 1);
    EncodeDecode("AA==");
  }
}
